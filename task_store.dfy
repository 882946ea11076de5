/** The task table behind the task API (task-api/main.py): the rows in
    insertion order, the read-only queries over them (get by id, list with
    status filter and pagination, stats), and the table object whose create,
    update and delete change it in place. */
module TaskStore {
  import opened Wrappers
  import opened Models

  /** The two ways a request fails: a payload that breaks a field constraint
      (422, with the offending fields) and an id with no row (404). */
  datatype ApiError = NotFound(id: int) | Invalid(fields: set<Field>)

  /** The counts the stats request reports. */
  datatype Stats = Stats(total: nat, pending: nat, inProgress: nat, completed: nat)

  // The table invariant.

  predicate HasId(s: seq<Task>, id: int) {
    exists i :: 0 <= i < |s| && s[i].id == id
  }

  predicate IdsUnique(s: seq<Task>) {
    forall i, j :: 0 <= i < j < |s| ==> s[i].id != s[j].id
  }

  /** Every stored row obeys the field constraints, has a positive id and was
      not updated before it was created; no two rows share an id. */
  predicate TableInvariant(s: seq<Task>) {
    && (forall i :: 0 <= i < |s| ==> WellFormed(s[i]) && s[i].id > 0)
    && IdsUnique(s)
  }

  /** The clock reading `now` is not earlier than any timestamp already stored. */
  predicate ClockNotBehind(s: seq<Task>, now: nat) {
    forall i :: 0 <= i < |s| ==> s[i].updatedAt <= now
  }

  // Get by id (the primary-key lookup).

  /** The position of the first row with the given id. */
  function Find(s: seq<Task>, id: int): (r: Option<nat>)
    ensures r.Some? ==> r.value < |s| && s[r.value].id == id
    ensures r.Some? ==> forall j :: 0 <= j < r.value ==> s[j].id != id
    ensures r.None? <==> !HasId(s, id)
  {
    if s == [] then None
    else if s[0].id == id then Some(0)
    else
      match Find(s[1..], id)
      case None => (assert forall j :: 1 <= j < |s| ==> s[j] == s[1..][j - 1]; None)
      case Some(k) => Some(k + 1)
  }

  /** read_task: the row with the given id, or NotFound naming the id. */
  function Get(s: seq<Task>, id: int): (r: Result<Task, ApiError>)
    ensures r.Success? <==> HasId(s, id)
    ensures r.Success? ==> r.value in s && r.value.id == id
    ensures r.Failure? ==> r.error == NotFound(id)
  {
    match Find(s, id)
    case Some(k) => Success(s[k])
    case None => Failure(NotFound(id))
  }

  /** With unique ids, Get returns exactly the row holding the id. */
  lemma GetFindsRow(s: seq<Task>, i: nat)
    requires IdsUnique(s) && i < |s|
    ensures Find(s, s[i].id) == Some(i)
    ensures Get(s, s[i].id) == Success(s[i])
  {
    var k := Find(s, s[i].id);
    assert k.Some? && k.value <= i;
  }

  // List.

  /** The rows whose status equals `status`, in table order (the WHERE clause). */
  function FilterByStatus(s: seq<Task>, status: string): (r: seq<Task>)
    ensures |r| <= |s|
  {
    if s == [] then []
    else if s[0].base.status == status then [s[0]] + FilterByStatus(s[1..], status)
    else FilterByStatus(s[1..], status)
  }

  /** The filter keeps exactly the rows with the given status: every row it
      returns is a stored row with that status, and every stored row with
      that status is returned. */
  lemma {:induction false} FilterKeepsExactlyMatching(s: seq<Task>, status: string)
    ensures forall k :: 0 <= k < |FilterByStatus(s, status)| ==>
              FilterByStatus(s, status)[k] in s && FilterByStatus(s, status)[k].base.status == status
    ensures forall i :: 0 <= i < |s| && s[i].base.status == status ==> s[i] in FilterByStatus(s, status)
  {
    if s != [] {
      FilterKeepsExactlyMatching(s[1..], status);
      assert forall i :: 1 <= i < |s| ==> s[i] == s[1..][i - 1];
    }
  }

  /** Filtering distributes over concatenation, so it keeps the relative
      order of the rows it keeps. */
  lemma {:induction false} FilterAppend(a: seq<Task>, b: seq<Task>, status: string)
    ensures FilterByStatus(a + b, status) == FilterByStatus(a, status) + FilterByStatus(b, status)
  {
    if a == [] {
      assert a + b == b;
    } else {
      assert (a + b)[1..] == a[1..] + b;
      FilterAppend(a[1..], b, status);
    }
  }

  /** The one-row case of the filter. */
  function Kept(t: Task, status: string): seq<Task> {
    if t.base.status == status then [t] else []
  }

  /** Appending a row appends it to the filtered rows exactly when its status matches. */
  lemma FilterSnoc(s: seq<Task>, t: Task, status: string)
    ensures FilterByStatus(s + [t], status) == FilterByStatus(s, status) + Kept(t, status)
  {
    FilterAppend(s, [t], status);
    assert [t][1..] == [];
  }

  /** `if status_filter:` in the handler: only a present, non-empty filter is applied. */
  predicate FilterActive(statusFilter: Option<string>) {
    statusFilter.Some? && statusFilter.value != ""
  }

  function Filtered(s: seq<Task>, statusFilter: Option<string>): seq<Task> {
    if FilterActive(statusFilter) then FilterByStatus(s, statusFilter.value) else s
  }

  function Min(a: int, b: int): int {
    if a <= b then a else b
  }

  /** list_tasks: the filter first, then OFFSET `skip` and LIMIT `limit`. The
      result is the window of the filtered rows that starts at position
      `skip` and holds at most `limit` of them. */
  function ListTasks(s: seq<Task>, skip: nat, limit: nat, statusFilter: Option<string>): (r: seq<Task>)
    ensures |r| <= limit
    ensures skip >= |Filtered(s, statusFilter)| ==> r == []
    ensures skip < |Filtered(s, statusFilter)| ==> |r| == Min(limit, |Filtered(s, statusFilter)| - skip)
    ensures forall k :: 0 <= k < |r| ==> r[k] == Filtered(s, statusFilter)[skip + k]
    ensures forall t :: t in r ==> t in s
    ensures FilterActive(statusFilter) ==> forall t :: t in r ==> t.base.status == statusFilter.value
  {
    FilterKeepsExactlyMatching(s, statusFilter.GetOr(""));
    var f := Filtered(s, statusFilter);
    var lo := Min(skip, |f|);
    var hi := Min(skip + limit, |f|);
    f[lo..hi]
  }

  /** Listing an empty table yields no rows, whatever the parameters. */
  lemma ListEmptyTable(skip: nat, limit: nat, statusFilter: Option<string>)
    ensures ListTasks([], skip, limit, statusFilter) == []
  {
  }

  /** With the defaults (skip 0, limit 100, no filter) every row of a table of
      at most 100 rows is listed, in insertion order. */
  lemma ListDefaultsReturnsAll(s: seq<Task>)
    requires |s| <= 100
    ensures ListTasks(s, 0, 100, None) == s
  {
  }

  /** Over five rows, skip 2 and limit 2 yield the third and the fourth. */
  lemma ListSkipTwoLimitTwo(s: seq<Task>)
    requires |s| == 5
    ensures ListTasks(s, 2, 2, None) == [s[2], s[3]]
  {
  }

  // Stats.

  /** With every status one of the three values, the three status counts sum
      to the number of rows. */
  lemma {:induction false} StatusCountsSum(s: seq<Task>)
    ensures (forall i :: 0 <= i < |s| ==> ValidStatus(s[i].base.status)) ==>
              |FilterByStatus(s, "pending")| + |FilterByStatus(s, "in_progress")| + |FilterByStatus(s, "completed")| == |s|
  {
    if s != [] {
      assert forall i :: 1 <= i < |s| ==> s[1..][i - 1] == s[i];
      StatusCountsSum(s[1..]);
    }
  }

  /** get_stats: the number of rows and the number with each status. */
  function GetStats(s: seq<Task>): (r: Stats)
    ensures r.total == |s|
    ensures r.pending <= r.total && r.inProgress <= r.total && r.completed <= r.total
    ensures r.pending == |Filtered(s, Some("pending"))|
    ensures r.inProgress == |Filtered(s, Some("in_progress"))|
    ensures r.completed == |Filtered(s, Some("completed"))|
    ensures TableInvariant(s) ==> r.pending + r.inProgress + r.completed == r.total
    ensures s == [] ==> r == Stats(0, 0, 0, 0)
  {
    StatusCountsSum(s);
    Stats(|s|, |FilterByStatus(s, "pending")|, |FilterByStatus(s, "in_progress")|, |FilterByStatus(s, "completed")|)
  }

  // Update: the partial merge.

  /** One item of `task_update.dict(exclude_unset=True)`: a field and its new value. */
  datatype FieldValue = SetTitle(title: string) | SetDescription(description: Option<string>)
                      | SetStatus(status: string) | SetPriority(priority: int)

  function FieldOf(v: FieldValue): Field {
    match v
    case SetTitle(_) => Title
    case SetDescription(_) => Description
    case SetStatus(_) => Status
    case SetPriority(_) => Priority
  }

  /** The payload carries `v` as one of its explicitly set fields. */
  predicate Carries(u: TaskUpdate, v: FieldValue) {
    match v
    case SetTitle(x) => u.title == Some(x)
    case SetDescription(x) => u.description == Some(x)
    case SetStatus(x) => u.status == Some(x)
    case SetPriority(x) => u.priority == Some(x)
  }

  /** The explicitly set fields of an update payload, in declaration order. */
  function UpdateData(u: TaskUpdate): seq<FieldValue> {
    (if u.title.Some? then [SetTitle(u.title.value)] else [])
    + (if u.description.Some? then [SetDescription(u.description.value)] else [])
    + (if u.status.Some? then [SetStatus(u.status.value)] else [])
    + (if u.priority.Some? then [SetPriority(u.priority.value)] else [])
  }

  /** The items are exactly the fields the payload carries, each at most once. */
  lemma UpdateDataIsSetFields(u: TaskUpdate)
    ensures forall v :: v in UpdateData(u) <==> Carries(u, v)
    ensures forall i, j :: 0 <= i < j < |UpdateData(u)| ==> FieldOf(UpdateData(u)[i]) != FieldOf(UpdateData(u)[j])
  {
  }

  /** `setattr(db_task, field, value)` for one item. */
  function SetAttr(t: Task, v: FieldValue): Task {
    match v
    case SetTitle(x) => t.(base := t.base.(title := x))
    case SetDescription(x) => t.(base := t.base.(description := x))
    case SetStatus(x) => t.(base := t.base.(status := x))
    case SetPriority(x) => t.(base := t.base.(priority := x))
  }

  /** The row after the setattr loop has run over the items `d`, in order. */
  function ApplyAll(t: Task, d: seq<FieldValue>): Task {
    if d == [] then t else SetAttr(ApplyAll(t, d[..|d| - 1]), d[|d| - 1])
  }

  lemma {:induction false} ApplyAllAppend(t: Task, a: seq<FieldValue>, b: seq<FieldValue>)
    ensures ApplyAll(t, a + b) == ApplyAll(ApplyAll(t, a), b)
  {
    if b == [] {
      assert a + b == a;
    } else {
      assert (a + b)[..|a + b| - 1] == a + b[..|b| - 1];
      ApplyAllAppend(t, a, b[..|b| - 1]);
    }
  }

  /** The merge rule: every field the payload carries overwrites the stored
      one, every field it leaves out keeps its stored value, and the id and
      both timestamps are untouched. */
  function Merged(t: Task, u: TaskUpdate): (r: Task)
    ensures r.id == t.id && r.createdAt == t.createdAt && r.updatedAt == t.updatedAt
    ensures r.base.title == if u.title.Some? then u.title.value else t.base.title
    ensures r.base.description == if u.description.Some? then u.description.value else t.base.description
    ensures r.base.status == if u.status.Some? then u.status.value else t.base.status
    ensures r.base.priority == if u.priority.Some? then u.priority.value else t.base.priority
    ensures ValidBase(t.base) && ValidUpdate(u) ==> ValidBase(r.base)
  {
    t.(base := TaskBase(u.title.GetOr(t.base.title), u.description.GetOr(t.base.description),
                        u.status.GetOr(t.base.status), u.priority.GetOr(t.base.priority)))
  }

  lemma ApplyAtMostOne(t: Task, d: seq<FieldValue>)
    requires |d| <= 1
    ensures ApplyAll(t, d) == if d == [] then t else SetAttr(t, d[0])
  {
    if d != [] {
      assert d[..0] == [];
    }
  }

  /** Running the setattr loop over the explicitly set fields is the merge. */
  lemma SetAttrLoopIsMerge(t: Task, u: TaskUpdate)
    ensures ApplyAll(t, UpdateData(u)) == Merged(t, u)
  {
    var a := if u.title.Some? then [SetTitle(u.title.value)] else [];
    var b := if u.description.Some? then [SetDescription(u.description.value)] else [];
    var c := if u.status.Some? then [SetStatus(u.status.value)] else [];
    var e := if u.priority.Some? then [SetPriority(u.priority.value)] else [];
    var t1 := if u.title.Some? then SetAttr(t, a[0]) else t;
    var t2 := if u.description.Some? then SetAttr(t1, b[0]) else t1;
    var t3 := if u.status.Some? then SetAttr(t2, c[0]) else t2;
    var t4 := if u.priority.Some? then SetAttr(t3, e[0]) else t3;
    assert ApplyAll(t, a) == t1 by {
      ApplyAtMostOne(t, a);
    }
    assert ApplyAll(t, a + b) == t2 by {
      ApplyAllAppend(t, a, b);
      ApplyAtMostOne(t1, b);
    }
    assert ApplyAll(t, a + b + c) == t3 by {
      ApplyAllAppend(t, a + b, c);
      ApplyAtMostOne(t2, c);
    }
    assert ApplyAll(t, a + b + c + e) == t4 by {
      ApplyAllAppend(t, a + b + c, e);
      ApplyAtMostOne(t3, e);
    }
    assert UpdateData(u) == a + b + c + e;
    assert t4 == Merged(t, u);
  }

  /** The in-place loop of update_task over the explicitly set fields. */
  method ApplyUpdate(t: Task, u: TaskUpdate) returns (r: Task)
    ensures r == Merged(t, u)
  {
    var data := UpdateData(u);
    r := t;
    for i := 0 to |data|
      invariant r == ApplyAll(t, data[..i])
    {
      assert data[..i + 1][..i] == data[..i];
      r := SetAttr(r, data[i]);
    }
    assert data[..|data|] == data;
    SetAttrLoopIsMerge(t, u);
  }

  /** Merging the same payload twice is merging it once. (The request itself
      still moves `updated_at` each time.) */
  lemma MergeIdempotent(t: Task, u: TaskUpdate)
    ensures Merged(Merged(t, u), u) == Merged(t, u)
  {
  }

  /** The merge of an empty payload is the identity. (The request itself still
      moves `updated_at`.) */
  lemma EmptyMergeIsIdentity(t: Task)
    ensures Merged(t, TaskUpdate(None, None, None, None)) == t
  {
  }

  /** An explicit null description clears it; leaving it out keeps it. */
  lemma DescriptionPresenceTracked(t: Task, u: TaskUpdate)
    ensures u.description == Some(None) ==> Merged(t, u).base.description == None
    ensures u.description == None ==> Merged(t, u).base.description == t.base.description
  {
  }

  // Rows other than the one touched.

  /** The table without the row at position `i`, the others in their order. */
  function Removed(s: seq<Task>, i: nat): (r: seq<Task>)
    requires i < |s|
    ensures |r| == |s| - 1
    ensures forall k :: 0 <= k < i ==> r[k] == s[k]
    ensures forall k :: i <= k < |r| ==> r[k] == s[k + 1]
  {
    s[..i] + s[i + 1..]
  }

  /** Removing a row keeps the table invariant. */
  lemma RemovedKeepsInvariant(s: seq<Task>, i: nat)
    requires TableInvariant(s) && i < |s|
    ensures TableInvariant(Removed(s, i))
  {
    var r := Removed(s, i);
    forall a, b | 0 <= a < b < |r| ensures r[a].id != r[b].id {
      var a' := if a < i then a else a + 1;
      var b' := if b < i then b else b + 1;
      assert r[a] == s[a'] && r[b] == s[b'] && a' < b';
    }
  }

  /** After removing a row, with unique ids, its id is in no remaining row. */
  lemma RemovedIdGone(s: seq<Task>, i: nat)
    requires IdsUnique(s) && i < |s|
    ensures !HasId(Removed(s, i), s[i].id)
  {
    var r := Removed(s, i);
    forall k | 0 <= k < |r| ensures r[k].id != s[i].id {
      assert r[k] == s[if k < i then k else k + 1];
    }
  }

  /** Removing a row does not change what any other id finds. */
  lemma RemovedKeepsOthers(s: seq<Task>, i: nat, id: int)
    requires TableInvariant(s) && i < |s| && id != s[i].id
    ensures Get(Removed(s, i), id) == Get(s, id)
  {
    var r := Removed(s, i);
    RemovedKeepsInvariant(s, i);
    if HasId(s, id) {
      var j :| 0 <= j < |s| && s[j].id == id;
      var j' := if j < i then j else j - 1;
      assert s[j] == r[j'];
      GetFindsRow(s, j);
      GetFindsRow(r, j');
    } else {
      forall k | 0 <= k < |r| ensures r[k].id != id {
        assert r[k] == s[if k < i then k else k + 1];
      }
    }
  }

  /** Replacing a row by one with the same id keeps every other id's row. */
  lemma ReplacedKeepsOthers(s: seq<Task>, i: nat, t: Task, id: int)
    requires IdsUnique(s) && i < |s| && t.id == s[i].id
    ensures IdsUnique(s[i := t])
    ensures Get(s[i := t], t.id) == Success(t)
    ensures id != t.id ==> Get(s[i := t], id) == Get(s, id)
  {
    var r := s[i := t];
    assert forall k :: 0 <= k < |r| ==> r[k].id == s[k].id;
    GetFindsRow(r, i);
    if id != t.id {
      if HasId(s, id) {
        var j :| 0 <= j < |s| && s[j].id == id;
        GetFindsRow(s, j);
        GetFindsRow(r, j);
      }
    }
  }

  // The table that create, update and delete change in place.

  class TaskTable {
    /** The rows, in insertion order (the order the list query returns them in). */
    var tasks: seq<Task>
    /** The auto-increment counter that issues ids. */
    var nextId: int

    ghost predicate Valid()
      reads this
    {
      && TableInvariant(tasks)
      && nextId >= 1
      && forall i :: 0 <= i < |tasks| ==> tasks[i].id < nextId
    }

    /** A freshly created, empty table. */
    constructor ()
      ensures Valid() && tasks == [] && nextId == 1
    {
      tasks := [];
      nextId := 1;
    }

    /** create_task: validate the payload; on success append one row with a
        fresh positive id, the validated fields and both timestamps `now`. A
        refused payload leaves the table as it was. */
    method Create(payload: TaskCreate, now: nat) returns (r: Result<Task, ApiError>)
      requires Valid() && ClockNotBehind(tasks, now)
      modifies this
      ensures Valid() && ClockNotBehind(tasks, now)
      ensures ValidateCreate(payload).Failure? ==>
                r == Failure(Invalid(ValidateCreate(payload).error)) && tasks == old(tasks) && nextId == old(nextId)
      ensures ValidateCreate(payload).Success? ==>
                && r.Success?
                && r.value.base == ValidateCreate(payload).value
                && r.value.createdAt == now && r.value.updatedAt == now
                && r.value.id > 0 && !HasId(old(tasks), r.value.id)
                && tasks == old(tasks) + [r.value]
    {
      var v := ValidateCreate(payload);
      if v.Failure? {
        r := Failure(Invalid(v.error));
        return;
      }
      var t := Task(nextId, v.value, now, now);
      assert !HasId(tasks, t.id);
      tasks := tasks + [t];
      nextId := nextId + 1;
      r := Success(t);
    }

    /** update_task: validate the payload (before anything else), find the
        row, merge the set fields into it and stamp `updated_at` with `now`.
        A refused payload or an unknown id leaves the table as it was. */
    method Update(id: int, payload: TaskUpdate, now: nat) returns (r: Result<Task, ApiError>)
      requires Valid() && ClockNotBehind(tasks, now)
      modifies this
      ensures Valid() && ClockNotBehind(tasks, now) && nextId == old(nextId)
      ensures ValidateUpdate(payload).Failure? ==>
                r == Failure(Invalid(ValidateUpdate(payload).error)) && tasks == old(tasks)
      ensures ValidateUpdate(payload).Success? && !HasId(old(tasks), id) ==>
                r == Failure(NotFound(id)) && tasks == old(tasks)
      ensures ValidateUpdate(payload).Success? && HasId(old(tasks), id) ==>
                var i := Find(old(tasks), id).value;
                && r == Success(Merged(old(tasks)[i], payload).(updatedAt := now))
                && tasks == old(tasks)[i := r.value]
                && Get(tasks, id) == r
    {
      var v := ValidateUpdate(payload);
      if v.Failure? {
        r := Failure(Invalid(v.error));
        return;
      }
      var k := Find(tasks, id);
      if k.None? {
        r := Failure(NotFound(id));
        return;
      }
      var t := ApplyUpdate(tasks[k.value], payload);
      t := t.(updatedAt := now);
      assert WellFormed(tasks[k.value]);
      ReplacedKeepsOthers(tasks, k.value, t, id);
      tasks := tasks[k.value := t];
      r := Success(t);
    }

    /** delete_task: remove the row with the given id; the other rows keep
        their data and their order. An unknown id leaves the table as it was. */
    method Delete(id: int) returns (r: Result<(), ApiError>)
      requires Valid()
      modifies this
      ensures Valid() && nextId == old(nextId)
      ensures !HasId(old(tasks), id) ==> r == Failure(NotFound(id)) && tasks == old(tasks)
      ensures HasId(old(tasks), id) ==>
                && r == Success(())
                && tasks == Removed(old(tasks), Find(old(tasks), id).value)
                && Get(tasks, id) == Failure(NotFound(id))
    {
      var k := Find(tasks, id);
      if k.None? {
        r := Failure(NotFound(id));
        return;
      }
      RemovedKeepsInvariant(tasks, k.value);
      RemovedIdGone(tasks, k.value);
      tasks := Removed(tasks, k.value);
      r := Success(());
    }
  }
}
