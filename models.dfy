/** The task record and its payload shapes (task-api/models.py): the field
    constraints of TaskBase, the defaults of a create payload, the all-optional
    update payload, the stored Task with its server-managed fields, and the
    response representation. */
module Models {
  import opened Wrappers

  const TitleMinLength: nat := 1
  const TitleMaxLength: nat := 200
  const DescriptionMaxLength: nat := 2000
  const MinPriority: int := 1
  const MaxPriority: int := 3

  const DefaultStatus: string := "pending"
  const DefaultPriority: int := 1

  /** The strings the pattern `^(pending|in_progress|completed)$` accepts. */
  const Statuses: set<string> := {"pending", "in_progress", "completed"}

  /** The client-settable fields, used to say which of them a payload got wrong. */
  datatype Field = Title | Description | Status | Priority

  /** The four fields every task has (TaskBase). */
  datatype TaskBase = TaskBase(title: string, description: Option<string>, status: string, priority: int)

  /** A stored row (Task): the base fields plus the id the store assigns and
      the two timestamps, read from an abstract clock. */
  datatype Task = Task(id: int, base: TaskBase, createdAt: nat, updatedAt: nat)

  /** A create payload as the client sent it: `None` is a field left out. */
  datatype TaskCreate = TaskCreate(title: Option<string>, description: Option<string>,
                                   status: Option<string>, priority: Option<int>)

  /** An update payload. `None` is a field left out. For the description,
      `Some(None)` is an explicit null, which clears the stored description. */
  datatype TaskUpdate = TaskUpdate(title: Option<string>, description: Option<Option<string>>,
                                   status: Option<string>, priority: Option<int>)

  /** The response representation (TaskResponse): every field of the row, flat. */
  datatype TaskResponse = TaskResponse(id: int, title: string, description: Option<string>,
                                       status: string, priority: int, createdAt: nat, updatedAt: nat)

  // Field constraints of TaskBase.

  predicate ValidTitle(title: string) {
    TitleMinLength <= |title| <= TitleMaxLength
  }

  predicate ValidDescription(description: Option<string>) {
    description.None? || |description.value| <= DescriptionMaxLength
  }

  predicate ValidStatus(status: string) {
    status in Statuses
  }

  predicate ValidPriority(priority: int) {
    MinPriority <= priority <= MaxPriority
  }

  predicate ValidBase(b: TaskBase) {
    ValidTitle(b.title) && ValidDescription(b.description) && ValidStatus(b.status) && ValidPriority(b.priority)
  }

  /** A stored row is well formed when its fields obey the constraints and it
      was not updated before it was created. */
  predicate WellFormed(t: Task) {
    ValidBase(t.base) && t.createdAt <= t.updatedAt
  }

  // Create payload.

  /** The fields of a create payload that fail their constraint. A missing
      title is an error; every other field may be left out. */
  function CreateErrors(c: TaskCreate): (errs: set<Field>)
    ensures Title in errs <==> c.title.None? || !ValidTitle(c.title.value)
    ensures Description in errs <==> !ValidDescription(c.description)
    ensures Status in errs <==> c.status.Some? && !ValidStatus(c.status.value)
    ensures Priority in errs <==> c.priority.Some? && !ValidPriority(c.priority.value)
    ensures errs == {} <==> ValidCreate(c)
  {
    (if c.title.None? || !ValidTitle(c.title.value) then {Title} else {})
    + (if !ValidDescription(c.description) then {Description} else {})
    + (if c.status.Some? && !ValidStatus(c.status.value) then {Status} else {})
    + (if c.priority.Some? && !ValidPriority(c.priority.value) then {Priority} else {})
  }

  /** A create payload every constraint accepts: a valid title is present, and
      every other field is absent or valid. */
  predicate ValidCreate(c: TaskCreate) {
    && c.title.Some? && ValidTitle(c.title.value)
    && ValidDescription(c.description)
    && (c.status.None? || ValidStatus(c.status.value))
    && (c.priority.None? || ValidPriority(c.priority.value))
  }

  /** Validates a create payload and fills in the defaults of the fields left
      out: no description, status "pending", priority 1. */
  function ValidateCreate(c: TaskCreate): (r: Result<TaskBase, set<Field>>)
    ensures r.Success? <==> ValidCreate(c)
    ensures r.Success? ==> ValidBase(r.value)
    ensures r.Success? ==> r.value.title == c.title.value && r.value.description == c.description
    ensures r.Success? && c.status.Some? ==> r.value.status == c.status.value
    ensures r.Success? && c.priority.Some? ==> r.value.priority == c.priority.value
    ensures r.Success? && c.status.None? ==> r.value.status == DefaultStatus
    ensures r.Success? && c.priority.None? ==> r.value.priority == DefaultPriority
    ensures r.Failure? ==> r.error != {} && r.error == CreateErrors(c)
  {
    var errs := CreateErrors(c);
    if errs == {} then
      Success(TaskBase(c.title.value, c.description, c.status.GetOr(DefaultStatus), c.priority.GetOr(DefaultPriority)))
    else
      Failure(errs)
  }

  /** A payload holding only a valid title gets every default. */
  lemma TitleOnlyGetsDefaults(title: string)
    requires ValidTitle(title)
    ensures ValidateCreate(TaskCreate(Some(title), None, None, None))
            == Success(TaskBase(title, None, "pending", 1))
  {
  }

  /** Of the priorities, exactly 1, 2 and 3 are accepted; so 0 and 5 are refused. */
  lemma OnlyPrioritiesOneToThreeAccepted(title: string, p: int)
    requires ValidTitle(title)
    ensures ValidateCreate(TaskCreate(Some(title), None, None, Some(p))).Success? <==> p in {1, 2, 3}
    ensures p == 0 || p == 5 ==> ValidateCreate(TaskCreate(Some(title), None, None, Some(p))) == Failure({Priority})
  {
    var r := ValidateCreate(TaskCreate(Some(title), None, None, Some(p)));
    if p == 0 || p == 5 {
      var errs := CreateErrors(TaskCreate(Some(title), None, None, Some(p)));
      assert forall f: Field :: f in errs <==> f == Priority;
      assert errs == {Priority};
    }
  }

  /** A status outside the three values is refused, whatever else the payload holds. */
  lemma UnknownStatusRejected(c: TaskCreate)
    requires c.status == Some("invalid_status")
    ensures ValidateCreate(c).Failure? && Status in ValidateCreate(c).error
  {
    assert "invalid_status" !in Statuses;
  }

  /** A payload without a title is refused, and the title is reported. */
  lemma MissingTitleRejected(c: TaskCreate)
    requires c.title.None?
    ensures ValidateCreate(c).Failure? && Title in ValidateCreate(c).error
  {
  }

  // Update payload.

  /** The fields of an update payload that are present and fail their
      constraint. An explicit null description is acceptable. */
  function UpdateErrors(u: TaskUpdate): (errs: set<Field>)
    ensures Title in errs <==> u.title.Some? && !ValidTitle(u.title.value)
    ensures Description in errs <==> u.description.Some? && !ValidDescription(u.description.value)
    ensures Status in errs <==> u.status.Some? && !ValidStatus(u.status.value)
    ensures Priority in errs <==> u.priority.Some? && !ValidPriority(u.priority.value)
    ensures errs == {} <==> ValidUpdate(u)
  {
    (if u.title.Some? && !ValidTitle(u.title.value) then {Title} else {})
    + (if u.description.Some? && !ValidDescription(u.description.value) then {Description} else {})
    + (if u.status.Some? && !ValidStatus(u.status.value) then {Status} else {})
    + (if u.priority.Some? && !ValidPriority(u.priority.value) then {Priority} else {})
  }

  predicate ValidUpdate(u: TaskUpdate) {
    && (u.title.None? || ValidTitle(u.title.value))
    && (u.description.None? || ValidDescription(u.description.value))
    && (u.status.None? || ValidStatus(u.status.value))
    && (u.priority.None? || ValidPriority(u.priority.value))
  }

  /** Validates an update payload: it is accepted unchanged when every present
      field obeys the constraint it has at create time. */
  function ValidateUpdate(u: TaskUpdate): (r: Result<TaskUpdate, set<Field>>)
    ensures r.Success? <==> ValidUpdate(u)
    ensures r.Success? ==> r.value == u
    ensures r.Failure? ==> r.error != {} && r.error == UpdateErrors(u)
  {
    var errs := UpdateErrors(u);
    if errs == {} then Success(u) else Failure(errs)
  }

  /** The empty update payload is valid. */
  lemma EmptyUpdateValid()
    ensures ValidateUpdate(TaskUpdate(None, None, None, None)) == Success(TaskUpdate(None, None, None, None))
  {
  }

  /** An update carrying status "invalid" is refused and the status is reported. */
  lemma InvalidStatusUpdateRejected(u: TaskUpdate)
    requires u.status == Some("invalid")
    ensures ValidateUpdate(u).Failure? && Status in ValidateUpdate(u).error
  {
    assert "invalid" !in Statuses;
  }

  // Response representation.

  /** The response of a stored row. */
  function ToResponse(t: Task): (r: TaskResponse)
    ensures BaseOf(r) == t.base
    ensures r.id == t.id && r.createdAt == t.createdAt && r.updatedAt == t.updatedAt
  {
    TaskResponse(t.id, t.base.title, t.base.description, t.base.status, t.base.priority, t.createdAt, t.updatedAt)
  }

  /** The base fields a response carries. */
  function BaseOf(r: TaskResponse): TaskBase {
    TaskBase(r.title, r.description, r.status, r.priority)
  }

  /** A response loses no field of the row: the row can be read back from it. */
  lemma ResponseDeterminesTask(t1: Task, t2: Task)
    requires ToResponse(t1) == ToResponse(t2)
    ensures t1 == t2
  {
    assert t1.base == BaseOf(ToResponse(t1));
    assert t2.base == BaseOf(ToResponse(t2));
  }
}
