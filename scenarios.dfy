/** Client runs against a fresh task table, one per behaviour the API's test
    suite (task-api/test_main.py) checks on the table (the root and health
    tests are outside the model); each result is established from the
    contracts of TaskTable and the queries alone. Clock readings are
    successive naturals. */
module Scenarios {
  import opened Wrappers
  import opened Models
  import opened TaskStore

  function TitleOnly(title: string): TaskCreate {
    TaskCreate(Some(title), None, None, None)
  }

  function WithStatus(title: string, status: string): TaskCreate {
    TaskCreate(Some(title), None, Some(status), None)
  }

  function StatusUpdate(status: string): TaskUpdate {
    TaskUpdate(None, None, Some(status), None)
  }

  /** The filter over a table of four rows, row by row. */
  lemma FilterFour(s: seq<Task>, status: string)
    requires |s| == 4
    ensures FilterByStatus(s, status) == Kept(s[0], status) + Kept(s[1], status) + Kept(s[2], status) + Kept(s[3], status)
  {
    FilterSnoc([], s[0], status);
    assert [s[0]] == [] + [s[0]];
    FilterSnoc([s[0]], s[1], status);
    FilterSnoc([s[0], s[1]], s[2], status);
    FilterSnoc([s[0], s[1], s[2]], s[3], status);
    assert s == [s[0], s[1], s[2]] + [s[3]];
  }

  /** The filter over a table of five rows, row by row. */
  lemma FilterFive(s: seq<Task>, status: string)
    requires |s| == 5
    ensures FilterByStatus(s, status)
            == Kept(s[0], status) + Kept(s[1], status) + Kept(s[2], status) + Kept(s[3], status) + Kept(s[4], status)
  {
    FilterFour(s[..4], status);
    FilterSnoc(s[..4], s[4], status);
    assert s == s[..4] + [s[4]];
  }

  /** The counts of a five-row table holding two pending, one in-progress
      and two completed rows. */
  lemma StatsOfFive(s: seq<Task>)
    requires |s| == 5
    requires s[0].base.status == "pending" && s[1].base.status == "pending"
    requires s[2].base.status == "in_progress"
    requires s[3].base.status == "completed" && s[4].base.status == "completed"
    ensures GetStats(s) == Stats(5, 2, 1, 2)
  {
    FilterFive(s, "pending");
    FilterFive(s, "in_progress");
    FilterFive(s, "completed");
  }

  /** A title-only create stores the defaults and a positive id. */
  method CreateMinimalScenario() returns (r: Result<Task, ApiError>)
    ensures r.Success? && r.value.id > 0
    ensures r.value.base == TaskBase("Simple task", None, "pending", 1)
    ensures r.value.createdAt == r.value.updatedAt
  {
    var db := new TaskTable();
    r := db.Create(TitleOnly("Simple task"), 1);
  }

  /** A create with all four fields stores exactly them under a positive id. */
  method CreateFullScenario() returns (r: Result<Task, ApiError>)
    ensures r.Success? && r.value.id > 0
    ensures r.value.base == TaskBase("Learn FastAPI", Some("Complete the FastAPI tutorial"), "pending", 2)
  {
    var db := new TaskTable();
    r := db.Create(TaskCreate(Some("Learn FastAPI"), Some("Complete the FastAPI tutorial"), Some("pending"), Some(2)), 1);
  }

  /** A fresh table lists no rows. */
  method ListEmptyScenario() returns (rows: seq<Task>)
    ensures rows == []
  {
    var db := new TaskTable();
    rows := ListTasks(db.tasks, 0, 100, None);
  }

  /** Three creates, then the default listing: all three, in creation order. */
  method ListWithDataScenario() returns (rows: seq<Task>)
    ensures |rows| == 3
    ensures rows[0].base.title == "Task 1" && rows[1].base.title == "Task 2" && rows[2].base.title == "Task 3"
  {
    var db := new TaskTable();
    var t1 := AddTask(db, TaskCreate(Some("Task 1"), None, None, Some(1)), 1);
    var t2 := AddTask(db, TaskCreate(Some("Task 2"), None, None, Some(2)), 2);
    var t3 := AddTask(db, TaskCreate(Some("Task 3"), None, None, Some(3)), 3);
    assert db.tasks == [t1, t2, t3];
    ListDefaultsReturnsAll(db.tasks);
    rows := ListTasks(db.tasks, 0, 100, None);
  }

  /** A created row is read back by its id with the fields it was created with. */
  method ReadBackScenario() returns (created: Result<Task, ApiError>, read: Result<Task, ApiError>)
    ensures created.Success? && read == created
    ensures read.value.base == TaskBase("Test Task", Some("Test Description"), "pending", 3)
  {
    var db := new TaskTable();
    created := db.Create(TaskCreate(Some("Test Task"), Some("Test Description"), None, Some(3)), 1);
    GetFindsRow(db.tasks, 0);
    read := Get(db.tasks, created.value.id);
  }

  /** A bad status and a missing title are refused, and the table stays empty. */
  method RejectedCreatesScenario() returns (badStatus: Result<Task, ApiError>, noTitle: Result<Task, ApiError>, st: Stats)
    ensures badStatus == Failure(Invalid({Status}))
    ensures noTitle == Failure(Invalid({Title}))
    ensures st == Stats(0, 0, 0, 0)
  {
    var db := new TaskTable();
    var c1 := WithStatus("Task with bad status", "invalid_status");
    assert "invalid_status" !in Statuses;
    assert CreateErrors(c1) == {Status} by {
      assert forall f: Field :: f in CreateErrors(c1) <==> f == Status;
    }
    badStatus := db.Create(c1, 1);
    var c2 := TaskCreate(None, None, None, Some(1));
    assert CreateErrors(c2) == {Title} by {
      assert forall f: Field :: f in CreateErrors(c2) <==> f == Title;
    }
    noTitle := db.Create(c2, 2);
    st := GetStats(db.tasks);
  }

  /** Priorities 5 and 0 are refused, and the table stays empty. */
  method RejectedPrioritiesScenario() returns (tooHigh: Result<Task, ApiError>, tooLow: Result<Task, ApiError>, st: Stats)
    ensures tooHigh == Failure(Invalid({Priority})) && tooLow == Failure(Invalid({Priority}))
    ensures st == Stats(0, 0, 0, 0)
  {
    var db := new TaskTable();
    OnlyPrioritiesOneToThreeAccepted("Task", 5);
    tooHigh := db.Create(TaskCreate(Some("Task"), None, None, Some(5)), 1);
    OnlyPrioritiesOneToThreeAccepted("Task", 0);
    tooLow := db.Create(TaskCreate(Some("Task"), None, None, Some(0)), 2);
    st := GetStats(db.tasks);
  }

  /** Sends one accepted create payload; its row is appended. */
  method AddTask(db: TaskTable, c: TaskCreate, now: nat) returns (t: Task)
    requires db.Valid() && ClockNotBehind(db.tasks, now)
    requires c.title.Some? && ValidTitle(c.title.value) && ValidDescription(c.description)
    requires c.status.None? || ValidStatus(c.status.value)
    requires c.priority.None? || ValidPriority(c.priority.value)
    modifies db
    ensures db.Valid() && ClockNotBehind(db.tasks, now)
    ensures db.tasks == old(db.tasks) + [t]
    ensures t.base == TaskBase(c.title.value, c.description, c.status.GetOr(DefaultStatus), c.priority.GetOr(DefaultPriority))
    ensures t.id > 0
  {
    var r := db.Create(c, now);
    t := r.value;
  }

  /** Five creates, then skip 2 and limit 2: the third and the fourth. */
  method PaginationScenario() returns (page: seq<Task>)
    ensures |page| == 2 && page[0].base.title == "Task 3" && page[1].base.title == "Task 4"
  {
    var db := new TaskTable();
    var t1 := AddTask(db, TitleOnly("Task 1"), 1);
    var t2 := AddTask(db, TitleOnly("Task 2"), 2);
    var t3 := AddTask(db, TitleOnly("Task 3"), 3);
    var t4 := AddTask(db, TitleOnly("Task 4"), 4);
    var t5 := AddTask(db, TitleOnly("Task 5"), 5);
    assert db.tasks == [t1, t2, t3, t4, t5];
    page := ListTasks(db.tasks, 2, 2, None);
    ListSkipTwoLimitTwo(db.tasks);
  }

  /** Filtering by "pending" and by "completed" returns exactly those rows. */
  method FilterScenario() returns (pending: seq<Task>, completed: seq<Task>)
    ensures |pending| == 2 && forall t :: t in pending ==> t.base.status == "pending"
    ensures |completed| == 1 && completed[0].base.title == "Completed"
  {
    var db := new TaskTable();
    var t1 := AddTask(db, WithStatus("Pending 1", "pending"), 1);
    var t2 := AddTask(db, WithStatus("In Progress", "in_progress"), 2);
    var t3 := AddTask(db, WithStatus("Pending 2", "pending"), 3);
    var t4 := AddTask(db, WithStatus("Completed", "completed"), 4);
    assert db.tasks == [t1, t2, t3, t4];
    FilterFour(db.tasks, "pending");
    FilterFour(db.tasks, "completed");
    pending := ListTasks(db.tasks, 0, 100, Some("pending"));
    completed := ListTasks(db.tasks, 0, 100, Some("completed"));
  }

  /** Two pending, one in progress and two completed rows. */
  method StatsScenario() returns (st: Stats)
    ensures st == Stats(5, 2, 1, 2)
  {
    var db := new TaskTable();
    var t1 := AddTask(db, WithStatus("P1", "pending"), 1);
    var t2 := AddTask(db, WithStatus("P2", "pending"), 2);
    var t3 := AddTask(db, WithStatus("IP1", "in_progress"), 3);
    var t4 := AddTask(db, WithStatus("C1", "completed"), 4);
    var t5 := AddTask(db, WithStatus("C2", "completed"), 5);
    assert db.tasks == [t1, t2, t3, t4, t5];
    StatsOfFive(db.tasks);
    st := GetStats(db.tasks);
  }

  /** Updating only the status leaves title, description and priority as
      created, keeps the id and creation time, and moves `updated_at` forward. */
  method PartialUpdateScenario() returns (created: Task, updated: Task)
    ensures updated.base == created.base.(status := "completed")
    ensures created.base == TaskBase("Original Title", Some("Original Description"), "pending", 1)
    ensures updated.id == created.id && updated.createdAt == created.createdAt
    ensures updated.updatedAt > created.updatedAt
  {
    var db := new TaskTable();
    var c := TaskCreate(Some("Original Title"), Some("Original Description"), None, Some(1));
    var r := db.Create(c, 1);
    created := r.value;
    assert db.tasks == [created] && db.tasks[0].id == created.id;
    var u := db.Update(created.id, StatusUpdate("completed"), 2);
    updated := u.value;
  }

  /** Updating every field replaces all four and keeps the id. */
  method FullUpdateScenario() returns (updated: Result<Task, ApiError>, id: int)
    ensures updated.Success? && updated.value.id == id
    ensures updated.value.base == TaskBase("Updated", Some("New description"), "in_progress", 3)
  {
    var db := new TaskTable();
    var r := db.Create(TaskCreate(Some("Original"), None, Some("pending"), Some(1)), 1);
    id := r.value.id;
    assert db.tasks == [r.value] && db.tasks[0].id == id;
    updated := db.Update(id, TaskUpdate(Some("Updated"), Some(Some("New description")), Some("in_progress"), Some(3)), 2);
  }

  /** An update with an unknown status is refused and the stored row stays as created. */
  method InvalidUpdateScenario() returns (created: Result<Task, ApiError>, refused: Result<Task, ApiError>,
                                          read: Result<Task, ApiError>)
    ensures created.Success?
    ensures refused == Failure(Invalid({Status}))
    ensures read == created
  {
    var db := new TaskTable();
    created := db.Create(TitleOnly("Task"), 1);
    var u := StatusUpdate("invalid");
    assert "invalid" !in Statuses;
    assert UpdateErrors(u) == {Status} by {
      assert forall f: Field :: f in UpdateErrors(u) <==> f == Status;
    }
    refused := db.Update(created.value.id, u, 2);
    GetFindsRow(db.tasks, 0);
    read := Get(db.tasks, created.value.id);
  }

  /** Deleting the middle of three rows: the first and the third are still
      found, the middle one is not. */
  method DeleteIsolationScenario() returns (first: Result<Task, ApiError>, middle: Result<Task, ApiError>,
                                             last: Result<Task, ApiError>)
    ensures first.Success? && first.value.base.title == "Task 1"
    ensures middle.Failure? && middle.error.NotFound?
    ensures last.Success? && last.value.base.title == "Task 3"
  {
    var db := new TaskTable();
    var t1 := AddTask(db, TitleOnly("Task 1"), 1);
    var t2 := AddTask(db, TitleOnly("Task 2"), 2);
    var t3 := AddTask(db, TitleOnly("Task 3"), 3);
    var before := db.tasks;
    assert before == [t1, t2, t3];
    GetFindsRow(before, 1);
    var d := db.Delete(t2.id);
    assert db.tasks == Removed(before, 1);
    assert db.tasks == [t1, t3];
    GetFindsRow(db.tasks, 0);
    GetFindsRow(db.tasks, 1);
    first := Get(db.tasks, t1.id);
    middle := Get(db.tasks, t2.id);
    last := Get(db.tasks, t3.id);
  }

  /** Create, read, update the status, delete, and read again. */
  method WorkflowScenario() returns (read: Result<Task, ApiError>, updated: Result<Task, ApiError>,
                                     deleted: Result<(), ApiError>, reread: Result<Task, ApiError>)
    ensures read.Success? && read.value.base.title == "Integration Test Task"
    ensures updated.Success? && updated.value.base.status == "in_progress"
    ensures deleted == Success(())
    ensures reread.Failure? && reread.error.NotFound?
  {
    var db := new TaskTable();
    var c := TaskCreate(Some("Integration Test Task"), Some("Testing complete workflow"), Some("pending"), Some(2));
    var r := db.Create(c, 1);
    var id := r.value.id;
    assert db.tasks == [r.value];
    read := Get(db.tasks, id);
    updated := db.Update(id, StatusUpdate("in_progress"), 2);
    deleted := db.Delete(id);
    reread := Get(db.tasks, id);
  }

  /** Updating one of three rows leaves the other two as they were. */
  method IndependenceScenario() returns (s1: string, s2: string, s3: string)
    ensures s1 == "pending" && s2 == "completed" && s3 == "pending"
  {
    var db := new TaskTable();
    var t1 := AddTask(db, TaskCreate(Some("Task 1"), None, None, Some(1)), 1);
    var t2 := AddTask(db, TaskCreate(Some("Task 2"), None, None, Some(2)), 2);
    var t3 := AddTask(db, TaskCreate(Some("Task 3"), None, None, Some(3)), 3);
    var before := db.tasks;
    assert before == [t1, t2, t3];
    GetFindsRow(before, 1);
    var u := db.Update(t2.id, StatusUpdate("completed"), 4);
    assert db.tasks == [t1, u.value, t3];
    GetFindsRow(db.tasks, 0);
    GetFindsRow(db.tasks, 1);
    GetFindsRow(db.tasks, 2);
    s1 := Get(db.tasks, t1.id).value.base.status;
    s2 := Get(db.tasks, t2.id).value.base.status;
    s3 := Get(db.tasks, t3.id).value.base.status;
  }

  /** Reading an unknown id is NotFound naming the id. */
  method MissingReadScenario() returns (read: Result<Task, ApiError>)
    ensures read == Failure(NotFound(999))
  {
    var db := new TaskTable();
    read := Get(db.tasks, 999);
  }

  /** A valid update of an unknown id is NotFound naming the id. */
  method MissingUpdateScenario() returns (updated: Result<Task, ApiError>)
    ensures updated == Failure(NotFound(999))
  {
    var db := new TaskTable();
    updated := db.Update(999, StatusUpdate("completed"), 1);
  }

  /** Deleting an unknown id is NotFound naming the id. */
  method MissingDeleteScenario() returns (deleted: Result<(), ApiError>)
    ensures deleted == Failure(NotFound(999))
  {
    var db := new TaskTable();
    deleted := db.Delete(999);
  }

  /** A refused update payload is reported as such even for an unknown id,
      because the body is validated before the row is looked up. */
  method ValidationBeforeLookupScenario() returns (invalid: Result<Task, ApiError>)
    ensures invalid == Failure(Invalid({Status}))
  {
    var db := new TaskTable();
    var u := StatusUpdate("invalid");
    assert "invalid" !in Statuses;
    assert UpdateErrors(u) == {Status} by {
      assert forall f: Field :: f in UpdateErrors(u) <==> f == Status;
    }
    invalid := db.Update(999, u, 1);
  }
}
