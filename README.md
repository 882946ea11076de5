# Task API store and todo service, modelled in Dafny

This project models the core of a small FastAPI/SQLModel task service and a
toy todo service:

- **The task record and its validators** (`task-api/models.py`). The record
  has four fields:
  - a title of 1 to 200 characters;
  - an optional description of at most 2000 characters;
  - a status that is one of `pending`, `in_progress` or `completed`;
  - a priority from 1 to 3.

  The model covers the defaults a create payload gets (no description,
  status `pending`, priority 1), the update payload whose fields are all
  optional, the stored row with its id and two timestamps, and the response
  representation. This is module `Models` in `models.dfy`.
- **The task table** (`task-api/main.py`). The table is a class `TaskTable`
  holding the rows in insertion order and the auto-increment id counter.
  - `Create`, `Update` and `Delete` are methods that change it in place.
  - Read by id (`Get`), the list query (`ListTasks`: status filter, then
    offset and limit) and the statistics (`GetStats`) are functions over
    the row sequence.
  - The partial update's `setattr` loop over the explicitly set fields is
    the method `ApplyUpdate`. It is proved equal to the merge rule `Merged`.

  This is module `TaskStore` in `task_store.dfy`.
- **The todo service** (`Class-2/main.py`): the constant four-item listing
  and the id lookup. This is module `TodoService` in `todo_service.dfy`.
- **Client runs** (`scenarios.dfy`, module `Scenarios`). Each behaviour the
  API's test suite (`task-api/test_main.py`) checks on the task table is a
  method that drives a fresh `TaskTable`. Its `ensures` is proved from the
  contracts of the table and the queries alone. The root and health tests
  are outside the model.

`wrappers.dfy` holds the `Option` and `Result` types.

The clock is an abstract natural number `now` passed to `Create` and
`Update`. Their precondition `ClockNotBehind` says that `now` is not earlier
than any stored timestamp. Failures are the datatype `ApiError`:
`NotFound(id)` stands for the 404 answers, and `Invalid(fields)` for the 422
validation answers, naming the offending fields.

Behaviour the model fixes where the code decides it:

- The request body is validated before the handler runs. So an update that
  is invalid on an unknown id is reported as `Invalid`, not `NotFound`
  (the body is checked before the lookup at `task-api/main.py:346`).
- The list handler applies its filter under `if status_filter:`. An empty
  filter string is therefore no filter, the same as a missing one.
- An update payload tracks whether the description was sent. An explicit
  `null` description is kept by `exclude_unset` and clears the stored value.
  A description left out keeps the stored value.

## Model

| member | source | states |
|---|---|---|
| Models.CreateErrors | task-api/models.py:29-35 | a field is reported exactly when it breaks its constraint: title missing or outside 1..200 characters, description longer than 2000, status given and outside the three values, priority given and outside 1..3. No field is reported iff the payload is valid |
| Models.ValidCreate | task-api/models.py:29-35 | defines a valid create payload: a valid title is present and every other field is absent or obeys its constraint |
| Models.ValidateCreate | task-api/models.py:29-35 | a create payload is accepted iff it is valid. An accepted payload keeps the given values and takes the defaults (no description, "pending", 1) for the fields left out. A refused one reports the non-empty set of offending fields |
| Models.TitleOnlyGetsDefaults | task-api/test_main.py:148-167 | a payload with only a valid title becomes (title, no description, "pending", 1) |
| Models.OnlyPrioritiesOneToThreeAccepted | task-api/models.py:35 | with a valid title, a priority is accepted iff it is 1, 2 or 3; priorities 0 and 5 are refused with exactly the priority reported |
| Models.UnknownStatusRejected | task-api/test_main.py:170-186 | a payload with status "invalid_status" is refused and the status is reported |
| Models.MissingTitleRejected | task-api/test_main.py:189-200 | a payload without a title is refused and the title is reported |
| Models.ValidBase | task-api/models.py:29-35 | defines the four field constraints of a task: title of 1 to 200 characters, description absent or at most 2000, status one of the three values, priority 1 to 3 |
| Models.WellFormed | task-api/models.py:29-57 | defines a well-formed stored row: valid base fields and `created_at <= updated_at` |
| Models.ValidUpdate | task-api/models.py:106-112 | defines a valid update payload: every present field obeys its create-time constraint |
| Models.UpdateErrors | task-api/models.py:106-112 | a field of an update payload is reported exactly when it is present and breaks the constraint it has at create time; an explicit null description is acceptable. No field is reported iff the payload is valid |
| Models.ValidateUpdate | task-api/models.py:106-112 | an update payload is accepted unchanged iff every present field obeys its constraint; a refused one reports the non-empty set of offending fields |
| Models.EmptyUpdateValid | task-api/models.py:85-112 | the update payload with no fields is valid |
| Models.InvalidStatusUpdateRejected | task-api/test_main.py:461-483 | an update carrying status "invalid" is refused and the status is reported |
| Models.ToResponse | task-api/models.py:115-143 | the response carries the row's id, both timestamps and all four base fields |
| Models.ResponseDeterminesTask | task-api/models.py:115-143 | two rows with the same response are the same row: the response loses no field |
| TaskStore.TableInvariant | task-api/models.py:29-57 | defines the table invariant: every row is well formed with a positive id, and no two rows share an id |
| TaskStore.TaskTable.Valid | task-api/models.py:55 | defines the table object's invariant: the rows satisfy the table invariant and every id is below the auto-increment counter |
| TaskStore.Find | task-api/main.py:278 | the position returned holds the id and no earlier row does; there is none iff no row holds the id |
| TaskStore.Get | task-api/main.py:278-287 | read_task succeeds iff a row holds the id, returning a stored row with that id; otherwise NotFound naming the id |
| TaskStore.GetFindsRow | task-api/main.py:278-287 | with unique ids, reading a row's id returns exactly that row |
| TaskStore.FilterByStatus | task-api/main.py:224-228 | the status filter keeps no more rows than the table holds |
| TaskStore.FilterKeepsExactlyMatching | task-api/main.py:226-228 | every row the filter keeps is a stored row with that status, and every stored row with that status is kept |
| TaskStore.FilterAppend | task-api/main.py:226-233 | the filter distributes over concatenation, so kept rows stay in table order |
| TaskStore.FilterSnoc | task-api/main.py:226-233 | appending a row appends it to the filtered rows iff its status matches |
| TaskStore.FilterActive | task-api/main.py:227 | defines when the status filter applies: it is present and non-empty, as `if status_filter:` tests |
| TaskStore.Filtered | task-api/main.py:227-228 | defines the rows the list query selects before pagination: those with the filtered status when the filter applies, otherwise all rows |
| TaskStore.ListTasks | task-api/main.py:224-235 | list_tasks returns at most `limit` rows. It is empty when `skip` is past the filtered rows, and otherwise returns the filtered rows from position `skip` on, min(limit, remaining) of them, in order. Every row it returns is stored and, under a non-empty filter, has the filtered status |
| TaskStore.ListEmptyTable | task-api/test_main.py:235-245 | listing an empty table gives no rows, whatever the parameters |
| TaskStore.ListDefaultsReturnsAll | task-api/test_main.py:248-273 | with the default parameters a table of at most 100 rows is listed whole, in insertion order |
| TaskStore.ListSkipTwoLimitTwo | task-api/test_main.py:276-296 | over five rows, skip 2 and limit 2 give the third and the fourth row |
| TaskStore.StatusCountsSum | task-api/main.py:464-480 | if every status is one of the three values, then the three status counts sum to the number of rows |
| TaskStore.GetStats | task-api/main.py:464-480 | get_stats reports the number of rows and, per status, the number of rows the filter keeps. Each count is at most the total, the three sum to the total on a valid table, and all four are zero on an empty table |
| TaskStore.UpdateData | task-api/main.py:356 | defines `dict(exclude_unset=True)`: the explicitly set fields with their values, in declaration order |
| TaskStore.UpdateDataIsSetFields | task-api/main.py:356 | `dict(exclude_unset=True)` yields exactly the fields the payload carries, each once |
| TaskStore.SetAttr | task-api/main.py:360 | defines one `setattr`: the item's field takes the item's value and every other part of the row is kept |
| TaskStore.ApplyAll | task-api/main.py:359-360 | defines the row after the setattr loop has run over a list of items in order |
| TaskStore.ApplyAllAppend | task-api/main.py:359-360 | running the setattr loop over two item lists one after the other is running it over their concatenation |
| TaskStore.Merged | task-api/main.py:356-360 | the merge overwrites every field the payload carries and keeps every field it leaves out. It leaves the id and both timestamps alone, and a valid row merged with a valid payload stays valid |
| TaskStore.ApplyAtMostOne | task-api/main.py:359-360 | the setattr loop over no items changes nothing; over one item it is that one setattr |
| TaskStore.SetAttrLoopIsMerge | task-api/main.py:356-360 | the setattr loop over the explicitly set fields yields the merge rule's row |
| TaskStore.ApplyUpdate | task-api/main.py:356-360 | the in-place setattr loop yields exactly the merged row |
| TaskStore.MergeIdempotent | task-api/main.py:356-360 | merging the same payload twice is merging it once; a second request still moves `updated_at` |
| TaskStore.EmptyMergeIsIdentity | task-api/main.py:356-360 | the merge of an empty payload is the identity; the request still moves `updated_at` |
| TaskStore.DescriptionPresenceTracked | task-api/main.py:356-360 | an explicit null description clears it; a description left out is kept |
| TaskStore.Removed | task-api/main.py:425 | removing position i keeps every other row in its relative order |
| TaskStore.RemovedKeepsInvariant | task-api/main.py:425-428 | removing a row keeps the table invariant |
| TaskStore.RemovedIdGone | task-api/main.py:425-428 | after the removal no row holds the removed id |
| TaskStore.RemovedKeepsOthers | task-api/main.py:425-428 | removing a row does not change what any other id reads |
| TaskStore.ReplacedKeepsOthers | task-api/main.py:363-368 | replacing a row by one with the same id keeps ids unique, reads the new row back, and leaves every other id's row as it was |
| TaskStore.TaskTable.constructor | task-api/test_main.py:45-52 | a freshly created database is an empty table with the id counter at 1, and satisfies the invariant |
| TaskStore.TaskTable.Create | task-api/main.py:160-171 | a refused payload gives Invalid with its fields and leaves table and counter as they were. An accepted one appends exactly one row: it has a positive id held by no earlier row, the validated fields, and both timestamps `now`. The invariant is kept |
| TaskStore.TaskTable.Update | task-api/main.py:346-370 | a refused payload gives Invalid and changes nothing; an unknown id gives NotFound and changes nothing. Otherwise the row at the id's position becomes the merged row with `updated_at = now`, every other row is as it was, the new row is read back, and the invariant is kept |
| TaskStore.TaskTable.Delete | task-api/main.py:415-428 | an unknown id gives NotFound and changes nothing. Otherwise exactly that row is removed, the others keep their data and order, a later read of the id is NotFound, and the invariant is kept |
| TodoService.TodoApp | Class-2/main.py:8-11 | the listing has four items, numbered 1 to 4 in order |
| TodoService.TodoIdsDistinct | Class-2/main.py:8-11 | no two items of the listing share an id |
| TodoService.TodoTasks | Class-2/main.py:8-11 | the task texts are "Buy groceries", "Walk the dog", "Read a book", "Write code", in that order |
| TodoService.Tasks2 | Class-2/main.py:16-18 | the error shape with an empty message is returned iff the id is below 1; otherwise the id is echoed with "Go jogging" |
| TodoService.Tasks2TextIndependentOfId | Class-2/main.py:18 | the success text is the same for every id |
| Scenarios.FilterFour | task-api/main.py:226-233 | over four rows the filter keeps each row iff its status matches, in order |
| Scenarios.FilterFive | task-api/main.py:226-233 | over five rows the filter keeps each row iff its status matches, in order |
| Scenarios.StatsOfFive | task-api/test_main.py:572-591 | five rows with statuses pending, pending, in_progress, completed, completed give the counts 5, 2, 1, 2 |
| Scenarios.CreateMinimalScenario | task-api/test_main.py:148-167 | a title-only create stores the defaults and a positive id, created and updated at the same moment |
| Scenarios.CreateFullScenario | task-api/test_main.py:113-145 | a create with all four fields stores exactly those fields under a positive id |
| Scenarios.ListEmptyScenario | task-api/test_main.py:235-245 | listing a fresh table gives no rows |
| Scenarios.ListWithDataScenario | task-api/test_main.py:248-273 | after three creates, the default listing gives "Task 1", "Task 2", "Task 3" in creation order |
| Scenarios.ReadBackScenario | task-api/test_main.py:327-354 | a created row reads back by its id with the fields it was created with |
| Scenarios.RejectedCreatesScenario | task-api/test_main.py:170-200 | a bad status and a missing title are refused with exactly that field reported, and the table stays empty |
| Scenarios.RejectedPrioritiesScenario | task-api/test_main.py:203-228 | priorities 5 and 0 are refused with the priority reported, and the table stays empty |
| Scenarios.AddTask | task-api/main.py:160-171 | a valid create payload appends one row with a positive id, the given title and description, and the given or default status and priority |
| Scenarios.PaginationScenario | task-api/test_main.py:276-296 | after five creates, skip 2 and limit 2 return "Task 3" and "Task 4" |
| Scenarios.FilterScenario | task-api/test_main.py:299-320 | filtering by pending gives the two pending rows, and filtering by completed gives the one completed row |
| Scenarios.StatsScenario | task-api/test_main.py:572-591 | two pending, one in-progress and two completed rows give the counts 5, 2, 1, 2 |
| Scenarios.PartialUpdateScenario | task-api/test_main.py:412-445 | updating only the status leaves the other fields, the id and the creation time as they were, and moves `updated_at` forward |
| Scenarios.FullUpdateScenario | task-api/test_main.py:374-409 | updating all four fields replaces them and keeps the id |
| Scenarios.InvalidUpdateScenario | task-api/test_main.py:461-483 | an update with an unknown status is refused and the stored row stays as created |
| Scenarios.DeleteIsolationScenario | task-api/test_main.py:521-550 | deleting the middle of three rows leaves the first and the third readable, and the middle is NotFound |
| Scenarios.WorkflowScenario | task-api/test_main.py:598-640 | create, read, update the status, delete, read again: the last read is NotFound |
| Scenarios.IndependenceScenario | task-api/test_main.py:643-670 | updating the second of three rows leaves the statuses of the other two as they were |
| Scenarios.MissingReadScenario | task-api/test_main.py:357-367 | reading an unknown id is NotFound naming the id |
| Scenarios.MissingUpdateScenario | task-api/test_main.py:448-458 | a valid update of an unknown id is NotFound naming the id |
| Scenarios.MissingDeleteScenario | task-api/test_main.py:511-518 | deleting an unknown id is NotFound naming the id |
| Scenarios.ValidationBeforeLookupScenario | task-api/main.py:305-309 | the update body is validated before the row is looked up, so a refused payload on an unknown id is Invalid, not NotFound |

## Left out

- HTTP, JSON and FastAPI plumbing: routing, serialization, status codes and
  the 422 error body are not modelled. Errors are the `ApiError` datatype.
- The root and health endpoints, the startup and shutdown hooks and the
  `uvicorn.run` block of `task-api/main.py` are I/O and configuration-derived
  constants, so they are not modelled.
- `task-api/database.py` (engine, sessions, `create_all`) and
  `task-api/config.py` (settings loading) are database and environment I/O,
  and are not part of this model. The store is the `TaskTable` object.
- Real datetimes: `datetime.utcnow` is the `now: nat` parameter.
- TaskTable.Create: the row's two `default_factory` clock readings are one
  reading `now`, so the model promises `created_at == updated_at`. Two
  successive readings could differ in the last digits.
- Regular-expression semantics: the status pattern is membership in the
  three-element set `Statuses`.
- Unicode: string length is sequence length. Code-point counting and
  normalisation are not modelled.
- Explicit `null` for status or priority in a create payload cannot be
  expressed by `TaskCreate`. Those fields are declared `str` and `int` with
  non-null defaults (`task-api/models.py:31-35`), so validation refuses an
  explicit `null` before the handler runs; the model has no value for it.
- Explicit `null` for the title, status or priority of an update payload is
  not modelled, and `TaskUpdate` excludes it. Those fields are declared
  optional (`task-api/models.py:106-112`), so such a payload passes
  validation and then fails inside the database at commit.
- TaskTable.Create: the id is promised only to be positive and held by no
  stored row. The storage engine's actual numbering is not modelled; for
  example, an engine may reuse the id of a deleted last row.
- ListTasks: `skip` and `limit` are natural numbers. A negative offset or
  limit behaves in an engine-specific way and is not modelled.
- ListTasks: the list query has no ORDER BY. The model returns insertion
  order, which is what the test suite relies on.
- Transactions, concurrent requests and last-write-wins between them are not
  modelled. Every operation is modelled as atomic and sequential.
- FilterByStatus: its own contract states only the length bound. Which rows
  it keeps is stated by FilterKeepsExactlyMatching, FilterAppend and
  FilterSnoc.
