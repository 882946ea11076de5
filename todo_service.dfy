/** The toy todo service (Class-2/main.py): a constant listing of four todo
    items and a lookup by id that answers with an error shape for ids below 1. */
module TodoService {

  /** One entry of the listing: `{"id": ..., "task": ...}`. */
  datatype TodoItem = TodoItem(id: int, task: string)

  /** The two shapes the lookup answers with: `{"error": ...}` and
      `{"id": ..., "task": ...}`. */
  datatype Reply = ErrorReply(error: string) | TaskReply(id: int, task: string)

  /** todo_app: the fixed listing, numbered 1 to 4 in order. */
  function TodoApp(): (r: seq<TodoItem>)
    ensures |r| == 4
    ensures forall i :: 0 <= i < |r| ==> r[i].id == i + 1
  {
    [TodoItem(1, "Buy groceries"), TodoItem(2, "Walk the dog"),
     TodoItem(3, "Read a book"), TodoItem(4, "Write code")]
  }

  /** The listing's ids are distinct, so each names one item. */
  lemma TodoIdsDistinct(i: nat, j: nat)
    requires i < j < |TodoApp()|
    ensures TodoApp()[i].id != TodoApp()[j].id
  {
  }

  /** The task texts of the listing, in order. */
  lemma TodoTasks()
    ensures |TodoApp()| == 4
    ensures TodoApp()[0].task == "Buy groceries" && TodoApp()[1].task == "Walk the dog"
    ensures TodoApp()[2].task == "Read a book" && TodoApp()[3].task == "Write code"
  {
  }

  /** tasks_2: an id below 1 gets the error shape with an empty message; any
      other id is echoed back with the text "Go jogging". */
  function Tasks2(taskId: int): (r: Reply)
    ensures r.ErrorReply? <==> taskId < 1
    ensures r.ErrorReply? ==> r.error == ""
    ensures r.TaskReply? ==> r.id == taskId && r.task == "Go jogging"
  {
    if taskId < 1 then ErrorReply("") else TaskReply(taskId, "Go jogging")
  }

  /** The success text does not depend on the id asked for. */
  lemma Tasks2TextIndependentOfId(a: int, b: int)
    requires a >= 1 && b >= 1
    ensures Tasks2(a).TaskReply? && Tasks2(b).TaskReply? && Tasks2(a).task == Tasks2(b).task
  {
  }
}
