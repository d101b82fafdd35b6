/**
 * A task object as the client receives it. `completed` keeps whatever JSON
 * value the server sent. `priority` is absent or a string. Timestamps are
 * milliseconds, already parsed. The record has both `dueDate`, the field the
 * task form sends, and `DueDate`, the field the dashboard's date filters read.
 */
module ClientTask {
  import opened Wrappers
  import opened JsValue

  datatype TaskView = TaskView(
    title: Value,
    priority: Option<string>,
    completed: Value,
    createdAt: int,
    dueDate: Option<int>,
    DueDate: Option<int>)
}
