/** The window events the core dispatches, kept as an appended log. */
module Events {
  import opened TodoTypes

  /** The `detail` of a `todoChanged` event. */
  datatype ChangeDetail =
    | SavedTodo(todo: TodoItem)  // saveTodo: the saved record
    | NoDetail                   // deleteTodo
    | ImportedTag                // importTodosData: the string "imported"

  datatype Event =
    | AppInfo(message: string)
    | AppError(message: string)
    | TodoChanged(detail: ChangeDetail)
}
