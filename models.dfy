/** The `Todo` record of project/models.py and its JSON form. */
module Models {
  import opened Calendar
  import opened DateFormat
  import opened Wrappers

  /** One row of the todo table; optional columns are Options. */
  datatype Todo = Todo(
    id: int,
    content: string,
    completed: bool,
    important: bool,
    dueDate: Option<Day>,
    userId: int,
    createdAt: DateTime,
    completedAt: Option<DateTime>)

  /** A todo records a completion time exactly while it is completed. */
  predicate CompletionConsistent(t: Todo) {
    t.completed <==> t.completedAt.Some?
  }

  /**
   * `Todo(content=..., user_id=..., due_date=..., important=...)`: the
   * constructor arguments, the primary key the table hands out, and the
   * column defaults (completed False, completed_at NULL, created_at utcnow()).
   */
  function NewTodo(id: int, content: string, userId: int, dueDate: Option<Day>, important: bool, now: DateTime): Todo {
    Todo(id, content, false, important, dueDate, userId, now, None)
  }

  lemma NewTodoIsIncomplete(id: int, content: string, userId: int, dueDate: Option<Day>, important: bool, now: DateTime)
    ensures var t := NewTodo(id, content, userId, dueDate, important, now);
      !t.completed && t.completedAt == None && CompletionConsistent(t)
  {
  }

  /** The dictionary `to_dict` returns; None entries are JSON nulls. */
  datatype TodoDict = TodoDict(
    id: int,
    content: string,
    completed: bool,
    important: bool,
    dueDate: Option<string>,
    createdAt: string,
    completedAt: Option<string>)

  /** `Todo.to_dict`: dates as `YYYY-MM-DD`, timestamps as `YYYY-MM-DD HH:MM:SS`, missing values as None. */
  function ToDict(t: Todo): (d: TodoDict)
    ensures d.id == t.id && d.content == t.content
    ensures d.completed == t.completed && d.important == t.important
    ensures d.dueDate.None? <==> t.dueDate.None?
    ensures d.dueDate.Some? ==> |d.dueDate.value| == 10 && ParseDate(d.dueDate.value) == t.dueDate
    ensures |d.createdAt| == 19 && ParseTimestamp(d.createdAt) == Some(t.createdAt)
    ensures d.completedAt.None? <==> t.completedAt.None?
    ensures d.completedAt.Some? ==> |d.completedAt.value| == 19 && ParseTimestamp(d.completedAt.value) == t.completedAt
  {
    FormatThenParseTimestamp(t.createdAt);
    var due := if t.dueDate.Some? then (FormatThenParse(t.dueDate.value); Some(FormatDate(t.dueDate.value))) else None;
    var done := if t.completedAt.Some? then (FormatThenParseTimestamp(t.completedAt.value); Some(FormatTimestamp(t.completedAt.value))) else None;
    TodoDict(t.id, t.content, t.completed, t.important, due, FormatTimestamp(t.createdAt), done)
  }
}
