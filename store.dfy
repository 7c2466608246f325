/**
 * The todo table and the request handlers of project/main.py (the handlers
 * of app.py are the same code): add, edit, toggle completion, toggle
 * importance, delete and the ordered listing. The caller's user id is a
 * parameter, and so is the clock for the handlers that read it. A handler
 * that changes the table answers with a Response; the listing is a sequence.
 */
module Store {
  import opened Calendar
  import opened DateFormat
  import opened Wrappers
  import opened Models

  /**
   * Why a handler refused. In the JSON handlers: 400 for the first three, then
   * 404 and 403. In edit: the first three flash a message and show the form
   * again, NotFound is the 404, and Forbidden flashes a message and redirects.
   */
  datatype Failure = MissingContent | InvalidDateFormat | PastDueDate | NotFound | Forbidden

  datatype Response<T> = Done(value: T) | Rejected(failure: Failure)

  /** Python's `not s` for a value read from a request: absent or empty. */
  predicate Blank(s: Option<string>) {
    s.None? || s.value == ""
  }

  /**
   * The input checks shared by add_todo and edit_todo, in their order: the
   * content must be present, and a non-empty due date must parse as
   * `%Y-%m-%d` and must not lie before today. On success, the due date to
   * store (None when the field was left empty).
   */
  function ValidateInput(content: Option<string>, dueDate: Option<string>, today: Day): (r: Result<Option<Day>, Failure>)
    ensures r == Err(MissingContent) <==> Blank(content)
    ensures r == Err(InvalidDateFormat) <==> !Blank(content) && !Blank(dueDate) && ParseDate(dueDate.value).None?
    ensures r == Err(PastDueDate) <==>
      !Blank(content) && !Blank(dueDate) && ParseDate(dueDate.value).Some? && ParseDate(dueDate.value).value < today
    ensures r == Ok(None) <==> !Blank(content) && Blank(dueDate)
    ensures r.Ok? && r.value.Some? ==> today <= r.value.value && FormatDate(r.value.value) == dueDate.value
    ensures !Blank(content) && !Blank(dueDate) && ParseDate(dueDate.value).Some? && today <= ParseDate(dueDate.value).value ==>
      r == Ok(ParseDate(dueDate.value))
  {
    if Blank(content) then Err(MissingContent)
    else if Blank(dueDate) then Ok(None)
    else match ParseDate(dueDate.value)
      case None => Err(InvalidDateFormat)
      case Some(d) =>
        if d < today then Err(PastDueDate)
        else
          ParseThenFormat(dueDate.value, d);
          Ok(Some(d))
  }

  /** `Todo.query.get_or_404` followed by the ownership check. */
  function Access(todos: map<int, Todo>, uid: int, id: int): Option<Failure> {
    if id !in todos then Some(NotFound)
    else if todos[id].userId != uid then Some(Forbidden)
    else None
  }

  /** complete_todo on one row: flip `completed`, stamp or clear `completed_at`. */
  function ToggledCompletion(t: Todo, now: DateTime): Todo {
    var completed := !t.completed;
    t.(completed := completed, completedAt := if completed then Some(now) else None)
  }

  /** important_todo on one row. */
  function ToggledImportance(t: Todo): Todo {
    t.(important := !t.important)
  }

  /** edit_todo on one row: content, importance and due date are overwritten. */
  function Edited(t: Todo, content: string, important: bool, dueDate: Option<Day>): Todo {
    t.(content := content, important := important, dueDate := dueDate)
  }

  lemma ToggledCompletionConsistent(t: Todo, now: DateTime)
    ensures CompletionConsistent(ToggledCompletion(t, now))
    ensures ToggledCompletion(t, now).completed == !t.completed
    ensures ToggledCompletion(t, now).completedAt == (if t.completed then None else Some(now))
    ensures ToggledCompletion(t, now).(completed := t.completed, completedAt := t.completedAt) == t
  {
  }

  /** Completing and then un-completing an open todo gives back the todo exactly. */
  lemma ToggledCompletionTwice(t: Todo, now1: DateTime, now2: DateTime)
    requires !t.completed && CompletionConsistent(t)
    ensures ToggledCompletion(ToggledCompletion(t, now1), now2) == t
  {
  }

  lemma ToggledImportanceInvolution(t: Todo)
    ensures ToggledImportance(ToggledImportance(t)) == t
    ensures ToggledImportance(t).(important := t.important) == t
  {
  }

  lemma EditedKeepsCompletion(t: Todo, content: string, important: bool, dueDate: Option<Day>)
    ensures var e := Edited(t, content, important, dueDate);
      e.completed == t.completed && e.completedAt == t.completedAt && e.createdAt == t.createdAt
      && e.userId == t.userId && e.id == t.id && (CompletionConsistent(t) ==> CompletionConsistent(e))
  {
  }

  // ---- Listing order ----

  /** The ORDER BY of project/main.py's index (Current) and of app.py's index (Legacy). */
  datatype Ordering = Current | Legacy

  function Flag(b: bool): int { if b then 1 else 0 }

  /** A timestamp as seconds since day 0, so that later times compare greater. */
  function Seconds(t: DateTime): int {
    t.day * 86400 + t.hour * 3600 + t.minute * 60 + t.second
  }

  /**
   * The column list of the ORDER BY, each column made ascending:
   * Current: completed, due_date IS NULL, due_date, important DESC, created_at DESC;
   * Legacy: completed, important DESC, due_date IS NULL, due_date, id.
   */
  function SortKey(order: Ordering, t: Todo): (k: seq<int>)
    ensures |k| == 5
  {
    var due := if t.dueDate.Some? then t.dueDate.value else 0;
    match order
    case Current => [Flag(t.completed), Flag(t.dueDate.None?), due, -Flag(t.important), -Seconds(t.createdAt)]
    case Legacy => [Flag(t.completed), -Flag(t.important), Flag(t.dueDate.None?), due, t.id]
  }

  /** Lexicographic order on keys. */
  predicate LexLe(a: seq<int>, b: seq<int>) {
    |a| == 0 || (|b| > 0 && (a[0] < b[0] || (a[0] == b[0] && LexLe(a[1..], b[1..]))))
  }

  lemma {:induction false} LexLeTotal(a: seq<int>, b: seq<int>)
    requires |a| == |b|
    ensures LexLe(a, b) || LexLe(b, a)
  {
    if |a| > 0 && a[0] == b[0] {
      LexLeTotal(a[1..], b[1..]);
    }
  }

  lemma {:induction false} LexLeTransitive(a: seq<int>, b: seq<int>, c: seq<int>)
    requires |a| == |b| == |c|
    requires LexLe(a, b) && LexLe(b, c)
    ensures LexLe(a, c)
  {
    if |a| > 0 && a[0] == b[0] == c[0] {
      LexLeTransitive(a[1..], b[1..], c[1..]);
    }
  }

  /** a may be listed before b. */
  predicate Precedes(order: Ordering, a: Todo, b: Todo) {
    LexLe(SortKey(order, a), SortKey(order, b))
  }

  predicate Sorted(s: seq<Todo>, order: Ordering) {
    forall i, j :: 0 <= i < j < |s| ==> Precedes(order, s[i], s[j])
  }

  /** Putting x at position j of a sorted s keeps it sorted when x fits between its neighbours. */
  lemma InsertKeepsSorted(s: seq<Todo>, j: nat, x: Todo, order: Ordering)
    requires Sorted(s, order) && j <= |s|
    requires forall k :: 0 <= k < j ==> Precedes(order, s[k], x)
    requires j < |s| ==> Precedes(order, x, s[j])
    ensures Sorted(s[..j] + [x] + s[j..], order)
  {
    var r := s[..j] + [x] + s[j..];
    forall a, b | 0 <= a < b < |r|
      ensures Precedes(order, r[a], r[b])
    {
      if b > j && a != j {
        assert r[b] == s[b - 1];
        assert r[a] == s[if a < j then a else a - 1];
      } else if a == j {
        assert r[b] == s[b - 1];
        if b - 1 > j {
          LexLeTransitive(SortKey(order, x), SortKey(order, s[j]), SortKey(order, s[b - 1]));
        }
      }
    }
  }

  /** The database's ORDER BY, as an insertion sort; rows that tie keep no particular order. */
  method OrderBy(rows: seq<Todo>, order: Ordering) returns (r: seq<Todo>)
    ensures Sorted(r, order)
    ensures multiset(r) == multiset(rows)
  {
    r := [];
    var i := 0;
    while i < |rows|
      invariant 0 <= i <= |rows|
      invariant Sorted(r, order)
      invariant multiset(r) == multiset(rows[..i])
    {
      r := Insert(r, rows[i], order);
      assert rows[..i + 1] == rows[..i] + [rows[i]];
      i := i + 1;
    }
    assert rows[..i] == rows;
  }

  /** One step of the insertion sort: x goes before the first row it precedes. */
  method Insert(s: seq<Todo>, x: Todo, order: Ordering) returns (r: seq<Todo>)
    requires Sorted(s, order)
    ensures Sorted(r, order)
    ensures multiset(r) == multiset(s) + multiset{x}
  {
    var j := 0;
    while j < |s| && Precedes(order, s[j], x)
      invariant 0 <= j <= |s|
      invariant forall k :: 0 <= k < j ==> Precedes(order, s[k], x)
    {
      j := j + 1;
    }
    if j < |s| {
      LexLeTotal(SortKey(order, x), SortKey(order, s[j]));
    }
    InsertKeepsSorted(s, j, x, order);
    assert s == s[..j] + s[j..];
    r := s[..j] + [x] + s[j..];
  }

  /** The todo table: rows by primary key, and the next key the table will hand out. */
  class TodoStore {
    var todos: map<int, Todo>
    var nextId: int

    ghost predicate Valid()
      reads this
    {
      nextId >= 1 &&
      forall id :: id in todos ==>
        todos[id].id == id && 1 <= id < nextId && todos[id].content != "" && CompletionConsistent(todos[id])
    }

    constructor ()
      ensures Valid() && todos == map[] && nextId == 1
    {
      todos := map[];
      nextId := 1;
    }

    /** add_todo. */
    method Add(uid: int, content: Option<string>, dueDate: Option<string>, important: bool, now: DateTime)
      returns (r: Response<TodoDict>)
      requires Valid()
      modifies this
      ensures Valid()
      ensures match ValidateInput(content, dueDate, now.day)
        case Err(f) => r == Rejected(f) && todos == old(todos) && nextId == old(nextId)
        case Ok(due) =>
          var t := NewTodo(old(nextId), content.value, uid, due, important, now);
          old(nextId) !in old(todos) && todos == old(todos)[old(nextId) := t] && nextId == old(nextId) + 1
          && r == Done(ToDict(t))
    {
      var v := ValidateInput(content, dueDate, now.day);
      if v.Err? {
        return Rejected(v.error);
      }
      var t := NewTodo(nextId, content.value, uid, v.value, important, now);
      todos := todos[nextId := t];
      nextId := nextId + 1;
      r := Done(ToDict(t));
    }

    /** edit_todo on a POST. */
    method Edit(uid: int, id: int, content: Option<string>, dueDate: Option<string>, important: bool, today: Day)
      returns (r: Response<()>)
      requires Valid()
      modifies this
      ensures Valid() && nextId == old(nextId)
      ensures match Access(old(todos), uid, id)
        case Some(f) => r == Rejected(f) && todos == old(todos)
        case None =>
          match ValidateInput(content, dueDate, today)
          case Err(f) => r == Rejected(f) && todos == old(todos)
          case Ok(due) =>
            r == Done(()) && todos == old(todos)[id := Edited(old(todos)[id], content.value, important, due)]
    {
      var denied := Access(todos, uid, id);
      if denied.Some? {
        return Rejected(denied.value);
      }
      var v := ValidateInput(content, dueDate, today);
      if v.Err? {
        return Rejected(v.error);
      }
      todos := todos[id := Edited(todos[id], content.value, important, v.value)];
      r := Done(());
    }

    /** complete_todo; the answer carries the new `completed`. */
    method Complete(uid: int, id: int, now: DateTime) returns (r: Response<bool>)
      requires Valid()
      modifies this
      ensures Valid() && nextId == old(nextId)
      ensures match Access(old(todos), uid, id)
        case Some(f) => r == Rejected(f) && todos == old(todos)
        case None =>
          todos == old(todos)[id := ToggledCompletion(old(todos)[id], now)]
          && r == Done(!old(todos)[id].completed)
    {
      var denied := Access(todos, uid, id);
      if denied.Some? {
        return Rejected(denied.value);
      }
      var t := ToggledCompletion(todos[id], now);
      todos := todos[id := t];
      r := Done(t.completed);
    }

    /** delete_todo. */
    method Delete(uid: int, id: int) returns (r: Response<()>)
      requires Valid()
      modifies this
      ensures Valid() && nextId == old(nextId)
      ensures match Access(old(todos), uid, id)
        case Some(f) => r == Rejected(f) && todos == old(todos)
        case None => r == Done(()) && todos == old(todos) - {id}
    {
      var denied := Access(todos, uid, id);
      if denied.Some? {
        return Rejected(denied.value);
      }
      todos := todos - {id};
      r := Done(());
    }

    /** important_todo; the answer carries the new `important`. */
    method Important(uid: int, id: int) returns (r: Response<bool>)
      requires Valid()
      modifies this
      ensures Valid() && nextId == old(nextId)
      ensures match Access(old(todos), uid, id)
        case Some(f) => r == Rejected(f) && todos == old(todos)
        case None =>
          todos == old(todos)[id := ToggledImportance(old(todos)[id])]
          && r == Done(!old(todos)[id].important)
    {
      var denied := Access(todos, uid, id);
      if denied.Some? {
        return Rejected(denied.value);
      }
      var t := ToggledImportance(todos[id]);
      todos := todos[id := t];
      r := Done(t.important);
    }

    /** The listing of index: the caller's rows, each once, in the given ORDER BY. */
    method Index(uid: int, order: Ordering) returns (r: seq<Todo>)
      requires Valid()
      ensures Sorted(r, order)
      ensures forall t :: multiset(r)[t] == (if t.id in todos && todos[t.id] == t && t.userId == uid then 1 else 0)
    {
      var rows: seq<Todo> := [];
      for id := 1 to nextId
        invariant forall t :: multiset(rows)[t] ==
                               (if t.id in todos && t.id < id && todos[t.id] == t && t.userId == uid then 1 else 0)
      {
        if id in todos && todos[id].userId == uid {
          rows := rows + [todos[id]];
        }
      }
      r := OrderBy(rows, order);
    }
  }
}
