/**
 * todo.model.ts: a todo item on the client. The `Date` is represented by
 * its time value (milliseconds since the epoch), which is all `copy`
 * carries over; the current time, read by `new Date()`, is a parameter.
 * `Partial<Todo>`, the shape the form and the home page pass around, has
 * every field optional.
 */
module TodoModel {
  import opened Common

  datatype Todo = Todo(id: int, text: string, createAt: int)

  /** `Partial<Todo>`: a missing field is `undefined`. */
  datatype TodoDraft = TodoDraft(id: Option<int>, text: Option<string>, createAt: Option<int>)

  /** `{}` */
  const EmptyDraft := TodoDraft(None, None, None)

  /**
   * `new Todo(id?, text?, createAt?)`: each argument is stored as given; a
   * missing id is -1, a missing text '', a missing date the current time.
   */
  function NewTodo(id: Option<int>, text: Option<string>, createAt: Option<int>, now: int): (t: Todo)
    ensures id.Some? ==> t.id == id.value
    ensures id.None? ==> t.id == -1
    ensures text.Some? ==> t.text == text.value
    ensures text.None? ==> t.text == ""
    ensures createAt.Some? ==> t.createAt == createAt.value
    ensures createAt.None? ==> t.createAt == now
  {
    Todo(id.GetOr(-1), text.GetOr(""), createAt.GetOr(now))
  }

  /**
   * `copy`: a new Todo built from this one's id, text and date value. The
   * copy agrees with the original on every field.
   */
  function Copy(t: Todo): (c: Todo)
    ensures c.id == t.id && c.text == t.text && c.createAt == t.createAt
  {
    NewTodo(Some(t.id), Some(t.text), Some(t.createAt), t.createAt)
  }

  /** A Todo seen as a `Partial<Todo>`: every field present. */
  function AsDraft(t: Todo): (d: TodoDraft)
    ensures d.id == Some(t.id) && d.text == Some(t.text) && d.createAt == Some(t.createAt)
  {
    TodoDraft(Some(t.id), Some(t.text), Some(t.createAt))
  }
}
