/**
 * home.component.ts: the todo page. It shows the list fetched from the API,
 * opens the form to add or edit a todo, and deletes a todo once the
 * confirmation dialog has answered. `todos$` is represented by the list
 * its Observable delivers (None before the first load); each request's
 * outcome and the dialog's answer are inputs.
 */
module Home {
  import opened Common
  import opened TodoModel
  import opened HomeService

  datatype FakeUser = FakeUser(id: int, userName: string, email: string)

  const FakeUsers: seq<FakeUser> := [
    FakeUser(1, "User 1", "user1@gmail.com"),
    FakeUser(2, "User 2", "user2@gmail.com"),
    FakeUser(3, "User 3", "user3@gmail.com")
  ]

  /** What the list shows after a load: the fetched todos, or none when the fetch failed. */
  function Loaded(fetched: Outcome<seq<Todo>>): (r: seq<Todo>)
    ensures fetched.Done? ==> r == fetched.value
    ensures fetched.Threw? ==> r == []
  {
    match fetched
    case Done(todos) => todos
    case Threw(_) => []
  }

  class HomeComponent {
    var todos: Option<seq<Todo>>
    var openAddItem: bool
    var selectedTodo: TodoDraft
    var fakeListUser: seq<FakeUser>

    /** The field initialisers, then each fake user pushed onto `fakeListUser` in turn. */
    constructor ()
      ensures fakeListUser == FakeUsers
      ensures todos == None && !openAddItem && selectedTodo == EmptyDraft
    {
      todos := None;
      openAddItem := false;
      selectedTodo := EmptyDraft;
      fakeListUser := [];
      new;
      var i := 0;
      while i < |FakeUsers|
        invariant 0 <= i <= |FakeUsers|
        invariant fakeListUser == FakeUsers[..i]
        invariant todos == None && !openAddItem && selectedTodo == EmptyDraft
      {
        fakeListUser := fakeListUser + [FakeUsers[i]];
        i := i + 1;
      }
    }

    /** `loadTodos`: a failed fetch shows an empty list rather than an error. */
    method LoadTodos(fetched: Outcome<seq<Todo>>)
      modifies this
      ensures todos == Some(Loaded(fetched))
      ensures openAddItem == old(openAddItem) && selectedTodo == old(selectedTodo)
      ensures fakeListUser == old(fakeListUser)
    {
      todos := Some(Loaded(fetched));
    }

    /** `addItem`: an empty draft, and the form opens. */
    method AddItem()
      modifies this
      ensures selectedTodo == EmptyDraft && openAddItem
      ensures todos == old(todos) && fakeListUser == old(fakeListUser)
    {
      selectedTodo := EmptyDraft;
      openAddItem := true;
    }

    /** `updateItem`: the todo to edit, and the form opens. */
    method UpdateItem(todo: TodoDraft)
      modifies this
      ensures selectedTodo == todo && openAddItem
      ensures todos == old(todos) && fakeListUser == old(fakeListUser)
    {
      selectedTodo := todo;
      openAddItem := true;
    }

    /** `closeTodoForm`: the form closes and the list is reloaded. */
    method CloseTodoForm(fetched: Outcome<seq<Todo>>)
      modifies this
      ensures !openAddItem && todos == Some(Loaded(fetched))
      ensures selectedTodo == old(selectedTodo) && fakeListUser == old(fakeListUser)
    {
      openAddItem := false;
      LoadTodos(fetched);
    }

    /**
     * `deleteItem` once the dialog has closed with `result` (`true` for
     * confirm, `false` for cancel, `undefined` when dismissed). Only `true`
     * sends the delete; a successful delete reloads the list, a failed one
     * is swallowed and nothing is reloaded.
     */
    method DeleteItem(todo: Todo, result: Option<bool>, deleted: Outcome<()>, fetched: Outcome<seq<Todo>>)
      returns (sent: Option<HttpRequest>)
      modifies this
      ensures result != Some(true) ==> sent == None && todos == old(todos)
      ensures result == Some(true) ==> sent == Some(DeleteRequest(todo.id))
      ensures result == Some(true) && deleted.Done? ==> todos == Some(Loaded(fetched))
      ensures result == Some(true) && deleted.Threw? ==> todos == old(todos)
      ensures openAddItem == old(openAddItem) && selectedTodo == old(selectedTodo)
      ensures fakeListUser == old(fakeListUser)
    {
      sent := None;
      if result == Some(true) {
        sent := Some(DeleteRequest(todo.id));
        match deleted {
          case Done(_) => LoadTodos(fetched);
          case Threw(_) =>
        }
      }
    }
  }
}
