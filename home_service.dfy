/**
 * home.service.ts: the client's gateway to the todo API. `get` looks a
 * todo up in the local list and hands out a copy; `getAll`, `add`,
 * `update` and `delete` each build one HTTP request, represented here by
 * the request itself (method, URL, body) rather than by its Observable.
 */
module HomeService {
  import opened Common
  import opened TodoModel
  import opened TodosController

  const ApiUrl := "http://localhost:3000/api/todos"

  datatype HttpRequest =
    | Get(url: string)
    | Post(url: string, body: TodoDraft)
    | Put(url: string, body: TodoDraft)
    | Delete(url: string)

  /** What `${id}` writes for an id that may be `undefined`. */
  function IdSegment(id: Option<int>): (r: string)
    ensures id.Some? ==> r == IntToString(id.value)
    ensures id.None? ==> r == "undefined"
  {
    match id
    case Some(n) => IntToString(n)
    case None => "undefined"
  }

  /** `getAll`: a GET of the collection. */
  function GetAllRequest(): (r: HttpRequest)
    ensures r == Get(ApiUrl)
  {
    Get(ApiUrl)
  }

  /** `add`: the draft is posted, unchanged, to the collection. */
  function AddRequest(newTodoData: TodoDraft): (r: HttpRequest)
    ensures r.Post? && r.url == ApiUrl && r.body == newTodoData
  {
    Post(ApiUrl, newTodoData)
  }

  /** `delete`: a DELETE of the todo's own URL. */
  function DeleteRequest(id: int): (r: HttpRequest)
    ensures r.Delete? && r.url == ApiUrl + "/" + IntToString(id)
  {
    Delete(ApiUrl + "/" + IntToString(id))
  }

  /** `update`: a PUT of the draft's URL whose body carries the text and nothing else. */
  function UpdateRequest(updatedTodo: TodoDraft): (r: HttpRequest)
    ensures r.Put? && r.url == ApiUrl + "/" + IdSegment(updatedTodo.id)
    ensures r.body == TodoDraft(None, updatedTodo.text, None)
  {
    Put(ApiUrl + "/" + IdSegment(updatedTodo.id), TodoDraft(None, updatedTodo.text, None))
  }

  /** Distinct ids give distinct DELETE URLs. */
  lemma DeleteUrlInjective(a: int, b: int)
    requires DeleteRequest(a).url == DeleteRequest(b).url
    ensures a == b
  {
    AppendCancel(ApiUrl + "/", IntToString(a), IntToString(b));
    IntToStringInjective(a, b);
  }

  /** The text of an integer never starts with a letter. */
  lemma TextStartsWithSignOrDigit(n: int)
    ensures IntToString(n)[0] == '-' || '0' <= IntToString(n)[0] <= '9'
  {
    SignOfText(n);
    if n >= 0 {
      assert IsDigits(NatToString(n));
    }
  }

  /**
   * An update goes to the URL a delete of `n` would use exactly when the
   * draft carries the id `n`; a draft without an id goes to '/undefined',
   * which the server reads as NaN.
   */
  lemma UpdateUrlMatchesDelete(updatedTodo: TodoDraft, n: int)
    ensures UpdateRequest(updatedTodo).url == DeleteRequest(n).url <==> updatedTodo.id == Some(n)
    ensures updatedTodo.id.None? ==> ParseInt(IdSegment(updatedTodo.id)).NaN?
  {
    var prefix := ApiUrl + "/";
    if UpdateRequest(updatedTodo).url == DeleteRequest(n).url {
      AppendCancel(prefix, IdSegment(updatedTodo.id), IntToString(n));
      match updatedTodo.id {
        case Some(m) => IntToStringInjective(m, n);
        case None =>
          TextStartsWithSignOrDigit(n);
      }
    }
    assert DigitPrefix("undefined") == [];
  }

  class HomeService {
    /** The local list `get` searches. */
    var todoList: seq<Todo>

    /** Reading the list from browser storage is not part of this model. */
    constructor ()
      ensures todoList == []
    {
      todoList := [];
    }

    /**
     * `get`: a copy of the first todo with that id, or `undefined`. The list
     * itself is only read.
     */
    function Get(id: int): (r: Option<Todo>)
      reads this
      ensures r.None? <==> forall i :: 0 <= i < |todoList| ==> todoList[i].id != id
      ensures r.Some? ==> exists i :: 0 <= i < |todoList| && todoList[i].id == id
                            && r.value == todoList[i]
                            && forall k :: 0 <= k < i ==> todoList[k].id != id
    {
      match FindFirst(todoList, (t: Todo) => t.id == id)
      case Some(t) => Some(Copy(t))
      case None => None
    }
  }
}
