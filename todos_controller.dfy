/**
 * back/src/controllers/todos.controller.js: the five route handlers. Each
 * checks the request, calls the store at most once, and maps the outcome
 * to a status and a body. A handler here is a method over the store that
 * returns the response it would send; the store's failure is an input.
 *
 * `parseInt(req.params.id)` yields an integer or NaN. The driver sends
 * NaN as the text 'NaN', which PostgreSQL refuses for an integer column,
 * so for NaN the query throws and the handler answers 500; the model
 * takes that rejection as given rather than calling the store.
 */
module TodosController {
  import opened Common
  import opened TodoService

  /** The result of `parseInt` on the path segment. */
  datatype PathId = Id(n: int) | NaN

  /**
   * `parseInt(s)` in base 10: an optional sign, then as many decimal digits
   * as there are; no digit at all is NaN, and anything after the digits is
   * ignored.
   */
  function ParseInt(s: string): (r: PathId)
    ensures r.NaN? <==> DigitPrefix(Unsigned(s)) == []
    ensures r.Id? ==> r.n == (if |s| > 0 && s[0] == '-' then -1 else 1) * ParseDigits(DigitPrefix(Unsigned(s)))
  {
    var digits := DigitPrefix(Unsigned(s));
    var magnitude: int := if IsDigits(digits) then ParseDigits(digits) else 0;
    if |digits| == 0 then NaN
    else if |s| > 0 && s[0] == '-' then Id(-magnitude)
    else Id(magnitude)
  }

  /** `s` without its leading sign, if it has one. */
  function Unsigned(s: string): (r: string)
    ensures |s| > 0 && (s[0] == '-' || s[0] == '+') ==> r == s[1..]
    ensures !(|s| > 0 && (s[0] == '-' || s[0] == '+')) ==> r == s
  {
    if |s| > 0 && (s[0] == '-' || s[0] == '+') then s[1..] else s
  }

  /** A run of digits reads as its value. */
  lemma ParseIntOfDigits(t: string)
    requires |t| > 0 && IsDigits(t)
    ensures ParseInt(t) == Id(ParseDigits(t))
  {
    DigitPrefixOfDigits(t);
    assert t[0] != '-' && t[0] != '+';
    assert Unsigned(t) == t;
  }

  /** A minus sign and a run of digits read as the negated value. */
  lemma ParseIntOfNegated(t: string)
    requires |t| > 0 && IsDigits(t)
    ensures ParseInt("-" + t) == Id(-(ParseDigits(t) as int))
  {
    DigitPrefixOfDigits(t);
    var s := "-" + t;
    assert s[0] == '-' && s[1..] == t;
  }

  /** `parseInt` reads back the integer that a template string wrote. */
  lemma ParseIntToString(n: int)
    ensures ParseInt(IntToString(n)) == Id(n)
  {
    if n < 0 {
      ParseIntOfNegated(NatToString(-n));
      ParseNatToString(-n);
    } else {
      ParseIntOfDigits(NatToString(n));
      ParseNatToString(n);
    }
  }

  /** What `res.json(...)` or `res.send(...)` puts in the response. */
  datatype Body = RowList(rows: seq<Row>) | RowJson(row: Row) | Message(text: string) | NoContent

  datatype Response = Response(status: int, body: Body)

  const DefaultUserId := 1

  const FetchAllFailed := "Erreur lors de la récupération des tâches."
  const NotFound := "Tâche non trouvée"
  const FetchOneFailed := "Erreur lors de la récupération de la tâche par id."
  const TextRequired := "Le texte de la tâche est requis."
  const CreateFailed := "Erreur lors de la création de la tâche."
  const UpdateTextRequired := "Au moins le texte  est requis pour la mise à jour."
  const NothingUpdated := "Tâche non trouvée ou aucune modification effectuée."
  const UpdateFailed := "Erreur lors de la mise à jour de la tâche."
  const DeleteFailed := "Erreur lors de la suppression de la tâche."

  /** `text` is truthy: present and not the empty string. */
  predicate HasText(text: Option<string>) {
    text.Some? && text.value != ""
  }

  /** `userId || 1`: a missing or zero user id becomes the default. */
  function UserIdOrDefault(userId: Option<int>): (r: int)
    ensures userId.Some? && userId.value != 0 ==> r == userId.value
    ensures userId.None? || userId.value == 0 ==> r == DefaultUserId
  {
    match userId
    case Some(u) => if u != 0 then u else DefaultUserId
    case None => DefaultUserId
  }

  /** `GET /`: 200 with every row by ascending id, or 500 when the store throws. */
  method GetAllTodos(store: TodoTable, failure: Option<Error>) returns (res: Response)
    requires store.Valid()
    ensures failure.None? ==> res.status == 200 && res.body.RowList? && Listing(store.rows, res.body.rows)
    ensures failure.Some? ==> res == Response(500, Message(FetchAllFailed))
  {
    var found := store.FindAll(failure);
    match found {
      case Done(rows) => res := Response(200, RowList(rows));
      case Threw(_) => res := Response(500, Message(FetchAllFailed));
    }
  }

  /** `GET /:id`: 200 with the row, 404 when no row has that id, 500 when the query throws. */
  method GetTodoById(store: TodoTable, param: string, failure: Option<Error>) returns (res: Response)
    requires store.Valid()
    ensures ParseInt(param).NaN? || failure.Some? ==> res == Response(500, Message(FetchOneFailed))
    ensures ParseInt(param).Id? && failure.None? && ParseInt(param).n in store.rows ==> res == Response(200, RowJson(store.rows[ParseInt(param).n]))
    ensures ParseInt(param).Id? && failure.None? && ParseInt(param).n !in store.rows ==> res == Response(404, Message(NotFound))
  {
    var id := ParseInt(param);
    match id {
      case NaN =>
        res := Response(500, Message(FetchOneFailed));
      case Id(n) =>
        var found := store.FindById(n, failure);
        match found {
          case Done(Some(row)) => res := Response(200, RowJson(row));
          case Done(None) => res := Response(404, Message(NotFound));
          case Threw(_) => res := Response(500, Message(FetchOneFailed));
        }
    }
  }

  /**
   * `POST /`: a falsy text is refused with 400 before the store is touched;
   * otherwise the row is inserted with `userId || 1` and returned with 201.
   */
  method CreateTodo(store: TodoTable, text: Option<string>, userId: Option<int>, failure: Option<Error>)
    returns (res: Response)
    requires store.Valid()
    modifies store
    ensures store.Valid()
    ensures !HasText(text) ==> res == Response(400, Message(TextRequired))
    ensures !HasText(text) || failure.Some? ==> store.rows == old(store.rows) && store.nextId == old(store.nextId)
    ensures HasText(text) && failure.Some? ==> res == Response(500, Message(CreateFailed))
    ensures HasText(text) && failure.None? ==>
              var row := Row(old(store.nextId), text.value, UserIdOrDefault(userId));
              && old(store.nextId) !in old(store.rows)
              && res == Response(201, RowJson(row))
              && store.rows == old(store.rows)[row.id := row]
  {
    if !HasText(text) {
      return Response(400, Message(TextRequired));
    }
    var created := store.Create(text.value, UserIdOrDefault(userId), failure);
    match created {
      case Done(row) => res := Response(201, RowJson(row));
      case Threw(_) => res := Response(500, Message(CreateFailed));
    }
  }

  /**
   * `PUT /:id`: only a missing text is refused (an empty one is forwarded);
   * then only the text is updated, with 200 and the row, or 404 when no row
   * has that id.
   */
  method UpdateTodo(store: TodoTable, param: string, text: Option<string>, failure: Option<Error>)
    returns (res: Response)
    requires store.Valid()
    modifies store
    ensures store.Valid() && store.nextId == old(store.nextId)
    ensures text.None? ==> res == Response(400, Message(UpdateTextRequired))
    ensures text.Some? && (ParseInt(param).NaN? || failure.Some?) ==> res == Response(500, Message(UpdateFailed))
    ensures text.Some? && ParseInt(param).Id? && failure.None? && ParseInt(param).n !in old(store.rows) ==>
              res == Response(404, Message(NothingUpdated))
    ensures text.Some? && ParseInt(param).Id? && failure.None? && ParseInt(param).n in old(store.rows) ==>
              var row := old(store.rows)[ParseInt(param).n].(text := text.value);
              res == Response(200, RowJson(row)) && store.rows == old(store.rows)[ParseInt(param).n := row]
    ensures !(text.Some? && ParseInt(param).Id? && failure.None? && ParseInt(param).n in old(store.rows)) ==> store.rows == old(store.rows)
  {
    if text.None? {
      return Response(400, Message(UpdateTextRequired));
    }
    var id := ParseInt(param);
    match id {
      case NaN =>
        res := Response(500, Message(UpdateFailed));
      case Id(n) =>
        var updated := store.Update(n, text.value, failure);
        match updated {
          case Done(Some(row)) => res := Response(200, RowJson(row));
          case Done(None) => res := Response(404, Message(NothingUpdated));
          case Threw(_) => res := Response(500, Message(UpdateFailed));
        }
    }
  }

  /** `DELETE /:id`: 204 with no body when a row was removed, 404 when none matched. */
  method DeleteTodo(store: TodoTable, param: string, failure: Option<Error>) returns (res: Response)
    requires store.Valid()
    modifies store
    ensures store.Valid() && store.nextId == old(store.nextId)
    ensures ParseInt(param).NaN? || failure.Some? ==> res == Response(500, Message(DeleteFailed))
    ensures ParseInt(param).Id? && failure.None? && ParseInt(param).n in old(store.rows) ==>
              res == Response(204, NoContent) && store.rows == old(store.rows) - {ParseInt(param).n}
    ensures ParseInt(param).Id? && failure.None? && ParseInt(param).n !in old(store.rows) ==> res == Response(404, Message(NotFound))
    ensures !(ParseInt(param).Id? && failure.None? && ParseInt(param).n in old(store.rows)) ==> store.rows == old(store.rows)
  {
    var id := ParseInt(param);
    match id {
      case NaN =>
        res := Response(500, Message(DeleteFailed));
      case Id(n) =>
        var deleted := store.Delete(n, failure);
        match deleted {
          case Done(Some(_)) => res := Response(204, NoContent);
          case Done(None) => res := Response(404, Message(NotFound));
          case Threw(_) => res := Response(500, Message(DeleteFailed));
        }
    }
  }

  /** Deleting an existing row and then reading it back answers 204, then 404. */
  method DeleteThenGet(store: TodoTable, n: int) returns (deleted: Response, read: Response)
    requires store.Valid() && n in store.rows
    modifies store
    ensures deleted.status == 204 && read.status == 404
    ensures store.rows == old(store.rows) - {n}
  {
    ParseIntToString(n);
    deleted := DeleteTodo(store, IntToString(n), None);
    read := GetTodoById(store, IntToString(n), None);
  }

  /**
   * The round trip on an empty table: create "buy milk", rename it, delete
   * it, read it back.
   */
  method Lifecycle() returns (created: Response, updated: Response, deleted: Response, read: Response)
    ensures created == Response(201, RowJson(Row(1, "buy milk", DefaultUserId)))
    ensures updated == Response(200, RowJson(Row(1, "buy oat milk", DefaultUserId)))
    ensures deleted == Response(204, NoContent)
    ensures read == Response(404, Message(NotFound))
  {
    var store := new TodoTable();
    created := CreateTodo(store, Some("buy milk"), None, None);
    ParseIntToString(1);
    updated := UpdateTodo(store, "1", Some("buy oat milk"), None);
    deleted := DeleteTodo(store, "1", None);
    read := GetTodoById(store, "1", None);
  }
}
