/**
 * back/src/services/todo.service.js: one parameterised statement per
 * operation against the `todos(id serial primary key, text, "userId")` table.
 * The table is a map from id to row, and the `serial` sequence is the next
 * id it hands out. A failed query (the driver rejecting, the connection
 * lost) is an input: the operation then changes nothing and rethrows that
 * error unchanged.
 */
/** `ORDER BY id ASC` over the keys of a table whose ids lie in a known range. */
module KeyOrder {

  /** The members of `ks` in `[lo, hi)`, in strictly ascending order. */
  function AscendingIn(ks: set<int>, lo: int, hi: int): (r: seq<int>)
    ensures forall i, j :: 0 <= i < j < |r| ==> r[i] < r[j]
    ensures forall i :: 0 <= i < |r| ==> r[i] in ks && lo <= r[i] < hi
    ensures forall k :: k in ks && lo <= k < hi ==> k in r
    decreases hi - lo
  {
    if hi <= lo then []
    else if lo in ks then [lo] + AscendingIn(ks, lo + 1, hi)
    else AscendingIn(ks, lo + 1, hi)
  }
}

module TodoService {
  import opened Common
  import opened KeyOrder

  datatype Row = Row(id: int, text: string, userId: int)

  /** The rows stored under `ids`, in the order of `ids`. */
  function RowsOf(rows: map<int, Row>, ids: seq<int>): (r: seq<Row>)
    requires forall i :: 0 <= i < |ids| ==> ids[i] in rows
    ensures |r| == |ids|
    ensures forall i :: 0 <= i < |ids| ==> r[i] == rows[ids[i]]
  {
    if ids == [] then [] else [rows[ids[0]]] + RowsOf(rows, ids[1..])
  }

  /** `list` holds every row of the table once, by strictly ascending id. */
  ghost predicate Listing(rows: map<int, Row>, list: seq<Row>) {
    && (forall i, j :: 0 <= i < j < |list| ==> list[i].id < list[j].id)
    && (forall i :: 0 <= i < |list| ==> list[i].id in rows && rows[list[i].id] == list[i])
    && (forall id :: id in rows ==> rows[id] in list)
  }

  /** Reading the rows by every key of the table, in ascending order, lists the table. */
  lemma AscendingListing(rows: map<int, Row>, ids: seq<int>)
    requires forall id :: id in rows ==> rows[id].id == id
    requires forall i, j :: 0 <= i < j < |ids| ==> ids[i] < ids[j]
    requires forall i :: 0 <= i < |ids| ==> ids[i] in rows
    requires forall id :: id in rows ==> id in ids
    ensures Listing(rows, RowsOf(rows, ids))
  {
    var list := RowsOf(rows, ids);
    forall i, j | 0 <= i < j < |list| ensures list[i].id < list[j].id {
      assert list[i] == rows[ids[i]] && list[j] == rows[ids[j]];
    }
    forall i | 0 <= i < |list| ensures list[i].id in rows && rows[list[i].id] == list[i] {
      assert list[i] == rows[ids[i]];
    }
    forall id | id in rows ensures rows[id] in list {
      var i :| 0 <= i < |ids| && ids[i] == id;
      assert list[i] == rows[id];
    }
  }

  class TodoTable {
    /** The rows, by primary key. */
    var rows: map<int, Row>
    /** The next value of the `serial` sequence behind `id`. */
    var nextId: int

    /** Every row sits under its own id, and the sequence is past every id it has handed out. */
    ghost predicate Valid()
      reads this
    {
      && 1 <= nextId
      && forall id :: id in rows ==> rows[id].id == id && 1 <= id < nextId
    }

    /** An empty table whose sequence starts at 1. */
    constructor ()
      ensures Valid() && rows == map[] && nextId == 1
    {
      rows := map[];
      nextId := 1;
    }

    /** `findAll`: `SELECT * FROM todos ORDER BY id ASC`. */
    function FindAll(failure: Option<Error>): (r: Outcome<seq<Row>>)
      reads this
      requires Valid()
      ensures failure.Some? ==> r == Threw(failure.value)
      ensures failure.None? ==> r.Done? && Listing(rows, r.value)
    {
      match failure
      case Some(e) => Threw(e)
      case None =>
        var ids := AscendingIn(rows.Keys, 1, nextId);
        AscendingListing(rows, ids);
        Done(RowsOf(rows, ids))
    }

    /** `findById`: the row with that id, or `undefined`. */
    function FindById(id: int, failure: Option<Error>): (r: Outcome<Option<Row>>)
      reads this
      requires Valid()
      ensures failure.Some? ==> r == Threw(failure.value)
      ensures failure.None? ==> r.Done?
      ensures r.Done? ==> (r.value.Some? <==> id in rows)
      ensures r.Done? && r.value.Some? ==> r.value.value == rows[id] && r.value.value.id == id
    {
      match failure
      case Some(e) => Threw(e)
      case None => Done(if id in rows then Some(rows[id]) else None)
    }

    /**
     * `create`: `INSERT ... RETURNING *`. The row gets the sequence's next id,
     * which no row has yet; the other rows are untouched.
     */
    method Create(text: string, userId: int, failure: Option<Error>) returns (r: Outcome<Row>)
      requires Valid()
      modifies this
      ensures Valid()
      ensures failure.Some? ==> r == Threw(failure.value) && rows == old(rows) && nextId == old(nextId)
      ensures failure.None? ==> && old(nextId) !in old(rows)
                                && r == Done(Row(old(nextId), text, userId))
                                && rows == old(rows)[old(nextId) := r.value]
                                && nextId == old(nextId) + 1
    {
      match failure {
        case Some(e) =>
          r := Threw(e);
        case None =>
          var row := Row(nextId, text, userId);
          rows := rows[nextId := row];
          nextId := nextId + 1;
          r := Done(row);
      }
    }

    /**
     * `update`: `UPDATE todos SET text = $1 WHERE id = $2 RETURNING *`. Only
     * the text of that row changes; no row matched gives `undefined`.
     */
    method Update(id: int, text: string, failure: Option<Error>) returns (r: Outcome<Option<Row>>)
      requires Valid()
      modifies this
      ensures Valid() && nextId == old(nextId)
      ensures failure.Some? ==> r == Threw(failure.value) && rows == old(rows)
      ensures failure.None? && id !in old(rows) ==> r == Done(None) && rows == old(rows)
      ensures failure.None? && id in old(rows) ==>
                && r == Done(Some(old(rows)[id].(text := text)))
                && rows == old(rows)[id := old(rows)[id].(text := text)]
    {
      match failure {
        case Some(e) =>
          r := Threw(e);
        case None =>
          if id in rows {
            var row := rows[id].(text := text);
            rows := rows[id := row];
            r := Done(Some(row));
          } else {
            r := Done(None);
          }
      }
    }

    /**
     * `delete`: `DELETE FROM todos WHERE id = $1 RETURNING id`. Removes exactly
     * that row and returns its id; no row matched gives `undefined`.
     */
    method Delete(id: int, failure: Option<Error>) returns (r: Outcome<Option<int>>)
      requires Valid()
      modifies this
      ensures Valid() && nextId == old(nextId)
      ensures failure.Some? ==> r == Threw(failure.value) && rows == old(rows)
      ensures failure.None? && id !in old(rows) ==> r == Done(None) && rows == old(rows)
      ensures failure.None? && id in old(rows) ==> r == Done(Some(id)) && rows == old(rows) - {id}
    {
      match failure {
        case Some(e) =>
          r := Threw(e);
        case None =>
          if id in rows {
            rows := rows - {id};
            r := Done(Some(id));
          } else {
            r := Done(None);
          }
      }
    }
  }
}
