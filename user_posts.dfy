/**
 * The `User` row shared, field for field, by users.component.ts and
 * user-list-angular-style.component.ts (a post of the placeholder API),
 * and the comparator both pass to `userList.sort`.
 */
module UserPosts {
  import opened Common
  import opened Collation
  import opened Sorting
  import opened SortToggle

  datatype User = User(userId: int, id: int, title: string, body: string)

  /** The columns the comparator recognises. */
  predicate KnownColumn(sortBy: string) {
    sortBy == "id" || sortBy == "title" || sortBy == "body"
  }

  /**
   * The comparator: ids by difference, titles and bodies by collation, the
   * direction applied last; any other column answers 0 whatever the direction.
   */
  function Compare(sortBy: string, d: Direction, a: User, b: User): int {
    if sortBy == "id" then Directed(d, a.id - b.id)
    else if sortBy == "title" then Directed(d, Collate(a.title, b.title))
    else if sortBy == "body" then Directed(d, Collate(a.body, b.body))
    else 0
  }

  function ByColumn(sortBy: string, d: Direction): (User, User) -> int {
    (a, b) => Compare(sortBy, d, a, b)
  }

  /** Every column and direction gives a comparator the sort can rely on. */
  lemma ByColumnConsistent(sortBy: string, d: Direction)
    ensures Consistent(ByColumn(sortBy, d))
  {
    var cmp := ByColumn(sortBy, d);
    forall a: User, b: User ensures cmp(a, b) <= 0 || cmp(b, a) <= 0 {
      DirectedCollate(d, a.title, b.title, b.title);
      DirectedCollate(d, a.body, b.body, b.body);
    }
    forall a: User, b: User, c: User | cmp(a, b) <= 0 && cmp(b, c) <= 0 ensures cmp(a, c) <= 0 {
      DirectedCollate(d, a.title, b.title, c.title);
      DirectedCollate(d, a.body, b.body, c.body);
    }
  }

  /** An unrecognised column leaves the rows in the order they were. */
  lemma UnknownColumnKeepsOrder(rows: seq<User>, sortBy: string, d: Direction)
    requires !KnownColumn(sortBy)
    ensures StableSort(rows, ByColumn(sortBy, d)) == rows
  {
    SortByNothing(rows, ByColumn(sortBy, d));
  }

  /**
   * Sorting by 'id' reorders the rows, without adding, dropping or altering
   * any, so that ids never decrease (ascending) or never increase (descending).
   */
  lemma SortedById(rows: seq<User>, d: Direction)
    ensures multiset(StableSort(rows, ByColumn("id", d))) == multiset(rows)
    ensures var r := StableSort(rows, ByColumn("id", d));
            forall i, j :: 0 <= i < j < |r| ==> (if d == Asc then r[i].id <= r[j].id else r[i].id >= r[j].id)
  {
    var cmp := ByColumn("id", d);
    SortPermutes(rows, cmp);
    ByColumnConsistent("id", d);
    SortOrdered(rows, cmp);
    var r := StableSort(rows, cmp);
    forall i, j | 0 <= i < j < |r| ensures if d == Asc then r[i].id <= r[j].id else r[i].id >= r[j].id {
      assert cmp(r[i], r[j]) <= 0;
    }
  }

  /** Sorting by any column only reorders the rows; equal keys keep their order. */
  lemma SortReorders(rows: seq<User>, sortBy: string, d: Direction, k: User)
    ensures multiset(StableSort(rows, ByColumn(sortBy, d))) == multiset(rows)
    ensures Ordered(StableSort(rows, ByColumn(sortBy, d)), ByColumn(sortBy, d))
    ensures TiedWith(StableSort(rows, ByColumn(sortBy, d)), k, ByColumn(sortBy, d)) == TiedWith(rows, k, ByColumn(sortBy, d))
  {
    ByColumnConsistent(sortBy, d);
    SortPermutes(rows, ByColumn(sortBy, d));
    SortOrdered(rows, ByColumn(sortBy, d));
    SortStable(rows, k, ByColumn(sortBy, d));
  }

  /**
   * `userList.sort(comparator)` followed by `[...userList]`: the array is
   * sorted in place by the column and direction, and a new array with the
   * sorted rows is returned.
   */
  method SortedCopy(a: array<User>, sortBy: string, d: Direction) returns (b: array<User>)
    modifies a
    ensures fresh(b)
    ensures b[..] == a[..] == StableSort(old(a[..]), ByColumn(sortBy, d))
    ensures multiset(b[..]) == multiset(old(a[..]))
    ensures sortBy == "id" ==> forall i, j :: 0 <= i < j < b.Length ==>
              (if d == Asc then b[i].id <= b[j].id else b[i].id >= b[j].id)
    ensures !KnownColumn(sortBy) ==> b[..] == old(a[..])
  {
    ghost var before := a[..];
    SortInPlace(a, ByColumn(sortBy, d));
    b := CopyArray(a);
    SortPermutes(before, ByColumn(sortBy, d));
    if sortBy == "id" {
      SortedById(before, d);
      assert forall i :: 0 <= i < b.Length ==> b[i] == b[..][i];
    }
    if !KnownColumn(sortBy) {
      UnknownColumnKeepsOrder(before, sortBy, d);
    }
  }
}
