/**
 * `Array.prototype.sort` with a comparator, as the three list components use
 * it. The engine's algorithm is not the point: for a consistent comparator
 * every stable sort yields the same array, `StableSort` below, so the model
 * specifies the result by that function and proves an in-place insertion
 * sort equal to it.
 *
 * A comparator returns a number; `cmp(a, b) <= 0` means that `a` may stay
 * before `b`.
 */
module Sorting {

  /** Every element may stay before every later one. */
  ghost predicate Ordered<T>(s: seq<T>, cmp: (T, T) -> int) {
    forall i, j :: 0 <= i < j < |s| ==> cmp(s[i], s[j]) <= 0
  }

  /**
   * What the JavaScript sort requires of a comparator: `cmp(a, b) <= 0` is a
   * total preorder (any two elements compare, and the relation is transitive).
   */
  ghost predicate Consistent<T(!new)>(cmp: (T, T) -> int) {
    && (forall a, b :: cmp(a, b) <= 0 || cmp(b, a) <= 0)
    && (forall a, b, c :: cmp(a, b) <= 0 && cmp(b, c) <= 0 ==> cmp(a, c) <= 0)
  }

  /** Puts `x` after every element of `s`, from the right, that may stay before it. */
  function Insert<T>(s: seq<T>, x: T, cmp: (T, T) -> int): seq<T>
    decreases |s|
  {
    if |s| == 0 || cmp(s[|s| - 1], x) <= 0 then s + [x]
    else Insert(s[..|s| - 1], x, cmp) + [s[|s| - 1]]
  }

  /** The stable sort of `s`: each element in turn inserted after its equals. */
  function StableSort<T>(s: seq<T>, cmp: (T, T) -> int): seq<T>
    decreases |s|
  {
    if |s| == 0 then [] else Insert(StableSort(s[..|s| - 1], cmp), s[|s| - 1], cmp)
  }

  lemma {:induction false} InsertPermutes<T>(s: seq<T>, x: T, cmp: (T, T) -> int)
    ensures multiset(Insert(s, x, cmp)) == multiset(s) + multiset{x}
    decreases |s|
  {
    if |s| > 0 && cmp(s[|s| - 1], x) > 0 {
      InsertPermutes(s[..|s| - 1], x, cmp);
      assert s == s[..|s| - 1] + [s[|s| - 1]];
    }
  }

  /** Sorting neither adds, drops nor alters elements: it only reorders them. */
  lemma {:induction false} SortPermutes<T>(s: seq<T>, cmp: (T, T) -> int)
    ensures multiset(StableSort(s, cmp)) == multiset(s)
    ensures |StableSort(s, cmp)| == |s|
    decreases |s|
  {
    if |s| > 0 {
      SortPermutes(s[..|s| - 1], cmp);
      InsertPermutes(StableSort(s[..|s| - 1], cmp), s[|s| - 1], cmp);
      assert s == s[..|s| - 1] + [s[|s| - 1]];
    }
    assert |multiset(StableSort(s, cmp))| == |multiset(s)|;
  }

  /** An ordered sequence stays ordered when extended by an element nothing must follow. */
  lemma OrderedAppend<T>(s: seq<T>, x: T, cmp: (T, T) -> int)
    requires Ordered(s, cmp)
    requires forall i :: 0 <= i < |s| ==> cmp(s[i], x) <= 0
    ensures Ordered(s + [x], cmp)
  {
    var r := s + [x];
    forall i, j | 0 <= i < j < |r| ensures cmp(r[i], r[j]) <= 0 {
      if j < |s| {
        assert r[i] == s[i] && r[j] == s[j];
      } else {
        assert r[i] == s[i] && r[j] == x;
      }
    }
  }

  /** If `x` and every element of `s` may stay before `b`, so may every element after inserting. */
  lemma {:induction false} InsertBelow<T>(s: seq<T>, x: T, b: T, cmp: (T, T) -> int)
    requires forall i :: 0 <= i < |s| ==> cmp(s[i], b) <= 0
    requires cmp(x, b) <= 0
    ensures forall i :: 0 <= i < |Insert(s, x, cmp)| ==> cmp(Insert(s, x, cmp)[i], b) <= 0
    decreases |s|
  {
    if |s| > 0 && cmp(s[|s| - 1], x) > 0 {
      InsertBelow(s[..|s| - 1], x, b, cmp);
    }
  }

  lemma {:induction false} InsertOrdered<T(!new)>(s: seq<T>, x: T, cmp: (T, T) -> int)
    requires Consistent(cmp) && Ordered(s, cmp)
    ensures Ordered(Insert(s, x, cmp), cmp)
    decreases |s|
  {
    if |s| > 0 && cmp(s[|s| - 1], x) > 0 {
      var init, last := s[..|s| - 1], s[|s| - 1];
      assert Ordered(init, cmp);
      InsertOrdered(init, x, cmp);
      InsertBelow(init, x, last, cmp);
      OrderedAppend(Insert(init, x, cmp), last, cmp);
    } else {
      forall i | 0 <= i < |s| ensures cmp(s[i], x) <= 0 {
        if i < |s| - 1 {
          assert cmp(s[i], s[|s| - 1]) <= 0;
        }
      }
      OrderedAppend(s, x, cmp);
    }
  }

  /** With a consistent comparator the result is ordered. */
  lemma {:induction false} SortOrdered<T(!new)>(s: seq<T>, cmp: (T, T) -> int)
    requires Consistent(cmp)
    ensures Ordered(StableSort(s, cmp), cmp)
    decreases |s|
  {
    if |s| > 0 {
      SortOrdered(s[..|s| - 1], cmp);
      InsertOrdered(StableSort(s[..|s| - 1], cmp), s[|s| - 1], cmp);
    }
  }

  /** An array already in order is left as it is. */
  lemma {:induction false} SortKeepsOrdered<T>(s: seq<T>, cmp: (T, T) -> int)
    requires Ordered(s, cmp)
    ensures StableSort(s, cmp) == s
    decreases |s|
  {
    if |s| > 0 {
      var init := s[..|s| - 1];
      assert Ordered(init, cmp);
      SortKeepsOrdered(init, cmp);
      assert s == init + [s[|s| - 1]];
    }
  }

  /** Sorting twice by the same comparator gives the order of sorting once. */
  lemma SortIdempotent<T(!new)>(s: seq<T>, cmp: (T, T) -> int)
    requires Consistent(cmp)
    ensures StableSort(StableSort(s, cmp), cmp) == StableSort(s, cmp)
  {
    SortOrdered(s, cmp);
    SortKeepsOrdered(StableSort(s, cmp), cmp);
  }

  /** A comparator that always answers 0 (an unrecognised column) leaves the order unchanged. */
  lemma SortByNothing<T>(s: seq<T>, cmp: (T, T) -> int)
    requires forall a, b :: cmp(a, b) == 0
    ensures StableSort(s, cmp) == s
  {
    SortKeepsOrdered(s, cmp);
  }

  /** `a` and `b` compare as equal. */
  ghost predicate Tied<T>(cmp: (T, T) -> int, a: T, b: T) {
    cmp(a, b) <= 0 && cmp(b, a) <= 0
  }

  /** The elements of `s` tied with `k`, in their order in `s`. */
  ghost function TiedWith<T>(s: seq<T>, k: T, cmp: (T, T) -> int): seq<T>
    decreases |s|
  {
    if |s| == 0 then []
    else TiedWith(s[..|s| - 1], k, cmp) + (if Tied(cmp, s[|s| - 1], k) then [s[|s| - 1]] else [])
  }

  lemma {:induction false} InsertStable<T(!new)>(s: seq<T>, x: T, k: T, cmp: (T, T) -> int)
    requires Consistent(cmp) && Ordered(s, cmp)
    ensures TiedWith(Insert(s, x, cmp), k, cmp)
         == TiedWith(s, k, cmp) + (if Tied(cmp, x, k) then [x] else [])
    decreases |s|
  {
    var r := Insert(s, x, cmp);
    if |s| == 0 || cmp(s[|s| - 1], x) <= 0 {
      assert r[..|r| - 1] == s;
    } else {
      var init, last := s[..|s| - 1], s[|s| - 1];
      var r' := Insert(init, x, cmp);
      assert Ordered(init, cmp);
      InsertStable(init, x, k, cmp);
      assert r[..|r| - 1] == r';
      assert s[..|s| - 1] == init;
      // last comes strictly after x, so they cannot both be tied with k
      assert !(Tied(cmp, x, k) && Tied(cmp, last, k));
    }
  }

  /**
   * The sort is stable: the elements that compare equal to any `k` keep the
   * relative order they had.
   */
  lemma {:induction false} SortStable<T(!new)>(s: seq<T>, k: T, cmp: (T, T) -> int)
    requires Consistent(cmp)
    ensures TiedWith(StableSort(s, cmp), k, cmp) == TiedWith(s, k, cmp)
    decreases |s|
  {
    if |s| > 0 {
      var init := s[..|s| - 1];
      SortStable(init, k, cmp);
      SortOrdered(init, cmp);
      InsertStable(StableSort(init, cmp), s[|s| - 1], k, cmp);
    }
  }

  /**
   * `x` lands right after the last element that may stay before it: every
   * element after position `j` must come after `x`.
   */
  lemma {:induction false} InsertAt<T>(s: seq<T>, j: nat, x: T, cmp: (T, T) -> int)
    requires j <= |s|
    requires j == 0 || cmp(s[j - 1], x) <= 0
    requires forall k :: j <= k < |s| ==> cmp(s[k], x) > 0
    ensures Insert(s, x, cmp) == s[..j] + [x] + s[j..]
    decreases |s|
  {
    if j < |s| {
      var init := s[..|s| - 1];
      InsertAt(init, j, x, cmp);
      assert init[..j] == s[..j];
      assert s[j..] == init[j..] + [s[|s| - 1]];
    } else {
      assert s[..j] == s;
    }
  }

  /**
   * Shifts right, by one place, the elements at the end of the prefix
   * `a[..i]` that must come after `x`, and returns the gap they leave.
   */
  method MakeRoom<T>(a: array<T>, i: nat, x: T, cmp: (T, T) -> int) returns (j: nat)
    requires i < a.Length
    modifies a
    ensures j <= i
    ensures forall k :: 0 <= k < j ==> a[k] == old(a[k])
    ensures forall k :: j < k <= i ==> a[k] == old(a[k - 1])
    ensures forall k :: i < k < a.Length ==> a[k] == old(a[k])
    ensures Insert(old(a[..i]), x, cmp) == old(a[..j]) + [x] + old(a[j..i])
  {
    ghost var sorted := a[..i];
    j := i;
    while j > 0 && cmp(a[j - 1], x) > 0
      invariant 0 <= j <= i
      invariant forall k :: 0 <= k < j ==> a[k] == sorted[k]
      invariant forall k :: j < k <= i ==> a[k] == sorted[k - 1]
      invariant forall k :: i < k < a.Length ==> a[k] == old(a[k])
      invariant forall k :: j <= k < i ==> cmp(sorted[k], x) > 0
    {
      a[j] := a[j - 1];
      j := j - 1;
    }
    InsertAt(sorted, j, x, cmp);
    assert sorted[..j] == old(a[..j]) && sorted[j..] == old(a[j..i]);
  }

  /**
   * One step of insertion sort: moves `a[i]` left past the elements of the
   * prefix `a[..i]` that must come after it.
   */
  method InsertLast<T>(a: array<T>, i: nat, cmp: (T, T) -> int)
    requires i < a.Length
    modifies a
    ensures a[..i + 1] == Insert(old(a[..i]), old(a[i]), cmp)
    ensures a[i + 1..] == old(a[i + 1..])
  {
    var x := a[i];
    var j := MakeRoom(a, i, x, cmp);
    a[j] := x;
    assert a[..i + 1] == old(a[..j]) + [x] + old(a[j..i]);
    assert a[i + 1..] == old(a[i + 1..]);
  }

  /**
   * Sorts `a` in place by insertion, as the components' `sort` calls do on
   * their copy of the list: the result is exactly the stable sort of the old
   * contents.
   */
  method SortInPlace<T>(a: array<T>, cmp: (T, T) -> int)
    modifies a
    ensures a[..] == StableSort(old(a[..]), cmp)
  {
    ghost var input := a[..];
    var i := 0;
    while i < a.Length
      invariant 0 <= i <= a.Length
      invariant a[..i] == StableSort(input[..i], cmp)
      invariant a[i..] == input[i..]
    {
      InsertLast(a, i, cmp);
      assert input[..i + 1][..i] == input[..i];
      i := i + 1;
    }
    assert input[..a.Length] == input;
  }
}
