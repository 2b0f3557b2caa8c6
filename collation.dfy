/**
 * The components compare text columns with `String.prototype.localeCompare`.
 * Its locale rules are not modelled: this stand-in orders strings by code
 * point, lexicographically, and returns -1, 0 or 1 as `localeCompare` does.
 * What the sorts need of it, and what is proved here, is that it is a
 * consistent comparator: sign-antisymmetric, zero only on equal strings,
 * and transitive.
 */
module Collation {
  import opened SortToggle

  function Collate(a: string, b: string): (r: int)
    ensures -1 <= r <= 1
  {
    if |a| == 0 && |b| == 0 then 0
    else if |a| == 0 then -1
    else if |b| == 0 then 1
    else if a[0] < b[0] then -1
    else if a[0] > b[0] then 1
    else Collate(a[1..], b[1..])
  }

  /** Swapping the operands flips the sign. */
  lemma {:induction false} CollateFlip(a: string, b: string)
    ensures Collate(b, a) == -Collate(a, b)
  {
    if |a| > 0 && |b| > 0 && a[0] == b[0] {
      CollateFlip(a[1..], b[1..]);
    }
  }

  /** Only equal strings compare as equal. */
  lemma {:induction false} CollateZero(a: string, b: string)
    ensures Collate(a, b) == 0 <==> a == b
  {
    if |a| > 0 && |b| > 0 && a[0] == b[0] {
      CollateZero(a[1..], b[1..]);
      assert a == [a[0]] + a[1..] && b == [b[0]] + b[1..];
    }
  }

  lemma {:induction false} CollateTransitive(a: string, b: string, c: string)
    requires Collate(a, b) <= 0 && Collate(b, c) <= 0
    ensures Collate(a, c) <= 0
  {
    if |a| > 0 && |b| > 0 && |c| > 0 && a[0] == b[0] == c[0] {
      CollateTransitive(a[1..], b[1..], c[1..]);
    }
  }

  /** Collation read in either sort direction is a total preorder. */
  lemma DirectedCollate(d: Direction, a: string, b: string, c: string)
    ensures Directed(d, Collate(a, b)) <= 0 || Directed(d, Collate(b, a)) <= 0
    ensures Directed(d, Collate(a, b)) <= 0 && Directed(d, Collate(b, c)) <= 0 ==> Directed(d, Collate(a, c)) <= 0
  {
    CollateFlip(a, b);
    CollateFlip(b, c);
    CollateFlip(a, c);
    if Directed(d, Collate(a, b)) <= 0 && Directed(d, Collate(b, c)) <= 0 {
      match d {
        case Asc => CollateTransitive(a, b, c);
        case Desc => CollateTransitive(c, b, a);
      }
    }
  }
}
