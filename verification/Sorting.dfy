/** Stable sorting by an integer key: `Array.prototype.sort` and `ORDER BY`. */
module Sorting {

  function Insert<T>(x: T, xs: seq<T>, key: T -> int): seq<T> {
    if xs == [] then [x]
    else if key(x) <= key(xs[0]) then [x] + xs
    else [xs[0]] + Insert(x, xs[1..], key)
  }

  /** Elements with equal keys keep their order. */
  function SortBy<T>(xs: seq<T>, key: T -> int): seq<T> {
    if xs == [] then [] else Insert(xs[0], SortBy(xs[1..], key), key)
  }

  ghost predicate Sorted<T>(xs: seq<T>, key: T -> int) {
    forall i, j | 0 <= i <= j < |xs| :: key(xs[i]) <= key(xs[j])
  }

  lemma {:induction false} InsertPermutes<T>(x: T, xs: seq<T>, key: T -> int)
    ensures multiset(Insert(x, xs, key)) == multiset{x} + multiset(xs)
  {
    if xs != [] {
      assert xs == [xs[0]] + xs[1..];
      if key(x) > key(xs[0]) {
        InsertPermutes(x, xs[1..], key);
      }
    }
  }

  lemma {:induction false} InsertSorted<T>(x: T, xs: seq<T>, key: T -> int)
    requires Sorted(xs, key)
    ensures Sorted(Insert(x, xs, key), key)
  {
    if xs != [] && key(x) > key(xs[0]) {
      InsertSorted(x, xs[1..], key);
      InsertBound(x, xs[1..], key, key(xs[0]));
    }
  }

  lemma {:induction false} InsertBound<T>(x: T, xs: seq<T>, key: T -> int, low: int)
    requires low <= key(x) && forall i | 0 <= i < |xs| :: low <= key(xs[i])
    ensures forall i | 0 <= i < |Insert(x, xs, key)| :: low <= key(Insert(x, xs, key)[i])
  {
    if xs != [] {
      InsertBound(x, xs[1..], key, low);
    }
  }

  /** Sorting orders the elements and neither loses nor duplicates any. */
  lemma {:induction false} SortBySorts<T>(xs: seq<T>, key: T -> int)
    ensures Sorted(SortBy(xs, key), key)
    ensures multiset(SortBy(xs, key)) == multiset(xs)
    ensures |SortBy(xs, key)| == |xs|
  {
    if xs != [] {
      SortBySorts(xs[1..], key);
      InsertSorted(xs[0], SortBy(xs[1..], key), key);
      InsertPermutes(xs[0], SortBy(xs[1..], key), key);
      assert xs == [xs[0]] + xs[1..];
      assert |multiset(SortBy(xs, key))| == |SortBy(xs, key)|;
    }
  }
}
