/** Rows with distinct keys: removing some of them by key, and by their rank in a sorted order. */
module Keyed {
  import opened Sorting

  function Keys<T, K>(rows: seq<T>, key: T -> K): (keys: seq<K>)
    ensures |keys| == |rows| && forall i | 0 <= i < |rows| :: keys[i] == key(rows[i])
  {
    seq(|rows|, i requires 0 <= i < |rows| => key(rows[i]))
  }

  ghost predicate Distinct<K>(keys: seq<K>) {
    forall i, j | 0 <= i < j < |keys| :: keys[i] != keys[j]
  }

  ghost predicate UniqueKeys<T, K>(rows: seq<T>, key: T -> K) {
    Distinct(Keys(rows, key))
  }

  function SetOf<K>(keys: seq<K>): set<K> {
    set k | k in keys
  }

  function Without<T, K>(rows: seq<T>, gone: set<K>, key: T -> K): seq<T> {
    if rows == [] then []
    else if key(rows[0]) in gone then Without(rows[1..], gone, key)
    else [rows[0]] + Without(rows[1..], gone, key)
  }

  lemma {:induction false} WithoutMembers<T, K>(rows: seq<T>, gone: set<K>, key: T -> K)
    ensures forall r :: r in Without(rows, gone, key) <==> r in rows && key(r) !in gone
  {
    if rows != [] {
      assert rows == [rows[0]] + rows[1..];
      WithoutMembers(rows[1..], gone, key);
    }
  }

  lemma {:induction false} WithoutTwice<T, K>(rows: seq<T>, a: set<K>, b: set<K>, key: T -> K)
    ensures Without(Without(rows, a, key), b, key) == Without(rows, a + b, key)
  {
    if rows != [] {
      WithoutTwice(rows[1..], a, b, key);
      if key(rows[0]) !in a {
        assert ([rows[0]] + Without(rows[1..], a, key))[1..] == Without(rows[1..], a, key);
      }
    }
  }

  lemma {:induction false} WithoutNone<T, K>(rows: seq<T>, key: T -> K)
    ensures Without(rows, {}, key) == rows
  {
    if rows != [] {
      WithoutNone(rows[1..], key);
    }
  }

  lemma SameRow<T, K>(rows: seq<T>, key: T -> K, r: T, s: T)
    requires UniqueKeys(rows, key) && r in rows && s in rows && key(r) == key(s)
    ensures r == s
  {
    var i :| 0 <= i < |rows| && rows[i] == r;
    var j :| 0 <= j < |rows| && rows[j] == s;
    assert Keys(rows, key)[i] == Keys(rows, key)[j];
  }

  /** Rows with the same members have the same keys. */
  lemma SameKeys<T, K>(a: seq<T>, b: seq<T>, key: T -> K)
    requires forall r | r in a :: r in b
    ensures SetOf(Keys(a, key)) <= SetOf(Keys(b, key))
    ensures forall k | k in SetOf(Keys(a, key)) :: exists r :: r in a && key(r) == k
    ensures forall r | r in a :: key(r) in SetOf(Keys(a, key))
  {
    forall k | k in SetOf(Keys(a, key))
      ensures k in Keys(b, key) && exists r :: r in a && key(r) == k
    {
      var i :| 0 <= i < |a| && Keys(a, key)[i] == k;
      assert a[i] in a;
      var j :| 0 <= j < |b| && b[j] == a[i];
      assert Keys(b, key)[j] == k;
    }
    forall r | r in a
      ensures key(r) in Keys(a, key)
    {
      var i :| 0 <= i < |a| && a[i] == r;
      assert Keys(a, key)[i] == key(r);
    }
  }

  /** A row whose key is among those of some rows of the table is one of them. */
  lemma KeysIdentify<T, K>(some: seq<T>, rows: seq<T>, key: T -> K)
    requires UniqueKeys(rows, key) && forall r | r in some :: r in rows
    ensures forall r | r in rows && key(r) in SetOf(Keys(some, key)) :: r in some
  {
    hide UniqueKeys, Keys, SetOf;
    SameKeys(some, rows, key);
    forall r | r in rows && key(r) in SetOf(Keys(some, key))
      ensures r in some
    {
      var s :| s in some && key(s) == key(r);
      SameRow(rows, key, r, s);
    }
  }

  // ---------- distinct keys and multisets ----------

  lemma TwoOccurrences<T>(rows: seq<T>, i: nat, j: nat)
    requires i < j < |rows| && rows[i] == rows[j]
    ensures multiset(rows)[rows[i]] >= 2
  {
    assert rows == rows[..j] + rows[j..];
    assert rows[..j][i] == rows[i] && rows[j..][0] == rows[i];
    assert rows[i] in rows[..j] && rows[i] in rows[j..];
  }

  lemma FirstIsNew<T, K>(rows: seq<T>, key: T -> K)
    requires UniqueKeys(rows, key) && rows != []
    ensures UniqueKeys(rows[1..], key)
    ensures forall r | r in rows[1..] :: key(r) != key(rows[0])
    ensures rows[0] !in rows[1..]
  {
    forall i | 0 <= i < |rows[1..]|
      ensures rows[1..][i] != rows[0]
    {
      assert Keys(rows, key)[i + 1] != Keys(rows, key)[0];
    }
    assert Keys(rows, key)[1..] == Keys(rows[1..], key);
    forall r | r in rows[1..]
      ensures key(r) != key(rows[0])
    {
      var i :| 0 <= i < |rows[1..]| && rows[1..][i] == r;
      assert Keys(rows, key)[i + 1] == key(r);
    }
  }

  lemma {:induction false} OnlyOnce<T, K>(rows: seq<T>, key: T -> K, r: T)
    requires UniqueKeys(rows, key)
    ensures multiset(rows)[r] <= 1
  {
    hide UniqueKeys;
    if rows != [] {
      assert rows == [rows[0]] + rows[1..];
      FirstIsNew(rows, key);
      assert multiset(rows[1..])[rows[0]] == 0;
      OnlyOnce(rows[1..], key, r);
    }
  }

  lemma SubSize<T>(a: multiset<T>, b: multiset<T>)
    requires a <= b
    ensures |a| <= |b|
  {
    assert b == a + (b - a);
  }

  /** Rows that lack one of a table's rows are fewer. */
  lemma OneMore<T, K>(some: seq<T>, e: T, rows: seq<T>, key: T -> K)
    requires UniqueKeys(some, key) && e !in some && e in rows && forall r | r in some :: r in rows
    ensures |some| < |rows|
  {
    hide UniqueKeys;
    forall r
      ensures (multiset(some) + multiset{e})[r] <= multiset(rows)[r]
    {
      OnlyOnce(some, key, r);
      assert r in some ==> r in multiset(rows);
      assert e in multiset(rows);
    }
    SubSize(multiset(some) + multiset{e}, multiset(rows));
  }

  /** Some of the rows of a table with distinct keys, in any order, have distinct keys. */
  lemma SubUnique<T, K>(some: seq<T>, rows: seq<T>, key: T -> K)
    requires UniqueKeys(rows, key) && multiset(some) <= multiset(rows)
    ensures UniqueKeys(some, key)
  {
    forall i, j | 0 <= i < j < |some|
      ensures Keys(some, key)[i] != Keys(some, key)[j]
    {
      assert some[i] in multiset(some) && some[j] in multiset(some);
      if key(some[i]) == key(some[j]) {
        SameRow(rows, key, some[i], some[j]);
        OnlyOnce(rows, key, some[i]);
        TwoOccurrences(some, i, j);
      }
    }
  }

  lemma {:induction false} WithoutNarrows<T, K>(rows: seq<T>, gone: set<K>, key: T -> K)
    ensures multiset(Without(rows, gone, key)) <= multiset(rows)
  {
    if rows != [] {
      assert rows == [rows[0]] + rows[1..];
      WithoutNarrows(rows[1..], gone, key);
    }
  }

  lemma SortedMembers<T>(rows: seq<T>, order: T -> int)
    ensures forall r | r in SortBy(rows, order) :: r in rows
    ensures forall r | r in rows :: r in SortBy(rows, order)
  {
    hide SortBy, Sorted;
    SortBySorts(rows, order);
    forall r | r in SortBy(rows, order)
      ensures r in rows
    {
      assert r in multiset(SortBy(rows, order));
    }
    forall r | r in rows
      ensures r in SortBy(rows, order)
    {
      assert r in multiset(rows);
    }
  }

  lemma SortedUnique<T, K>(rows: seq<T>, key: T -> K, order: T -> int)
    requires UniqueKeys(rows, key)
    ensures UniqueKeys(SortBy(rows, order), key) && SetOf(Keys(SortBy(rows, order), key)) == SetOf(Keys(rows, key))
    ensures |SortBy(rows, order)| == |rows| && Sorted(SortBy(rows, order), order)
    ensures forall r | r in SortBy(rows, order) :: r in rows
    ensures forall r | r in rows :: r in SortBy(rows, order)
  {
    hide SortBy, UniqueKeys, Sorted;
    var sorted := SortBy(rows, order);
    SortBySorts(rows, order);
    SubUnique(sorted, rows, key);
    SortedMembers(rows, order);
    SameKeys(rows, sorted, key);
    SameKeys(sorted, rows, key);
  }

  // ---------- counting what is left ----------

  lemma NoKeys<K>()
    ensures SetOf<K>([]) == {} && Distinct<K>([])
  {
  }

  lemma LastKey<K>(keys: seq<K>)
    requires keys != []
    ensures SetOf(keys) == SetOf(keys[..|keys| - 1]) + {keys[|keys| - 1]}
    ensures Distinct(keys) ==> Distinct(keys[..|keys| - 1]) && keys[|keys| - 1] !in SetOf(keys[..|keys| - 1])
  {
    assert keys == keys[..|keys| - 1] + [keys[|keys| - 1]];
  }

  lemma {:induction false} DistinctSize<K>(keys: seq<K>)
    requires Distinct(keys)
    ensures |SetOf(keys)| == |keys|
  {
    if keys != [] {
      DistinctSize(keys[..|keys| - 1]);
      LastKey(keys);
    }
  }

  /** Only the keys of the rows matter. */
  lemma {:induction false} SameLeft<T, K>(rows: seq<T>, a: set<K>, b: set<K>, key: T -> K)
    requires forall i | 0 <= i < |rows| :: key(rows[i]) in a <==> key(rows[i]) in b
    ensures Without(rows, a, key) == Without(rows, b, key)
  {
    if rows != [] {
      SameLeft(rows[1..], a, b, key);
    }
  }

  /** Each row that leaves takes one key of `gone` with it. */
  lemma {:induction false} WithoutCount<T, K>(rows: seq<T>, gone: set<K>, key: T -> K)
    requires UniqueKeys(rows, key) && gone <= SetOf(Keys(rows, key))
    ensures |Without(rows, gone, key)| == |rows| - |gone|
  {
    if rows == [] {
      assert gone == {};
    } else {
      assert Keys(rows, key) == [key(rows[0])] + Keys(rows[1..], key);
      if key(rows[0]) in gone {
        var rest := gone - {key(rows[0])};
        WithoutCount(rows[1..], rest, key);
        SameLeft(rows[1..], gone, rest, key);
      } else {
        WithoutCount(rows[1..], gone, key);
      }
    }
  }

  // ---------- removing by rank ----------

  lemma SliceKeys<T, K>(sorted: seq<T>, lo: nat, hi: nat, key: T -> K)
    requires UniqueKeys(sorted, key) && lo <= hi <= |sorted|
    ensures Distinct(Keys(sorted[lo..hi], key)) && SetOf(Keys(sorted[lo..hi], key)) <= SetOf(Keys(sorted, key))
    ensures |SetOf(Keys(sorted[lo..hi], key))| == hi - lo
  {
    assert Keys(sorted[lo..hi], key) == Keys(sorted, key)[lo..hi];
    DistinctSize(Keys(sorted[lo..hi], key));
  }

  /** Removing a range of the sorted rows from the table removes exactly that many rows. */
  lemma RemovedByRank<T, K>(rows: seq<T>, order: T -> int, lo: nat, hi: nat, key: T -> K)
    requires UniqueKeys(rows, key) && lo <= hi <= |SortBy(rows, order)|
    ensures |Without(rows, SetOf(Keys(SortBy(rows, order)[lo..hi], key)), key)| == |rows| - (hi - lo)
    ensures Distinct(Keys(SortBy(rows, order)[lo..hi], key))
    ensures SetOf(Keys(SortBy(rows, order)[lo..hi], key)) <= SetOf(Keys(rows, key))
  {
    hide Without, SortBy, Sorted, Distinct;
    SortedUnique(rows, key, order);
    SliceKeys(SortBy(rows, order), lo, hi, key);
    WithoutCount(rows, SetOf(Keys(SortBy(rows, order)[lo..hi], key)), key);
  }

  /** A row in the range and one before it, or after it, are in order. */
  lemma RankOrders<T, K>(sorted: seq<T>, order: T -> int, lo: nat, hi: nat, key: T -> K, kept: T, gone: T)
    requires UniqueKeys(sorted, key) && Sorted(sorted, order) && lo <= hi <= |sorted| && kept in sorted && gone in sorted
    requires key(kept) !in Keys(sorted[lo..hi], key) && key(gone) in Keys(sorted[lo..hi], key)
    ensures lo == 0 ==> order(gone) <= order(kept)
    ensures hi == |sorted| ==> order(kept) <= order(gone)
  {
    var slice := sorted[lo..hi];
    var i :| 0 <= i < |sorted| && sorted[i] == kept;
    var e :| 0 <= e < |slice| && Keys(slice, key)[e] == key(gone);
    assert slice[e] == sorted[lo + e] && key(slice[e]) == key(gone);
    SameRow(sorted, key, sorted[lo + e], gone);
    assert forall q | lo <= q < hi :: Keys(slice, key)[q - lo] == key(sorted[q]);
    if i < lo {
      assert order(sorted[i]) <= order(sorted[lo + e]);
    } else {
      assert order(sorted[lo + e]) <= order(sorted[i]);
    }
  }
}
