/**
 * Python's `list.sort(key=..., reverse=True)` and `sorted(..., reverse=True)`:
 * a stable sort into non-increasing key order. Elements with equal keys keep
 * their original relative order.
 */
module Sorting {

  predicate SortedDesc<T>(s: seq<T>, key: T -> real)
  {
    forall i, j | 0 <= i < j < |s| :: key(s[i]) >= key(s[j])
  }

  /** The elements of `s` whose key equals `k`, in order. */
  function WithKey<T>(s: seq<T>, key: T -> real, k: real): (r: seq<T>)
    ensures forall x | x in r :: key(x) == k
    decreases |s|
  {
    if s == [] then []
    else if key(s[0]) == k then [s[0]] + WithKey(s[1..], key, k)
    else WithKey(s[1..], key, k)
  }

  lemma ConsSorted<T>(h: T, t: seq<T>, key: T -> real)
    requires SortedDesc(t, key)
    requires forall y | y in t :: key(h) >= key(y)
    ensures SortedDesc([h] + t, key)
  {
    var r := [h] + t;
    forall i, j | 0 <= i < j < |r| ensures key(r[i]) >= key(r[j]) {
      assert r[j] == t[j - 1];
      if i > 0 {
        assert r[i] == t[i - 1];
      }
    }
  }

  /** The head of `s` bounds every element once `x`, smaller than it, joins the tail. */
  lemma HeadBoundsInserted<T>(x: T, s: seq<T>, t: seq<T>, key: T -> real)
    requires SortedDesc(s, key) && s != [] && key(x) < key(s[0])
    requires multiset(t) == multiset(s[1..]) + multiset{x}
    ensures forall y | y in t :: key(s[0]) >= key(y)
  {
    forall y | y in t ensures key(s[0]) >= key(y) {
      assert y in multiset(t);
      if y != x {
        assert y in multiset(s[1..]);
        var j :| 0 <= j < |s[1..]| && s[1..][j] == y;
        assert s[j + 1] == y;
      }
    }
  }

  /** Place `x` in front of the first element whose key is not greater than its own. */
  function Insert<T>(x: T, s: seq<T>, key: T -> real): (r: seq<T>)
    requires SortedDesc(s, key)
    ensures multiset(r) == multiset(s) + multiset{x}
    ensures SortedDesc(r, key)
    decreases |s|
  {
    if s == [] || key(x) >= key(s[0]) then [x] + s
    else
      var t := Insert(x, s[1..], key);
      HeadBoundsInserted(x, s, t, key);
      ConsSorted(s[0], t, key);
      assert s == [s[0]] + s[1..];
      [s[0]] + t
  }

  /** Stable descending insertion sort. */
  function SortDesc<T>(xs: seq<T>, key: T -> real): (r: seq<T>)
    ensures multiset(r) == multiset(xs)
    ensures |r| == |xs|
    ensures SortedDesc(r, key)
    decreases |xs|
  {
    if xs == [] then []
    else
      assert xs == [xs[0]] + xs[1..];
      var r := Insert(xs[0], SortDesc(xs[1..], key), key);
      assert |r| == |multiset(r)|;
      r
  }

  lemma {:induction false} InsertStable<T>(x: T, s: seq<T>, key: T -> real, k: real)
    requires SortedDesc(s, key)
    ensures WithKey(Insert(x, s, key), key, k) == WithKey([x] + s, key, k)
    decreases |s|
  {
    if s == [] || key(x) >= key(s[0]) {
    } else {
      InsertStable(x, s[1..], key, k);
      var t := Insert(x, s[1..], key);
      assert ([s[0]] + t)[1..] == t;
      assert ([x] + s)[1..] == s;
      assert ([x] + s[1..])[1..] == s[1..];
      assert ([s[0]] + t)[0] == s[0];
    }
  }

  /** Sorting keeps, for every key value, the subsequence of elements with that key. */
  lemma {:induction false} SortDescStable<T>(xs: seq<T>, key: T -> real, k: real)
    ensures WithKey(SortDesc(xs, key), key, k) == WithKey(xs, key, k)
    decreases |xs|
  {
    if xs != [] {
      SortDescStable(xs[1..], key, k);
      InsertStable(xs[0], SortDesc(xs[1..], key), key, k);
      assert xs == [xs[0]] + xs[1..];
      assert ([xs[0]] + SortDesc(xs[1..], key))[1..] == SortDesc(xs[1..], key);
    }
  }
}
