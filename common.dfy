/** Small value types and sequence helpers shared by every module of the model. */
module Common {

  /** A Python value that may be missing (an absent dict key, or `None`). */
  datatype Option<T> = None | Some(value: T) {
    /** `d.get(key, default)` */
    function GetOr(default: T): T {
      if Some? then value else default
    }
  }

  /** The outcome of a call into a collaborator that may raise. */
  datatype Result<T> = Ok(value: T) | Err(error: string) {
    predicate IsFailure() {
      Err?
    }

    function PropagateFailure<U>(): Result<U>
      requires Err?
    {
      Err(error)
    }

    function Extract(): T
      requires Ok?
    {
      value
    }
  }

  /** Python `s[:k]` for a non-negative `k`. */
  function Prefix<T>(s: seq<T>, k: nat): (r: seq<T>)
    ensures |r| == if k <= |s| then k else |s|
    ensures r <= s
  {
    if k <= |s| then s[..k] else s
  }

  /** The concatenation of a list of lists, in order. */
  function Flatten<T>(ss: seq<seq<T>>): seq<T>
  {
    if ss == [] then [] else ss[0] + Flatten(ss[1..])
  }

  /** `[f(x) for x in xs]` */
  function Map<A, B>(xs: seq<A>, f: A -> B): (r: seq<B>)
    ensures |r| == |xs|
    ensures forall i | 0 <= i < |xs| :: r[i] == f(xs[i])
  {
    seq(|xs|, i requires 0 <= i < |xs| => f(xs[i]))
  }

  lemma MapSnoc<A, B>(xs: seq<A>, f: A -> B)
    requires xs != []
    ensures Map(xs, f) == Map(xs[..|xs| - 1], f) + [f(xs[|xs| - 1])]
  {
    var n := |xs| - 1;
    var a, b := Map(xs, f), Map(xs[..n], f) + [f(xs[n])];
    forall i | 0 <= i < |a| ensures a[i] == b[i] {
      if i < n {
        assert xs[..n][i] == xs[i];
      }
    }
  }

  /** A sequence is its first `n` elements followed by the rest. */
  lemma TakeDrop<T>(s: seq<T>, n: nat)
    requires n <= |s|
    ensures s[..n] + s[n..] == s
  {
  }

  /** Taking one more element: the longer prefix extends the shorter one. */
  lemma PrefixStep<T>(s: seq<T>, n: nat)
    requires n < |s|
    ensures s[..n + 1][..n] == s[..n]
  {
  }

  lemma PrefixOfPrefix<T>(s: seq<T>, n: nat, j: nat)
    requires j <= n <= |s|
    ensures s[..n][..j] == s[..j]
  {
  }

  /** A suffix of a non-empty sequence is a suffix of all but its last element, then the last. */
  lemma SuffixSnoc<T>(s: seq<T>, j: nat)
    requires j < |s|
    ensures s[j..] == s[..|s| - 1][j..] + [s[|s| - 1]]
  {
  }

  /** Slicing a concatenation inside its first part. */
  lemma ConcatSlices<T>(x: seq<T>, y: seq<T>, a: nat, b: nat)
    requires a <= b <= |x|
    ensures (x + y)[..a] == x[..a] && (x + y)[a..b] == x[a..b] && (x + y)[b..] == x[b..] + y
  {
  }

  /** Slicing a prefix inside its bounds. */
  lemma PrefixSlices<T>(t: seq<T>, p: nat, a: nat, b: nat)
    requires a <= b <= p <= |t|
    ensures t[..p][..a] == t[..a] && t[..p][a..b] == t[a..b] && t[..p][b..] == t[b..p]
  {
  }

  lemma PrefixWhole<T>(s: seq<T>)
    ensures s[..|s|] == s
  {
  }

  lemma {:induction false} FlattenAppend<T>(ss: seq<seq<T>>, s: seq<T>)
    ensures Flatten(ss + [s]) == Flatten(ss) + s
  {
    if ss == [] {
      assert ss + [s] == [s];
    } else {
      assert (ss + [s])[1..] == ss[1..] + [s];
      FlattenAppend(ss[1..], s);
    }
  }

  /** No element occurs twice. */
  predicate NoDup<T(==)>(s: seq<T>)
  {
    forall i, j | 0 <= i < j < |s| :: s[i] != s[j]
  }

  /** `a` can be obtained from `b` by deleting elements. */
  predicate IsSubseq<T(==)>(a: seq<T>, b: seq<T>)
    decreases |b|
  {
    if a == [] then true
    else if b == [] then false
    else if a[0] == b[0] then IsSubseq(a[1..], b[1..])
    else IsSubseq(a, b[1..])
  }

  lemma {:induction false} SubseqElements<T>(a: seq<T>, b: seq<T>)
    requires IsSubseq(a, b)
    ensures forall x | x in a :: x in b
    decreases |b|
  {
    if a != [] && b != [] {
      if a[0] == b[0] {
        SubseqElements(a[1..], b[1..]);
        assert forall x | x in a :: x == a[0] || x in a[1..];
      } else {
        SubseqElements(a, b[1..]);
      }
    }
  }

  lemma {:induction false} SubseqRefl<T>(a: seq<T>)
    ensures IsSubseq(a, a)
    decreases |a|
  {
    if a != [] {
      SubseqRefl(a[1..]);
    }
  }

  /** No two elements share a key. */
  predicate DistinctBy<T, K(==)>(s: seq<T>, key: T -> K)
  {
    forall i, j | 0 <= i < j < |s| :: key(s[i]) != key(s[j])
  }

  lemma {:induction false} NoDupCounts<T>(s: seq<T>)
    requires NoDup(s)
    ensures forall x :: multiset(s)[x] <= 1
  {
    if s != [] {
      var n := |s| - 1;
      assert s == s[..n] + [s[n]];
      NoDupCounts(s[..n]);
      assert s[n] !in s[..n];
    }
  }

  lemma TwoPositionsCount<T>(s: seq<T>, i: nat, j: nat)
    requires i < j < |s| && s[i] == s[j]
    ensures multiset(s)[s[i]] >= 2
  {
    assert s == s[..j] + [s[j]] + s[j + 1..];
    assert s[i] in s[..j];
  }

  /** A permutation of a sequence whose keys are distinct has distinct keys. */
  lemma PermutationDistinctBy<T, K>(a: seq<T>, b: seq<T>, key: T -> K)
    requires multiset(a) == multiset(b)
    requires DistinctBy(a, key)
    ensures DistinctBy(b, key)
  {
    forall i, j | 0 <= i < j < |b| ensures key(b[i]) != key(b[j]) {
      if key(b[i]) == key(b[j]) {
        assert b[i] in multiset(a) && b[j] in multiset(a);
        var p :| 0 <= p < |a| && a[p] == b[i];
        var q :| 0 <= q < |a| && a[q] == b[j];
        assert p == q;
        assert NoDup(a);
        NoDupCounts(a);
        TwoPositionsCount(b, i, j);
        assert false;
      }
    }
  }

  lemma {:induction false} SubseqAppendRight<T>(a: seq<T>, b: seq<T>, x: T)
    requires IsSubseq(a, b)
    ensures IsSubseq(a, b + [x])
    decreases |b|
  {
    if a != [] {
      assert (b + [x])[0] == b[0] && (b + [x])[1..] == b[1..] + [x];
      if a[0] == b[0] {
        SubseqAppendRight(a[1..], b[1..], x);
      } else {
        SubseqAppendRight(a, b[1..], x);
      }
    }
  }

  lemma {:induction false} SubseqLast<T>(b: seq<T>, x: T)
    ensures IsSubseq([x], b + [x])
    decreases |b|
  {
    if b == [] {
      assert [x][1..] == [];
    } else {
      assert (b + [x])[1..] == b[1..] + [x];
      if b[0] == x {
        assert [x][1..] == [];
      } else {
        SubseqLast(b[1..], x);
      }
    }
  }

  lemma {:induction false} SubseqAppendBoth<T>(a: seq<T>, b: seq<T>, x: T)
    requires IsSubseq(a, b)
    ensures IsSubseq(a + [x], b + [x])
    decreases |b|
  {
    if a == [] {
      assert a + [x] == [x];
      SubseqLast(b, x);
    } else {
      assert (b + [x])[0] == b[0] && (b + [x])[1..] == b[1..] + [x];
      assert (a + [x])[0] == a[0] && (a + [x])[1..] == a[1..] + [x];
      if a[0] == b[0] {
        SubseqAppendBoth(a[1..], b[1..], x);
      } else {
        SubseqAppendBoth(a, b[1..], x);
      }
    }
  }

  /**
   * A duplicate-free subsequence of `b` stays one of `b + [x]` when it is left alone or
   * when `x`, not yet in it, is appended.
   */
  lemma NoDupSubseqSnoc<T>(a: seq<T>, a': seq<T>, b: seq<T>, x: T)
    requires NoDup(a) && IsSubseq(a, b)
    requires a' == a || (x !in a && a' == a + [x])
    ensures NoDup(a') && IsSubseq(a', b + [x])
  {
    if a' == a {
      SubseqAppendRight(a, b, x);
    } else {
      SubseqAppendBoth(a, b, x);
      forall i, j | 0 <= i < j < |a'| ensures a'[i] != a'[j] {
        if j == |a| {
          assert a'[i] == a[i];
        }
      }
    }
  }

  /** A property of every element carries over to a permutation. */
  lemma PermutationKeepsAll<T>(a: seq<T>, b: seq<T>, p: T -> bool)
    requires multiset(a) == multiset(b)
    requires forall i | 0 <= i < |a| :: p(a[i])
    ensures forall i | 0 <= i < |b| :: p(b[i])
  {
    forall i | 0 <= i < |b| ensures p(b[i]) {
      assert b[i] in multiset(a);
      var k :| 0 <= k < |a| && a[k] == b[i];
    }
  }

  lemma SubsetCardinality<T>(a: set<T>, b: set<T>)
    requires a <= b
    ensures |a| <= |b|
  {
    if a != {} {
      var x :| x in a;
      SubsetCardinality(a - {x}, b - {x});
    }
  }

  /** A proper subset is strictly smaller. */
  lemma ProperSubsetCardinality<T>(a: set<T>, b: set<T>)
    requires a < b
    ensures |a| < |b|
  {
    var x :| x in b && x !in a;
    SubsetCardinality(a, b - {x});
  }
}
