/** Sequence operations the server performs through JavaScript array methods. */
module Seqs {

  function Min(a: int, b: int): (m: int) { if a <= b then a else b }

  function Max(a: int, b: int): (m: int) { if a >= b then a else b }

  /** `a` can be obtained from `b` by deleting elements: `a` keeps `b`'s order. */
  ghost predicate IsSubsequence<T>(a: seq<T>, b: seq<T>)
    decreases |b|
  {
    a == [] ||
    (b != [] && ((a[0] == b[0] && IsSubsequence(a[1..], b[1..])) || IsSubsequence(a, b[1..])))
  }

  /** `Array.prototype.filter`: the elements of `s` that satisfy `p`, in their original order. */
  function Filter<T(!new)>(s: seq<T>, p: T -> bool): (r: seq<T>)
    ensures |r| <= |s|
    ensures forall x :: x in r <==> x in s && p(x)
    ensures forall i :: 0 <= i < |r| ==> p(r[i])
    ensures IsSubsequence(r, s)
  {
    if s == [] then []
    else
      var rest := Filter(s[1..], p);
      assert forall x :: x in s <==> x == s[0] || x in s[1..];
      if p(s[0]) then [s[0]] + rest else rest
  }

  /** Filtering keeps every copy of a kept element: each occurs as often as in the input, or not at all. */
  lemma {:induction false} FilterCount<T(!new)>(s: seq<T>, p: T -> bool)
    ensures forall x :: multiset(Filter(s, p))[x] == if p(x) then multiset(s)[x] else 0
    decreases |s|
  {
    if s != [] {
      FilterCount(s[1..], p);
      assert s == [s[0]] + s[1..];
      assert multiset(s) == multiset{s[0]} + multiset(s[1..]);
      var rest := Filter(s[1..], p);
      if p(s[0]) {
        assert multiset([s[0]] + rest) == multiset{s[0]} + multiset(rest);
      }
    }
  }

  /** No element occurs twice. */
  ghost predicate Distinct<T>(s: seq<T>) {
    forall i, j :: 0 <= i < j < |s| ==> s[i] != s[j]
  }

  /** Filtering never introduces a duplicate. */
  lemma {:induction false} FilterDistinct<T(!new)>(s: seq<T>, p: T -> bool)
    requires Distinct(s)
    ensures Distinct(Filter(s, p))
    decreases |s|
  {
    if s != [] {
      FilterDistinct(s[1..], p);
      var rest := Filter(s[1..], p);
      assert s[0] !in s[1..];
      assert s[0] !in rest;
      if p(s[0]) {
        var r := [s[0]] + rest;
        forall i, j | 0 <= i < j < |r| ensures r[i] != r[j] {
          if i == 0 {
            assert r[j] == rest[j - 1];
          } else {
            assert r[i] == rest[i - 1] && r[j] == rest[j - 1];
          }
        }
      }
    }
  }

  /** A sequence is a subsequence of itself. */
  lemma {:induction false} SubsequenceReflexive<T>(s: seq<T>)
    ensures IsSubsequence(s, s)
    decreases |s|
  {
    if s != [] {
      SubsequenceReflexive(s[1..]);
    }
  }

  /** Every suffix is a subsequence. */
  lemma {:induction false} SuffixIsSubsequence<T>(s: seq<T>, k: nat)
    requires k <= |s|
    ensures IsSubsequence(s[k..], s)
    decreases k
  {
    if k == 0 {
      assert s[0..] == s;
      SubsequenceReflexive(s);
    } else {
      SuffixIsSubsequence(s[1..], k - 1);
      assert s[1..][k - 1..] == s[k..];
    }
  }

  /** Deleting elements twice is deleting elements once. */
  lemma {:induction false} SubsequenceTransitive<T>(a: seq<T>, b: seq<T>, c: seq<T>)
    requires IsSubsequence(a, b) && IsSubsequence(b, c)
    ensures IsSubsequence(a, c)
    decreases |c|
  {
    if a == [] {
    } else if b[0] == c[0] && IsSubsequence(b[1..], c[1..]) {
      if a[0] == b[0] && IsSubsequence(a[1..], b[1..]) {
        SubsequenceTransitive(a[1..], b[1..], c[1..]);
      } else {
        SubsequenceTransitive(a, b[1..], c[1..]);
      }
    } else {
      SubsequenceTransitive(a, b, c[1..]);
    }
  }

  /** Filtering the same sequence with two predicates that agree on it gives the same result. */
  lemma {:induction false} FilterCongruent<T(!new)>(s: seq<T>, p: T -> bool, q: T -> bool)
    requires forall x :: x in s ==> p(x) == q(x)
    ensures Filter(s, p) == Filter(s, q)
    decreases |s|
  {
    if s != [] {
      assert s[0] in s;
      assert forall x :: x in s[1..] ==> x in s;
      FilterCongruent(s[1..], p, q);
    }
  }

  /** A filter that keeps everything is the identity. */
  lemma {:induction false} FilterKeepsAll<T(!new)>(s: seq<T>, p: T -> bool)
    requires forall x :: x in s ==> p(x)
    ensures Filter(s, p) == s
    decreases |s|
  {
    if s != [] {
      assert s[0] in s;
      assert forall x :: x in s[1..] ==> x in s;
      FilterKeepsAll(s[1..], p);
    }
  }

  /** The last `n` elements of `s` (all of `s` when it is shorter). */
  function Window<T>(s: seq<T>, n: nat): (r: seq<T>)
    ensures |r| == Min(|s|, n)
    ensures r == s[|s| - |r|..]
  {
    if |s| <= n then s else s[|s| - n..]
  }

  /** Taking the last `n` of a sequence and extending it keeps the same last `n` as extending first. */
  lemma WindowAbsorbs<T>(a: seq<T>, b: seq<T>, n: nat)
    ensures Window(Window(a, n) + b, n) == Window(a + b, n)
  {
    if |a| > n {
      var w := a[|a| - n..];
      var left, right := w + b, a + b;
      assert Window(a, n) == w;
      assert Window(left, n) == left[|b|..];
      assert Window(right, n) == right[|a| + |b| - n..];
      forall j | |b| <= j < |left|
        ensures left[j] == right[|a| - n + j]
      {
        if j < n {
          assert left[j] == a[|a| - n + j];
        } else {
          assert left[j] == b[j - n];
        }
      }
      assert left[|b|..] == right[|a| + |b| - n..];
    }
  }
}
