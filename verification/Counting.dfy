/** Counting with sequences of distinct numbers. */
module Counting {

  predicate Distinct(s: seq<nat>) {
    forall i, j :: 0 <= i < j < |s| ==> s[i] != s[j]
  }

  function Below(n: nat): (all: set<nat>)
    ensures forall q: nat :: q in all <==> q < n
    ensures |all| == n
  {
    if n == 0 then {} else Below(n - 1) + {n - 1}
  }

  function Elements(s: seq<nat>): (all: set<nat>)
    ensures forall q: nat :: q in all <==> q in s
    ensures Distinct(s) ==> |all| == |s|
  {
    if s == [] then {} else
      assert forall q :: q in s <==> q in s[..|s| - 1] || q == s[|s| - 1];
      Elements(s[..|s| - 1]) + {s[|s| - 1]}
  }

  lemma SubsetSize(a: set<nat>, b: set<nat>)
    requires a <= b
    ensures |a| <= |b|
    ensures |a| == |b| ==> a == b
  {
    assert b == a + (b - a);
  }

  lemma Covered(s: seq<nat>, all: set<nat>)
    requires Distinct(s) && forall i :: 0 <= i < |s| ==> s[i] in all
    requires forall q: nat :: q in all ==> q in s
    ensures |s| == |all|
  {
    assert Elements(s) == all;
  }

  lemma NoMoreThanAll(s: seq<nat>, all: set<nat>)
    requires Distinct(s) && forall i :: 0 <= i < |s| ==> s[i] in all
    ensures |s| <= |all|
    ensures |s| == |all| ==> forall q: nat :: q in all ==> q in s
  {
    assert Elements(s) <= all;
    SubsetSize(Elements(s), all);
  }

  /** Distinct members of a set are no more than the set has, and they are as many if and only if
      they are all of it. */
  lemma Pigeonhole(s: seq<nat>, all: set<nat>)
    requires Distinct(s) && forall i :: 0 <= i < |s| ==> s[i] in all
    ensures |s| <= |all|
    ensures |s| == |all| <==> forall q: nat :: q in all ==> q in s
  {
    NoMoreThanAll(s, all);
    if forall q: nat :: q in all ==> q in s {
      Covered(s, all);
    }
  }

  function Without<T>(xs: seq<T>, i: nat): (r: seq<T>)
    requires i < |xs|
    ensures |r| == |xs| - 1
    ensures forall j :: 0 <= j < |r| ==> r[j] == if j < i then xs[j] else xs[j + 1]
  {
    xs[..i] + xs[i + 1..]
  }

  lemma WithoutTakesOne<T>(xs: seq<T>, i: nat)
    requires i < |xs|
    ensures multiset(xs) == multiset(Without(xs, i)) + multiset{xs[i]}
  {
    assert xs == xs[..i] + [xs[i]] + xs[i + 1..];
  }

  // The last of ys, somewhere among xs.
  lemma FindEqual<T>(xs: seq<T>, ys: seq<T>, n: nat) returns (i: nat)
    requires multiset(xs) == multiset(ys) && |ys| == n + 1
    ensures i < |xs| && xs[i] == ys[n] && multiset(Without(xs, i)) == multiset(ys[..n])
  {
    assert ys == ys[..n] + [ys[n]];
    assert ys[n] in multiset(xs);
    i :| 0 <= i < |xs| && xs[i] == ys[n];
    WithoutTakesOne(xs, i);
    assert multiset(ys) == multiset(ys[..n]) + multiset{ys[n]};
    assert multiset(Without(xs, i)) == multiset(xs) - multiset{xs[i]};
    assert multiset(ys[..n]) == multiset(ys) - multiset{ys[n]};
  }

  lemma WithoutDistinct(s: seq<nat>, k: nat)
    requires Distinct(s) && k < |s|
    ensures Distinct(Without(s, k))
    ensures forall q: nat :: q in Without(s, k) <==> q in s && q != s[k]
  {
    forall q: nat
      ensures q in Without(s, k) <==> q in s && q != s[k]
    {
      if q in s && q != s[k] {
        var i :| 0 <= i < |s| && s[i] == q;
        assert Without(s, k)[if i < k then i else i - 1] == q;
      }
    }
  }
}
