/** Counting the elements of sequences. */
module Sequences {

  predicate NoDup<T(==)>(s: seq<T>) {
    forall i, j :: 0 <= i < j < |s| ==> s[i] != s[j]
  }

  function Elements<T>(s: seq<T>): set<T> {
    set x | x in s
  }

  lemma {:induction false} ElementCount<T>(s: seq<T>)
    ensures |Elements(s)| <= |s|
    ensures NoDup(s) ==> |Elements(s)| == |s|
  {
    if s != [] {
      var n := |s| - 1;
      ElementCount(s[..n]);
      assert s == s[..n] + [s[n]];
      assert Elements(s) == Elements(s[..n]) + {s[n]};
      assert NoDup(s) ==> NoDup(s[..n]) && s[n] !in s[..n];
    }
  }

  lemma SubsetCount<T>(a: set<T>, b: set<T>)
    requires a <= b
    ensures |a| <= |b|
  {
    assert b == a + (b - a);
  }

  /** Distinct elements of s, all of them among those of t. */
  lemma Pigeonhole<T>(s: seq<T>, t: seq<T>)
    requires NoDup(s) && forall i :: 0 <= i < |s| ==> s[i] in t
    ensures |s| <= |t|
  {
    ElementCount(s);
    ElementCount(t);
    SubsetCount(Elements(s), Elements(t));
  }

  /** Distinct numbers below n. */
  lemma Bounded(s: seq<nat>, n: nat)
    requires NoDup(s) && forall i :: 0 <= i < |s| ==> s[i] < n
    ensures |s| <= n
  {
    var below: seq<nat> := seq(n, i => i);
    forall i | 0 <= i < |s|
      ensures s[i] in below
    {
      assert below[s[i]] == s[i];
    }
    Pigeonhole(s, below);
  }
}
