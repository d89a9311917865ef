/** Sequences that list 0..n-1 in some order. */
module Permutations {

  ghost predicate Distinct(p: seq<nat>) {
    forall i, j :: 0 <= i < j < |p| ==> p[i] != p[j]
  }

  ghost predicate IsPermutation(p: seq<nat>, n: nat) {
    && |p| == n
    && (forall i :: 0 <= i < n ==> p[i] < n)
    && Distinct(p)
  }

  ghost function Elements(p: seq<nat>): set<nat> {
    set x | x in p
  }

  lemma {:induction false} DistinctCount(p: seq<nat>)
    requires Distinct(p)
    ensures |Elements(p)| == |p|
  {
    if p != [] {
      var k := |p| - 1;
      DistinctCount(p[..k]);
      assert Elements(p) == Elements(p[..k]) + {p[k]};
      assert p[k] !in p[..k];
    }
  }

  ghost function Range(n: nat): (r: set<nat>)
    ensures |r| == n
    ensures forall x: nat :: x in r <==> x < n
  {
    if n == 0 then {} else Range(n - 1) + {n - 1}
  }

  lemma SubsetSameCount<T>(a: set<T>, b: set<T>)
    requires a <= b && |a| == |b|
    ensures a == b
  {
    assert b == a + (b - a);
    assert |b| == |a| + |b - a|;
  }

  lemma SubsetCount(a: set<nat>, b: set<nat>)
    requires a <= b
    ensures |a| <= |b|
  {
    assert b == a + (b - a);
    assert |b| == |a| + |b - a|;
  }

  /** A permutation hits every value: the pigeonhole principle. */
  lemma PermutationHits(p: seq<nat>, n: nat, x: nat) returns (i: nat)
    requires IsPermutation(p, n) && x < n
    ensures i < n && p[i] == x
  {
    DistinctCount(p);
    assert Elements(p) <= Range(n);
    SubsetSameCount(Elements(p), Range(n));
    assert x in Range(n);
    assert x in p;
    i :| 0 <= i < |p| && p[i] == x;
  }

}
