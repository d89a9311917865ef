/** Rearranging a range of a sequence and leaving the rest alone. */
module Rearrangement {
  import opened Arrays

  /** b is a with the elements at lo..hi (inclusive) in some other order. */
  ghost predicate Rearranged(a: seq<nat>, b: seq<nat>, lo: int, hi: int) {
    && |a| == |b| && 0 <= lo <= hi + 1 <= |a|
    && a[..lo] == b[..lo] && a[hi + 1..] == b[hi + 1..]
    && multiset(a[lo..hi + 1]) == multiset(b[lo..hi + 1])
  }

  lemma RearrangedSelf(a: seq<nat>, lo: int, hi: int)
    requires 0 <= lo <= hi + 1 <= |a|
    ensures Rearranged(a, a, lo, hi)
  {
  }

  lemma RearrangedTrans(a: seq<nat>, b: seq<nat>, c: seq<nat>, lo: int, hi: int)
    requires Rearranged(a, b, lo, hi) && Rearranged(b, c, lo, hi)
    ensures Rearranged(a, c, lo, hi)
  {
  }

  lemma SwapMultiset(a: seq<nat>, i: nat, j: nat)
    requires i < |a| && j < |a|
    ensures multiset(Swap(a, i, j)) == multiset(a)
  {
  }

  lemma RearrangedSwap(a: seq<nat>, i: nat, j: nat, lo: int, hi: int)
    requires 0 <= lo <= i <= hi < |a| && lo <= j <= hi
    ensures Rearranged(a, Swap(a, i, j), lo, hi)
  {
    var b := Swap(a, i, j);
    SwapMultiset(a[lo..hi + 1], i - lo, j - lo);
    assert b[lo..hi + 1] == Swap(a[lo..hi + 1], i - lo, j - lo);
    assert a[..lo] == b[..lo] && a[hi + 1..] == b[hi + 1..];
  }

  /** A rearrangement of a part of the range is one of the range. */
  lemma RearrangedWiden(a: seq<nat>, b: seq<nat>, x: int, y: int, lo: int, hi: int)
    requires Rearranged(a, b, x, y) && 0 <= lo <= x && y <= hi && hi + 1 <= |a|
    ensures Rearranged(a, b, lo, hi)
  {
    PrefixOf(a, b, lo, x);
    SuffixOf(a, b, y + 1, hi + 1);
    assert a[lo..hi + 1] == a[lo..x] + a[x..y + 1] + a[y + 1..hi + 1];
    assert b[lo..hi + 1] == b[lo..x] + b[x..y + 1] + b[y + 1..hi + 1];
  }

  lemma PrefixOf(a: seq<nat>, b: seq<nat>, lo: int, x: int)
    requires |a| == |b| && 0 <= lo <= x <= |a| && a[..x] == b[..x]
    ensures a[..lo] == b[..lo] && a[lo..x] == b[lo..x]
  {
  }

  lemma SuffixOf(a: seq<nat>, b: seq<nat>, y: int, hi: int)
    requires |a| == |b| && 0 <= y <= hi <= |a| && a[y..] == b[y..]
    ensures a[hi..] == b[hi..] && a[y..hi] == b[y..hi]
  {
  }

  /** Every element of the range was in the range before. */
  lemma RearrangedFrom(a: seq<nat>, b: seq<nat>, lo: int, hi: int, i: int) returns (j: int)
    requires Rearranged(a, b, lo, hi) && lo <= i <= hi
    ensures lo <= j <= hi && a[j] == b[i]
  {
    assert b[lo..hi + 1][i - lo] == b[i];
    assert b[i] in multiset(b[lo..hi + 1]);
    assert b[i] in a[lo..hi + 1];
    var t :| 0 <= t < |a[lo..hi + 1]| && a[lo..hi + 1][t] == b[i];
    j := lo + t;
  }

  lemma RearrangedOutside(a: seq<nat>, b: seq<nat>, lo: int, hi: int, i: int)
    requires Rearranged(a, b, lo, hi) && 0 <= i < |a| && (i < lo || i > hi)
    ensures a[i] == b[i]
  {
  }
}
