/** Stable sorting of indices by a small key: the arithmetic behind the decode permutation,
    the inverse block transform and the first radix pass of the sorter. */
module CountingSort {

  /** How many of the first s keys equal v. */
  function Rank(key: seq<nat>, s: nat, v: nat): (r: nat)
    requires s <= |key|
    ensures r <= s
  {
    if s == 0 then 0 else Rank(key, s - 1, v) + if key[s - 1] == v then 1 else 0
  }

  function Count(key: seq<nat>, v: nat): nat {
    Rank(key, |key|, v)
  }

  /** How many keys are below v. */
  function Below(key: seq<nat>, v: nat): nat {
    if v == 0 then 0 else Below(key, v - 1) + Count(key, v - 1)
  }

  /** The indices below s whose key is v, ascending. */
  function Indices(key: seq<nat>, s: nat, v: nat): (r: seq<nat>)
    requires s <= |key|
    ensures |r| == Rank(key, s, v)
    ensures forall i :: 0 <= i < |r| ==> r[i] < s && key[r[i]] == v
  {
    if s == 0 then [] else Indices(key, s - 1, v) + if key[s - 1] == v then [s - 1] else []
  }

  /** The indices with keys below v, sorted by key and then by index. */
  function Sorted(key: seq<nat>, v: nat): (r: seq<nat>)
    ensures |r| == Below(key, v)
    ensures forall i :: 0 <= i < |r| ==> r[i] < |key| && key[r[i]] < v
  {
    if v == 0 then [] else Sorted(key, v - 1) + Indices(key, |key|, v - 1)
  }

  /** The position of index i in that order. */
  function Place(key: seq<nat>, i: nat): nat
    requires i < |key|
  {
    Below(key, key[i]) + Rank(key, i, key[i])
  }

  lemma {:induction false} RankMonotone(key: seq<nat>, s: nat, s': nat, v: nat)
    requires s <= s' <= |key|
    ensures Rank(key, s, v) <= Rank(key, s', v)
  {
    if s < s' { RankMonotone(key, s, s' - 1, v); }
  }

  lemma RankBelowCount(key: seq<nat>, s: nat)
    requires s < |key|
    ensures Rank(key, s, key[s]) < Count(key, key[s])
  {
    RankMonotone(key, s + 1, |key|, key[s]);
  }

  lemma {:induction false} RankPrefix(key: seq<nat>, more: seq<nat>, s: nat, v: nat)
    requires s <= |key|
    ensures Rank(key + more, s, v) == Rank(key, s, v)
  {
    if s > 0 { RankPrefix(key, more, s - 1, v); }
  }

  lemma {:induction false} NoneOf(key: seq<nat>, s: nat, v: nat)
    requires s <= |key| && forall i :: 0 <= i < s ==> key[i] != v
    ensures Rank(key, s, v) == 0
  {
    if s > 0 { NoneOf(key, s - 1, v); }
  }

  lemma {:induction false} BelowMonotone(key: seq<nat>, v: nat, w: nat)
    requires v <= w
    ensures Below(key, v) <= Below(key, w)
  {
    if v < w { BelowMonotone(key, v, w - 1); }
  }

  /** A place belongs to one group only. */
  lemma OneBucket(key: seq<nat>, k: nat, v: nat, w: nat)
    requires Below(key, v) <= k < Below(key, v + 1) && Below(key, w) <= k < Below(key, w + 1)
    ensures v == w
  {
    if v < w { BelowMonotone(key, v + 1, w); }
    if w < v { BelowMonotone(key, w + 1, v); }
  }

  lemma {:induction false} SortedPrefix(key: seq<nat>, v: nat, w: nat)
    requires v <= w
    ensures Below(key, v) <= Below(key, w) && Sorted(key, v) == Sorted(key, w)[..Below(key, v)]
  {
    if v < w {
      SortedPrefix(key, v, w - 1);
    }
  }

  lemma {:induction false} IndexAtRank(key: seq<nat>, s: nat, n: nat, v: nat)
    requires s < n <= |key| && key[s] == v
    ensures Rank(key, s, v) < Rank(key, n, v) && Indices(key, n, v)[Rank(key, s, v)] == s
  {
    RankMonotone(key, s + 1, n, v);
    if s < n - 1 {
      IndexAtRank(key, s, n - 1, v);
    }
  }

  lemma {:induction false} RankAtIndex(key: seq<nat>, n: nat, v: nat, k: nat)
    requires n <= |key| && k < Rank(key, n, v)
    ensures Rank(key, Indices(key, n, v)[k], v) == k
  {
    if k < Rank(key, n - 1, v) {
      RankAtIndex(key, n - 1, v, k);
    }
  }

  lemma SortedSplit(key: seq<nat>, v: nat)
    ensures Sorted(key, v + 1) == Sorted(key, v) + Indices(key, |key|, v)
    ensures Below(key, v + 1) == Below(key, v) + Count(key, v)
  {
  }

  /** Place and Sorted are inverse to each other. */
  lemma {:induction false} SortedAtPlace(key: seq<nat>, i: nat, v: nat)
    requires i < |key| && key[i] < v
    ensures Place(key, i) < Below(key, v) && Sorted(key, v)[Place(key, i)] == i
  {
    hide Sorted, Below, Indices, Rank;
    SortedSplit(key, v - 1);
    if key[i] == v - 1 {
      IndexAtRank(key, i, |key|, v - 1);
    } else {
      SortedAtPlace(key, i, v - 1);
    }
  }

  lemma {:induction false} PlaceAtSorted(key: seq<nat>, k: nat, v: nat)
    requires k < Below(key, v)
    ensures Place(key, Sorted(key, v)[k]) == k
    ensures Below(key, key[Sorted(key, v)[k]]) <= k < Below(key, key[Sorted(key, v)[k]] + 1)
  {
    hide Sorted, Below, Indices, Rank, Place;
    if v == 0 { NothingBelow(key); }
    SortedSplit(key, v - 1);
    if k < Below(key, v - 1) {
      PlaceAtSorted(key, k, v - 1);
    } else {
      PlaceInLastGroup(key, k, v - 1);
    }
  }

  lemma NothingBelow(key: seq<nat>)
    ensures Below(key, 0) == 0
  {
  }

  lemma PlaceInLastGroup(key: seq<nat>, k: nat, v: nat)
    requires Below(key, v) <= k < Below(key, v + 1)
    ensures var i := Sorted(key, v + 1)[k]; key[i] == v && Place(key, i) == k
  {
    var r := k - Below(key, v);
    var i := Indices(key, |key|, v)[r];
    assert Sorted(key, v + 1)[k] == i;
    RankAtIndex(key, |key|, v, r);
  }

  /** Every key is below the bound, so nothing is left out. */
  lemma {:induction false} BelowAll(key: seq<nat>, v: nat)
    requires forall i :: 0 <= i < |key| ==> key[i] < v
    ensures Below(key, v) == |key|
  {
    if key == [] {
      BelowEmpty(v);
    } else {
      var k := |key| - 1;
      BelowAll(key[..k], v);
      BelowAppend(key[..k], key[k], v);
      assert key[..k] + [key[k]] == key;
    }
  }

  lemma {:induction false} BelowEmpty(v: nat)
    ensures Below([], v) == 0
  {
    if v > 0 { BelowEmpty(v - 1); }
  }

  lemma {:induction false} BelowAppend(key: seq<nat>, x: nat, v: nat)
    ensures Below(key + [x], v) == Below(key, v) + if x < v then 1 else 0
  {
    if v > 0 {
      BelowAppend(key, x, v - 1);
      CountAppend(key, x, v - 1);
    }
  }

  lemma CountAppend(key: seq<nat>, x: nat, v: nat)
    ensures Count(key + [x], v) == Count(key, v) + if x == v then 1 else 0
  {
    RankPrefix(key, [x], |key|, v);
  }
}
