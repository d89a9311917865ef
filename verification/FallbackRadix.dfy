/** The outer phases of fallbackSort: the one-character radix pass, and the reconstruction of the
    block from the sorted order and the character counts. */
module FallbackRadix {
  import opened Arrays
  import opened Bits
  import opened CountingSort
  import opened Permutations
  import opened Rotations

  /** Where the radix pass puts index t: its bucket is filled from the end. */
  function Slot(b: seq<nat>, t: nat): int
    requires t < |b|
  {
    Below(b, b[t] + 1) - 1 - Rank(b, t, b[t])
  }

  lemma SlotBounds(b: Block, t: nat)
    requires t < |b|
    ensures Below(b, b[t]) <= Slot(b, t) < Below(b, b[t] + 1) <= |b|
  {
    RankBelowCount(b, t);
    BelowAll(b, 256);
    BelowMonotone(b, b[t] + 1, 256);
  }

  lemma SlotApart(b: Block, t: nat, u: nat)
    requires t < u < |b|
    ensures Slot(b, t) != Slot(b, u)
  {
    SlotBounds(b, t);
    SlotBounds(b, u);
    if b[t] < b[u] {
      BelowMonotone(b, b[t] + 1, b[u]);
    } else if b[u] < b[t] {
      BelowMonotone(b, b[u] + 1, b[t]);
    } else {
      RankMonotone(b, t + 1, u, b[t]);
    }
  }

  /** Every place gets an index. */
  lemma SlotHits(b: Block, k: nat) returns (t: nat)
    requires k < |b|
    ensures t < |b| && Slot(b, t) == k
  {
    BelowAll(b, 256);
    PlaceAtSorted(b, k, 256);
    var v := b[Sorted(b, 256)[k]];
    var k' := Below(b, v) + Below(b, v + 1) - 1 - k;
    BelowMonotone(b, v + 1, 256);
    PlaceAtSorted(b, k', 256);
    t := Sorted(b, 256)[k'];
    OneBucket(b, k', v, b[t]);
  }

  /** The first i indices are in their slots. */
  ghost predicate Filled(b: Block, f: seq<nat>, i: nat) {
    |f| == |b| && i <= |b| && forall t :: 0 <= t < i ==> InSlot(b, f, t)
  }

  predicate InSlot(b: Block, f: seq<nat>, t: nat)
    requires t < |b| == |f|
  {
    0 <= Slot(b, t) < |f| && f[Slot(b, t)] == t
  }

  lemma FillStep(b: Block, f: seq<nat>, i: nat)
    requires Filled(b, f, i) && i < |b|
    ensures 0 <= Slot(b, i) < |f| && Filled(b, f[Slot(b, i) := i], i + 1)
  {
    hide Slot;
    SlotBounds(b, i);
    var g := f[Slot(b, i) := i];
    forall t | 0 <= t < i + 1 ensures InSlot(b, g, t) {
      if t < i {
        assert InSlot(b, f, t);
        SlotApart(b, t, i);
      }
    }
  }

  /** Each place holds an index whose character's bucket covers the place. */
  predicate Bucketed(b: Block, f: seq<nat>) {
    |f| == |b| && forall k :: 0 <= k < |b| ==> InBucket(b, f, k)
  }

  predicate InBucket(b: Block, f: seq<nat>, k: nat)
    requires k < |b| == |f|
  {
    f[k] < |b| && Below(b, b[f[k]]) <= k < Below(b, b[f[k]] + 1)
  }

  lemma FillEnd(b: Block, f: seq<nat>)
    requires Filled(b, f, |b|)
    ensures IsPermutation(f, |b|) && Bucketed(b, f)
  {
    hide Slot;
    forall k | 0 <= k < |b| ensures f[k] < |b| && Slot(b, f[k]) == k && InBucket(b, f, k) {
      var t := SlotHits(b, k);
      assert InSlot(b, f, t);
      SlotBounds(b, t);
    }
    forall i, j | 0 <= i < j < |b| ensures f[i] != f[j] {
      assert Slot(b, f[i]) == i && Slot(b, f[j]) == j;
    }
  }

  // ---- the counts ----

  /** ftab holds the counts of the first i characters. */
  ghost predicate Counts(b: Block, tab: seq<int>, i: nat) {
    i <= |b| && |tab| >= 256 && forall v: nat :: v < 256 ==> tab[v] == Rank(b, i, v)
  }

  /** ftab holds the bucket ends less what was placed. */
  ghost predicate Ends(b: Block, tab: seq<int>, i: nat) {
    i <= |b| && |tab| >= 256 && forall v: nat :: v < 256 ==> tab[v] == Below(b, v + 1) - Rank(b, i, v)
  }

  lemma CountStep(b: Block, tab: seq<int>, i: nat)
    requires Counts(b, tab, i) && i < |b|
    ensures Counts(b, tab[b[i] := tab[b[i]] + 1], i + 1)
  {
  }

  lemma EndsStep(b: Block, tab: seq<int>, i: nat)
    requires Ends(b, tab, i) && i < |b|
    ensures Ends(b, tab[b[i] := tab[b[i]] - 1], i + 1) && tab[b[i]] - 1 == Slot(b, i)
  {
  }

  lemma NoCounts(b: Block, tab: seq<int>)
    requires |tab| >= 256 && forall v: nat :: v < 256 ==> tab[v] == 0
    ensures Counts(b, tab, 0)
  {
  }

  /** Counting, and the copy kept for the reconstruction. */
  method CountBytes(block: array<nat>, ghost b: Block) returns (ftab: array<int>, ftabCopy: array<int>)
    requires block[..] == b
    ensures fresh(ftab) && fresh(ftabCopy) && ftab != ftabCopy && ftab.Length == 257 && ftabCopy.Length == 256
    ensures ftab[256] == 0 && Counts(b, ftab[..], |b|) && Counts(b, ftabCopy[..], |b|)
  {
    hide Counts, Rank;
    ftab := new int[257](_ => 0);
    NoCounts(b, ftab[..]);
    var i := 0;
    while i < block.Length
      invariant 0 <= i <= block.Length && ftab[256] == 0 && Counts(b, ftab[..], i)
    {
      assert block[i] == b[i];
      CountStep(b, ftab[..], i);
      AddTo(ftab, block[i], 1);
      i := i + 1;
    }
    ftabCopy := new int[256];
    i := 0;
    while i < 256
      invariant 0 <= i <= 256 && ftab[256] == 0 && Counts(b, ftab[..], |b|)
      invariant forall v :: 0 <= v < i ==> ftabCopy[v] == ftab[v]
    {
      ftabCopy[i] := ftab[i];
      i := i + 1;
    }
    SameCounts(b, ftab[..], ftabCopy[..]);
  }

  lemma SameCounts(b: Block, tab: seq<int>, copy: seq<int>)
    requires Counts(b, tab, |b|) && |copy| >= 256 && forall v :: 0 <= v < 256 ==> copy[v] == tab[v]
    ensures Counts(b, copy, |b|)
  {
  }

  /** Running sums: ftab[v] becomes the end of bucket v. */
  method SumCounts(ftab: array<int>, ghost b: Block)
    requires ftab.Length == 257 && ftab[256] == 0 && Counts(b, ftab[..], |b|)
    modifies ftab
    ensures Ends(b, ftab[..], 0) && ftab[256] == |b|
  {
    var i := 1;
    assert ftab[0] == Below(b, 1) by { assert Below(b, 1) == Below(b, 0) + Count(b, 0); }
    while i < 257
      invariant 1 <= i <= 257
      invariant forall v :: 0 <= v < i && v < 256 ==> ftab[v] == Below(b, v + 1)
      invariant forall v: nat :: i <= v < 256 ==> ftab[v] == Count(b, v)
      invariant ftab[256] == if i == 257 then Below(b, 256) else 0
    {
      ftab[i] := ftab[i] + ftab[i - 1];
      i := i + 1;
    }
    BelowAll(b, 256);
  }

  /** The placing loop. */
  method PlaceBytes(block: array<nat>, fmap: array<nat>, ftab: array<int>, ghost b: Block)
    requires block[..] == b && fmap.Length == |b| && ftab.Length == 257 && block != fmap && Ends(b, ftab[..], 0)
    modifies fmap, ftab
    ensures IsPermutation(fmap[..], |b|) && Bucketed(b, fmap[..]) && Ends(b, ftab[..], |b|)
  {
    hide Ends, Filled, Slot, Bucketed, IsPermutation;
    EmptyFill(b, fmap[..]);
    var i := 0;
    while i < block.Length
      invariant 0 <= i <= block.Length && Ends(b, ftab[..], i) && Filled(b, fmap[..], i)
    {
      var j := block[i];
      assert j == b[i];
      EndsStep(b, ftab[..], i);
      FillStep(b, fmap[..], i);
      var k := ftab[j] - 1;
      AddTo(ftab, j, -1);
      Put(fmap, k, i);
      i := i + 1;
    }
    FillEnd(b, fmap[..]);
  }

  lemma EmptyFill(b: Block, f: seq<nat>)
    requires |f| == |b|
    ensures Filled(b, f, 0)
  {
  }

  /** After placing, ftab[v] is where bucket v begins. */
  lemma EndsBegin(b: Block, tab: seq<int>)
    requires Ends(b, tab, |b|)
    ensures forall v: nat :: v < 256 ==> tab[v] == Below(b, v) <= |b|
  {
    BelowAll(b, 256);
    forall v: nat | v < 256 ensures tab[v] == Below(b, v) <= |b| {
      BelowMonotone(b, v, 256);
      assert Below(b, v + 1) == Below(b, v) + Rank(b, |b|, v);
    }
  }

  // ---- reconstruction ----

  /** Places below i are restored, the counts say how many of each character are still to come. */
  ghost predicate Restoring(b: Block, f: seq<nat>, tab: seq<int>, out: seq<nat>, j: nat, i: nat) {
    && Bucketed(b, f) && |out| == |b| && |tab| == 256 && i <= |b| && j <= 255
    && (forall v: nat :: j < v < 256 ==> tab[v] == Count(b, v))
    && 0 <= tab[j] <= Count(b, j) && i == Below(b, j) + Count(b, j) - tab[j]
    && (forall t :: 0 <= t < i ==> f[t] < |b| && out[f[t]] == b[f[t]])
  }

  lemma RestoreSkip(b: Block, f: seq<nat>, tab: seq<int>, out: seq<nat>, j: nat, i: nat)
    requires Restoring(b, f, tab, out, j, i) && i < |b| && tab[j] == 0
    ensures Restoring(b, f, tab, out, j + 1, i)
  {
    assert Below(b, j + 1) == i;
    if j == 255 { BelowAll(b, 256); }
  }

  lemma RestoreStep(b: Block, f: seq<nat>, tab: seq<int>, out: seq<nat>, j: nat, i: nat)
    requires Restoring(b, f, tab, out, j, i) && i < |b| && tab[j] != 0
    ensures f[i] < |b| && Restoring(b, f, tab[j := tab[j] - 1], out[f[i] := j], j, i + 1)
  {
    assert InBucket(b, f, i);
    assert Below(b, j + 1) == Below(b, j) + Count(b, j);
    OneBucket(b, i, j, b[f[i]]);
  }

  lemma RestoreEnd(b: Block, f: seq<nat>, tab: seq<int>, out: seq<nat>, j: nat)
    requires Restoring(b, f, tab, out, j, |b|) && IsPermutation(f, |b|)
    ensures out == b
  {
    forall x | 0 <= x < |b| ensures out[x] == b[x] {
      var t := PermutationHits(f, |b|, x);
    }
  }

  lemma RestoreStart(b: Block, f: seq<nat>, tab: seq<int>, out: seq<nat>)
    requires Bucketed(b, f) && |out| == |b| && |tab| == 256 && Counts(b, tab, |b|)
    ensures Restoring(b, f, tab, out, 0, 0)
  {
    assert Below(b, 0) == 0;
  }

  lemma RestoreFacts(b: Block, f: seq<nat>, tab: seq<int>, out: seq<nat>, j: nat, i: nat)
    requires Restoring(b, f, tab, out, j, i)
    ensures |out| == |b| == |f| && |tab| == 256 && j <= 255
  {
  }

  /** Whatever the block's memory holds by now, it gets its characters back.
      The assertion at the end is the source's check 1005. */
  method Reconstruct(block: array<nat>, fmap: array<nat>, ftabCopy: array<int>, ghost b: Block)
    requires block.Length == |b| > 0 && ftabCopy.Length == 256 && block != fmap
    requires Counts(b, ftabCopy[..], |b|) && Bucketed(b, fmap[..]) && IsPermutation(fmap[..], |b|)
    modifies block, ftabCopy
    ensures block[..] == b
  {
    hide *;
    ghost var f := fmap[..];
    RestoreStart(b, f, ftabCopy[..], block[..]);
    RestoreFacts(b, f, ftabCopy[..], block[..], 0, 0);
    var i, j := 0, 0;
    while i < block.Length
      invariant 0 <= i <= block.Length && 0 <= j <= 255 && fmap[..] == f && fmap.Length == |b|
      invariant Restoring(b, f, ftabCopy[..], block[..], j, i)
    {
      while ftabCopy[j] == 0
        invariant 0 <= j <= 255 && Restoring(b, f, ftabCopy[..], block[..], j, i)
        decreases 256 - j
      {
        RestoreSkip(b, f, ftabCopy[..], block[..], j, i);
        RestoreFacts(b, f, ftabCopy[..], block[..], j + 1, i);
        j := j + 1;
      }
      RestoreStep(b, f, ftabCopy[..], block[..], j, i);
      AddTo(ftabCopy, j, -1);
      Put(block, fmap[i], j);
      i := i + 1;
    }
    assert j < 256;
    RestoreEnd(b, f, ftabCopy[..], block[..], j);
  }
}
