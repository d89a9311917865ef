/** fallbackSort: sorting the rotations of a block by doubling, with bucket headers in a bit table. */
module RotationSort {
  import opened CountingSort
  import opened Permutations
  import opened Rotations
  import opened Rearrangement
  import opened Quicksort
  import opened FallbackRadix
  import opened FallbackLevels

  // ---- the header bits ----

  /** WORD_BH compared with all zeros or all ones. */
  predicate Word(bh: array<bool>, k: nat, v: bool)
    requires k + 32 <= bh.Length
    reads bh
  {
    forall t :: k <= t < k + 32 ==> bh[t] == v
  }

  /** The first bit from k on that is not v: by bits up to a word boundary, then by words, then by bits. */
  method SkipBits(bh: array<bool>, k0: nat, v: bool, ghost m: nat) returns (k: nat)
    requires k0 <= m < bh.Length && bh[m] != v && bh.Length % 32 == 0
    ensures k0 <= k <= m && bh[k] != v && forall t :: k0 <= t < k ==> bh[t] == v
  {
    k := k0;
    while bh[k] == v && k % 32 != 0
      invariant k0 <= k <= m && forall t :: k0 <= t < k ==> bh[t] == v
      decreases m - k
    {
      k := k + 1;
    }
    if bh[k] == v {
      while Word(bh, k, v)
        invariant k0 <= k <= m && k % 32 == 0 && forall t :: k0 <= t < k ==> bh[t] == v
        decreases m - k
      {
        k := k + 32;
      }
      while bh[k] == v
        invariant k0 <= k <= m && forall t :: k0 <= t < k ==> bh[t] == v
        decreases m - k
      {
        k := k + 1;
      }
    }
  }

  /** The bit table has room for the sentinels, and they stand behind the block's bits. */
  ghost predicate Fenced(bh: seq<bool>, n: nat) {
    |bh| % 32 == 0 && |bh| >= 32 * (n / 32 + 3) && bh[n] && !bh[n + 1]
  }

  /** The bits below the block's end mark the bucket starts v < k. */
  ghost predicate Starts(b: Block, bh: seq<bool>, k: nat) {
    |bh| > |b| && forall i :: 0 <= i < |b| ==> (bh[i] <==> IsStart(b, i, k))
  }

  predicate IsStart(b: Block, i: nat, k: nat) {
    exists v: nat :: v < k && Below(b, v) == i
  }

  lemma StartsStep(b: Block, bh: seq<bool>, k: nat)
    requires Starts(b, bh, k) && Below(b, k) <= |b|
    ensures Starts(b, bh[Below(b, k) := true], k + 1)
  {
  }

  /** The radix pass leaves depth 1. */
  lemma RadixLevel(b: Block, f: seq<nat>, bh: seq<bool>)
    requires |b| > 0 && IsPermutation(f, |b|) && Bucketed(b, f) && Starts(b, bh, 256) && Fenced(bh, |b|)
    ensures Level(b, f, bh, 1)
  {
    hide Below, IsPermutation;
    assert bh[0] by { assert Below(b, 0) == 0 by { BelowNone(b); } assert IsStart(b, 0, 256); }
    assert |f| == |b|;
    forall i | 1 <= i < |b| ensures Gap(b, f, bh, 1, i) {
      assert InBucket(b, f, i - 1) && InBucket(b, f, i);
      RadixGap(b, f, bh, i);
    }
  }

  lemma BelowNone(b: Block)
    ensures Below(b, 0) == 0
  {
  }

  lemma RadixGap(b: Block, f: seq<nat>, bh: seq<bool>, i: nat)
    requires 1 <= i < |b| == |f| && Starts(b, bh, 256) && InBucket(b, f, i - 1) && InBucket(b, f, i)
    ensures Gap(b, f, bh, 1, i)
  {
    hide Below;
    var v, w := b[f[i - 1]], b[f[i]];
    CmpOne(b, f[i - 1], f[i]);
    if v < w {
      BelowMonotone(b, v + 1, w);
      assert IsStart(b, i, 256);
    } else {
      if w < v { BelowMonotone(b, w + 1, v); }
      if IsStart(b, i, 256) {
        var u: nat :| u < 256 && Below(b, u) == i;
        if u <= v { BelowMonotone(b, u, v); } else { BelowMonotone(b, v + 1, u); }
      }
    }
  }

  lemma CmpOne(b: Block, x: nat, y: nat)
    requires x < |b| && y < |b|
    ensures Cmp(b, x, y, 1) == Compare(b[x], b[y])
  {
  }

  lemma NoStarts(b: Block, bh: seq<bool>)
    requires |bh| > |b| && forall t :: 0 <= t < |b| ==> !bh[t]
    ensures Starts(b, bh, 0)
  {
  }

  method SetBit(bh: array<bool>, k: nat, v: bool)
    requires k < bh.Length
    modifies bh
    ensures bh[..] == old(bh[..])[k := v]
  {
    bh[k] := v;
  }

  method ClearTable(bh: array<bool>, nblock: nat)
    requires bh.Length >= 32 * (nblock / 32 + 3)
    modifies bh
    ensures forall t :: 0 <= t <= nblock ==> !bh[t]
  {
    var nBhtab := 2 + nblock / 32;
    var i := 0;
    while i < 32 * nBhtab
      invariant 0 <= i <= 32 * nBhtab && forall t :: 0 <= t < i ==> !bh[t]
    {
      bh[i] := false;
      i := i + 1;
    }
  }

  /** The zeroed table with a bit set at each bucket start. */
  method MarkStarts(bh: array<bool>, ftab: array<int>, nblock: nat, ghost b: Block)
    requires nblock == |b| && bh.Length >= 32 * (nblock / 32 + 3) && ftab.Length == 257
    requires forall v: nat :: v < 256 ==> ftab[v] == Below(b, v) <= |b|
    modifies bh
    ensures Starts(b, bh[..], 256)
  {
    hide Below, Starts;
    ClearTable(bh, nblock);
    NoStarts(b, bh[..]);
    var i := 0;
    while i < 256
      invariant 0 <= i <= 256 && Starts(b, bh[..], i)
    {
      assert ftab[i] == Below(b, i) <= |b|;
      StartsStep(b, bh[..], i);
      SetBit(bh, ftab[i], true);
      i := i + 1;
    }
  }

  /** The sentinel bits, alternating from the block's end on. */
  method SetSentinels(bh: array<bool>, nblock: nat)
    requires bh.Length % 32 == 0 && bh.Length >= 32 * (nblock / 32 + 3)
    modifies bh
    ensures Fenced(bh[..], nblock) && forall i :: 0 <= i < nblock ==> bh[i] == old(bh[i])
  {
    var i := 0;
    while i < 32
      invariant 0 <= i <= 32 && (i > 0 ==> bh[nblock] && !bh[nblock + 1])
      invariant forall t :: 0 <= t < nblock ==> bh[t] == old(bh[t])
    {
      bh[nblock + 2 * i] := true;
      bh[nblock + 2 * i + 1] := false;
      i := i + 1;
    }
  }

  lemma StartsFrame(b: Block, bh: seq<bool>, bh': seq<bool>)
    requires Starts(b, bh, 256) && |bh'| == |bh| && forall i :: 0 <= i < |b| ==> bh'[i] == bh[i]
    ensures Starts(b, bh', 256)
  {
  }

  // ---- classes ----

  /** A byte of a word, the lowest first */
  function WordByte(j: nat, i: nat): nat {
    match i
    case 0 => j % 256
    case 1 => j / 256 % 256
    case 2 => j / 256 / 256 % 256
    case _ => j / 256 / 256 / 256 % 256
  }

  /** A store of one word of eclass: it also changes the four bytes of the block that share its memory. */
  method StoreClass(eclass: array<nat>, block: array<nat>, k: nat, j: nat)
    requires eclass != block && k < eclass.Length
    modifies eclass, block
    ensures eclass[..] == old(eclass[..])[k := j]
    ensures forall i :: 0 <= i < block.Length ==>
              block[i] == if 4 * k <= i < 4 * k + 4 then WordByte(j, i - 4 * k) else old(block[i])
  {
    eclass[k] := j;
    var i, w := 0, j;
    while i < 4
      invariant 0 <= i <= 4 && eclass[..] == old(eclass[..])[k := j] && (i < 4 ==> w % 256 == WordByte(j, i))
      invariant i == 0 ==> w == j
      invariant i == 1 ==> w == j / 256
      invariant i == 2 ==> w == j / 256 / 256
      invariant forall h :: 0 <= h < block.Length ==>
                  block[h] == if 4 * k <= h < 4 * k + i then WordByte(j, h - 4 * k) else old(block[h])
    {
      if 4 * k + i < block.Length { block[4 * k + i] := w % 256; }
      w := w / 256;
      i := i + 1;
    }
  }

  lemma ClassesStart(f: seq<nat>, bh: seq<bool>, ec: seq<nat>, H: nat)
    requires IsPermutation(f, |f|) && |ec| == |f| < |bh| && H <= |f|
    ensures ClassesFor(f, bh, ec, H, |f|, 0)
  {
  }

  lemma ClassesStep(f: seq<nat>, bh: seq<bool>, ec: seq<nat>, H: nat, n: nat, i: nat)
    requires ClassesFor(f, bh, ec, H, n, i) && i < n
    ensures f[i] < n && ClassesFor(f, bh, ec[Back(f[i], H, n) := Head(bh, i)], H, n, i + 1)
  {
    hide Head;
    var ec' := ec[Back(f[i], H, n) := Head(bh, i)];
    forall t | 0 <= t < i + 1 ensures ClassSet(f, bh, ec', H, n, t) {
      if t < i {
        assert ClassSet(f, bh, ec, H, n, t);
        assert f[t] != f[i];
      }
    }
  }

  lemma HeadStep(bh: seq<bool>, i: nat)
    requires i < |bh| && bh[0]
    ensures Head(bh, i) == if bh[i] then i else Head(bh, i - 1)
  {
  }

  /** The first loop of a round. */
  method MarkClasses(fmap: array<nat>, eclass: array<nat>, block: array<nat>, bh: array<bool>, H: nat)
    requires fmap != eclass && fmap != block && eclass != block && eclass.Length == fmap.Length < bh.Length &&
             H <= fmap.Length
    requires IsPermutation(fmap[..], fmap.Length) && bh[0]
    modifies eclass, block
    ensures ClassesFor(fmap[..], bh[..], eclass[..], H, fmap.Length, fmap.Length)
  {
    hide *;
    var nblock := fmap.Length;
    ghost var f, bits := fmap[..], bh[..];
    ClassesStart(f, bits, eclass[..], H);
    var i, j := 0, 0;
    while i < nblock
      invariant 0 <= i <= nblock && fmap[..] == f && bh[..] == bits && bits[0] && |bits| > nblock == |f|
      invariant i > 0 ==> j == Head(bits, i - 1)
      invariant ClassesFor(f, bits, eclass[..], H, nblock, i)
    {
      HeadStep(bits, i);
      if bh[i] { j := i; }
      ClassesStep(f, bits, eclass[..], H, nblock, i);
      BackIs(f[i], H, nblock);
      var k := fmap[i] - H;
      if k < 0 { k := k + nblock; }
      StoreClass(eclass, block, k, j);
      i := i + 1;
    }
  }

  lemma BackIs(x: nat, H: nat, n: nat)
    requires x < n && H <= n
    ensures Back(x, H, n) == (if x - H < 0 then x - H + n else x - H) < n
  {
  }

  /** Headers for a sorted bucket. */
  method SetHeaders(fmap: array<nat>, eclass: array<nat>, bh: array<bool>, l: nat, r: nat)
    requires fmap != eclass && l <= r < fmap.Length < bh.Length && Classed(fmap[..], eclass[..])
    modifies bh
    ensures Headered(fmap[..], eclass[..], old(bh[..]), bh[..], l, r)
  {
    ghost var f, ec, bits := fmap[..], eclass[..], bh[..];
    var cc: int := -1;
    var i := l;
    while i <= r
      invariant l <= i <= r + 1 && fmap[..] == f && eclass[..] == ec
      invariant i > l ==> ec[f[i - 1]] == cc
      invariant i == l ==> cc == -1
      invariant Headered(f, ec, bits, bh[..], l, i - 1)
    {
      assert f[i] == fmap[i] < |ec|;
      var cc1 := eclass[fmap[i]];
      ghost var was := bh[..];
      if cc != cc1 { bh[i] := true; cc := cc1; }
      HeaderedStep(f, ec, bits, was, bh[..], l, i);
      i := i + 1;
    }
  }

  lemma HeaderedStep(f: seq<nat>, ec: seq<nat>, bits: seq<bool>, was: seq<bool>, now: seq<bool>, l: nat, i: nat)
    requires i < |f| && l <= i && Headered(f, ec, bits, was, l, i - 1)
    requires now == was[i := was[i] || i == l || ec[f[i - 1]] != ec[f[i]]]
    ensures Headered(f, ec, bits, now, l, i)
  {
    forall t | l < t <= i ensures now[t] <==> bits[t] || ec[f[t - 1]] != ec[f[t]] {
      if t == i { assert was[t] == bits[t]; } else { assert now[t] == was[t]; }
    }
  }

  // ---- a round ----

  /** What the bucket loop keeps: buckets up to k are done, and if none needed sorting every bit so far is set. */
  ghost predicate InRound(b: Block, f0: seq<nat>, bh0: seq<bool>, ec: seq<nat>, f: seq<nat>, bh: seq<bool>, H: nat,
                          k: nat, nNotDone: int)
  {
    && Refining(b, f0, bh0, ec, f, bh, H, k) && Fenced(bh, |b|) && nNotDone >= 0
    && (nNotDone == 0 ==> forall t :: 0 <= t <= k ==> bh[t])
  }

  lemma RoundStart(b: Block, f0: seq<nat>, bh0: seq<bool>, ec: seq<nat>, H: nat)
    requires Level(b, f0, bh0, H) && ClassesFor(f0, bh0, ec, H, |b|, |b|) && Fenced(bh0, |b|)
    ensures InRound(b, f0, bh0, ec, f0, bh0, H, 0, 0)
  {
    hide Gap, ClassesFor, IsPermutation, Cmp, Fenced;
    RefineStart(b, f0, bh0, ec, H);
  }

  lemma RoundFacts(b: Block, f0: seq<nat>, bh0: seq<bool>, ec: seq<nat>, f: seq<nat>, bh: seq<bool>, H: nat, k: nat,
                   nNotDone: int)
    requires InRound(b, f0, bh0, ec, f, bh, H, k, nNotDone)
    ensures |f| == |b| == |ec| && k <= |b| < |bh| - 1 && bh[k] && bh[|b|] && !bh[|b| + 1] && |bh| % 32 == 0 &&
            IsPermutation(f, |b|) && Classed(f, ec)
  {
    hide Gap, Cmp;
  }

  lemma RoundSkip(b: Block, f0: seq<nat>, bh0: seq<bool>, ec: seq<nat>, f: seq<nat>, bh: seq<bool>, H: nat, k: nat,
                  l: nat, nNotDone: int)
    requires InRound(b, f0, bh0, ec, f, bh, H, k, nNotDone) && k <= l <= |b| && forall t :: k <= t <= l ==> bh[t]
    ensures InRound(b, f0, bh0, ec, f, bh, H, l, nNotDone)
  {
    hide Gap, Cmp, ClassesFor, IsPermutation, Level, Refining;
    RefineSkip(b, f0, bh0, ec, f, bh, H, k, l);
  }

  lemma RoundBucket(b: Block, f0: seq<nat>, bh0: seq<bool>, ec: seq<nat>, f: seq<nat>, bh: seq<bool>, f': seq<nat>,
                    bh': seq<bool>, H: nat, l: nat, r: nat, nNotDone: int, more: int)
    requires InRound(b, f0, bh0, ec, f, bh, H, l, nNotDone) && l <= r < |b| && (forall t :: l < t <= r ==> !bh[t]) &&
             r + 1 < |bh| && bh[r + 1]
    requires Rearranged(f, f', l, r) && Classed(f', ec) && SortedRange(f', ec, l, r) && Headered(f', ec, bh, bh', l, r)
    requires more > nNotDone
    ensures InRound(b, f0, bh0, ec, f', bh', H, r + 1, more)
  {
    hide Gap, Cmp, ClassesFor, IsPermutation, Level, Refining, Rearranged, SortedRange, Classed;
    RefineBucket(b, f0, bh0, ec, f, bh, f', bh', H, l, r);
  }

  lemma RoundEnd(b: Block, f0: seq<nat>, bh0: seq<bool>, ec: seq<nat>, f: seq<nat>, bh: seq<bool>, H: nat, nNotDone: int)
    requires InRound(b, f0, bh0, ec, f, bh, H, |b|, nNotDone)
    ensures Level(b, f, bh, H + H) && Fenced(bh, |b|) && |f0| == |f| == |b|
    ensures nNotDone == 0 ==> AllAlone(b, bh)
    ensures forall i :: 0 <= i < |b| ==> Cmp(b, f[i], f0[i], H) == 0
  {
  }

  /** Every rotation has a bucket of its own. */
  ghost predicate AllAlone(b: Block, bh: seq<bool>) {
    |bh| >= |b| && forall i :: 0 <= i < |b| ==> bh[i]
  }

  /** One bucket l..r: sort it by class and set its headers. */
  method SortBucket(fmap: array<nat>, eclass: array<nat>, bh: array<bool>, l: nat, r: nat)
    requires fmap != eclass && l <= r < fmap.Length < bh.Length && fmap.Length <= 900_000 && Classed(fmap[..], eclass[..])
    modifies fmap, bh
    ensures Rearranged(old(fmap[..]), fmap[..], l, r) && Classed(fmap[..], eclass[..]) &&
            SortedRange(fmap[..], eclass[..], l, r)
    ensures Headered(fmap[..], eclass[..], old(bh[..]), bh[..], l, r)
  {
    hide *;
    FallbackQSort3(fmap, eclass, l, r);
    SetHeaders(fmap, eclass, bh, l, r);
  }

  /** The bucket loop of a round. */
  method SortBuckets(fmap: array<nat>, eclass: array<nat>, bh: array<bool>, nblock: nat, ghost b: Block, ghost H: nat)
    returns (nNotDone: int)
    requires fmap != eclass && nblock == |b| == fmap.Length <= 900_000
    requires Level(b, fmap[..], bh[..], H) && ClassesFor(fmap[..], bh[..], eclass[..], H, |b|, |b|) && Fenced(bh[..], |b|)
    modifies fmap, bh
    ensures Level(b, fmap[..], bh[..], H + H) && Fenced(bh[..], |b|) && (nNotDone == 0 ==> AllAlone(b, bh[..]))
    ensures forall i :: 0 <= i < |b| ==> Cmp(b, fmap[i], old(fmap[..])[i], H) == 0
  {
    hide *;
    ghost var f0, bh0, ec := fmap[..], bh[..], eclass[..];
    RoundStart(b, f0, bh0, ec, H);
    nNotDone := 0;
    var r := -1;
    while true
      invariant -1 <= r < nblock && eclass[..] == ec
      invariant InRound(b, f0, bh0, ec, fmap[..], bh[..], H, r + 1, nNotDone)
      decreases nblock - r
    {
      ghost var f, bits := fmap[..], bh[..];
      RoundFacts(b, f0, bh0, ec, f, bits, H, r + 1, nNotDone);
      var k := SkipBits(bh, r + 1, true, nblock + 1);
      var l := k - 1;
      RoundSkip(b, f0, bh0, ec, f, bits, H, r + 1, l, nNotDone);
      if l >= nblock {
        r := nblock - 1;
        break;
      }
      k := SkipBits(bh, k, false, nblock);
      r := k - 1;
      if r >= nblock { break; }
      if r > l {
        SortBucket(fmap, eclass, bh, l, r);
        RoundBucket(b, f0, bh0, ec, f, bits, fmap[..], bh[..], H, l, r, nNotDone, nNotDone + (r - l + 1));
        nNotDone := nNotDone + (r - l + 1);
      }
    }
    RoundEnd(b, f0, bh0, ec, fmap[..], bh[..], H, nNotDone);
  }

  // ---- the whole sort ----

  /** Places keep their first character, so they keep their radix bucket. */
  lemma BucketedKept(b: Block, f0: seq<nat>, f: seq<nat>, H: nat)
    requires Bucketed(b, f0) && |f| == |b| && H >= 1 && IsPermutation(f, |b|)
    requires forall i :: 0 <= i < |b| ==> Cmp(b, f[i], f0[i], H) == 0
    ensures Bucketed(b, f)
  {
    hide Below;
    forall k | 0 <= k < |b| ensures InBucket(b, f, k) {
      assert InBucket(b, f0, k);
      assert Cmp(b, f[k], f0[k], H) == 0;
      FirstTied(b, f[k], f0[k], H);
    }
  }

  lemma FirstTied(b: Block, x: nat, y: nat, H: nat)
    requires x < |b| && y < |b| && H >= 1 && Cmp(b, x, y, H) == 0
    ensures b[x] == b[y]
  {
  }

  /** What the doubling loop keeps. */
  ghost predicate Doubling(b: Block, f: seq<nat>, bh: seq<bool>, H: nat) {
    H >= 1 && Level(b, f, bh, H) && Fenced(bh, |b|) && Bucketed(b, f)
  }

  lemma DoublingFacts(b: Block, f: seq<nat>, bh: seq<bool>, H: nat)
    requires Doubling(b, f, bh, H)
    ensures Level(b, f, bh, H) && Fenced(bh, |b|) && Bucketed(b, f) && IsPermutation(f, |b|) && |f| == |b| < |bh| && bh[0]
  {
  }

  lemma DoublingStep(b: Block, f0: seq<nat>, f: seq<nat>, bh: seq<bool>, H: nat)
    requires H >= 1 && Level(b, f, bh, H + H) && Fenced(bh, |b|) && Bucketed(b, f0) && |f0| == |b|
    requires forall i :: 0 <= i < |b| ==> |f| == |b| && Cmp(b, f[i], f0[i], H) == 0
    ensures Doubling(b, f, bh, H + H)
  {
    hide Cmp, Gap, Bucketed;
    BucketedKept(b, f0, f, H);
  }

  lemma DoublingEnd(b: Block, f: seq<nat>, bh: seq<bool>, H: nat)
    requires Doubling(b, f, bh, H) && (H > |b| || AllAlone(b, bh))
    ensures IsRotationOrder(b, f)
  {
    hide Level;
    LevelDone(b, f, bh, H);
  }

  /** One turn of the doubling loop. */
  method Double(fmap: array<nat>, eclass: array<nat>, block: array<nat>, bh: array<bool>, nblock: nat, H: nat,
                ghost b: Block) returns (nNotDone: int)
    requires fmap != eclass && fmap != block && eclass != block
    requires nblock == |b| == fmap.Length == eclass.Length <= 900_000 && Doubling(b, fmap[..], bh[..], H) && H <= nblock
    modifies fmap, eclass, block, bh
    ensures Doubling(b, fmap[..], bh[..], H + H) && (nNotDone == 0 ==> AllAlone(b, bh[..]))
  {
    hide *;
    ghost var f0 := fmap[..];
    DoublingFacts(b, f0, bh[..], H);
    MarkClasses(fmap, eclass, block, bh, H);
    nNotDone := SortBuckets(fmap, eclass, bh, nblock, b, H);
    assert H >= 1 by { DoublingDepth(b, f0, old(bh[..]), H); }
    DoublingStep(b, f0, fmap[..], bh[..], H);
  }

  lemma DoublingDepth(b: Block, f: seq<nat>, bh: seq<bool>, H: nat)
    requires Doubling(b, f, bh, H)
    ensures H >= 1
  {
  }

  /** The radix pass with its headers and sentinels. */
  method RadixPass(fmap: array<nat>, block: array<nat>, bh: array<bool>, nblock: nat, ghost b: Block)
    returns (ftabCopy: array<int>)
    requires fmap != block && nblock == |b| == fmap.Length > 0 && block[..] == b
    requires bh.Length % 32 == 0 && bh.Length >= 32 * (nblock / 32 + 3)
    modifies fmap, bh
    ensures fresh(ftabCopy) && ftabCopy.Length == 256 && Counts(b, ftabCopy[..], |b|)
    ensures Doubling(b, fmap[..], bh[..], 1)
  {
    hide *;
    var ftab;
    ftab, ftabCopy := CountBytes(block, b);
    SumCounts(ftab, b);
    PlaceBytes(block, fmap, ftab, b);
    EndsBegin(b, ftab[..]);
    MarkStarts(bh, ftab, nblock, b);
    ghost var bits := bh[..];
    SetSentinels(bh, nblock);
    StartsFrame(b, bits, bh[..]);
    RadixLevel(b, fmap[..], bh[..]);
    DoublingStart(b, fmap[..], bh[..]);
  }

  lemma DoublingStart(b: Block, f: seq<nat>, bh: seq<bool>)
    requires Level(b, f, bh, 1) && Fenced(bh, |b|) && Bucketed(b, f)
    ensures Doubling(b, f, bh, 1)
  {
  }

  /** fallbackSort: fmap is left listing the rotations in order, periodic blocks included, and the
      block's bytes, destroyed by the classes that share their memory, are put back. */
  method FallbackSort(fmap: array<nat>, eclass: array<nat>, block: array<nat>, bh: array<bool>, nblock: nat, ghost b: Block)
    requires fmap != eclass && fmap != block && eclass != block
    requires 0 < nblock == |b| == fmap.Length == eclass.Length <= 900_000 && block[..] == b
    requires bh.Length % 32 == 0 && bh.Length >= 32 * (nblock / 32 + 3)
    modifies fmap, eclass, block, bh
    ensures IsRotationOrder(b, fmap[..])
    ensures block[..] == b
  {
    hide *;
    var ftabCopy := RadixPass(fmap, block, bh, nblock, b);
    var H := 1;
    while true
      invariant 1 <= H <= nblock && ftabCopy.Length == 256 && fresh(ftabCopy) && Counts(b, ftabCopy[..], |b|)
      invariant Doubling(b, fmap[..], bh[..], H)
      decreases nblock - H
    {
      var nNotDone := Double(fmap, eclass, block, bh, nblock, H, b);
      H := H * 2;
      if H > nblock || nNotDone == 0 {
        DoublingEnd(b, fmap[..], bh[..], H);
        DoublingFacts(b, fmap[..], bh[..], H);
        break;
      }
    }
    Reconstruct(block, fmap, ftabCopy, b);
  }
}
