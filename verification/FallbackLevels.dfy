/** What a round of the rotation sort means: after depth H the headers split the order into the
    classes of equal first H characters, and sorting each bucket by the class H characters on
    gives depth 2H. */
module FallbackLevels {
  import opened Permutations
  import opened Rotations
  import opened Rearrangement
  import opened Quicksort

  /** The first place of the bucket that place i is in. */
  function Head(bh: seq<bool>, i: nat): (h: nat)
    requires i < |bh|
    ensures h <= i
  {
    if i == 0 || bh[i] then i else Head(bh, i - 1)
  }

  /** The header at i says exactly whether the H characters before and after it differ. */
  predicate Gap(b: Block, f: seq<nat>, bh: seq<bool>, H: nat, i: nat)
    requires |b| > 0 && 1 <= i < |f| && i < |bh|
  {
    Cmp(b, f[i - 1], f[i], H) == if bh[i] then -1 else 0
  }

  /** Depth H: sorted by the first H characters, with a header at every change. */
  ghost predicate Level(b: Block, f: seq<nat>, bh: seq<bool>, H: nat) {
    && |f| == |b| > 0 && IsPermutation(f, |b|) && |bh| > |b| && bh[0] && bh[|b|]
    && forall i :: 1 <= i < |b| ==> Gap(b, f, bh, H, i)
  }

  /** The rotation that starts H characters before x. */
  function Back(x: nat, H: nat, n: nat): nat
    requires x < n && H <= n
  {
    if x < H then x - H + n else x - H
  }

  function Forth(x: nat, H: nat, n: nat): nat
    requires x < n && H <= n
  {
    if x + H < n then x + H else x + H - n
  }

  /** eclass gives each rotation the bucket of the rotation H characters on. */
  ghost predicate ClassesFor(f: seq<nat>, bh: seq<bool>, ec: seq<nat>, H: nat, n: nat, k: nat) {
    && |f| == |ec| == n && H <= n && k <= n && n < |bh| && IsPermutation(f, n)
    && forall i :: 0 <= i < k ==> ClassSet(f, bh, ec, H, n, i)
  }

  predicate ClassSet(f: seq<nat>, bh: seq<bool>, ec: seq<nat>, H: nat, n: nat, i: nat)
    requires |f| == |ec| == n && H <= n && i < n < |bh|
  {
    f[i] < n && ec[Back(f[i], H, n)] == Head(bh, i)
  }

  // ---- comparing at depth k ----

  lemma CmpTied(b: Block, x: nat, y: nat, z: nat, k: nat)
    requires |b| > 0 && Cmp(b, x, y, k) == 0 && Cmp(b, y, z, k) == 0
    ensures Cmp(b, x, z, k) == 0
  {
    hide Cmp;
    CmpTransitive(b, x, y, z, k);
    CmpFlip(b, x, y, k);
    CmpFlip(b, y, z, k);
    CmpTransitive(b, z, y, x, k);
    CmpFlip(b, x, z, k);
  }

  /** Tied neighbours on both sides do not change a strict comparison. */
  lemma CmpBetween(b: Block, x: nat, y: nat, z: nat, w: nat, k: nat)
    requires |b| > 0 && Cmp(b, x, y, k) == 0 && Cmp(b, y, z, k) < 0 && Cmp(b, z, w, k) == 0
    ensures Cmp(b, x, w, k) == -1
  {
    hide Cmp;
    CmpTransitive(b, x, y, z, k);
    CmpTransitive(b, x, z, w, k);
  }

  lemma {:induction false} LevelOrder(b: Block, f: seq<nat>, bh: seq<bool>, H: nat, p: nat, q: nat)
    requires Level(b, f, bh, H) && p <= q < |b|
    ensures Head(bh, p) <= Head(bh, q)
    ensures Cmp(b, f[p], f[q], H) == if Head(bh, p) == Head(bh, q) then 0 else -1
    decreases q
  {
    hide Cmp, IsPermutation;
    if p == q {
      CmpSelf(b, f[p], H);
    } else {
      LevelOrder(b, f, bh, H, p, q - 1);
      assert Gap(b, f, bh, H, q);
      CmpTransitive(b, f[p], f[q - 1], f[q], H);
      if Cmp(b, f[p], f[q - 1], H) == 0 && !bh[q] { CmpTied(b, f[p], f[q - 1], f[q], H); }
    }
  }

  /** A rotation's class is the bucket of the one H characters on. */
  lemma ClassOf(b: Block, f: seq<nat>, bh: seq<bool>, ec: seq<nat>, H: nat, x: nat) returns (p: nat)
    requires Level(b, f, bh, H) && ClassesFor(f, bh, ec, H, |b|, |b|) && x < |b|
    ensures p < |b| && f[p] == Forth(x, H, |b|) && ec[x] == Head(bh, p)
  {
    p := PermutationHits(f, |b|, Forth(x, H, |b|));
    assert ClassSet(f, bh, ec, H, |b|, p);
  }

  lemma CmpForth(b: Block, x: nat, y: nat, H: nat)
    requires x < |b| && y < |b| && H <= |b|
    ensures Cmp(b, x + H, y + H, H) == Cmp(b, Forth(x, H, |b|), Forth(y, H, |b|), H)
  {
    hide Cmp;
    var x', y' := Forth(x, H, |b|), Forth(y, H, |b|);
    CmpTurn(b, x', y', H);
    CmpTurn(b, x', y', H);
    CmpTurn(b, x', y + H, H);
    CmpTurn(b, x + H, y', H);
  }

  /** Classes compare as the characters H to 2H - 1 do. */
  lemma ClassOrder(b: Block, f: seq<nat>, bh: seq<bool>, ec: seq<nat>, H: nat, x: nat, y: nat)
    requires Level(b, f, bh, H) && ClassesFor(f, bh, ec, H, |b|, |b|) && x < |b| && y < |b|
    ensures Cmp(b, x + H, y + H, H) == Compare(ec[x], ec[y])
  {
    hide Cmp, Level, ClassesFor;
    var p := ClassOf(b, f, bh, ec, H, x);
    var q := ClassOf(b, f, bh, ec, H, y);
    ClassesSize(f, bh, ec, H, |b|);
    CmpForth(b, x, y, H);
    ClassOrderAt(b, f, bh, H, p, q);
  }

  lemma ClassOrderAt(b: Block, f: seq<nat>, bh: seq<bool>, H: nat, p: nat, q: nat)
    requires Level(b, f, bh, H) && p < |b| && q < |b|
    ensures Cmp(b, f[p], f[q], H) == Compare(Head(bh, p), Head(bh, q))
  {
    hide Cmp, Gap, IsPermutation;
    if p <= q {
      LevelOrder(b, f, bh, H, p, q);
    } else {
      LevelOrder(b, f, bh, H, q, p);
      CmpFlip(b, f[q], f[p], H);
    }
  }

  // ---- one round ----

  /** f0 with headers bh0 is depth H. Now the places below k are at depth 2H, and nothing has left its bucket. */
  ghost predicate Refining(b: Block, f0: seq<nat>, bh0: seq<bool>, ec: seq<nat>, f: seq<nat>, bh: seq<bool>, H: nat,
                           k: nat)
  {
    && Level(b, f0, bh0, H) && ClassesFor(f0, bh0, ec, H, |b|, |b|) && IsPermutation(f, |b|)
    && |f| == |b| && |bh| == |bh0| && k <= |b| && bh0[k] && bh[0]
    && (forall i :: 0 <= i < |b| ==> Cmp(b, f[i], f0[i], H) == 0)
    && (var D := H + H; forall i :: 1 <= i < k ==> Gap(b, f, bh, D, i))
    && (forall i :: k <= i < |b| ==> f[i] == f0[i])
    && (forall i :: k <= i < |bh| ==> bh[i] == bh0[i])
  }

  lemma RefineStart(b: Block, f0: seq<nat>, bh0: seq<bool>, ec: seq<nat>, H: nat)
    requires Level(b, f0, bh0, H) && ClassesFor(f0, bh0, ec, H, |b|, |b|)
    ensures Refining(b, f0, bh0, ec, f0, bh0, H, 0)
  {
    forall i | 0 <= i < |b| ensures Cmp(b, f0[i], f0[i], H) == 0 { CmpSelf(b, f0[i], H); }
  }

  /** At an old header the two sides already differ within H characters. */
  lemma OldHeader(b: Block, f0: seq<nat>, bh0: seq<bool>, f: seq<nat>, bh: seq<bool>, H: nat, i: nat)
    requires Level(b, f0, bh0, H) && 1 <= i < |b| == |f| && |bh| == |bh0| && bh0[i] && bh[i]
    requires Cmp(b, f[i - 1], f0[i - 1], H) == 0 && Cmp(b, f[i], f0[i], H) == 0
    ensures Gap(b, f, bh, H + H, i)
  {
    hide Cmp, IsPermutation;
    assert Gap(b, f0, bh0, H, i);
    CmpFlip(b, f[i], f0[i], H);
    CmpBetween(b, f[i - 1], f0[i - 1], f0[i], f[i], H);
    CmpSplit(b, f[i - 1], f[i], H, H);
  }

  /** A bucket of one needs nothing. */
  lemma {:induction false} RefineSkip(b: Block, f0: seq<nat>, bh0: seq<bool>, ec: seq<nat>, f: seq<nat>, bh: seq<bool>,
                                      H: nat, k: nat, l: nat)
    requires Refining(b, f0, bh0, ec, f, bh, H, k) && k <= l <= |b|
    requires forall i :: k <= i <= l ==> bh[i]
    ensures Refining(b, f0, bh0, ec, f, bh, H, l)
    decreases l
  {
    hide Gap, IsPermutation, ClassesFor, Cmp, Level;
    if k < l {
      LevelSize(b, f0, bh0, H);
      RefineSkip(b, f0, bh0, ec, f, bh, H, k, l - 1);
      if l >= 2 { OldHeader(b, f0, bh0, f, bh, H, l - 1); }
    }
  }

  lemma LevelSize(b: Block, f: seq<nat>, bh: seq<bool>, H: nat)
    requires Level(b, f, bh, H)
    ensures |b| == |f| > 0 && |bh| > |b|
  {
  }

  lemma {:induction false} HeadIs(bh: seq<bool>, l: nat, i: nat)
    requires l <= i < |bh| && bh[l] && forall t :: l < t <= i ==> !bh[t]
    ensures Head(bh, i) == l
    decreases i
  {
    if l < i { HeadIs(bh, l, i - 1); }
  }

  /** A bucket's places are all tied. */
  lemma BucketTied(b: Block, f0: seq<nat>, bh0: seq<bool>, H: nat, l: nat, r: nat, i: nat, j: nat)
    requires Level(b, f0, bh0, H) && l <= i <= r < |b| && l <= j <= r && bh0[l] && forall t :: l < t <= r ==> !bh0[t]
    ensures Cmp(b, f0[i], f0[j], H) == 0
  {
    hide Cmp, Gap;
    HeadIs(bh0, l, i);
    HeadIs(bh0, l, j);
    ClassOrderAt(b, f0, bh0, H, i, j);
  }

  /** Headers l..r of bh' say where the class changes. */
  ghost predicate Headered(f: seq<nat>, ec: seq<nat>, bh: seq<bool>, bh': seq<bool>, l: nat, r: int) {
    && |bh| == |bh'| && l - 1 <= r < |f| < |bh| && Classed(f, ec)
    && (l <= r ==> bh'[l])
    && (forall i :: l < i <= r ==> (bh'[i] <==> bh[i] || ec[f[i - 1]] != ec[f[i]]))
    && (forall i :: 0 <= i < |bh| && !(l <= i <= r) ==> bh'[i] == bh[i])
  }

  /** Inside a sorted bucket the headers mark the changes within 2H characters. */
  lemma NewHeader(b: Block, f0: seq<nat>, bh0: seq<bool>, ec: seq<nat>, f: seq<nat>, bh: seq<bool>, H: nat, i: nat)
    requires Level(b, f0, bh0, H) && ClassesFor(f0, bh0, ec, H, |b|, |b|)
    requires 1 <= i < |b| == |f| && |bh| == |bh0| && f[i - 1] < |b| && f[i] < |b|
    requires Cmp(b, f[i - 1], f[i], H) == 0 && ec[f[i - 1]] <= ec[f[i]] && (bh[i] <==> ec[f[i - 1]] != ec[f[i]])
    ensures Gap(b, f, bh, H + H, i)
  {
    hide Cmp, Level;
    CmpSplit(b, f[i - 1], f[i], H, H);
    ClassOrder(b, f0, bh0, ec, H, f[i - 1], f[i]);
  }

  lemma TiedAfterSort(b: Block, f0: seq<nat>, bh0: seq<bool>, g: seq<nat>, f: seq<nat>, H: nat, l: nat, r: nat, i: nat)
    requires Level(b, f0, bh0, H) && l <= i <= r < |b| == |g| && bh0[l] && forall t :: l < t <= r ==> !bh0[t]
    requires Rearranged(g, f, l, r) && forall t :: l <= t <= r ==> g[t] == f0[t]
    ensures Cmp(b, f[i], f0[i], H) == 0
  {
    hide Cmp, Rearranged, Level;
    LevelSize(b, f0, bh0, H);
    var j := RearrangedFrom(g, f, l, r, i);
    BucketTied(b, f0, bh0, H, l, r, j, i);
  }

  /** The bucket l..r was sorted by class and its headers were set. */
  ghost predicate Resorted(b: Block, f0: seq<nat>, bh0: seq<bool>, ec: seq<nat>, f: seq<nat>, bh: seq<bool>,
                           f': seq<nat>, bh': seq<bool>, H: nat, l: nat, r: nat)
  {
    && Refining(b, f0, bh0, ec, f, bh, H, l) && l <= r < |b| && (forall t :: l < t <= r ==> !bh[t]) && bh[r + 1]
    && Rearranged(f, f', l, r) && Classed(f', ec) && SortedRange(f', ec, l, r) && Headered(f', ec, bh, bh', l, r)
  }

  lemma HeaderedFirst(f: seq<nat>, ec: seq<nat>, bh: seq<bool>, bh': seq<bool>, l: nat, r: int)
    requires Headered(f, ec, bh, bh', l, r) && l <= r && bh[0]
    ensures bh'[l] && bh'[0]
  {
  }

  lemma ResortedFacts(b: Block, f0: seq<nat>, bh0: seq<bool>, ec: seq<nat>, f: seq<nat>, bh: seq<bool>, f': seq<nat>,
                      bh': seq<bool>, H: nat, l: nat, r: nat)
    requires Resorted(b, f0, bh0, ec, f, bh, f', bh', H, l, r)
    ensures Level(b, f0, bh0, H) && ClassesFor(f0, bh0, ec, H, |b|, |b|) && IsPermutation(f, |b|)
    ensures |f| == |f'| == |b| == |f0| > 0 && |bh'| == |bh| == |bh0| > |b| && bh0[l] && l <= r < |b| && bh0[r + 1] && bh'[0]
    ensures forall t :: l < t <= r ==> !bh0[t] && !bh[t]
    ensures forall t :: l <= t <= r ==> f[t] == f0[t]
    ensures Rearranged(f, f', l, r) && Classed(f', ec) && SortedRange(f', ec, l, r) && Headered(f', ec, bh, bh', l, r)
    ensures forall i :: r + 1 <= i < |bh| ==> bh'[i] == bh0[i]
  {
    hide Gap, Cmp, Classed, ClassesFor, SortedRange;
    LevelSize(b, f0, bh0, H);
    HeaderedFirst(f', ec, bh, bh', l, r);
  }

  /** Nothing outside the bucket moved. */
  lemma ResortedOutside(b: Block, f0: seq<nat>, bh0: seq<bool>, ec: seq<nat>, f: seq<nat>, bh: seq<bool>, f': seq<nat>,
                        bh': seq<bool>, H: nat, l: nat, r: nat, i: nat)
    requires Resorted(b, f0, bh0, ec, f, bh, f', bh', H, l, r) && i < |b| && (i < l || i > r)
    ensures |f'| == |b| && f'[i] == f[i] && Cmp(b, f'[i], f0[i], H) == 0
    ensures i > r ==> f'[i] == f0[i]
    ensures 1 <= i < l ==> i < |bh'| && f'[i - 1] == f[i - 1] && Gap(b, f', bh', H + H, i)
  {
    hide Cmp, Classed, ClassesFor, SortedRange, Rearranged, Level, IsPermutation;
    assert |f| == |f'| == |b| by { ResortedFacts(b, f0, bh0, ec, f, bh, f', bh', H, l, r); }
    RearrangedOutside(f, f', l, r, i);
    if 1 <= i < l {
      RearrangedOutside(f, f', l, r, i - 1);
      assert Gap(b, f, bh, H + H, i);
    }
  }

  /** Every place is still tied with what it held. */
  lemma ResortedTied(b: Block, f0: seq<nat>, bh0: seq<bool>, ec: seq<nat>, f: seq<nat>, bh: seq<bool>, f': seq<nat>,
                     bh': seq<bool>, H: nat, l: nat, r: nat, i: nat)
    requires Resorted(b, f0, bh0, ec, f, bh, f', bh', H, l, r) && i < |b|
    ensures |f'| == |f0| == |b| && Cmp(b, f'[i], f0[i], H) == 0
  {
    hide *;
    ResortedFacts(b, f0, bh0, ec, f, bh, f', bh', H, l, r);
    if l <= i <= r {
      TiedAfterSort(b, f0, bh0, f, f', H, l, r, i);
    } else {
      ResortedOutside(b, f0, bh0, ec, f, bh, f', bh', H, l, r, i);
    }
  }

  lemma ResortedGap(b: Block, f0: seq<nat>, bh0: seq<bool>, ec: seq<nat>, f: seq<nat>, bh: seq<bool>, f': seq<nat>,
                    bh': seq<bool>, H: nat, l: nat, r: nat, i: nat)
    requires Resorted(b, f0, bh0, ec, f, bh, f', bh', H, l, r) && 1 <= i <= r
    ensures i < |b| == |f'| && i < |bh'| && Gap(b, f', bh', H + H, i)
  {
    hide Cmp, Gap, ClassesFor, Rearranged, Level, IsPermutation, Resorted;
    ResortedFacts(b, f0, bh0, ec, f, bh, f', bh', H, l, r);
    if i < l {
      ResortedOutside(b, f0, bh0, ec, f, bh, f', bh', H, l, r, i);
    } else {
      ResortedTied(b, f0, bh0, ec, f, bh, f', bh', H, l, r, i);
      ResortedTied(b, f0, bh0, ec, f, bh, f', bh', H, l, r, i - 1);
      if i == l {
        OldHeader(b, f0, bh0, f', bh', H, i);
      } else {
        BucketTied(b, f0, bh0, H, l, r, i - 1, i);
        CmpFlip(b, f'[i], f0[i], H);
        CmpTied(b, f'[i - 1], f0[i - 1], f0[i], H);
        CmpTied(b, f'[i - 1], f0[i], f'[i], H);
        ClassesSize(f0, bh0, ec, H, |b|);
        NewHeader(b, f0, bh0, ec, f', bh', H, i);
      }
    }
  }

  lemma ClassesSize(f: seq<nat>, bh: seq<bool>, ec: seq<nat>, H: nat, n: nat)
    requires ClassesFor(f, bh, ec, H, n, n)
    ensures |ec| == n && H <= n
  {
  }

  lemma RefineBucket(b: Block, f0: seq<nat>, bh0: seq<bool>, ec: seq<nat>, f: seq<nat>, bh: seq<bool>, f': seq<nat>,
                     bh': seq<bool>, H: nat, l: nat, r: nat)
    requires Resorted(b, f0, bh0, ec, f, bh, f', bh', H, l, r)
    ensures Refining(b, f0, bh0, ec, f', bh', H, r + 1)
  {
    hide Cmp, Gap, ClassesFor, Rearranged, Level, IsPermutation, Resorted, Classed, SortedRange, Headered;
    ResortedFacts(b, f0, bh0, ec, f, bh, f', bh', H, l, r);
    PermutationRearranged(f, f', |b|, l, r);
    forall i | 0 <= i < |b| ensures Cmp(b, f'[i], f0[i], H) == 0 { ResortedTied(b, f0, bh0, ec, f, bh, f', bh', H, l, r, i); }
    var D := H + H;
    forall i | 1 <= i < r + 1 ensures Gap(b, f', bh', D, i) { ResortedGap(b, f0, bh0, ec, f, bh, f', bh', H, l, r, i); }
    forall i | r + 1 <= i < |b| ensures f'[i] == f0[i] { ResortedOutside(b, f0, bh0, ec, f, bh, f', bh', H, l, r, i); }
  }

  // ---- rearranging keeps a permutation ----

  lemma {:induction false} DistinctOnce(p: seq<nat>, x: nat)
    requires Distinct(p)
    ensures multiset(p)[x] <= 1
  {
    if p != [] {
      var k := |p| - 1;
      assert p == p[..k] + [p[k]];
      DistinctOnce(p[..k], x);
      if p[k] == x {
        assert x !in p[..k];
        assert x !in multiset(p[..k]);
      }
    }
  }

  lemma OnceDistinct(p: seq<nat>, i: nat, j: nat)
    requires i < j < |p| && p[i] == p[j]
    ensures multiset(p)[p[i]] >= 2
  {
    assert p == p[..j] + p[j..];
    assert p[..j][i] == p[i] && p[j..][0] == p[i];
    assert p[i] in multiset(p[..j]) && p[i] in multiset(p[j..]);
  }

  lemma PermutationRearranged(f: seq<nat>, g: seq<nat>, n: nat, lo: int, hi: int)
    requires IsPermutation(f, n) && Rearranged(f, g, lo, hi)
    ensures IsPermutation(g, n)
  {
    assert f == f[..lo] + f[lo..hi + 1] + f[hi + 1..];
    assert g == g[..lo] + g[lo..hi + 1] + g[hi + 1..];
    assert multiset(f) == multiset(g);
    forall i, j | 0 <= i < j < |g| ensures g[i] != g[j] {
      if g[i] == g[j] {
        OnceDistinct(g, i, j);
        DistinctOnce(f, g[i]);
      }
    }
    forall i | 0 <= i < n ensures g[i] < n {
      assert g[i] in multiset(g);
      assert g[i] in f;
    }
  }

  // ---- when the rounds may stop ----

  /** Sorted to depth n or more, or sorted with every rotation in a bucket of its own. */
  lemma LevelDone(b: Block, f: seq<nat>, bh: seq<bool>, H: nat)
    requires Level(b, f, bh, H) && (H >= |b| || forall i :: 0 <= i < |b| ==> bh[i])
    ensures IsRotationOrder(b, f)
  {
    hide Cmp, Gap, IsPermutation;
    var n := |b|;
    forall i, j | 0 <= i < j < n ensures Cmp(b, f[i], f[j], n) <= 0 {
      LevelOrder(b, f, bh, H, i, j);
      if H >= n {
        CmpSplit(b, f[i], f[j], n, H - n);
      } else {
        assert bh[j];
        CmpSplit(b, f[i], f[j], H, n - H);
      }
    }
  }
}
