/** The comparison sorts of blocksort.c: insertion sort for short ranges and a three-way quicksort
    with its own stack. Elements of fmap are compared by their class. */
module Quicksort {
  import opened Arrays
  import opened Bits
  import opened Rearrangement

  const SMALL_THRESH := 10
  const STACK_SIZE := 100

  lemma Limits()
    ensures SMALL_THRESH == 10 && STACK_SIZE == 100
  {
  }

  /** Every element of a names a class. */
  predicate Classed(a: seq<nat>, ec: seq<nat>) {
    forall i :: 0 <= i < |a| ==> a[i] < |ec|
  }

  ghost predicate SortedRange(a: seq<nat>, ec: seq<nat>, lo: int, hi: int)
    requires Classed(a, ec)
  {
    0 <= lo && hi < |a| && forall i, j :: lo <= i <= j <= hi ==> ec[a[i]] <= ec[a[j]]
  }

  lemma ClassedRearranged(a: seq<nat>, b: seq<nat>, ec: seq<nat>, lo: int, hi: int)
    requires Classed(a, ec) && Rearranged(a, b, lo, hi)
    ensures Classed(b, ec)
  {
    forall i | 0 <= i < |b| ensures b[i] < |ec| {
      if lo <= i <= hi { var j := RearrangedFrom(a, b, lo, hi, i); } else { RearrangedOutside(a, b, lo, hi, i); }
    }
  }

  // ---- insertion sort ----

  /** x has moved from place i up to place p past smaller classes. */
  ghost predicate Shifting(a0: seq<nat>, g: seq<nat>, ec: seq<nat>, i: nat, p: nat, x: nat) {
    && |g| == |a0| && i <= p < |g| && g[p] == x < |ec| && Classed(a0, ec)
    && (forall k :: i <= k < p ==> g[k] == a0[k + 1] && ec[g[k]] < ec[x])
    && (forall k :: p < k < |g| ==> g[k] == a0[k])
  }

  lemma ShiftStep(a0: seq<nat>, g: seq<nat>, ec: seq<nat>, i: nat, p: nat, x: nat)
    requires Shifting(a0, g, ec, i, p, x) && p + 1 < |g| && ec[x] > ec[g[p + 1]]
    ensures Shifting(a0, Swap(g, p, p + 1), ec, i, p + 1, x)
  {
  }

  lemma ShiftedSorted(a0: seq<nat>, g: seq<nat>, ec: seq<nat>, i: nat, p: nat, x: nat, hi: nat)
    requires Shifting(a0, g, ec, i, p, x) && Classed(g, ec) && p <= hi < |g| && SortedRange(a0, ec, i + 1, hi)
    requires p < hi ==> ec[x] <= ec[g[p + 1]]
    ensures SortedRange(g, ec, i, hi)
  {
    forall s, t | i <= s <= t <= hi ensures ec[g[s]] <= ec[g[t]] {
      if s < p && t < p {
        assert ec[a0[s + 1]] <= ec[a0[t + 1]];
      } else if s < p && t > p {
        assert ec[a0[s + 1]] <= ec[a0[t]];
      } else if s == p && t > p {
        assert ec[a0[p + 1]] <= ec[a0[t]];
      } else if s > p {
        assert ec[a0[s]] <= ec[a0[t]];
      }
    }
  }

  /** What an insertion keeps: f is the memory, with a hole below j where x belongs; g is f with the hole filled. */
  ghost predicate Inserting(a0: seq<nat>, f: seq<nat>, g: seq<nat>, ec: seq<nat>, i: nat, hi: nat, stride: nat, j: nat,
                            x: nat)
  {
    && stride >= 1 && i + stride <= j <= hi + stride && hi < |f| && |g| == |f| && g == f[j - stride := x]
    && Classed(f, ec) && Classed(g, ec) && Classed(a0, ec) && x < |ec| && Rearranged(a0, g, i, hi)
    && (stride == 1 ==> Shifting(a0, g, ec, i, j - 1, x))
  }

  lemma InsertStart(a0: seq<nat>, ec: seq<nat>, i: nat, hi: nat, stride: nat)
    requires Classed(a0, ec) && stride >= 1 && i + stride <= hi < |a0|
    ensures Inserting(a0, a0, a0, ec, i, hi, stride, i + stride, a0[i])
  {
    RearrangedSelf(a0, i, hi);
  }

  lemma InsertStep(a0: seq<nat>, f: seq<nat>, g: seq<nat>, ec: seq<nat>, i: nat, hi: nat, stride: nat, j: nat, x: nat)
    requires Inserting(a0, f, g, ec, i, hi, stride, j, x) && j <= hi && ec[x] > ec[f[j]]
    ensures Inserting(a0, f[j - stride := f[j]], Swap(g, j - stride, j), ec, i, hi, stride, j + stride, x)
  {
    hide Rearranged, Shifting, Swap, Classed;
    HoleStep(f, g, j - stride, j, x);
    assert Swap(g, j - stride, j) == f[j - stride := f[j]][j := x];
    RearrangedSwap(g, j - stride, j, i, hi);
    RearrangedTrans(a0, g, Swap(g, j - stride, j), i, hi);
    ClassedRearranged(a0, Swap(g, j - stride, j), ec, i, hi);
    ClassedMoved(f, ec, j - stride, j);
    if stride == 1 { ShiftStep(a0, g, ec, i, j - 1, x); }
  }

  lemma ClassedMoved(f: seq<nat>, ec: seq<nat>, p: nat, q: nat)
    requires Classed(f, ec) && p < |f| && q < |f|
    ensures Classed(f[p := f[q]], ec)
  {
  }

  lemma InsertEnd(a0: seq<nat>, f: seq<nat>, g: seq<nat>, ec: seq<nat>, i: nat, hi: nat, stride: nat, j: nat, x: nat)
    requires Inserting(a0, f, g, ec, i, hi, stride, j, x) && (j <= hi ==> ec[x] <= ec[f[j]])
    ensures stride == 1 && SortedRange(a0, ec, i + 1, hi) ==> SortedRange(g, ec, i, hi)
  {
    hide Rearranged, Shifting, SortedRange;
    if stride == 1 && SortedRange(a0, ec, i + 1, hi) {
      ShiftedSorted(a0, g, ec, i, j - 1, x, hi);
    }
  }

  /** One turn of the insertion loops. */
  method MoveUp(fmap: array<nat>, j: nat, stride: nat, ghost a0: seq<nat>, ghost g: seq<nat>, ghost ec: seq<nat>,
                ghost i: nat, ghost hi: nat, ghost x: nat)
    returns (ghost g': seq<nat>)
    requires Inserting(a0, fmap[..], g, ec, i, hi, stride, j, x) && j <= hi && fmap[j] < |ec| && x < |ec| &&
             ec[x] > ec[fmap[j]]
    modifies fmap
    ensures Inserting(a0, fmap[..], g', ec, i, hi, stride, j + stride, x)
  {
    hide *;
    InsertFacts(a0, fmap[..], g, ec, i, hi, stride, j, x);
    InsertStep(a0, fmap[..], g, ec, i, hi, stride, j, x);
    g' := Swap(g, j - stride, j);
    Put(fmap, j - stride, fmap[j]);
  }

  /** One insertion with the given stride: the element at i moves up past smaller classes. */
  method Insert(fmap: array<nat>, eclass: array<nat>, i: nat, hi: nat, stride: nat)
    requires fmap != eclass && stride >= 1 && i + stride <= hi < fmap.Length && Classed(fmap[..], eclass[..])
    modifies fmap
    ensures Classed(fmap[..], eclass[..]) && Rearranged(old(fmap[..]), fmap[..], i, hi)
    ensures stride == 1 && SortedRange(old(fmap[..]), eclass[..], i + 1, hi) ==> SortedRange(fmap[..], eclass[..], i, hi)
  {
    hide *;
    ghost var a0, ec := fmap[..], eclass[..];
    ghost var g := a0;
    ClassedAt(a0, ec, i);
    var tmp := fmap[i];
    assert tmp == a0[i];
    var ecTmp := eclass[tmp];
    var j := i + stride;
    InsertStart(a0, ec, i, hi, stride);
    while j <= hi
      invariant i + stride <= j && eclass[..] == ec && tmp < |ec| && ecTmp == ec[tmp]
      invariant Inserting(a0, fmap[..], g, ec, i, hi, stride, j, tmp)
    {
      InsertFacts(a0, fmap[..], g, ec, i, hi, stride, j, tmp);
      if ecTmp <= eclass[fmap[j]] { break; }
      g := MoveUp(fmap, j, stride, a0, g, ec, i, hi, tmp);
      j := j + stride;
    }
    InsertFacts(a0, fmap[..], g, ec, i, hi, stride, j, tmp);
    InsertEnd(a0, fmap[..], g, ec, i, hi, stride, j, tmp);
    Put(fmap, j - stride, tmp);
  }

  lemma ClassedAt(a: seq<nat>, ec: seq<nat>, i: nat)
    requires Classed(a, ec) && i < |a|
    ensures a[i] < |ec|
  {
  }

  lemma InsertFacts(a0: seq<nat>, f: seq<nat>, g: seq<nat>, ec: seq<nat>, i: nat, hi: nat, stride: nat, j: nat, x: nat)
    requires Inserting(a0, f, g, ec, i, hi, stride, j, x)
    ensures i + stride <= j <= hi + stride && hi < |f| == |g| && g == f[j - stride := x]
    ensures Classed(g, ec) && Rearranged(a0, g, i, hi) && (j <= hi ==> f[j] < |ec|)
  {
  }

  /** Filling a hole at p from q moves the hole to q: with x in the hole, that is a swap. */
  lemma HoleStep(f: seq<nat>, g: seq<nat>, p: nat, q: nat, x: nat)
    requires p < |f| && q < |f| && p != q && g == f[p := x]
    ensures Swap(g, p, q) == f[p := f[q]][q := x] && g[q] == f[q]
  {
  }

  /** fallbackSimpleSort: a coarse pass with stride 4, then plain insertion from the right. */
  method SimpleSort(fmap: array<nat>, eclass: array<nat>, lo: int, hi: int)
    requires fmap != eclass && 0 <= lo <= hi + 1 <= fmap.Length && Classed(fmap[..], eclass[..])
    modifies fmap
    ensures Classed(fmap[..], eclass[..]) && Rearranged(old(fmap[..]), fmap[..], lo, hi)
    ensures SortedRange(fmap[..], eclass[..], lo, hi)
  {
    hide Rearranged;
    ghost var a0, ec := fmap[..], eclass[..];
    RearrangedSelf(a0, lo, hi);
    if lo == hi { return; }
    if hi - lo > 3 {
      var i := hi - 4;
      while i >= lo
        invariant lo - 1 <= i <= hi - 4
        invariant eclass[..] == ec && Classed(fmap[..], ec) && Rearranged(a0, fmap[..], lo, hi)
      {
        ghost var a := fmap[..];
        Insert(fmap, eclass, i, hi, 4);
        RearrangedWiden(a, fmap[..], i, hi, lo, hi);
        RearrangedTrans(a0, a, fmap[..], lo, hi);
        i := i - 1;
      }
    }
    var i := hi - 1;
    while i >= lo
      invariant lo - 1 <= i <= hi - 1 || i == hi - 1
      invariant eclass[..] == ec && Classed(fmap[..], ec) && Rearranged(a0, fmap[..], lo, hi)
      invariant lo <= hi ==> SortedRange(fmap[..], ec, i + 1, hi)
    {
      ghost var a := fmap[..];
      Insert(fmap, eclass, i, hi, 1);
      RearrangedWiden(a, fmap[..], i, hi, lo, hi);
      RearrangedTrans(a0, a, fmap[..], lo, hi);
      i := i - 1;
    }
  }

  // ---- three-way partition ----

  /** Places from..to-1 hold elements whose class is below (-1), equal to (0) or above (1) the median. */
  ghost predicate Side(g: seq<nat>, ec: seq<nat>, med: nat, from: int, to: int, side: int) {
    && 0 <= from && to <= |g| && Classed(g, ec)
    && forall k :: from <= k < to ==> Compare(ec[g[k]], med) == side
  }

  function Compare(x: nat, y: nat): int { if x < y then -1 else if x == y then 0 else 1 }

  /** Equal, smaller, not yet seen, greater, equal. */
  ghost predicate Parting(a0: seq<nat>, g: seq<nat>, ec: seq<nat>, med: nat, lo: int, ltLo: int, unLo: int, unHi: int,
                          gtHi: int, hi: int)
  {
    && 0 <= lo <= ltLo <= unLo <= unHi + 1 && unHi <= gtHi <= hi < |g|
    && Rearranged(a0, g, lo, hi) && Classed(a0, ec) && Classed(g, ec)
    && Side(g, ec, med, lo, ltLo, 0) && Side(g, ec, med, ltLo, unLo, -1)
    && Side(g, ec, med, unHi + 1, gtHi + 1, 1) && Side(g, ec, med, gtHi + 1, hi + 1, 0)
  }

  lemma PartStart(a0: seq<nat>, ec: seq<nat>, med: nat, lo: int, hi: int)
    requires 0 <= lo <= hi < |a0| && Classed(a0, ec)
    ensures Parting(a0, a0, ec, med, lo, lo, lo, hi, hi, hi)
  {
    RearrangedSelf(a0, lo, hi);
  }

  lemma PartSwap(a0: seq<nat>, g: seq<nat>, ec: seq<nat>, i: int, j: int, lo: int, hi: int)
    requires Rearranged(a0, g, lo, hi) && Classed(a0, ec) && 0 <= lo <= i <= hi < |g| && lo <= j <= hi
    ensures Rearranged(a0, Swap(g, i, j), lo, hi) && Classed(Swap(g, i, j), ec)
  {
    hide Rearranged, Swap, Classed;
    RearrangedSwap(g, i, j, lo, hi);
    RearrangedTrans(a0, g, Swap(g, i, j), lo, hi);
    ClassedRearranged(a0, Swap(g, i, j), ec, lo, hi);
  }

  lemma PartEqualLeft(a0: seq<nat>, g: seq<nat>, ec: seq<nat>, med: nat, lo: int, ltLo: int, unLo: int, unHi: int,
                      gtHi: int, hi: int)
    requires Parting(a0, g, ec, med, lo, ltLo, unLo, unHi, gtHi, hi) && unLo <= unHi && ec[g[unLo]] == med
    ensures Parting(a0, Swap(g, unLo, ltLo), ec, med, lo, ltLo + 1, unLo + 1, unHi, gtHi, hi)
  {
    hide Rearranged;
    PartSwap(a0, g, ec, unLo, ltLo, lo, hi);
  }

  lemma PartEqualRight(a0: seq<nat>, g: seq<nat>, ec: seq<nat>, med: nat, lo: int, ltLo: int, unLo: int, unHi: int,
                       gtHi: int, hi: int)
    requires Parting(a0, g, ec, med, lo, ltLo, unLo, unHi, gtHi, hi) && unLo <= unHi && ec[g[unHi]] == med
    ensures Parting(a0, Swap(g, unHi, gtHi), ec, med, lo, ltLo, unLo, unHi - 1, gtHi - 1, hi)
  {
    hide Rearranged;
    PartSwap(a0, g, ec, unHi, gtHi, lo, hi);
  }

  lemma PartExchange(a0: seq<nat>, g: seq<nat>, ec: seq<nat>, med: nat, lo: int, ltLo: int, unLo: int, unHi: int,
                     gtHi: int, hi: int)
    requires Parting(a0, g, ec, med, lo, ltLo, unLo, unHi, gtHi, hi) && unLo < unHi && ec[g[unLo]] > med && ec[g[unHi]] < med
    ensures Parting(a0, Swap(g, unLo, unHi), ec, med, lo, ltLo, unLo + 1, unHi - 1, gtHi, hi)
  {
    hide Rearranged;
    PartSwap(a0, g, ec, unLo, unHi, lo, hi);
  }

  method SwapAt(fmap: array<nat>, i: nat, j: nat)
    requires i < fmap.Length && j < fmap.Length
    modifies fmap
    ensures fmap[..] == Swap(old(fmap[..]), i, j)
  {
    fmap[i], fmap[j] := fmap[j], fmap[i];
  }

  /** The upward scan: stops at the first element above the median, setting equal ones aside on the left. */
  method ScanUp(fmap: array<nat>, eclass: array<nat>, med: nat, lo: int, ltLo0: int, unLo0: int, unHi: int, gtHi: int,
                hi: int, ghost a0: seq<nat>)
    returns (ltLo: int, unLo: int)
    requires fmap != eclass && Parting(a0, fmap[..], eclass[..], med, lo, ltLo0, unLo0, unHi, gtHi, hi)
    modifies fmap
    ensures Parting(a0, fmap[..], eclass[..], med, lo, ltLo, unLo, unHi, gtHi, hi) && unLo >= unLo0
    ensures unLo <= unHi ==> fmap[unLo] < eclass.Length && eclass[fmap[unLo]] > med
  {
    hide Rearranged, Side, Swap;
    ghost var ec := eclass[..];
    ltLo, unLo := ltLo0, unLo0;
    while unLo <= unHi
      invariant eclass[..] == ec && unLo >= unLo0
      invariant Parting(a0, fmap[..], ec, med, lo, ltLo, unLo, unHi, gtHi, hi)
      decreases unHi - unLo
    {
      ghost var g := fmap[..];
      assert fmap[unLo] == g[unLo] < |ec|;
      var n := eclass[fmap[unLo]] - med;
      if n == 0 {
        PartEqualLeft(a0, g, ec, med, lo, ltLo, unLo, unHi, gtHi, hi);
        SwapAt(fmap, unLo, ltLo);
        ltLo := ltLo + 1;
        unLo := unLo + 1;
        continue;
      }
      if n > 0 { break; }
      PartLess(a0, g, ec, med, lo, ltLo, unLo, unHi, gtHi, hi);
      unLo := unLo + 1;
    }
  }

  lemma PartLess(a0: seq<nat>, g: seq<nat>, ec: seq<nat>, med: nat, lo: int, ltLo: int, unLo: int, unHi: int,
                 gtHi: int, hi: int)
    requires Parting(a0, g, ec, med, lo, ltLo, unLo, unHi, gtHi, hi) && unLo <= unHi && ec[g[unLo]] < med
    ensures Parting(a0, g, ec, med, lo, ltLo, unLo + 1, unHi, gtHi, hi)
  {
    hide Rearranged;
  }

  lemma PartMore(a0: seq<nat>, g: seq<nat>, ec: seq<nat>, med: nat, lo: int, ltLo: int, unLo: int, unHi: int,
                 gtHi: int, hi: int)
    requires Parting(a0, g, ec, med, lo, ltLo, unLo, unHi, gtHi, hi) && unLo <= unHi && ec[g[unHi]] > med
    ensures Parting(a0, g, ec, med, lo, ltLo, unLo, unHi - 1, gtHi, hi)
  {
    hide Rearranged;
  }

  /** The downward scan. */
  method ScanDown(fmap: array<nat>, eclass: array<nat>, med: nat, lo: int, ltLo: int, unLo: int, unHi0: int,
                  gtHi0: int, hi: int, ghost a0: seq<nat>)
    returns (unHi: int, gtHi: int)
    requires fmap != eclass && Parting(a0, fmap[..], eclass[..], med, lo, ltLo, unLo, unHi0, gtHi0, hi)
    requires unLo <= unHi0 ==> fmap[unLo] < eclass.Length && eclass[fmap[unLo]] > med
    modifies fmap
    ensures Parting(a0, fmap[..], eclass[..], med, lo, ltLo, unLo, unHi, gtHi, hi) && unHi <= unHi0
    ensures unLo <= unHi ==>
            unLo < unHi && eclass[fmap[unLo]] > med && fmap[unHi] < eclass.Length &&
            eclass[fmap[unHi]] < med
  {
    hide Rearranged, Side, Swap;
    ghost var ec := eclass[..];
    unHi, gtHi := unHi0, gtHi0;
    while unLo <= unHi
      invariant eclass[..] == ec && unHi <= unHi0
      invariant Parting(a0, fmap[..], ec, med, lo, ltLo, unLo, unHi, gtHi, hi)
      invariant unLo <= unHi ==> fmap[unLo] < |ec| && ec[fmap[unLo]] > med
      decreases unHi - unLo
    {
      ghost var g := fmap[..];
      assert fmap[unHi] == g[unHi] < |ec|;
      var n := eclass[fmap[unHi]] - med;
      if n == 0 {
        PartEqualRight(a0, g, ec, med, lo, ltLo, unLo, unHi, gtHi, hi);
        SwapAt(fmap, unHi, gtHi);
        SwapElsewhere(g, unHi, gtHi, unLo);
        gtHi := gtHi - 1;
        unHi := unHi - 1;
        continue;
      }
      if n < 0 { break; }
      PartMore(a0, g, ec, med, lo, ltLo, unLo, unHi, gtHi, hi);
      unHi := unHi - 1;
    }
  }

  lemma SwapElsewhere(g: seq<nat>, i: nat, j: nat, k: nat)
    requires i < |g| && j < |g| && k < |g|
    ensures k != i && k != j ==> Swap(g, i, j)[k] == g[k]
  {
  }

  /** Both scans, exchanging what they stop at, until they cross. */
  method Partition(fmap: array<nat>, eclass: array<nat>, med: nat, lo: int, hi: int)
    returns (ltLo: int, unLo: int, gtHi: int)
    requires fmap != eclass && 0 <= lo <= hi < fmap.Length && Classed(fmap[..], eclass[..])
    modifies fmap
    ensures Parting(old(fmap[..]), fmap[..], eclass[..], med, lo, ltLo, unLo, unLo - 1, gtHi, hi)
  {
    hide Rearranged, Side, Swap;
    ghost var a0, ec := fmap[..], eclass[..];
    ltLo, unLo := lo, lo;
    gtHi := hi;
    var unHi := hi;
    PartStart(a0, ec, med, lo, hi);
    while true
      invariant eclass[..] == ec
      invariant Parting(a0, fmap[..], ec, med, lo, ltLo, unLo, unHi, gtHi, hi)
      decreases unHi - unLo
    {
      ltLo, unLo := ScanUp(fmap, eclass, med, lo, ltLo, unLo, unHi, gtHi, hi, a0);
      unHi, gtHi := ScanDown(fmap, eclass, med, lo, ltLo, unLo, unHi, gtHi, hi, a0);
      if unLo > unHi { break; }
      ghost var g := fmap[..];
      assert g[unLo] == fmap[unLo] && g[unHi] == fmap[unHi];
      PartExchange(a0, g, ec, med, lo, ltLo, unLo, unHi, gtHi, hi);
      SwapAt(fmap, unLo, unHi);
      unLo := unLo + 1;
      unHi := unHi - 1;
    }
  }

  // ---- moving the equal elements to the middle ----

  /** The n elements from p and from q exchanged. */
  ghost predicate Exchanged(a: seq<nat>, b: seq<nat>, p: int, q: int, n: int) {
    && |a| == |b| && 0 <= p <= p + n <= q <= q + n <= |a|
    && (forall k :: p <= k < p + n ==> b[k] == a[k + (q - p)])
    && (forall k :: q <= k < q + n ==> b[k] == a[k - (q - p)])
    && (forall k :: 0 <= k < |a| && !(p <= k < p + n) && !(q <= k < q + n) ==> b[k] == a[k])
  }

  /** fvswap */
  method VSwap(fmap: array<nat>, p: int, q: int, n: int, ghost lo: int, ghost hi: int)
    requires 0 <= lo <= p <= p + n <= q <= q + n <= hi + 1 <= fmap.Length && n >= 0
    modifies fmap
    ensures Exchanged(old(fmap[..]), fmap[..], p, q, n) && Rearranged(old(fmap[..]), fmap[..], lo, hi)
  {
    hide Rearranged, Exchanged, Swap;
    ghost var a := fmap[..];
    var yyp1, yyp2, yyn := p, q, n;
    RearrangedSelf(a, lo, hi);
    ExchangeStart(a, p, q);
    while yyn > 0
      invariant 0 <= yyn <= n && yyp1 == p + (n - yyn) && yyp2 == q + (n - yyn)
      invariant Exchanged(a, fmap[..], p, q, n - yyn) && Rearranged(a, fmap[..], lo, hi)
    {
      ghost var g := fmap[..];
      ExchangeStep(a, g, p, q, n - yyn, n);
      RearrangedSwap(g, yyp1, yyp2, lo, hi);
      RearrangedTrans(a, g, Swap(g, yyp1, yyp2), lo, hi);
      SwapAt(fmap, yyp1, yyp2);
      yyp1 := yyp1 + 1;
      yyp2 := yyp2 + 1;
      yyn := yyn - 1;
    }
  }

  lemma ExchangeStart(a: seq<nat>, p: int, q: int)
    requires 0 <= p <= q <= |a|
    ensures Exchanged(a, a, p, q, 0)
  {
  }

  lemma ExchangeStep(a: seq<nat>, b: seq<nat>, p: int, q: int, k: int, n: int)
    requires Exchanged(a, b, p, q, k) && k < n && p + n <= q && q + n <= |a|
    ensures Exchanged(a, Swap(b, p + k, q + k), p, q, k + 1)
  {
  }

  /** Smaller, equal, greater. */
  ghost predicate Parted(g: seq<nat>, ec: seq<nat>, med: nat, lo: int, n: int, m: int, hi: int) {
    && lo <= n + 1 <= m <= hi + 1
    && Side(g, ec, med, lo, n + 1, -1) && Side(g, ec, med, n + 1, m, 0) && Side(g, ec, med, m, hi + 1, 1)
  }

  function Min(x: int, y: int): int { if x < y then x else y }

  lemma SideFrame(a: seq<nat>, b: seq<nat>, ec: seq<nat>, med: nat, p: int, q: int, n: int, from: int, to: int, side: int)
    requires Exchanged(a, b, p, q, n) && Side(a, ec, med, from, to, side) && Classed(b, ec)
    requires (to <= p || from >= p + n) && (to <= q || from >= q + n)
    ensures Side(b, ec, med, from, to, side)
  {
  }

  /** Exchanging the ends of two neighbouring regions swaps the regions. */
  lemma SidesSwapped(a: seq<nat>, b: seq<nat>, ec: seq<nat>, med: nat, x: int, y: int, z: int, s: int, t: int)
    requires 0 <= x <= y <= z <= |a| && Side(a, ec, med, x, y, s) && Side(a, ec, med, y, z, t) && Classed(b, ec)
    requires var n := Min(y - x, z - y); Exchanged(a, b, x, z - n, n)
    ensures Side(b, ec, med, x, x + (z - y), t) && Side(b, ec, med, x + (z - y), z, s)
  {
    var n := Min(y - x, z - y);
    forall k | x <= k < x + (z - y) ensures Compare(ec[b[k]], med) == t {
      if k < x + n {
        assert b[k] == a[k + (z - n - x)];
      } else {
        assert b[k] == a[k];
      }
    }
    forall k | x + (z - y) <= k < z ensures Compare(ec[b[k]], med) == s {
      if k >= z - n {
        assert b[k] == a[k - (z - n - x)];
      } else {
        assert b[k] == a[k];
      }
    }
  }

  /** The vector swap on the left: the equal elements go behind the smaller ones. */
  method GatherLeft(fmap: array<nat>, eclass: array<nat>, med: nat, lo: int, ltLo: int, unLo: int, gtHi: int, hi: int,
                    ghost a0: seq<nat>)
    requires fmap != eclass && Parting(a0, fmap[..], eclass[..], med, lo, ltLo, unLo, unLo - 1, gtHi, hi)
    modifies fmap
    ensures Rearranged(a0, fmap[..], lo, hi) && Classed(fmap[..], eclass[..])
    ensures Side(fmap[..], eclass[..], med, lo, lo + (unLo - ltLo), -1) &&
            Side(fmap[..], eclass[..], med, lo + (unLo - ltLo), unLo, 0)
    ensures Side(fmap[..], eclass[..], med, unLo, gtHi + 1, 1) && Side(fmap[..], eclass[..], med, gtHi + 1, hi + 1, 0)
  {
    hide *;
    ghost var ec, g0 := eclass[..], fmap[..];
    PartFacts(a0, g0, ec, med, lo, ltLo, unLo, unLo - 1, gtHi, hi);
    var n := Min(ltLo - lo, unLo - ltLo);
    MinBounds(ltLo - lo, unLo - ltLo);
    VSwap(fmap, lo, unLo - n, n, lo, hi);
    ghost var g1 := fmap[..];
    assert eclass[..] == ec;
    RearrangedTrans(a0, g0, g1, lo, hi);
    ClassedRearranged(a0, g1, ec, lo, hi);
    SidesSwapped(g0, g1, ec, med, lo, ltLo, unLo, 0, -1);
    SideFrame(g0, g1, ec, med, lo, unLo - n, n, unLo, gtHi + 1, 1);
    SideFrame(g0, g1, ec, med, lo, unLo - n, n, gtHi + 1, hi + 1, 0);
  }

  /** The vector swap on the right: the equal elements go before the greater ones. */
  method GatherRight(fmap: array<nat>, eclass: array<nat>, med: nat, lo: int, x: int, unLo: int, gtHi: int, hi: int)
    requires fmap != eclass && 0 <= lo <= x <= unLo <= gtHi + 1 <= hi + 1 <= fmap.Length && Classed(fmap[..], eclass[..])
    requires Side(fmap[..], eclass[..], med, lo, x, -1) && Side(fmap[..], eclass[..], med, x, unLo, 0)
    requires Side(fmap[..], eclass[..], med, unLo, gtHi + 1, 1) && Side(fmap[..], eclass[..], med, gtHi + 1, hi + 1, 0)
    modifies fmap
    ensures Rearranged(old(fmap[..]), fmap[..], lo, hi) && Classed(fmap[..], eclass[..])
    ensures Parted(fmap[..], eclass[..], med, lo, x - 1, unLo + (hi - gtHi), hi)
  {
    hide Rearranged, Exchanged, Side, Classed, Min;
    ghost var ec, g1 := eclass[..], fmap[..];
    var m := Min(hi - gtHi, gtHi - (unLo - 1));
    MinBounds(hi - gtHi, gtHi - (unLo - 1));
    VSwap(fmap, unLo, hi - m + 1, m, lo, hi);
    ghost var g2 := fmap[..];
    assert eclass[..] == ec;
    ClassedRearranged(g1, g2, ec, lo, hi);
    MinComm(hi - gtHi, gtHi - (unLo - 1));
    SidesSwapped(g1, g2, ec, med, unLo, gtHi + 1, hi + 1, 1, 0);
    SideFrame(g1, g2, ec, med, unLo, hi - m + 1, m, lo, x, -1);
    SideFrame(g1, g2, ec, med, unLo, hi - m + 1, m, x, unLo, 0);
    SidesJoin(g2, ec, med, x, unLo, unLo + (hi - gtHi), 0);
  }

  lemma MinBounds(x: int, y: int)
    ensures Min(x, y) <= x && Min(x, y) <= y && (Min(x, y) == x || Min(x, y) == y)
  {
  }

  lemma PartFacts(a0: seq<nat>, g: seq<nat>, ec: seq<nat>, med: nat, lo: int, ltLo: int, unLo: int, unHi: int,
                  gtHi: int, hi: int)
    requires Parting(a0, g, ec, med, lo, ltLo, unLo, unHi, gtHi, hi)
    ensures 0 <= lo <= ltLo <= unLo <= unHi + 1 && unHi <= gtHi <= hi < |g|
    ensures Rearranged(a0, g, lo, hi) && Classed(a0, ec) && Classed(g, ec)
    ensures Side(g, ec, med, lo, ltLo, 0) && Side(g, ec, med, ltLo, unLo, -1)
    ensures Side(g, ec, med, unHi + 1, gtHi + 1, 1) && Side(g, ec, med, gtHi + 1, hi + 1, 0)
  {
  }

  lemma MinComm(x: int, y: int)
    ensures Min(x, y) == Min(y, x)
  {
  }

  lemma SidesJoin(g: seq<nat>, ec: seq<nat>, med: nat, x: int, y: int, z: int, s: int)
    requires x <= y <= z && Side(g, ec, med, x, y, s) && Side(g, ec, med, y, z, s)
    ensures Side(g, ec, med, x, z, s)
  {
  }

  // ---- the explicit stack ----

  datatype Segment = Segment(lo: int, hi: int)

  predicate In(e: Segment, i: int) { e.lo <= i <= e.hi }

  function Size(e: Segment): nat { if e.hi < e.lo then 0 else e.hi - e.lo + 1 }

  predicate Apart(e: Segment, f: Segment) {
    e.hi < e.lo || f.hi < f.lo || e.hi < f.lo || f.hi < e.lo
  }

  /** Some segment on the stack holds both places. */
  predicate Together(st: seq<Segment>, i: int, j: int) {
    exists k :: 0 <= k < |st| && In(st[k], i) && In(st[k], j)
  }

  predicate OrderedPair(g: seq<nat>, ec: seq<nat>, st: seq<Segment>, i: int, j: int)
    requires 0 <= i < |g| && 0 <= j < |g| && Classed(g, ec)
  {
    ec[g[i]] <= ec[g[j]] || Together(st, i, j)
  }

  /** The segments on the stack are all that is still to be sorted. */
  ghost predicate Sorting(a0: seq<nat>, g: seq<nat>, ec: seq<nat>, st: seq<Segment>, lo: int, hi: int) {
    && 0 <= lo <= hi + 1 && hi < |g| && Classed(g, ec) && Classed(a0, ec) && Rearranged(a0, g, lo, hi)
    && (forall k :: 0 <= k < |st| ==> lo <= st[k].lo <= st[k].hi + 1 && st[k].hi <= hi)
    && (forall k, m :: 0 <= k < m < |st| ==> Apart(st[k], st[m]))
    && (forall i, j :: lo <= i < j <= hi ==> OrderedPair(g, ec, st, i, j))
  }

  lemma SortStart(a0: seq<nat>, ec: seq<nat>, lo: int, hi: int)
    requires 0 <= lo <= hi + 1 && hi < |a0| && Classed(a0, ec)
    ensures Sorting(a0, a0, ec, [Segment(lo, hi)], lo, hi)
  {
    RearrangedSelf(a0, lo, hi);
    var st := [Segment(lo, hi)];
    forall i, j | lo <= i < j <= hi ensures OrderedPair(a0, ec, st, i, j) {
      assert In(st[0], i) && In(st[0], j);
    }
  }

  lemma SortEnd(a0: seq<nat>, g: seq<nat>, ec: seq<nat>, lo: int, hi: int)
    requires Sorting(a0, g, ec, [], lo, hi)
    ensures Rearranged(a0, g, lo, hi) && SortedRange(g, ec, lo, hi)
  {
    forall i, j | lo <= i <= j <= hi ensures ec[g[i]] <= ec[g[j]] {
      if i < j { assert OrderedPair(g, ec, [], i, j); }
    }
  }

  /** The top segment e was rearranged, and its own pairs are now in order or together on the new stack. */
  lemma SegmentDone(a0: seq<nat>, g: seq<nat>, h: seq<nat>, ec: seq<nat>, st: seq<Segment>, e: Segment,
                    more: seq<Segment>, lo: int, hi: int)
    requires Sorting(a0, g, ec, st + [e], lo, hi) && Rearranged(g, h, e.lo, e.hi) && Classed(h, ec)
    requires |more| <= 2 && (|more| == 2 ==> Apart(more[0], more[1]))
    requires forall k :: 0 <= k < |more| ==> e.lo <= more[k].lo <= more[k].hi + 1 && more[k].hi <= e.hi
    requires forall i, j :: e.lo <= i < j <= e.hi ==> OrderedPair(h, ec, more, i, j)
    ensures Sorting(a0, h, ec, st + more, lo, hi)
  {
    hide Rearranged, Classed;
    var all, now := st + [e], st + more;
    assert all[|st|] == e;
    RearrangedWiden(g, h, e.lo, e.hi, lo, hi);
    RearrangedTrans(a0, g, h, lo, hi);
    forall k | 0 <= k < |now| ensures lo <= now[k].lo <= now[k].hi + 1 && now[k].hi <= hi {
      if k < |st| { assert all[k] == now[k]; } else { assert now[k] == more[k - |st|]; }
    }
    forall k, m | 0 <= k < m < |now| ensures Apart(now[k], now[m]) {
      if m < |st| {
        assert all[k] == now[k] && all[m] == now[m];
      } else if k < |st| {
        assert all[k] == now[k] && now[m] == more[m - |st|];
        assert Apart(all[k], all[|st|]);
      }
    }
    forall i, j | lo <= i < j <= hi ensures OrderedPair(h, ec, now, i, j) {
      PairDone(a0, g, h, ec, st, e, more, lo, hi, i, j);
    }
  }

  lemma PairDone(a0: seq<nat>, g: seq<nat>, h: seq<nat>, ec: seq<nat>, st: seq<Segment>, e: Segment,
                 more: seq<Segment>, lo: int, hi: int, i: int, j: int)
    requires Sorting(a0, g, ec, st + [e], lo, hi) && Rearranged(g, h, e.lo, e.hi) && Classed(h, ec)
    requires forall i, j :: e.lo <= i < j <= e.hi ==> OrderedPair(h, ec, more, i, j)
    requires lo <= i < j <= hi < |h|
    ensures OrderedPair(h, ec, st + more, i, j)
  {
    hide Rearranged, Classed;
    var all, now := st + [e], st + more;
    if In(e, i) && In(e, j) {
      assert OrderedPair(h, ec, more, i, j);
      if Together(more, i, j) {
        var k :| 0 <= k < |more| && In(more[k], i) && In(more[k], j);
        assert now[|st| + k] == more[k];
      }
    } else {
      var i', j' := i, j;
      if In(e, i) { i' := RearrangedFrom(g, h, e.lo, e.hi, i); } else { RearrangedOutside(g, h, e.lo, e.hi, i); }
      if In(e, j) { j' := RearrangedFrom(g, h, e.lo, e.hi, j); } else { RearrangedOutside(g, h, e.lo, e.hi, j); }
      assert i' < j';
      assert OrderedPair(g, ec, all, i', j');
      if Together(all, i', j') {
        var k :| 0 <= k < |all| && In(all[k], i') && In(all[k], j');
        assert all[|st|] == e;
        assert k != |st| && Apart(all[k], all[|st|]);
        assert i' == i && j' == j;
        assert now[k] == all[k];
      }
    }
  }

  // ---- how high the stack grows ----

  /** The total size of the segments from k up. */
  function Load(st: seq<Segment>, k: nat): nat
    requires k <= |st|
    decreases |st| - k
  {
    if k == |st| then 0 else Size(st[k]) + Load(st, k + 1)
  }

  /** The segments from place k up hold at most n / 2^k elements. */
  predicate LoadFits(st: seq<Segment>, n: nat, k: nat)
    requires k <= |st|
  {
    Shl(Load(st, k), k) <= n
  }

  predicate Balanced(st: seq<Segment>, n: nat) {
    forall k :: 0 <= k <= |st| ==> LoadFits(st, n, k)
  }

  lemma {:induction false} LoadAppend(st: seq<Segment>, more: seq<Segment>, k: nat)
    requires k <= |st|
    ensures Load(st + more, k) == Load(st, k) + Load(more, 0)
    decreases |st| - k
  {
    if k == |st| {
      LoadShift(st, more, 0);
    } else {
      LoadAppend(st, more, k + 1);
    }
  }

  lemma {:induction false} LoadShift(st: seq<Segment>, more: seq<Segment>, k: nat)
    requires k <= |more|
    ensures Load(st + more, |st| + k) == Load(more, k)
    decreases |more| - k
  {
    if k < |more| { LoadShift(st, more, k + 1); }
  }

  lemma BalancedStart(e: Segment)
    ensures Balanced([e], Size(e))
  {
    assert Load([e], 1) == 0 && Load([e], 0) == Size(e);
    assert Shl(0, 1) == 0;
    forall k | 0 <= k <= 1 ensures LoadFits([e], Size(e), k) { }
  }

  /** The larger part goes below the smaller one, so the smaller one has room for twice as many of its kind. */
  lemma BalancedSplit(st: seq<Segment>, e: Segment, big: Segment, small: Segment, n: nat)
    requires Balanced(st + [e], n) && Size(big) + Size(small) <= Size(e) && Size(small) <= Size(big)
    ensures Balanced(st + [big, small], n) && Load(st + [big, small], 0) <= Load(st + [e], 0) - Size(e) + Size(big) +
            Size(small)
  {
    hide Shl;
    var now := st + [big, small];
    var p := |st|;
    TwoLoads(big, small, e);
    LoadAppend(st, [big, small], 0);
    LoadAppend(st, [e], 0);
    forall k | 0 <= k <= |now| ensures LoadFits(now, n, k) {
      if k <= p {
        assert LoadFits(st + [e], n, k);
        LoadAppend(st, [big, small], k);
        LoadAppend(st, [e], k);
        ShlMonotone(Load(now, k), Load(st + [e], k), k);
      } else {
        assert LoadFits(st + [e], n, p);
        LoadAppend(st, [e], p);
        LoadShift(st, [big, small], k - p);
        LoadEnd(st);
        var x := if k == p + 1 then Size(small) else 0;
        assert Load(now, k) == x;
        assert Shl(x, k - p) <= Size(e) by { ShlOneOrTwo(x); }
        ShlMonotone(Shl(x, k - p), Size(e), p);
        ShlTwice(x, k - p, p);
      }
    }
  }

  lemma TwoLoads(big: Segment, small: Segment, e: Segment)
    ensures Load([big, small], 0) == Size(big) + Size(small) && Load([big, small], 1) == Size(small) &&
            Load([big, small], 2) == 0
    ensures Load([e], 0) == Size(e)
  {
    assert Load([big, small], 1) == Size(small) + Load([big, small], 2);
    assert Load([e], 1) == 0;
  }

  lemma LoadEnd(st: seq<Segment>)
    ensures Load(st, |st|) == 0
  {
  }

  lemma ShlOneOrTwo(x: nat)
    ensures Shl(x, 1) == 2 * x && Shl(0, 2) == 0
  {
    assert Shl(x, 1) == 2 * Shl(x, 0);
    assert Shl(0, 1) == 0;
  }

  lemma BalancedPop(st: seq<Segment>, e: Segment, n: nat)
    requires Balanced(st + [e], n)
    ensures Balanced(st, n) && Load(st, 0) + Size(e) == Load(st + [e], 0)
  {
    hide Shl;
    TwoLoads(e, e, e);
    LoadAppend(st, [e], 0);
    forall k | 0 <= k <= |st| ensures LoadFits(st, n, k) {
      assert LoadFits(st + [e], n, k);
      LoadAppend(st, [e], k);
      ShlMonotone(Load(st, k), Load(st + [e], k), k);
    }
  }

  /** A segment long enough to be partitioned lies no higher than 16 on the stack. */
  lemma StackHeight(st: seq<Segment>, e: Segment, n: nat)
    requires Balanced(st + [e], n) && n <= 900_000 && Size(e) > SMALL_THRESH
    ensures |st| <= 16
  {
    hide Shl;
    assert LoadFits(st + [e], n, |st|);
    LoadShift(st, [e], 0);
    TwoLoads(e, e, e);
    ShlMonotone(11, Size(e), |st|);
    if |st| > 16 {
      ShlGrows(11, 17, |st|);
      ElevenShifted();
      assert false;
    }
  }

  lemma {:induction false} ShlGrows(x: nat, m: nat, n: nat)
    requires m <= n
    ensures Shl(x, m) <= Shl(x, n)
  {
    if m < n { ShlGrows(x, m, n - 1); }
  }

  lemma ElevenShifted()
    ensures Shl(11, 17) == 1441792
  {
    assert Shl(11, 1) == 22 && Shl(11, 2) == 44 && Shl(11, 3) == 88 && Shl(11, 4) == 176 && Shl(11, 5) == 352;
    assert Shl(11, 6) == 704 && Shl(11, 7) == 1408 && Shl(11, 8) == 2816 && Shl(11, 9) == 5632 && Shl(11, 10) == 11264;
    assert Shl(11, 11) == 22528 && Shl(11, 12) == 45056 && Shl(11, 13) == 90112 && Shl(11, 14) == 180224;
    assert Shl(11, 15) == 360448 && Shl(11, 16) == 720896;
  }

  // ---- the whole sort ----

  /** stackLo and stackHi hold the segments. */
  predicate Stacked(stackLo: seq<int>, stackHi: seq<int>, st: seq<Segment>) {
    && |stackLo| == |stackHi| == STACK_SIZE && |st| <= STACK_SIZE
    && forall k :: 0 <= k < |st| ==> stackLo[k] == st[k].lo && stackHi[k] == st[k].hi
  }

  /** fpush */
  method Push(stackLo: array<int>, stackHi: array<int>, sp: nat, lo: int, hi: int, ghost st: seq<Segment>)
    requires stackLo != stackHi && Stacked(stackLo[..], stackHi[..], st) && sp == |st| < STACK_SIZE
    modifies stackLo, stackHi
    ensures Stacked(stackLo[..], stackHi[..], st + [Segment(lo, hi)])
  {
    stackLo[sp] := lo;
    stackHi[sp] := hi;
  }

  /** The class to partition around, picked by a small linear congruence. */
  method PickMedian(fmap: array<nat>, eclass: array<nat>, lo: int, hi: int, r: nat) returns (med: nat, r': nat)
    requires 0 <= lo <= hi < fmap.Length && Classed(fmap[..], eclass[..])
    ensures r' == (r * 7621 + 1) % 32768
    ensures exists i :: lo <= i <= hi && fmap[..][i] < |eclass[..]| && med == eclass[..][fmap[..][i]]
  {
    r' := (r * 7621 + 1) % 32768;
    var r3 := r' % 3;
    var i := if r3 == 0 then lo else if r3 == 1 then (lo + hi) / 2 else hi;
    assert fmap[i] == fmap[..][i] < |eclass[..]|;
    med := eclass[fmap[i]];
    assert med == eclass[..][fmap[..][i]];
  }

  /** Both outer parts go on the stack when something was smaller or greater than the median. */
  lemma PartedSegment(g: seq<nat>, ec: seq<nat>, med: nat, e: Segment, n: int, m: int, more: seq<Segment>)
    requires 0 <= e.lo && e.hi < |g| && Parted(g, ec, med, e.lo, n, m, e.hi) && Classed(g, ec)
    requires more == [Segment(e.lo, n), Segment(m, e.hi)] || more == [Segment(m, e.hi), Segment(e.lo, n)]
    ensures forall i, j :: e.lo <= i < j <= e.hi ==> OrderedPair(g, ec, more, i, j)
  {
    forall i, j | e.lo <= i < j <= e.hi ensures OrderedPair(g, ec, more, i, j) {
      if j <= n || i >= m {
        assert (In(more[0], i) && In(more[0], j)) || (In(more[1], i) && In(more[1], j));
      }
    }
  }

  /** A sorted or constant segment is finished. */
  lemma SortedSegment(g: seq<nat>, ec: seq<nat>, e: Segment)
    requires Classed(g, ec) && 0 <= e.lo && e.hi < |g| && SortedRange(g, ec, e.lo, e.hi)
    ensures forall i, j :: e.lo <= i < j <= e.hi ==> OrderedPair(g, ec, [], i, j)
  {
  }

  lemma AllEqualSorted(a0: seq<nat>, g: seq<nat>, ec: seq<nat>, med: nat, lo: int, ltLo: int, unLo: int, gtHi: int, hi: int)
    requires Parting(a0, g, ec, med, lo, ltLo, unLo, unLo - 1, gtHi, hi) && gtHi < ltLo
    ensures SortedRange(g, ec, lo, hi)
  {
  }

  lemma SizeOf(e: Segment)
    ensures Size(e) == if e.hi < e.lo then 0 else e.hi - e.lo + 1
  {
  }

  lemma TopFacts(a0: seq<nat>, g: seq<nat>, ec: seq<nat>, st: seq<Segment>, e: Segment, lo: int, hi: int)
    requires Sorting(a0, g, ec, st + [e], lo, hi)
    ensures 0 <= lo <= e.lo <= e.hi + 1 && e.hi <= hi < |g| && Classed(g, ec)
  {
    assert (st + [e])[|st|] == e;
  }

  /** The median itself is among the equal elements, so the outer parts are together shorter. */
  lemma MedianStays(g: seq<nat>, h: seq<nat>, ec: seq<nat>, med: nat, lo: int, n: int, m: int, hi: int)
    requires Rearranged(g, h, lo, hi) && Classed(g, ec) && Classed(h, ec) && Parted(h, ec, med, lo, n, m, hi)
    requires exists i :: lo <= i <= hi && g[i] < |ec| && med == ec[g[i]]
    ensures n + 1 < m
  {
    var i :| lo <= i <= hi && g[i] < |ec| && med == ec[g[i]];
    RearrangedBack(g, h, lo, hi);
    var j := RearrangedFrom(h, g, lo, hi, i);
  }

  lemma RearrangedBack(g: seq<nat>, h: seq<nat>, lo: int, hi: int)
    requires Rearranged(g, h, lo, hi)
    ensures Rearranged(h, g, lo, hi)
  {
  }

  /** Both outer parts of a parted segment are pushed: they are apart, smaller, and in balance. */
  lemma SplitDone(a0: seq<nat>, g: seq<nat>, h: seq<nat>, ec: seq<nat>, st: seq<Segment>, e: Segment, med: nat, n: int,
                  m: int,
                  big: Segment, small: Segment, lo: int, hi: int)
    requires Sorting(a0, g, ec, st + [e], lo, hi) && Rearranged(g, h, e.lo, e.hi) && Classed(h, ec)
    requires e.hi - e.lo >= SMALL_THRESH && Parted(h, ec, med, e.lo, n, m, e.hi)
    requires exists i :: e.lo <= i <= e.hi && g[i] < |ec| && med == ec[g[i]]
    requires Balanced(st + [e], hi - lo + 1) && Size(small) <= Size(big)
    requires (big == Segment(e.lo, n) && small == Segment(m, e.hi)) || (big == Segment(m, e.hi) && small == Segment(e.lo, n))
    ensures Sorting(a0, h, ec, st + [big, small], lo, hi) && Balanced(st + [big, small], hi - lo + 1)
    ensures Load(st + [big, small], 0) < Load(st + [e], 0)
  {
    hide *;
    TopFacts(a0, g, ec, st, e, lo, hi);
    RearrangedLength(g, h, e.lo, e.hi);
    MedianStays(g, h, ec, med, e.lo, n, m, e.hi);
    PartedFacts(h, ec, med, e.lo, n, m, e.hi);
    PartsApart(e, n, m, big, small);
    PartedSegment(h, ec, med, e, n, m, [big, small]);
    SegmentDone(a0, g, h, ec, st, e, [big, small], lo, hi);
    BalancedSplit(st, e, big, small, hi - lo + 1);
  }

  lemma PartedFacts(g: seq<nat>, ec: seq<nat>, med: nat, lo: int, n: int, m: int, hi: int)
    requires Parted(g, ec, med, lo, n, m, hi)
    ensures lo <= n + 1 <= m <= hi + 1
  {
  }

  lemma PartsApart(e: Segment, n: int, m: int, big: Segment, small: Segment)
    requires e.lo <= n + 1 < m <= e.hi + 1
    requires (big == Segment(e.lo, n) && small == Segment(m, e.hi)) || (big == Segment(m, e.hi) && small == Segment(e.lo, n))
    ensures Apart(big, small) && Size(big) + Size(small) < Size(e)
    ensures forall k :: 0 <= k < 2 ==> e.lo <= [big, small][k].lo <= [big, small][k].hi + 1 && [big, small][k].hi <= e.hi
  {
  }

  /** Partitioning: the outer parts of the segment, the larger one first. */
  method PartSegment(fmap: array<nat>, eclass: array<nat>, med: nat, lo: int, hi: int) returns (done: bool, n: int, m: int)
    requires fmap != eclass && 0 <= lo <= hi < fmap.Length && Classed(fmap[..], eclass[..])
    modifies fmap
    ensures Rearranged(old(fmap[..]), fmap[..], lo, hi) && Classed(fmap[..], eclass[..])
    ensures done ==> SortedRange(fmap[..], eclass[..], lo, hi)
    ensures !done ==> Parted(fmap[..], eclass[..], med, lo, n, m, hi)
  {
    hide *;
    ghost var g, ec := fmap[..], eclass[..];
    n, m := lo, hi;
    var ltLo, unLo, gtHi := Partition(fmap, eclass, med, lo, hi);
    PartFacts(g, fmap[..], ec, med, lo, ltLo, unLo, unLo - 1, gtHi, hi);
    done := gtHi < ltLo;
    if done {
      AllEqualSorted(g, fmap[..], ec, med, lo, ltLo, unLo, gtHi, hi);
      return;
    }
    GatherLeft(fmap, eclass, med, lo, ltLo, unLo, gtHi, hi, g);
    ghost var g1 := fmap[..];
    GatherRight(fmap, eclass, med, lo, lo + (unLo - ltLo), unLo, gtHi, hi);
    RearrangedTrans(g, g1, fmap[..], lo, hi);
    n := lo + unLo - ltLo - 1;
    m := hi - (gtHi - (unLo - 1)) + 1;
  }

  /** What the main loop keeps. */
  ghost predicate Running(a0: seq<nat>, f: seq<nat>, ec: seq<nat>, stackLo: seq<int>, stackHi: seq<int>,
                          st: seq<Segment>, lo: int, hi: int)
  {
    && Sorting(a0, f, ec, st, lo, hi) && Balanced(st, hi - lo + 1) && hi - lo + 1 <= 900_000
    && Stacked(stackLo, stackHi, st) && |st| <= 18
  }

  /** The two pushes, the larger part below. */
  method PushParts(stackLo: array<int>, stackHi: array<int>, sp: nat, lo: int, n: int, m: int, hi: int,
                   ghost st: seq<Segment>)
    returns (ghost big: Segment, ghost small: Segment)
    requires stackLo != stackHi && Stacked(stackLo[..], stackHi[..], st) && sp == |st| < STACK_SIZE - 1 &&
             lo <= n + 1 && m <= hi + 1
    modifies stackLo, stackHi
    ensures (big == Segment(lo, n) && small == Segment(m, hi)) || (big == Segment(m, hi) && small == Segment(lo, n))
    ensures Size(small) <= Size(big) && Stacked(stackLo[..], stackHi[..], st + [big, small])
  {
    hide Stacked;
    if n - lo > hi - m {
      big, small := Segment(lo, n), Segment(m, hi);
      Push(stackLo, stackHi, sp, lo, n, st);
      Push(stackLo, stackHi, sp + 1, m, hi, st + [big]);
    } else {
      big, small := Segment(m, hi), Segment(lo, n);
      Push(stackLo, stackHi, sp, m, hi, st);
      Push(stackLo, stackHi, sp + 1, lo, n, st + [big]);
    }
    assert st + [big] + [small] == st + [big, small];
  }

  lemma RunningFacts(a0: seq<nat>, f: seq<nat>, ec: seq<nat>, sl: seq<int>, sh: seq<int>, st: seq<Segment>, e: Segment,
                     lo: int, hi: int)
    requires Running(a0, f, ec, sl, sh, st + [e], lo, hi)
    ensures Sorting(a0, f, ec, st + [e], lo, hi) && Balanced(st + [e], hi - lo + 1) && hi - lo + 1 <= 900_000
    ensures Stacked(sl, sh, st) && |st| < 18 && sl[|st|] == e.lo && sh[|st|] == e.hi
    ensures 0 <= lo <= e.lo <= e.hi + 1 && e.hi <= hi < |f| && Classed(f, ec)
  {
    hide Rearranged, Classed, Balanced, OrderedPair, Apart;
    assert (st + [e])[|st|] == e;
    forall k | 0 <= k < |st| ensures (st + [e])[k] == st[k] { }
  }

  lemma RunningMade(a0: seq<nat>, f: seq<nat>, ec: seq<nat>, sl: seq<int>, sh: seq<int>, st: seq<Segment>, lo: int, hi: int)
    requires Sorting(a0, f, ec, st, lo, hi) && Balanced(st, hi - lo + 1) && hi - lo + 1 <= 900_000
    requires Stacked(sl, sh, st) && |st| <= 18
    ensures Running(a0, f, ec, sl, sh, st, lo, hi)
  {
  }

  /** A sorted segment is popped for good. */
  lemma PopDone(a0: seq<nat>, g: seq<nat>, h: seq<nat>, ec: seq<nat>, sl: seq<int>, sh: seq<int>, st: seq<Segment>,
                e: Segment, lo: int, hi: int)
    requires Running(a0, g, ec, sl, sh, st + [e], lo, hi)
    requires Rearranged(g, h, e.lo, e.hi) && Classed(h, ec) && SortedRange(h, ec, e.lo, e.hi)
    ensures Running(a0, h, ec, sl, sh, st, lo, hi) && Load(st, 0) <= Load(st + [e], 0)
  {
    hide *;
    RunningFacts(a0, g, ec, sl, sh, st, e, lo, hi);
    assert |g| == |h| by { RearrangedLength(g, h, e.lo, e.hi); }
    SortedSegment(h, ec, e);
    SegmentDone(a0, g, h, ec, st, e, [], lo, hi);
    BalancedPop(st, e, hi - lo + 1);
    assert st + [] == st;
    RunningMade(a0, h, ec, sl, sh, st, lo, hi);
  }

  lemma RearrangedLength(g: seq<nat>, h: seq<nat>, lo: int, hi: int)
    requires Rearranged(g, h, lo, hi)
    ensures |g| == |h|
  {
  }

  /** The work on one segment: sorted outright, or parted with its outer parts pushed, the larger below. */
  method Process(fmap: array<nat>, eclass: array<nat>, stackLo: array<int>, stackHi: array<int>, sp0: nat, r: nat,
                 ghost a0: seq<nat>, ghost st: seq<Segment>, ghost e: Segment, ghost loSt: int, ghost hiSt: int)
    returns (sp: nat, r': nat, ghost st': seq<Segment>)
    requires fmap != eclass && stackLo != stackHi && sp0 == |st| + 1 && stackLo.Length == stackHi.Length == STACK_SIZE
    requires Running(a0, fmap[..], eclass[..], stackLo[..], stackHi[..], st + [e], loSt, hiSt)
    modifies fmap, stackLo, stackHi
    ensures sp == |st'| && Running(a0, fmap[..], eclass[..], stackLo[..], stackHi[..], st', loSt, hiSt)
    ensures Load(st', 0) < Load(st + [e], 0) || (Load(st', 0) <= Load(st + [e], 0) && |st'| == |st|)
  {
    hide *;
    Limits();
    ghost var g, ec := fmap[..], eclass[..];
    RunningFacts(a0, g, ec, stackLo[..], stackHi[..], st, e, loSt, hiSt);
    sp, r', st' := sp0 - 1, r, st;
    var lo, hi := stackLo[sp], stackHi[sp];
    if hi - lo < SMALL_THRESH {
      SimpleSort(fmap, eclass, lo, hi);
      PopDone(a0, g, fmap[..], ec, stackLo[..], stackHi[..], st, e, loSt, hiSt);
      return;
    }
    SizeOf(e);
    StackHeight(st, e, hiSt - loSt + 1);
    var med;
    med, r' := PickMedian(fmap, eclass, lo, hi, r);
    var done, n, m := PartSegment(fmap, eclass, med, lo, hi);
    if done {
      PopDone(a0, g, fmap[..], ec, stackLo[..], stackHi[..], st, e, loSt, hiSt);
      return;
    }
    PartedFacts(fmap[..], ec, med, lo, n, m, hi);
    ghost var big, small := PushParts(stackLo, stackHi, sp, lo, n, m, hi, st);
    SplitDone(a0, g, fmap[..], ec, st, e, med, n, m, big, small, loSt, hiSt);
    st' := st + [big, small];
    sp := sp + 2;
    RunningMade(a0, fmap[..], ec, stackLo[..], stackHi[..], st', loSt, hiSt);
  }

  lemma RunningStart(a0: seq<nat>, ec: seq<nat>, sl: seq<int>, sh: seq<int>, lo: int, hi: int)
    requires 0 <= lo <= hi + 1 <= |a0| && hi - lo + 1 <= 900_000 && Classed(a0, ec)
    requires Stacked(sl, sh, [Segment(lo, hi)])
    ensures Running(a0, a0, ec, sl, sh, [Segment(lo, hi)], lo, hi)
  {
    hide *;
    SortStart(a0, ec, lo, hi);
    SizeOf(Segment(lo, hi));
    BalancedStart(Segment(lo, hi));
    RunningMade(a0, a0, ec, sl, sh, [Segment(lo, hi)], lo, hi);
  }

  lemma RunningTop(a0: seq<nat>, f: seq<nat>, ec: seq<nat>, sl: seq<int>, sh: seq<int>, st: seq<Segment>, lo: int, hi: int)
    requires Running(a0, f, ec, sl, sh, st, lo, hi)
    ensures |st| <= 18
  {
  }

  lemma RunningEnd(a0: seq<nat>, f: seq<nat>, ec: seq<nat>, sl: seq<int>, sh: seq<int>, lo: int, hi: int)
    requires Running(a0, f, ec, sl, sh, [], lo, hi)
    ensures Rearranged(a0, f, lo, hi) && Classed(f, ec) && SortedRange(f, ec, lo, hi)
  {
    SortEnd(a0, f, ec, lo, hi);
  }

  /** fallbackQSort3: the assertion in the loop is the source's check 1004, which never fails
      on a range of at most 900000 elements. */
  method FallbackQSort3(fmap: array<nat>, eclass: array<nat>, loSt: int, hiSt: int)
    requires fmap != eclass && 0 <= loSt <= hiSt + 1 <= fmap.Length && hiSt - loSt + 1 <= 900_000 &&
             Classed(fmap[..], eclass[..])
    modifies fmap
    ensures Rearranged(old(fmap[..]), fmap[..], loSt, hiSt)
    ensures Classed(fmap[..], eclass[..]) && SortedRange(fmap[..], eclass[..], loSt, hiSt)
  {
    hide *;
    Limits();
    ghost var a0, ec := fmap[..], eclass[..];
    var stackLo, stackHi := new int[STACK_SIZE], new int[STACK_SIZE];
    var r, sp := 0, 1;
    ghost var st := [Segment(loSt, hiSt)];
    StackedEmpty(stackLo[..], stackHi[..]);
    Push(stackLo, stackHi, 0, loSt, hiSt, []);
    assert [] + st == st;
    RunningStart(a0, ec, stackLo[..], stackHi[..], loSt, hiSt);
    while sp > 0
      invariant sp == |st| && eclass[..] == ec
      invariant fresh(stackLo) && fresh(stackHi) && stackLo != stackHi && stackLo.Length == stackHi.Length == STACK_SIZE
      invariant Running(a0, fmap[..], ec, stackLo[..], stackHi[..], st, loSt, hiSt)
      decreases Load(st, 0), |st|
    {
      RunningTop(a0, fmap[..], ec, stackLo[..], stackHi[..], st, loSt, hiSt);
      assert sp < STACK_SIZE - 1;
      ghost var e, rest := st[|st| - 1], st[..|st| - 1];
      assert rest + [e] == st;
      sp, r, st := Process(fmap, eclass, stackLo, stackHi, sp, r, a0, rest, e, loSt, hiSt);
    }
    RunningEnd(a0, fmap[..], ec, stackLo[..], stackHi[..], loSt, hiSt);
  }

  lemma StackedEmpty(sl: seq<int>, sh: seq<int>)
    requires |sl| == |sh| == STACK_SIZE
    ensures Stacked(sl, sh, [])
  {
  }
}
