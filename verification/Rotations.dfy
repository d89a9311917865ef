/** Cyclic rotations of a block, their order, and the inverse of the sorted-rotation transform. */
module Rotations {
  import opened CountingSort
  import opened Permutations

  type Block = b: seq<nat> | forall i :: 0 <= i < |b| ==> b[i] < 256

  /** x reduced modulo n, by whole turns. */
  function Wrap(x: nat, n: nat): (r: nat)
    requires n > 0
    ensures r < n
  {
    if x < n then x else Wrap(x - n, n)
  }

  /** The block repeated for ever. */
  function At(b: Block, x: nat): nat
    requires |b| > 0
  {
    b[Wrap(x, |b|)]
  }

  /** Compares the k characters from x with the k characters from y. */
  function Cmp(b: Block, x: nat, y: nat, k: nat): (c: int)
    requires |b| > 0
    ensures -1 <= c <= 1
    decreases k
  {
    if k == 0 then 0
    else if At(b, x) < At(b, y) then -1
    else if At(b, x) > At(b, y) then 1
    else Cmp(b, x + 1, y + 1, k - 1)
  }

  /** ptr lists the rotation starts so that the rotations do not decrease. */
  ghost predicate IsRotationOrder(b: Block, ptr: seq<nat>) {
    && IsPermutation(ptr, |b|)
    && forall i, j :: 0 <= i < j < |b| ==> Cmp(b, ptr[i], ptr[j], |b|) <= 0
  }

  function Prev(n: nat, x: nat): nat
    requires x < n
  {
    if x == 0 then n - 1 else x - 1
  }

  /** The byte before each rotation, in rotation order. */
  function LastColumn(b: Block, ptr: seq<nat>): (last: Block)
    requires forall i :: 0 <= i < |ptr| ==> ptr[i] < |b|
    ensures |last| == |ptr|
  {
    seq(|ptr|, i requires 0 <= i < |ptr| => b[Prev(|b|, ptr[i])])
  }

  /** Where the character after the one at row pos is found. */
  function Follow(last: Block): (hi: seq<nat>)
    ensures |hi| == |last| && forall i :: 0 <= i < |hi| ==> hi[i] < |last|
  {
    BelowAll(last, 256);
    Sorted(last, 256)
  }

  /** k characters of the block, following the rows from pos. */
  function Unwind(last: Block, pos: nat, k: nat): (out: Block)
    requires k > 0 ==> pos < |last|
    ensures |out| == k
    decreases k
  {
    if k == 0 then []
    else
      var p := Follow(last)[pos];
      [last[p]] + Unwind(last, p, k - 1)
  }

  // ---- the order on rotations ----

  lemma {:induction false} CmpFlip(b: Block, x: nat, y: nat, k: nat)
    requires |b| > 0
    ensures Cmp(b, y, x, k) == -Cmp(b, x, y, k)
    decreases k
  {
    if k > 0 && At(b, x) == At(b, y) { CmpFlip(b, x + 1, y + 1, k - 1); }
  }

  lemma {:induction false} CmpTransitive(b: Block, x: nat, y: nat, z: nat, k: nat)
    requires |b| > 0
    requires Cmp(b, x, y, k) <= 0 && Cmp(b, y, z, k) <= 0
    ensures Cmp(b, x, z, k) <= 0
    ensures Cmp(b, x, y, k) < 0 || Cmp(b, y, z, k) < 0 ==> Cmp(b, x, z, k) < 0
    decreases k
  {
    if k > 0 && At(b, x) == At(b, y) && At(b, y) == At(b, z) {
      CmpTransitive(b, x + 1, y + 1, z + 1, k - 1);
    }
  }

  /** Comparing j + k characters is comparing j, and on a tie the next k. */
  lemma {:induction false} CmpSplit(b: Block, x: nat, y: nat, j: nat, k: nat)
    requires |b| > 0
    ensures Cmp(b, x, y, j + k) == if Cmp(b, x, y, j) != 0 then Cmp(b, x, y, j) else Cmp(b, x + j, y + j, k)
    decreases j
  {
    if j > 0 && At(b, x) == At(b, y) {
      CmpSplit(b, x + 1, y + 1, j - 1, k);
    }
  }

  /** Rotations one whole turn apart are the same. */
  lemma {:induction false} CmpTurn(b: Block, x: nat, y: nat, k: nat)
    requires |b| > 0
    ensures Cmp(b, x + |b|, y, k) == Cmp(b, x, y, k)
    ensures Cmp(b, x, y + |b|, k) == Cmp(b, x, y, k)
    decreases k
  {
    if k > 0 && At(b, x) == At(b, y) {
      CmpTurn(b, x + 1, y + 1, k - 1);
    }
  }

  /** Equal rotations stay equal one character later. */
  lemma CmpShift(b: Block, x: nat, y: nat)
    requires |b| > 0 && Cmp(b, x, y, |b|) == 0
    ensures At(b, x) == At(b, y) && Cmp(b, x + 1, y + 1, |b|) == 0
  {
    var n := |b|;
    CmpSplit(b, x + 1, y + 1, n - 1, 1);
    assert Cmp(b, x + 1, y + 1, n - 1 + 1) == Cmp(b, x + 1 + (n - 1), y + 1 + (n - 1), 1);
  }

  // ---- two sorted listings agree ----

  lemma SortedListingsAgreeOneWay(b: Block, p: seq<nat>, q: seq<nat>, j: nat)
    requires |b| > 0 && IsRotationOrder(b, p) && IsRotationOrder(b, q) && j < |b|
    ensures Cmp(b, p[j], q[j], |b|) >= 0
  {
    var n := |b|;
    if Cmp(b, p[j], q[j], n) < 0 {
      forall a | a in p[..j + 1] ensures a in q[..j] {
        var t :| 0 <= t <= j && p[t] == a;
        if t == j {
          CmpSelf(b, a, n);
        }
        CmpTransitive(b, a, p[j], q[j], n);
        var i := PermutationHits(q, n, a);
        if i >= j {
          if i == j { CmpSelf(b, a, n); }
          CmpFlip(b, q[j], q[i], n);
          assert false;
        }
      }
      DistinctCount(p[..j + 1]);
      DistinctCount(q[..j]);
      SubsetCount(Elements(p[..j + 1]), Elements(q[..j]));
      assert false;
    }
  }

  lemma {:induction false} CmpSelf(b: Block, x: nat, k: nat)
    requires |b| > 0
    ensures Cmp(b, x, x, k) == 0
    decreases k
  {
    if k > 0 { CmpSelf(b, x + 1, k - 1); }
  }

  /** Two rotation orders of one block can differ only by swapping equal rotations. */
  lemma SortedListingsAgree(b: Block, p: seq<nat>, q: seq<nat>, j: nat)
    requires |b| > 0 && IsRotationOrder(b, p) && IsRotationOrder(b, q) && j < |b|
    ensures Cmp(b, p[j], q[j], |b|) == 0
  {
    SortedListingsAgreeOneWay(b, p, q, j);
    SortedListingsAgreeOneWay(b, q, p, j);
    CmpFlip(b, p[j], q[j], |b|);
  }

  // ---- the rows reordered by Follow ----

  /** Row starts moved back one character and taken in Follow order. */
  ghost function Shifted(b: Block, ptr: seq<nat>): (q: seq<nat>)
    requires |b| > 0 && IsPermutation(ptr, |b|)
    ensures |q| == |b|
    ensures forall j :: 0 <= j < |b| ==> q[j] == Prev(|b|, ptr[Follow(LastColumn(b, ptr))[j]])
  {
    var hi := Follow(LastColumn(b, ptr));
    seq(|b|, j requires 0 <= j < |b| => Prev(|b|, ptr[hi[j]]))
  }

  /** Follow lists rows by last character, and rows with the same last character in row order. */
  lemma FollowSorted(last: Block, j: nat, k: nat)
    requires j < k < |last|
    ensures var hi := Follow(last); last[hi[j]] < last[hi[k]] || (last[hi[j]] == last[hi[k]] && hi[j] < hi[k])
  {
    BelowAll(last, 256);
    var hi := Follow(last);
    PlaceAtSorted(last, j, 256);
    PlaceAtSorted(last, k, 256);
    if last[hi[j]] > last[hi[k]] {
      BelowMonotone(last, last[hi[k]] + 1, last[hi[j]]);
    } else if last[hi[j]] == last[hi[k]] && hi[j] >= hi[k] {
      RankMonotone(last, hi[k], hi[j], last[hi[j]]);
    }
  }

  lemma FollowPermutation(last: Block)
    ensures IsPermutation(Follow(last), |last|)
  {
    forall j, k | 0 <= j < k < |last| ensures Follow(last)[j] != Follow(last)[k] {
      FollowSorted(last, j, k);
    }
  }

  lemma ShiftedOrder(b: Block, ptr: seq<nat>)
    requires |b| > 0 && IsRotationOrder(b, ptr)
    ensures IsRotationOrder(b, Shifted(b, ptr))
  {
    var last, q := LastColumn(b, ptr), Shifted(b, ptr);
    FollowPermutation(last);
    forall j, k | 0 <= j < k < |b| ensures q[j] != q[k] {
      var hi := Follow(last);
      assert hi[j] != hi[k];
      assert ptr[hi[j]] != ptr[hi[k]];
    }
    forall j, k | 0 <= j < k < |b| ensures Cmp(b, q[j], q[k], |b|) <= 0 {
      ShiftedPair(b, ptr, j, k);
    }
  }

  lemma ShiftedPair(b: Block, ptr: seq<nat>, j: nat, k: nat)
    requires |b| > 0 && IsRotationOrder(b, ptr) && j < k < |b|
    ensures Cmp(b, Shifted(b, ptr)[j], Shifted(b, ptr)[k], |b|) <= 0
  {
    var n, last, q := |b|, LastColumn(b, ptr), Shifted(b, ptr);
    var hi := Follow(last);
    FollowSorted(last, j, k);
    var x, y := ptr[hi[j]], ptr[hi[k]];
    CmpPrev(b, x, y);
    if last[hi[j]] == last[hi[k]] {
      assert Cmp(b, x, y, n) <= 0;
    }
  }

  /** One character earlier, that character decides first. */
  lemma CmpPrev(b: Block, x: nat, y: nat)
    requires x < |b| && y < |b|
    ensures b[Prev(|b|, x)] < b[Prev(|b|, y)] ==> Cmp(b, Prev(|b|, x), Prev(|b|, y), |b|) < 0
    ensures b[Prev(|b|, x)] == b[Prev(|b|, y)] && Cmp(b, x, y, |b|) <= 0 ==> Cmp(b, Prev(|b|, x), Prev(|b|, y), |b|) <= 0
  {
    var n := |b|;
    CmpSplit(b, x, y, n - 1, 1);
    CmpNext(b, x, y, n - 1);
  }

  /** Stepping back and forward again is a whole turn or nothing. */
  lemma CmpNext(b: Block, x: nat, y: nat, k: nat)
    requires x < |b| && y < |b|
    ensures Cmp(b, Prev(|b|, x) + 1, Prev(|b|, y) + 1, k) == Cmp(b, x, y, k)
  {
    CmpTurn(b, 0, 0, k);
    CmpTurn(b, 0, |b|, k);
    CmpTurn(b, 0, y, k);
    CmpTurn(b, x, 0, k);
  }

  // ---- inversion ----

  /** From a row equal to the rotation at x, the row that follows holds the byte at x
      and equals the rotation at x + 1. */
  lemma FollowReads(b: Block, ptr: seq<nat>, pos: nat, x: nat)
    requires |b| > 0 && IsRotationOrder(b, ptr) && pos < |b|
    requires Cmp(b, ptr[pos], x, |b|) == 0
    ensures var p := Follow(LastColumn(b, ptr))[pos];
            LastColumn(b, ptr)[p] == At(b, x) && Cmp(b, ptr[p], x + 1, |b|) == 0
  {
    hide Cmp;
    var n, q := |b|, Shifted(b, ptr);
    var p := Follow(LastColumn(b, ptr))[pos];
    ShiftedOrder(b, ptr);
    SortedListingsAgree(b, q, ptr, pos);
    CmpTransitive(b, q[pos], ptr[pos], x, n);
    CmpEqual(b, q[pos], ptr[pos], x);
    CmpShift(b, q[pos], x);
    CmpNext(b, ptr[p], 0, n);
    CmpPrevShift(b, ptr[p], x + 1);
  }

  lemma TurnsHead(b: Block, x: nat, k: nat)
    requires |b| > 0 && k > 0
    ensures seq(k, i requires 0 <= i < k => At(b, x + i))
         == [At(b, x)] + seq(k - 1, i requires 0 <= i < k - 1 => At(b, x + 1 + i))
  {
    var whole := seq(k, i requires 0 <= i < k => At(b, x + i));
    var rest := seq(k - 1, i requires 0 <= i < k - 1 => At(b, x + 1 + i));
    forall i | 0 <= i < k - 1 ensures whole[i + 1] == rest[i] {
      assert x + (i + 1) == x + 1 + i;
    }
    assert whole == [At(b, x)] + rest;
  }

  /** From a row equal to the rotation at x, unwinding reads the block from x on,
      however equal rotations were ordered. */
  lemma {:induction false} UnwindReads(b: Block, ptr: seq<nat>, pos: nat, x: nat, k: nat)
    requires |b| > 0 && IsRotationOrder(b, ptr) && pos < |b|
    requires Cmp(b, ptr[pos], x, |b|) == 0
    ensures Unwind(LastColumn(b, ptr), pos, k) == seq(k, i requires 0 <= i < k => At(b, x + i))
    decreases k
  {
    if k > 0 {
      hide IsRotationOrder, Cmp;
      FollowReads(b, ptr, pos, x);
      UnwindReads(b, ptr, Follow(LastColumn(b, ptr))[pos], x + 1, k - 1);
      TurnsHead(b, x, k);
    }
  }

  lemma CmpEqual(b: Block, x: nat, y: nat, z: nat)
    requires |b| > 0 && Cmp(b, x, y, |b|) == 0 && Cmp(b, y, z, |b|) == 0
    ensures Cmp(b, x, z, |b|) == 0
  {
    CmpTransitive(b, x, y, z, |b|);
    CmpFlip(b, x, y, |b|);
    CmpFlip(b, y, z, |b|);
    CmpTransitive(b, z, y, x, |b|);
    CmpFlip(b, x, z, |b|);
  }

  lemma CmpPrevShift(b: Block, x: nat, y: nat)
    requires x < |b| && Cmp(b, Prev(|b|, x) + 1, y, |b|) == 0
    ensures Cmp(b, x, y, |b|) == 0
  {
    CmpTurn(b, 0, y, |b|);
  }

  /** The transform is inverted from the row of the unrotated block. */
  lemma BlockTransformInverts(b: Block, ptr: seq<nat>, orig: nat)
    requires |b| > 0 && IsRotationOrder(b, ptr)
    requires orig < |b| && ptr[orig] == 0
    ensures Unwind(LastColumn(b, ptr), orig, |b|) == b
  {
    CmpSelf(b, 0, |b|);
    UnwindReads(b, ptr, orig, 0, |b|);
    var whole := seq(|b|, i requires 0 <= i < |b| => At(b, 0 + i));
    assert whole == b;
  }
}
