/** Canonical prefix codes: the code assigned to each symbol, and the limit/base/perm
    tables with which the decoder recognises it. */
module HuffmanCodes {
  import opened Bits
  import opened CountingSort

  const MAX_ALPHA_SIZE := 258
  const MAX_CODE_LEN := 23

  /** A code-length table as the decoder accepts it. */
  predicate Lengths(len: seq<nat>) {
    forall i :: 0 <= i < |len| ==> 1 <= len[i] <= 20
  }

  /** The numerically first code of length l. */
  function First(len: seq<nat>, l: nat): nat {
    if l == 0 then 0 else 2 * (First(len, l - 1) + Count(len, l - 1))
  }

  /** The code of symbol s: codes of one length are handed out in symbol order. */
  function Code(len: seq<nat>, s: nat): nat
    requires s < |len|
  {
    First(len, len[s]) + Rank(len, s, len[s])
  }

  /** Sum of 2^(depth - length) over the symbols. */
  function KraftSum(len: seq<nat>, depth: nat): nat
    requires forall i :: 0 <= i < |len| ==> len[i] <= depth
  {
    if len == [] then 0 else KraftSum(len[..|len| - 1], depth) + Pow2(depth - len[|len| - 1])
  }

  /** The codes of length l fit in l bits. */
  predicate FitsAt(len: seq<nat>, l: nat) {
    First(len, l) + Count(len, l) <= Pow2(l)
  }

  /** The Kraft inequality at every depth. */
  predicate Fits(len: seq<nat>) {
    forall l: nat :: l <= 20 ==> FitsAt(len, l)
  }

  /** What the decoder keeps for one code table. */
  datatype Tables = Tables(limit: seq<int>, base: seq<int>, perm: seq<nat>, minLen: nat, maxLen: nat)

  function MinLen(len: seq<nat>): (m: nat)
    ensures forall i :: 0 <= i < |len| ==> m <= len[i]
    ensures m <= 32
    ensures |len| > 0 ==> m == 32 || exists i :: 0 <= i < |len| && len[i] == m
  {
    if len == [] then 32
    else
      var m := MinLen(len[..|len| - 1]);
      if len[|len| - 1] < m then len[|len| - 1] else m
  }

  function MaxLen(len: seq<nat>): (m: nat)
    ensures forall i :: 0 <= i < |len| ==> len[i] <= m
    ensures m == 0 || exists i :: 0 <= i < |len| && len[i] == m
  {
    if len == [] then 0
    else
      var m := MaxLen(len[..|len| - 1]);
      if len[|len| - 1] > m then len[|len| - 1] else m
  }

  function Limit(len: seq<nat>, l: nat): int {
    if MinLen(len) <= l <= MaxLen(len) then First(len, l) + Count(len, l) - 1 else 0
  }

  function Base(len: seq<nat>, l: nat): int {
    if l <= MaxLen(len) then First(len, l) - Below(len, l) else Below(len, l)
  }

  function DecodeTables(len: seq<nat>): (t: Tables)
    ensures |t.limit| == MAX_CODE_LEN && |t.base| == MAX_CODE_LEN
    ensures forall i :: 0 <= i < |t.perm| ==> t.perm[i] < |len|
  {
    Tables(seq(MAX_CODE_LEN, (l: nat) => Limit(len, l)),
           seq(MAX_CODE_LEN, (l: nat) => Base(len, l)),
           Sorted(len, MAX_CODE_LEN),
           MinLen(len), MaxLen(len))
  }

  lemma {:induction false} NoneShorter(len: seq<nat>, l: nat)
    requires l <= MinLen(len)
    ensures First(len, l) == 0 && Below(len, l) == 0
  {
    if l > 0 {
      NoneShorter(len, l - 1);
      NoneOf(len, |len|, l - 1);
    }
  }

  // ---- Kraft ----

  /** One more symbol of length x adds 2^(l-x) to the codes used up at every l > x. */
  lemma {:induction false} FirstAppend(len: seq<nat>, x: nat, l: nat)
    ensures First(len + [x], l) == First(len, l) + if x < l then Pow2(l - x) else 0
    ensures Count(len + [x], l) == Count(len, l) + if x == l then 1 else 0
  {
    CountAppend(len, x, l);
    if l > 0 {
      FirstAppend(len, x, l - 1);
    }
  }

  /** The Kraft sum, reached by counting lengths instead of symbols. */
  lemma {:induction false} KraftByLength(len: seq<nat>, depth: nat)
    requires forall i :: 0 <= i < |len| ==> len[i] <= depth
    ensures KraftSum(len, depth) == First(len, depth) + Count(len, depth)
  {
    if len == [] {
      EmptyFirst(depth);
    } else {
      var k := |len| - 1;
      KraftByLength(len[..k], depth);
      FirstAppend(len[..k], len[k], depth);
      assert len == len[..k] + [len[k]];
    }
  }

  lemma {:induction false} EmptyFirst(l: nat)
    ensures First([], l) == 0
  {
    if l > 0 { EmptyFirst(l - 1); }
  }

  /** Codes that end at length l block 2^(m-l) codes of every longer length m. */
  lemma {:induction false} FirstGrows(len: seq<nat>, l: nat, m: nat)
    requires l < m
    ensures First(len, m) >= Shl(First(len, l) + Count(len, l), m - l)
  {
    if l + 1 < m {
      FirstGrows(len, l, m - 1);
    } else {
      var v := First(len, l) + Count(len, l);
      assert Shl(v, 1) == 2 * Shl(v, 0);
    }
  }

  lemma KraftImpliesFits(len: seq<nat>, depth: nat)
    requires depth <= 20
    requires forall i :: 0 <= i < |len| ==> len[i] <= depth
    requires KraftSum(len, depth) <= Pow2(depth)
    ensures Fits(len)
  {
    KraftByLength(len, depth);
    forall l: nat | l <= 20 ensures FitsAt(len, l) {
      if l < depth {
        FitsBelow(len, l, depth);
      } else {
        NothingLonger(len, depth, l);
      }
    }
  }

  lemma FitsBelow(len: seq<nat>, l: nat, m: nat)
    requires l < m && FitsAt(len, m)
    ensures FitsAt(len, l)
  {
    var v := First(len, l) + Count(len, l);
    FirstGrows(len, l, m);
    ShlTwice(1, l, m - l);
    if v > Pow2(l) {
      ShlMonotone(Pow2(l) + 1, v, m - l);
      ShlAdd(Pow2(l), 1, m - l);
      Pow2Positive(m - l);
    }
  }

  lemma {:induction false} NothingLonger(len: seq<nat>, depth: nat, l: nat)
    requires depth <= l
    requires forall i :: 0 <= i < |len| ==> len[i] <= depth
    requires FitsAt(len, depth)
    ensures FitsAt(len, l)
  {
    if depth < l {
      NothingLonger(len, depth, l - 1);
      NoneOf(len, |len|, l);
    }
  }

  // ---- prefix-freeness ----

  /** Each code fits in its length, and every proper prefix of it lies above all codes of that shorter length. */
  lemma CodeAboveShorterCodes(len: seq<nat>, s: nat, l: nat)
    requires s < |len| && len[s] <= 20 && Fits(len) && l <= len[s]
    ensures Code(len, s) < Pow2(len[s])
    ensures l < len[s] ==> Shr(Code(len, s), len[s] - l) >= First(len, l) + Count(len, l)
  {
    hide First, Shl, Shr, Rank;
    RankBelowCount(len, s);
    assert FitsAt(len, len[s]);
    if l < len[s] {
      FirstGrows(len, l, len[s]);
      ShrAtLeast(Code(len, s), len[s] - l, First(len, l) + Count(len, l));
    }
  }

  lemma CodesDiffer(len: seq<nat>, a: nat, b: nat)
    requires a < |len| && b < |len| && a != b && len[a] == len[b]
    ensures Code(len, a) != Code(len, b)
  {
    if a < b { RankMonotone(len, a + 1, b, len[a]); } else { RankMonotone(len, b + 1, a, len[a]); }
  }

  /** No code is a prefix of the code of another symbol. */
  lemma PrefixFree(len: seq<nat>, a: nat, b: nat)
    requires a < |len| && b < |len| && a != b
    requires Lengths(len) && Fits(len) && len[a] <= len[b]
    ensures BitsOf(Code(len, b), len[b])[..len[a]] != BitsOf(Code(len, a), len[a])
  {
    hide First, Shl, Shr, Rank, BitsOf, ValueOf;
    var m, n := len[a], len[b] - len[a];
    CodeAboveShorterCodes(len, a, m);
    CodeAboveShorterCodes(len, b, m);
    RankBelowCount(len, a);
    var q := Shr(Code(len, b), n);
    assert q != Code(len, a) by {
      if n == 0 {
        ShrZero(Code(len, b));
        CodesDiffer(len, a, b);
      }
    }
    assert q < Pow2(m) by {
      ShrAtLeast(Code(len, b), n, Pow2(m));
      ShlTwice(1, m, n);
    }
    BitsOfSplit(Code(len, b), m, n);
    ValueOfBitsOf(Code(len, a), m);
    LowSmall(Code(len, a), m);
    ValueOfBitsOf(q, m);
    LowSmall(q, m);
  }

  // ---- decoding one code word ----

  /** Whatever bits have been read: if they pass the limit test, the slot of perm that they lead to is below the first
      or holds a symbol. No table of lengths leads to a slot that no code fills, complete or not. */
  lemma SlotFilled(len: seq<nat>, l: nat, v: nat)
    requires |len| > 0 && Lengths(len) && 1 <= l <= 20
    requires v <= DecodeTables(len).limit[l]
    ensures v - DecodeTables(len).base[l] < |DecodeTables(len).perm| == |len|
  {
    hide Below, First, Rank, Sorted, MinLen, MaxLen;
    BelowAll(len, MAX_CODE_LEN);
    if l < MinLen(len) {
      NoneShorter(len, l);
    } else if l <= MaxLen(len) {
      assert Below(len, l + 1) == Below(len, l) + Count(len, l) by { BelowNext(len, l); }
      BelowMonotone(len, l + 1, MAX_CODE_LEN);
    } else {
      BelowAll(len, l);
    }
  }

  lemma BelowNext(len: seq<nat>, l: nat)
    ensures Below(len, l + 1) == Below(len, l) + Count(len, l)
  {
  }

  /** The decoder's walk over a code word: after each proper prefix of at least minLen bits it asks
      for another bit, and after the whole word it stops, inside the table, at the symbol. */
  lemma WalkStopsAtSymbol(len: seq<nat>, s: nat, zn: nat)
    requires s < |len| <= MAX_ALPHA_SIZE && Lengths(len) && Fits(len)
    requires MinLen(len) <= zn <= len[s]
    ensures var t := DecodeTables(len);
            var prefix := Shr(Code(len, s), len[s] - zn);
            |t.perm| <= MAX_ALPHA_SIZE &&
            if zn < len[s] then prefix > t.limit[zn]
            else prefix <= t.limit[zn] && 0 <= prefix - t.base[zn] < |t.perm| && t.perm[prefix - t.base[zn]] == s
  {
    hide Shr, Sorted, First, Below, Fits;
    BelowAll(len, MAX_CODE_LEN);
    if zn < len[s] {
      CodeAboveShorterCodes(len, s, zn);
    } else {
      RankBelowCount(len, s);
      SortedAtPlace(len, s, MAX_CODE_LEN);
      assert Shr(Code(len, s), 0) == Code(len, s) by { ShrZero(Code(len, s)); }
    }
  }

  lemma ShrZero(v: nat)
    ensures Shr(v, 0) == v
  {
  }
}
