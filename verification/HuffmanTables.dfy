/** The loops of huffman.c that hand out codes and build the decoder's tables. */
module HuffmanTables {
  import opened Bits
  import opened CountingSort
  import opened HuffmanCodes

  /** BZ2_hbAssignCodes */
  method AssignCodes(code: array<int>, len: seq<nat>, minLen: nat, maxLen: nat)
    requires |len| > 0 && minLen == MinLen(len) && maxLen == MaxLen(len) && code.Length >= |len|
    modifies code
    ensures forall s :: 0 <= s < |len| ==> code[s] == Code(len, s)
    ensures forall s :: |len| <= s < code.Length ==> code[s] == old(code[s])
  {
    hide First, Rank;
    NoneShorter(len, minLen);
    MinBelowMax(len);
    var vec := 0;
    for n := minLen to maxLen + 1
      invariant vec == First(len, n)
      invariant forall s :: 0 <= s < |len| && len[s] < n ==> code[s] == Code(len, s)
      invariant forall s :: |len| <= s < code.Length ==> code[s] == old(code[s])
    {
      vec := AssignLength(code, len, n);
      vec := 2 * vec;
      FirstNext(len, n);
    }
  }

  lemma MinBelowMax(len: seq<nat>)
    requires |len| > 0
    ensures MinLen(len) <= MaxLen(len)
  {
  }

  lemma FirstNext(len: seq<nat>, n: nat)
    ensures First(len, n + 1) == 2 * (First(len, n) + Count(len, n))
  {
  }

  /** The codes of one length. */
  method AssignLength(code: array<int>, len: seq<nat>, n: nat) returns (vec: nat)
    requires code.Length >= |len|
    modifies code
    ensures vec == First(len, n) + Count(len, n)
    ensures forall s :: 0 <= s < |len| && len[s] == n ==> code[s] == Code(len, s)
    ensures forall s :: 0 <= s < code.Length && (s >= |len| || len[s] != n) ==> code[s] == old(code[s])
  {
    hide First;
    vec := First(len, n);
    for i := 0 to |len|
      invariant vec == First(len, n) + Rank(len, i, n)
      invariant forall s :: 0 <= s < i && len[s] == n ==> code[s] == Code(len, s)
      invariant forall s :: 0 <= s < code.Length && (s >= i || len[s] != n) ==> code[s] == old(code[s])
    {
      if len[i] == n {
        code[i] := vec;
        vec := vec + 1;
      }
    }
  }

  /** The symbols in order of code length. */
  method FillPerm(perm: array<nat>, len: seq<nat>, minLen: nat, maxLen: nat)
    requires |len| > 0 && minLen == MinLen(len) && maxLen == MaxLen(len) && perm.Length >= |len|
    modifies perm
    ensures perm[..|len|] == Sorted(len, maxLen + 1)
  {
    hide Below, Sorted, Rank;
    BelowAll(len, maxLen + 1);
    NoneShorter(len, minLen);
    MinBelowMax(len);
    var pp := 0;
    for i := minLen to maxLen + 1
      invariant pp == Below(len, i) <= perm.Length && perm[..pp] == Sorted(len, i)
    {
      BelowMonotone(len, i + 1, maxLen + 1);
      pp := FillLength(perm, len, i, pp);
    }
  }

  lemma BelowNext(len: seq<nat>, n: nat)
    ensures Below(len, n + 1) == Below(len, n) + Count(len, n)
    ensures Sorted(len, n + 1) == Sorted(len, n) + Indices(len, |len|, n)
  {
  }

  /** The symbols of one length. */
  method FillLength(perm: array<nat>, len: seq<nat>, n: nat, start: nat) returns (pp: nat)
    requires start == Below(len, n) && Below(len, n + 1) <= perm.Length && perm[..start] == Sorted(len, n)
    modifies perm
    ensures pp == Below(len, n + 1) && perm[..pp] == Sorted(len, n + 1)
  {
    hide Below, Sorted;
    BelowNext(len, n);
    pp := start;
    for j := 0 to |len|
      invariant pp == start + Rank(len, j, n) <= perm.Length
      invariant perm[..pp] == Sorted(len, n) + Indices(len, j, n)
    {
      if len[j] == n {
        RankBelowCount(len, j);
        perm[pp] := j;
        pp := pp + 1;
      }
    }
  }

  /** base[l] becomes the number of codes shorter than l. */
  method CountLengths(base: array<int>, len: seq<nat>)
    requires base.Length >= MAX_CODE_LEN && Lengths(len)
    modifies base
    ensures forall l :: 0 <= l < MAX_CODE_LEN ==> base[l] == Below(len, l)
  {
    hide Below, Rank;
    for i := 0 to MAX_CODE_LEN
      invariant forall l :: 0 <= l < i ==> base[l] == 0
    {
      base[i] := 0;
    }
    forall l | 0 <= l < MAX_CODE_LEN ensures NumberAbove(len, 0, l) == 0 { NumberAboveZero(len, l); }
    for i := 0 to |len|
      invariant forall l :: 0 <= l < MAX_CODE_LEN ==> base[l] == NumberAbove(len, i, l)
    {
      forall l | 0 <= l < MAX_CODE_LEN ensures NumberAbove(len, i + 1, l) == NumberAbove(len, i, l) + if l == len[i] + 1
          then 1 else 0 {
        NumberAboveNext(len, i, l);
      }
      base[len[i] + 1] := base[len[i] + 1] + 1;
    }
    hide NumberAbove;
    BelowZero(len);
    for i := 1 to MAX_CODE_LEN
      invariant forall l :: 0 <= l < i ==> base[l] == Below(len, l)
      invariant forall l :: i <= l < MAX_CODE_LEN ==> base[l] == NumberAbove(len, |len|, l)
    {
      BelowByNumber(len, i);
      base[i] := base[i] + base[i - 1];
    }
  }

  /** How many of the first i symbols have length l - 1. */
  function NumberAbove(len: seq<nat>, i: nat, l: nat): nat
    requires i <= |len|
  {
    if l == 0 then 0 else Rank(len, i, l - 1)
  }

  lemma NumberAboveZero(len: seq<nat>, l: nat)
    ensures NumberAbove(len, 0, l) == 0
  {
  }

  lemma NumberAboveNext(len: seq<nat>, i: nat, l: nat)
    requires i < |len|
    ensures NumberAbove(len, i + 1, l) == NumberAbove(len, i, l) + if l == len[i] + 1 then 1 else 0
  {
  }

  lemma BelowZero(len: seq<nat>)
    ensures Below(len, 0) == 0 && NumberAbove(len, |len|, 0) == 0
  {
  }

  lemma BelowByNumber(len: seq<nat>, i: nat)
    requires i >= 1
    ensures Below(len, i) == Below(len, i - 1) + NumberAbove(len, |len|, i)
  {
  }

  /** limit[l] is the last code of length l. */
  method FillLimits(limit: array<int>, base: array<int>, len: seq<nat>, minLen: nat, maxLen: nat)
    requires limit != base && limit.Length >= MAX_CODE_LEN && base.Length >= MAX_CODE_LEN
    requires |len| > 0 && Lengths(len) && minLen == MinLen(len) && maxLen == MaxLen(len)
    requires forall l :: 0 <= l < MAX_CODE_LEN ==> base[l] == Below(len, l)
    modifies limit
    ensures forall l :: 0 <= l < MAX_CODE_LEN ==> limit[l] == Limit(len, l)
  {
    hide Below, First, Rank, MinLen, MaxLen;
    MinBelowMax(len);
    NoneShorter(len, minLen);
    for i := 0 to MAX_CODE_LEN
      invariant forall l :: 0 <= l < i ==> limit[l] == 0
    {
      limit[i] := 0;
    }
    var vec := 0;
    for i := minLen to maxLen + 1
      invariant vec == First(len, i)
      invariant forall l :: 0 <= l < MAX_CODE_LEN ==>
                limit[l] == if minLen <= l < i then First(len, l) + Count(len, l) - 1 else 0
    {
      BelowNext(len, i);
      FirstNext(len, i);
      vec := vec + (base[i + 1] - base[i]);
      limit[i] := vec - 1;
      vec := 2 * vec;
    }
  }

  /** base[l] becomes what to take off a code of length l to find its place in perm. */
  method AdjustBase(limit: array<int>, base: array<int>, len: seq<nat>, minLen: nat, maxLen: nat)
    requires limit != base && limit.Length >= MAX_CODE_LEN && base.Length >= MAX_CODE_LEN
    requires |len| > 0 && Lengths(len) && minLen == MinLen(len) && maxLen == MaxLen(len)
    requires forall l :: 0 <= l < MAX_CODE_LEN ==> base[l] == Below(len, l)
    requires forall l :: 0 <= l < MAX_CODE_LEN ==> limit[l] == Limit(len, l)
    modifies base
    ensures forall l :: 0 <= l < MAX_CODE_LEN ==> base[l] == Base(len, l)
  {
    hide Below, First, Rank, MinLen, MaxLen;
    MinBelowMax(len);
    for i := minLen + 1 to maxLen + 1
      invariant forall l :: 0 <= l < MAX_CODE_LEN ==>
                base[l] == if minLen < l < i then First(len, l) - Below(len, l) else Below(len, l)
    {
      FirstNext(len, i - 1);
      assert limit[i - 1] == First(len, i - 1) + Count(len, i - 1) - 1;
      base[i] := 2 * (limit[i - 1] + 1) - base[i];
    }
    forall l | 0 <= l <= minLen ensures First(len, l) == 0 && Below(len, l) == 0 {
      NoneShorter(len, l);
    }
  }

  /** BZ2_hbCreateDecodeTables: perm holds one entry for each symbol, limit and base one for each length. */
  method CreateDecodeTables(limit: array<int>, base: array<int>, perm: array<nat>, len: seq<nat>, minLen: nat, maxLen: nat)
    requires limit != base && limit.Length == base.Length == perm.Length == MAX_ALPHA_SIZE
    requires 0 < |len| <= MAX_ALPHA_SIZE && Lengths(len) && minLen == MinLen(len) && maxLen == MaxLen(len)
    modifies limit, base, perm
    ensures var t := DecodeTables(len);
            limit[..MAX_CODE_LEN] == t.limit && base[..MAX_CODE_LEN] == t.base && perm[..|len|] == t.perm
  {
    hide MinLen, MaxLen, Limit, Base, Below, Sorted, DecodeTables, Lengths;
    FillPerm(perm, len, minLen, maxLen);
    CountLengths(base, len);
    FillLimits(limit, base, len, minLen, maxLen);
    AdjustBase(limit, base, len, minLen, maxLen);
    SortedTotal(len, maxLen + 1);
    TablesAre(limit[..MAX_CODE_LEN], base[..MAX_CODE_LEN], perm[..|len|], len);
  }

  lemma TablesAre(limit: seq<int>, base: seq<int>, perm: seq<nat>, len: seq<nat>)
    requires |limit| == |base| == MAX_CODE_LEN && perm == Sorted(len, MAX_CODE_LEN)
    requires forall l :: 0 <= l < MAX_CODE_LEN ==> limit[l] == Limit(len, l)
    requires forall l :: 0 <= l < MAX_CODE_LEN ==> base[l] == Base(len, l)
    ensures limit == DecodeTables(len).limit && base == DecodeTables(len).base && perm == DecodeTables(len).perm
  {
    hide Limit, Base, Sorted;
  }

  /** Past the longest code nothing is added. */
  lemma SortedTotal(len: seq<nat>, l: nat)
    requires Lengths(len) && l == MaxLen(len) + 1
    ensures l <= MAX_CODE_LEN && Sorted(len, MAX_CODE_LEN) == Sorted(len, l)
  {
    hide Below, Sorted;
    BelowAll(len, l);
    BelowAll(len, MAX_CODE_LEN);
    SortedPrefix(len, l, MAX_CODE_LEN);
  }
}
