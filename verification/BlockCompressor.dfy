/** BZ2_blockSort and BZ2_compressBlock: from a block to the bits that code it. */
module BlockCompressor {
  import opened Bits
  import opened ByteMaps
  import opened CountingSort
  import opened MoveToFront
  import opened Permutations
  import opened Rotations
  import opened RotationSort
  import opened MtfEncoder
  import opened TableChoice
  import opened Decompressor
  import opened BlockFormat
  import opened BitWriter
  import opened BlockWriter
  import opened BlockRoundTrip

  /** The bits are a block's header and body for some rotation order and some coding plan: with the bytes
      in use and the plan they determine the sequence numbers s of a last column, and that column, unwound
      from its origin, is the block. */
  ghost predicate CodeBlock(bits: seq<bool>, block: seq<Byte>, crc: nat) {
    exists inUse: InUse, p: Plan, s: seq<nat>, orig: nat :: CodeWith(bits, block, crc, inUse, p, s, orig)
  }

  ghost predicate CodeWith(bits: seq<bool>, block: seq<Byte>, crc: nat, inUse: InUse, p: Plan, s: seq<nat>, orig: nat) {
    && BlockOk(inUse, p, s) && orig < |s| == |block| && crc < 0x1_0000_0000
    && bits == HeaderBits(crc, orig) + Body(inUse, p, s)
    && Unwind(Unsequence(InUseList(inUse, 256), s), orig, |s|) == block
  }

  /** The bytes that occur in the block are marked, and no others. */
  predicate Marked(inUse: seq<bool>, block: seq<Byte>) {
    && |inUse| == 256 && (forall i :: 0 <= i < |block| ==> inUse[block[i]])
    && forall b: Byte :: inUse[b] ==> b in block
  }

  /** The bits code the block with a map of exactly its bytes, and with the tables chosen for its symbols. */
  ghost predicate CodedWell(bits: seq<bool>, block: seq<Byte>, crc: nat) {
    exists inUse: InUse, p: Plan, s: seq<nat>, orig: nat ::
      CodeWith(bits, block, crc, inUse, p, s, orig) && Marked(inUse, block) && ChosenFor(p, inUse, s)
  }

  ghost predicate ChosenFor(p: Plan, inUse: InUse, s: seq<nat>) {
    var n := |InUseList(inUse, 256)|;
    AllBelow(s, n) && Chosen(p, Symbols(n, s), n + 2)
  }

  /** BZ2_blockSort, sorting by fallbackSort: the assertion is the source's check 1003. */
  method BlockSort(block: seq<Byte>) returns (ptr: array<nat>, origPtr: nat)
    requires 0 < |block| <= 900_000
    ensures fresh(ptr) && ptr.Length == |block| && IsRotationOrder(block, ptr[..])
    ensures origPtr < |block| && ptr[origPtr] == 0
  {
    hide *;
    var nblock := |block|;
    ptr := new nat[nblock];
    var arr2 := new nat[nblock];
    var bytes := new nat[nblock](i requires 0 <= i < nblock => block[i]);
    var bhtab := new bool[32 * (nblock / 32 + 3)];
    assert bytes[..] == block;
    FallbackSort(ptr, arr2, bytes, bhtab, nblock, block);
    origPtr := FindOrigin(ptr, block);
  }

  method FindOrigin(ptr: array<nat>, ghost block: seq<Byte>) returns (origPtr: nat)
    requires |block| > 0 && IsRotationOrder(block, ptr[..])
    ensures origPtr < |block| == ptr.Length && ptr[origPtr] == 0
  {
    hide Cmp;
    var found: int := -1;
    ghost var at := PermutationHits(ptr[..], |block|, 0);
    for i := 0 to ptr.Length
      invariant found == -1 && forall j :: 0 <= j < i ==> ptr[j] != 0
    {
      if ptr[i] == 0 {
        found := i;
        break;
      }
    }
    assert found != -1;
    origPtr := found;
  }

  /** The words of ptr seen as the 16-bit halves that mtfv shares with them. */
  method AsHalves(ptr: array<nat>) returns (mem: array<nat>)
    requires forall i :: 0 <= i < ptr.Length ==> ptr[i] < 0x1_0000_0000
    ensures fresh(mem) && mem.Length == 2 * ptr.Length
    ensures forall i :: 0 <= i < ptr.Length ==> ptr[i] == PtrAt(mem[..], i)
  {
    mem := new nat[2 * ptr.Length];
    for i := 0 to ptr.Length
      invariant forall k :: 0 <= k < i ==> mem[2 * k] == ptr[k] % 65536 && mem[2 * k + 1] == ptr[k] / 65536
    {
      mem[2 * i], mem[2 * i + 1] := ptr[i] % 65536, ptr[i] / 65536;
    }
    forall i | 0 <= i < ptr.Length ensures ptr[i] == PtrAt(mem[..], i) {
      assert mem[..][2 * i] == ptr[i] % 65536 && mem[..][2 * i + 1] == ptr[i] / 65536;
    }
  }

  /** unseqToSeq numbers the bytes in use. */
  ghost predicate Numbers(unseqToSeq: seq<nat>, inUse: seq<bool>) {
    && |inUse| == 256 == |unseqToSeq|
    && forall b: nat :: b < 256 && inUse[b] ==> Numbered(unseqToSeq, inUse, b)
  }

  predicate Numbered(unseqToSeq: seq<nat>, inUse: seq<bool>, b: nat)
    requires |inUse| == 256 == |unseqToSeq| && b < 256
  {
    unseqToSeq[b] < |InUseList(inUse, 256)| && InUseList(inUse, 256)[unseqToSeq[b]] == b
  }

  /** The sequence numbers of the last column stand for the last column. */
  lemma RankedStandsFor(block: seq<Byte>, ptr: seq<nat>, unseqToSeq: seq<nat>, inUse: InUse)
    requires |ptr| == |block| && forall i :: 0 <= i < |ptr| ==> ptr[i] < |block|
    requires Marked(inUse, block) && Numbers(unseqToSeq, inUse)
    ensures AllBelow(Ranked(block, ptr, unseqToSeq), |InUseList(inUse, 256)|)
    ensures Unsequence(InUseList(inUse, 256), Ranked(block, ptr, unseqToSeq)) == LastColumn(block, ptr)
  {
  }

  /** The bits written are a code of the block. */
  lemma CodedBlock(block: seq<Byte>, ptr: seq<nat>, orig: nat, unseqToSeq: seq<nat>, inUse: InUse, p: Plan, crc: nat,
                   bits: seq<bool>)
    requires |block| > 0 && IsRotationOrder(block, ptr) && orig < |block| && ptr[orig] == 0 && crc < 0x1_0000_0000
    requires Marked(inUse, block) && Numbers(unseqToSeq, inUse)
    requires BlockOk(inUse, p, Ranked(block, ptr, unseqToSeq))
    requires bits == HeaderBits(crc, orig) + Body(inUse, p, Ranked(block, ptr, unseqToSeq))
    requires ChosenFor(p, inUse, Ranked(block, ptr, unseqToSeq))
    ensures CodeBlock(bits, block, crc) && CodedWell(bits, block, crc)
  {
    hide Cmp, InUseList, Unwind, HeaderBits, Body, BlockOk, Unsequence, ChosenFor;
    var s := Ranked(block, ptr, unseqToSeq);
    RankedStandsFor(block, ptr, unseqToSeq, inUse);
    BlockTransformInverts(block, ptr, orig);
    assert CodeWith(bits, block, crc, inUse, p, s, orig);
  }

  lemma EndCounted(e: seq<nat>, n: nat)
    ensures Count(e + [n + 1], n + 1) > 0
  {
  }

  /** generateMTFValues and the choice of tables: the symbols of the column and a plan for them. */
  method PlanBlock(block: seq<Byte>, inUse: InUse, ptr: array<nat>, unseqToSeq: array<nat>, nInUse: nat)
    returns (p: Plan, mtfv: seq<nat>)
    requires 0 < |block| <= 900_000 && ptr.Length == |block| && forall i :: 0 <= i < ptr.Length ==> ptr[i] < |block|
    requires Marked(inUse, block) && unseqToSeq.Length == 256 && Numbers(unseqToSeq[..], inUse)
    requires nInUse == |InUseList(inUse, 256)| >= 1
    ensures AllBelow(Ranked(block, ptr[..], unseqToSeq[..]), nInUse)
    ensures mtfv == Symbols(nInUse, Ranked(block, ptr[..], unseqToSeq[..]))
    ensures PlanOk(p, nInUse + 2, |mtfv|) && AllBelow(mtfv, nInUse + 2) && Rows(p.len, p.nGroups, nInUse + 2)
    ensures ChosenFor(p, inUse, Ranked(block, ptr[..], unseqToSeq[..]))
  {
    hide Count, InUseList, Encode, PlanOk, Numbers, Unsequence, Chosen;
    ghost var s := Ranked(block, ptr[..], unseqToSeq[..]);
    RankedStandsFor(block, ptr[..], unseqToSeq[..], inUse);
    BytesNumbered(block, unseqToSeq[..], inUse);
    var mem := AsHalves(ptr);
    var mtfFreq := new nat[nInUse + 2];
    var nMTF := GenerateMtfValues(mem, mtfFreq, block, unseqToSeq[..], nInUse, ptr[..]);
    mtfv := mem[..nMTF];
    SymbolsBelow(nInUse, s);
    assert mtfv == Symbols(nInUse, s);
    AscendingCovers(nInUse, s);
    EndCounted(Encode(Ascending(nInUse), s, 0), nInUse);
    p := ChooseTables(mtfv, mtfFreq[..]);
  }

  lemma BytesNumbered(block: seq<Byte>, unseqToSeq: seq<nat>, inUse: InUse)
    requires Marked(inUse, block) && Numbers(unseqToSeq, inUse)
    ensures forall i :: 0 <= i < |block| ==> unseqToSeq[block[i]] < |InUseList(inUse, 256)| <= 256
    ensures |block| > 0 ==> |InUseList(inUse, 256)| >= 1 && true in inUse
  {
    hide InUseList;
    forall i | 0 <= i < |block| ensures unseqToSeq[block[i]] < |InUseList(inUse, 256)| {
      assert inUse[block[i]];
      assert Numbered(unseqToSeq, inUse, block[i]);
    }
    if |block| > 0 { assert inUse[block[0]]; }
  }

  /** makeMaps_e */
  method NumberBytes(inUse: InUse) returns (unseqToSeq: array<nat>, nInUse: nat)
    ensures fresh(unseqToSeq) && unseqToSeq.Length == 256 && Numbers(unseqToSeq[..], inUse) &&
            nInUse == |InUseList(inUse, 256)|
  {
    hide InUseList;
    unseqToSeq := new nat[256];
    nInUse := MakeMapsE(inUse, unseqToSeq);
    forall b: nat | b < 256 && inUse[b] ensures Numbered(unseqToSeq[..], inUse, b) {
      assert unseqToSeq[..][b] == unseqToSeq[b];
    }
  }

  /** What BZ2_compressBlock does for a block that is not empty: sort it, and write its header,
      its maps, selectors, tables and symbols. */
  method EncodeBlock(bs: BitStream, block: seq<Byte>, inUse: InUse, crc: nat) returns (ghost bits: seq<bool>)
    requires bs.Valid() && 0 < |block| <= 900_000 && Marked(inUse, block) && crc < 0x1_0000_0000
    modifies bs
    ensures bs.Valid() && bs.Written() == old(bs.Written()) + bits && old(bs.zbits) <= bs.zbits
    ensures CodeBlock(bits, block, crc) && CodedWell(bits, block, crc)
  {
    hide *;
    var ptr, origPtr := BlockSort(block);
    var unseqToSeq, nInUse := NumberBytes(inUse);
    BytesNumbered(block, unseqToSeq[..], inUse);
    OrderFacts(block, ptr[..]);
    ghost var w := bs.Written();
    WriteHeader(bs, crc, origPtr);
    var p, mtfv := PlanBlock(block, inUse, ptr, unseqToSeq, nInUse);
    BelowEach(mtfv, nInUse + 2);
    WriteBody(bs, inUse, p, nInUse + 2, mtfv);
    ghost var s := Ranked(block, ptr[..], unseqToSeq[..]);
    BlockReady(inUse, p, s);
    bits := HeaderBits(crc, origPtr) + Body(inUse, p, s);
    Assoc(w, HeaderBits(crc, origPtr), Body(inUse, p, s));
    CodedBlock(block, ptr[..], origPtr, unseqToSeq[..], inUse, p, crc, bits);
  }

  lemma BelowEach(s: seq<nat>, n: nat)
    requires AllBelow(s, n)
    ensures forall i :: 0 <= i < |s| ==> s[i] < n
  {
  }

  lemma OrderFacts(block: Block, ptr: seq<nat>)
    requires IsRotationOrder(block, ptr)
    ensures |ptr| == |block| && forall i :: 0 <= i < |ptr| ==> ptr[i] < |block|
  {
  }

  lemma BlockReady(inUse: InUse, p: Plan, s: seq<nat>)
    requires var n := |InUseList(inUse, 256)|; true in inUse && 1 <= n && AllBelow(s, n) && PlanOk(p, n + 2, |Symbols(n, s)|)
    ensures BlockOk(inUse, p, s) && Covers(Ascending(p.nGroups), p.selector)
    ensures AllBelow(Symbols(|InUseList(inUse, 256)|, s), |InUseList(inUse, 256)| + 2)
    ensures Body(inUse, p, s) == BodyBits(inUse, |InUseList(inUse, 256)| + 2, p, Symbols(|InUseList(inUse, 256)|, s))
  {
    hide InUseList, Symbols, BodyBits;
    AscendingCovers(p.nGroups, p.selector);
    SymbolsBelow(|InUseList(inUse, 256)|, s);
  }
}
