/** The second half of sendMTFValues, and BZ2_compressBlock: the coded block goes out as bits. */
module BlockWriter {
  import opened Bits
  import opened ByteMaps
  import opened CountingSort
  import opened HuffmanCodes
  import opened HuffmanTables
  import opened MoveToFront
  import opened BlockFormat
  import opened BitWriter
  import TableChoice

  lemma OneBit(b: bool)
    ensures BitsOf(if b then 1 else 0, 1) == [b]
    ensures Pow2(1) == 2 && Pow2(2) == 4 && Pow2(3) == 8 && Pow2(5) == 32 && Pow2(8) == 256 && Pow2(15) == 32768 &&
            Pow2(24) == 0x1000000
  {
  }

  method WriteBit(bs: BitStream, b: bool)
    requires bs.Valid()
    modifies bs
    ensures bs.Valid() && bs.Written() == old(bs.Written()) + [b]
    ensures old(bs.zbits) <= bs.zbits
  {
    hide BitStream.Written, BitStream.Valid;
    OneBit(b);
    bs.W(1, if b then 1 else 0);
  }

  // ---- the map of bytes in use ----

  lemma Map16Step(inUse: InUse, i: nat)
    requires i <= 16
    ensures Map16Bits(inUse, i) == if i == 16 then [] else [Used16(inUse, i)] + Map16Bits(inUse, i + 1)
  {
  }

  lemma MapStep(inUse: InUse, i: nat)
    requires i <= 16
    ensures MapBits(inUse, i)
         == if i == 16 then [] else (if Used16(inUse, i) then inUse[16 * i..16 * i + 16] else []) + MapBits(inUse, i + 1)
  {
  }

  method WriteMap16(bs: BitStream, inUse: InUse)
    requires bs.Valid()
    modifies bs
    ensures bs.Valid() && bs.Written() == old(bs.Written()) + Map16Bits(inUse, 0)
    ensures old(bs.zbits) <= bs.zbits
  {
    hide BitStream.Written, BitStream.Valid, Used16, Map16Bits;
    ghost var start := bs.Written();
    for i := 0 to 16
      invariant bs.Valid() && bs.Written() + Map16Bits(inUse, i) == start + Map16Bits(inUse, 0)
      invariant old(bs.zbits) <= bs.zbits
    {
      Map16Step(inUse, i);
      var used := AnyOf(inUse, i);
      ghost var before := bs.Written();
      WriteBit(bs, used);
      assert before + ([used] + Map16Bits(inUse, i + 1)) == before + [used] + Map16Bits(inUse, i + 1);
    }
    Map16Step(inUse, 16);
    assert bs.Written() + [] == bs.Written();
  }

  /** inUse16[i] */
  method AnyOf(inUse: InUse, i: nat) returns (any: bool)
    requires i < 16
    ensures any == Used16(inUse, i)
  {
    any := false;
    for j := 0 to 16
      invariant any == (true in inUse[16 * i..16 * i + j])
    {
      assert inUse[16 * i..16 * i + j + 1] == inUse[16 * i..16 * i + j] + [inUse[16 * i + j]];
      if inUse[16 * i + j] { any := true; }
    }
  }

  method WriteSixteen(bs: BitStream, inUse: InUse, i: nat)
    requires bs.Valid() && i < 16
    modifies bs
    ensures bs.Valid() && bs.Written() == old(bs.Written()) + inUse[16 * i..16 * i + 16]
    ensures old(bs.zbits) <= bs.zbits
  {
    hide BitStream.Written, BitStream.Valid;
    ghost var before := bs.Written();
    for j := 0 to 16
      invariant bs.Valid() && bs.Written() == before + inUse[16 * i..16 * i + j]
      invariant old(bs.zbits) <= bs.zbits
    {
      WriteBit(bs, inUse[16 * i + j]);
      assert inUse[16 * i..16 * i + j + 1] == inUse[16 * i..16 * i + j] + [inUse[16 * i + j]];
    }
  }

  method WriteMap(bs: BitStream, inUse: InUse)
    requires bs.Valid()
    modifies bs
    ensures bs.Valid() && bs.Written() == old(bs.Written()) + MapBits(inUse, 0)
    ensures old(bs.zbits) <= bs.zbits
  {
    hide BitStream.Written, BitStream.Valid, Used16, MapBits;
    ghost var start := bs.Written();
    for i := 0 to 16
      invariant bs.Valid() && bs.Written() + MapBits(inUse, i) == start + MapBits(inUse, 0)
      invariant old(bs.zbits) <= bs.zbits
    {
      MapStep(inUse, i);
      var used := AnyOf(inUse, i);
      ghost var before := bs.Written();
      ghost var rest := MapBits(inUse, i + 1);
      if used {
        WriteSixteen(bs, inUse, i);
        assert before + (inUse[16 * i..16 * i + 16] + rest) == before + inUse[16 * i..16 * i + 16] + rest;
      } else {
        assert [] + rest == rest;
      }
    }
    MapStep(inUse, 16);
    assert bs.Written() + [] == bs.Written();
  }

  // ---- selectors ----

  /** One selector's move-to-front rank, by the shifting loop. */
  method SelectorRank(pos: array<nat>, n: nat, ll: nat) returns (j: nat)
    requires n <= pos.Length && ll in pos[..n]
    modifies pos
    ensures j == IndexOf(old(pos[..n]), ll)
    ensures pos[..n] == MoveFront(old(pos[..n]), j)
  {
    ghost var was := pos[..n];
    j := 0;
    var tmp := pos[0];
    while ll != tmp
      invariant j < n && tmp == was[j] && ll !in was[..j]
      invariant forall k :: 1 <= k <= j ==> pos[k] == was[k - 1]
      invariant forall k :: j < k < n ==> pos[k] == was[k]
      decreases n - j
    {
      assert was == was[..j + 1] + was[j + 1..] && was[..j + 1] == was[..j] + [was[j]];
      j := j + 1;
      var tmp2 := tmp;
      tmp := pos[j];
      pos[j] := tmp2;
    }
    pos[0] := tmp;
    FirstIndex(was, ll, j);
    assert pos[..n] == MoveFront(was, j);
  }

  method SelectorMtf(selector: seq<nat>, nGroups: nat) returns (ranks: seq<nat>)
    requires forall i :: 0 <= i < |selector| ==> selector[i] < nGroups
    ensures Covers(Ascending(nGroups), selector) && ranks == SelectorRanks(Ascending(nGroups), selector)
  {
    hide MoveFront, IndexOf, SelectorRanks;
    AscendingCovers(nGroups, selector);
    var pos := new nat[nGroups](i => i);
    assert pos[..nGroups] == Ascending(nGroups);
    ranks := [];
    assert selector[0..] == selector;
    for i := 0 to |selector|
      invariant fresh(pos) && Covers(pos[..nGroups], selector[i..])
      invariant ranks + SelectorRanks(pos[..nGroups], selector[i..]) == SelectorRanks(Ascending(nGroups), selector)
    {
      ghost var list := pos[..nGroups];
      SelectorRanksStep(list, selector[i..]);
      assert selector[i..][0] == selector[i] && selector[i..][1..] == selector[i + 1..];
      var j := SelectorRank(pos, nGroups, selector[i]);
      ranks := ranks + [j];
    }
    SelectorRanksEnd(pos[..nGroups], selector[|selector|..]);
  }

  lemma SelectorRanksStep(pos: seq<nat>, selector: seq<nat>)
    requires Covers(pos, selector) && selector != []
    ensures selector[0] in pos
    ensures var p := IndexOf(pos, selector[0]);
            Covers(MoveFront(pos, p), selector[1..])
            && SelectorRanks(pos, selector) == [p] + SelectorRanks(MoveFront(pos, p), selector[1..])
  {
  }

  lemma SelectorRanksEnd(pos: seq<nat>, selector: seq<nat>)
    requires Covers(pos, selector) && selector == []
    ensures SelectorRanks(pos, selector) == []
  {
  }

  method WriteRanks(bs: BitStream, ranks: seq<nat>)
    requires bs.Valid()
    modifies bs
    ensures bs.Valid() && bs.Written() == old(bs.Written()) + UnaryBits(ranks)
    ensures old(bs.zbits) <= bs.zbits
  {
    hide BitStream.Written, BitStream.Valid;
    ghost var start := bs.Written();
    assert ranks[0..] == ranks;
    for i := 0 to |ranks|
      invariant bs.Valid() && bs.Written() + UnaryBits(ranks[i..]) == start + UnaryBits(ranks)
      invariant old(bs.zbits) <= bs.zbits
    {
      ghost var before := bs.Written();
      ghost var rest := UnaryBits(ranks[i + 1..]);
      assert ranks[i..][0] == ranks[i] && ranks[i..][1..] == ranks[i + 1..];
      for j := 0 to ranks[i]
        invariant bs.Valid() && bs.Written() + Unary(ranks[i] - j) == before + Unary(ranks[i])
        invariant old(bs.zbits) <= bs.zbits
      {
        ghost var w := bs.Written();
        WriteBit(bs, true);
        assert w + ([true] + Unary(ranks[i] - j - 1)) == w + [true] + Unary(ranks[i] - j - 1);
      }
      WriteBit(bs, false);
      assert bs.Written() == before + Unary(ranks[i]);
      assert before + (Unary(ranks[i]) + rest) == before + Unary(ranks[i]) + rest;
    }
    assert ranks[|ranks|..] == [];
    assert bs.Written() + [] == bs.Written();
  }

  // ---- code lengths ----

  lemma DeltaStep(curr: nat, target: nat)
    ensures curr < target ==> DeltaBits(curr, target) == BitsOf(2, 2) + DeltaBits(curr + 1, target)
    ensures curr > target ==> DeltaBits(curr, target) == BitsOf(3, 2) + DeltaBits(curr - 1, target)
    ensures curr == target ==> DeltaBits(curr, target) == [false]
  {
  }

  /** The current length is moved to the target a step at a time. */
  method WriteDelta(bs: BitStream, from: nat, target: nat) returns (curr: nat)
    requires bs.Valid()
    modifies bs
    ensures curr == target && bs.Valid() && bs.Written() == old(bs.Written()) + DeltaBits(from, target)
    ensures old(bs.zbits) <= bs.zbits
  {
    hide BitStream.Written, BitStream.Valid, DeltaBits, BitsOf;
    ghost var whole := bs.Written() + DeltaBits(from, target);
    TwoBits();
    curr := from;
    while curr < target
      invariant bs.Valid() && bs.Written() + DeltaBits(curr, target) == whole
      invariant from <= target ==> curr <= target
      invariant from > target ==> curr == from
      invariant old(bs.zbits) <= bs.zbits
    {
      DeltaStep(curr, target);
      Assoc(bs.Written(), BitsOf(2, 2), DeltaBits(curr + 1, target));
      bs.W(2, 2);
      curr := curr + 1;
    }
    while curr > target
      invariant bs.Valid() && bs.Written() + DeltaBits(curr, target) == whole
      invariant curr >= target
      invariant old(bs.zbits) <= bs.zbits
    {
      DeltaStep(curr, target);
      Assoc(bs.Written(), BitsOf(3, 2), DeltaBits(curr - 1, target));
      bs.W(2, 3);
      curr := curr - 1;
    }
    DeltaStep(curr, target);
    WriteBit(bs, false);
  }

  lemma Assoc(a: seq<bool>, b: seq<bool>, c: seq<bool>)
    ensures a + (b + c) == a + b + c
  {
  }

  lemma TwoBits()
    ensures BitsOf(2, 2) == [true, false] && BitsOf(3, 2) == [true, true] && Pow2(2) == 4
  {
  }

  method WriteRow(bs: BitStream, row: seq<nat>)
    requires bs.Valid() && |row| > 0 && forall v :: 0 <= v < |row| ==> row[v] < 32
    modifies bs
    ensures bs.Valid() && bs.Written() == old(bs.Written()) + (BitsOf(row[0], 5) + RowBits(row[0], row))
    ensures old(bs.zbits) <= bs.zbits
  {
    hide BitStream.Written, BitStream.Valid, BitsOf, DeltaBits;
    ghost var start := bs.Written();
    Pow2Values();
    var curr := row[0];
    bs.W(5, curr);
    ghost var head := bs.Written();
    assert row[0..] == row;
    for i := 0 to |row|
      invariant bs.Valid() && bs.Written() + RowBits(curr, row[i..]) == head + RowBits(row[0], row)
      invariant old(bs.zbits) <= bs.zbits
    {
      ghost var before := bs.Written();
      ghost var delta := DeltaBits(curr, row[i]);
      ghost var rest := RowBits(row[i], row[i + 1..]);
      assert row[i..][0] == row[i] && row[i..][1..] == row[i + 1..];
      curr := WriteDelta(bs, curr, row[i]);
      assert before + (delta + rest) == before + delta + rest;
    }
    assert row[|row|..] == [];
    assert bs.Written() + [] == bs.Written();
    assert start + BitsOf(row[0], 5) + RowBits(row[0], row) == start + (BitsOf(row[0], 5) + RowBits(row[0], row));
  }

  method WriteTables(bs: BitStream, len: seq<seq<nat>>)
    requires bs.Valid() && forall t :: 0 <= t < |len| ==> |len[t]| > 0 && forall v :: 0 <= v < |len[t]| ==> len[t][v] < 32
    modifies bs
    ensures bs.Valid() && bs.Written() == old(bs.Written()) + TableBits(len)
    ensures old(bs.zbits) <= bs.zbits
  {
    hide BitStream.Written, BitStream.Valid, BitsOf, RowBits;
    ghost var start := bs.Written();
    assert len[0..] == len;
    for t := 0 to |len|
      invariant bs.Valid() && bs.Written() + TableBits(len[t..]) == start + TableBits(len)
      invariant old(bs.zbits) <= bs.zbits
    {
      ghost var before := bs.Written();
      ghost var row := BitsOf(len[t][0], 5) + RowBits(len[t][0], len[t]);
      ghost var rest := TableBits(len[t + 1..]);
      assert len[t..][0] == len[t] && len[t..][1..] == len[t + 1..];
      WriteRow(bs, len[t]);
      assert before + (row + rest) == before + row + rest;
    }
    assert len[|len|..] == [];
    assert bs.Written() + [] == bs.Written();
  }

  // ---- symbols ----

  /** All codes, assigned before any is sent. The two asserts are the source's checks 3004 and 3005. */
  method AssignAllCodes(p: Plan, alphaSize: nat, nMTF: nat) returns (code: seq<seq<nat>>)
    requires PlanOk(p, alphaSize, nMTF) && TableChoice.Rows(p.len, p.nGroups, alphaSize) && alphaSize >= 1
    ensures |code| == p.nGroups
    ensures forall t :: 0 <= t < p.nGroups ==> |code[t]| == alphaSize && forall v :: 0 <= v < alphaSize ==>
            code[t][v] == Code(p.len[t], v)
  {
    hide Code, MinLen, MaxLen, Fits;
    code := [];
    for t := 0 to p.nGroups
      invariant |code| == t
      invariant forall u :: 0 <= u < t ==> |code[u]| == alphaSize && forall v :: 0 <= v < alphaSize ==>
                code[u][v] == Code(p.len[u], v)
    {
      assert RowFits(p.len[t], alphaSize);
      var minLen, maxLen := MinLen(p.len[t]), MaxLen(p.len[t]);
      assert maxLen <= 17;
      assert minLen >= 1;
      var row := new int[alphaSize];
      AssignCodes(row, p.len[t], minLen, maxLen);
      code := code + [seq(alphaSize, v requires 0 <= v < alphaSize && row[v] >= 0 reads row => row[v] as nat)];
    }
  }

  /** The codes of all symbols, each with the table of its group. */
  method WriteSymbols(bs: BitStream, p: Plan, alphaSize: nat, mtfv: seq<nat>, code: seq<seq<nat>>)
    requires bs.Valid() && PlanOk(p, alphaSize, |mtfv|) && forall i :: 0 <= i < |mtfv| ==> mtfv[i] < alphaSize
    requires |code| == p.nGroups
    requires forall t :: 0 <= t < p.nGroups ==> |code[t]| == alphaSize && forall v :: 0 <= v < alphaSize ==>
             code[t][v] == Code(p.len[t], v)
    modifies bs
    ensures bs.Valid() && bs.Written() == old(bs.Written()) + SymbolBits(p, mtfv, alphaSize, 0)
    ensures old(bs.zbits) <= bs.zbits
  {
    hide BitStream.Written, BitStream.Valid, BitsOf, Code, Fits;
    ghost var start := bs.Written();
    var gs, selCtr := 0, 0;
    while gs < |mtfv|
      invariant gs <= |mtfv| && (gs < |mtfv| ==> gs == 50 * selCtr) && (gs == |mtfv| ==> selCtr == |p.selector|)
      invariant bs.Valid() && bs.Written() + SymbolBits(p, mtfv, alphaSize, gs) == start + SymbolBits(p, mtfv, alphaSize, 0)
      invariant old(bs.zbits) <= bs.zbits
    {
      var ge := if gs + 50 <= |mtfv| then gs + 50 else |mtfv|;
      WriteGroup(bs, p, alphaSize, mtfv, code, gs, ge);
      gs := ge;
      selCtr := selCtr + 1;
    }
    assert bs.Written() + [] == bs.Written();
  }

  method WriteGroup(bs: BitStream, p: Plan, alphaSize: nat, mtfv: seq<nat>, code: seq<seq<nat>>, gs: nat, ge: nat)
    requires bs.Valid() && PlanOk(p, alphaSize, |mtfv|) && forall i :: 0 <= i < |mtfv| ==> mtfv[i] < alphaSize
    requires |code| == p.nGroups
    requires forall t :: 0 <= t < p.nGroups ==> |code[t]| == alphaSize && forall v :: 0 <= v < alphaSize ==>
             code[t][v] == Code(p.len[t], v)
    requires gs % 50 == 0 && gs <= ge <= |mtfv| && ge <= gs + 50
    modifies bs
    ensures bs.Valid()
    ensures bs.Written() + SymbolBits(p, mtfv, alphaSize, ge) == old(bs.Written()) + SymbolBits(p, mtfv, alphaSize, gs)
    ensures old(bs.zbits) <= bs.zbits
  {
    hide BitStream.Written, BitStream.Valid, BitsOf, Code, Fits;
    ghost var start := bs.Written();
    for i := gs to ge
      invariant bs.Valid() && bs.Written() + SymbolBits(p, mtfv, alphaSize, i) == start + SymbolBits(p, mtfv, alphaSize, gs)
      invariant old(bs.zbits) <= bs.zbits
    {
      var t := p.selector[gs / 50];
      assert i / 50 == gs / 50;
      assert RowFits(p.len[t], alphaSize);
      CodeAboveShorterCodes(p.len[t], mtfv[i], p.len[t][mtfv[i]]);
      ghost var before := bs.Written();
      ghost var word := BitsOf(Code(p.len[t], mtfv[i]), p.len[t][mtfv[i]]);
      ghost var rest := SymbolBits(p, mtfv, alphaSize, i + 1);
      bs.W(p.len[t][mtfv[i]], code[t][mtfv[i]]);
      assert before + (word + rest) == before + word + rest;
    }
  }

  // ---- whole blocks ----

  method WriteBytes(bs: BitStream, bytes: seq<Byte>)
    requires bs.Valid()
    modifies bs
    ensures bs.Valid() && bs.Written() == old(bs.Written()) + BytesAsBits(bytes)
    ensures old(bs.zbits) <= bs.zbits
  {
    hide BitStream.Written, BitStream.Valid, BitsOf;
    ghost var whole := bs.Written() + BytesAsBits(bytes);
    Pow2Values();
    assert bytes[0..] == bytes;
    for i := 0 to |bytes|
      invariant bs.Valid() && bs.Written() + BytesAsBits(bytes[i..]) == whole
      invariant old(bs.zbits) <= bs.zbits
    {
      assert bytes[i..][0] == bytes[i] && bytes[i..][1..] == bytes[i + 1..];
      Assoc(bs.Written(), BitsOf(bytes[i], 8), BytesAsBits(bytes[i + 1..]));
      bs.W(8, bytes[i]);
    }
    assert bytes[|bytes|..] == [];
    assert bs.Written() + [] == bs.Written();
  }

  /** bsPutUInt32: the four bytes of u, the highest first. */
  method WriteUInt32(bs: BitStream, u: nat)
    requires bs.Valid() && u < 0x1_0000_0000
    modifies bs
    ensures bs.Valid() && bs.Written() == old(bs.Written()) + BitsOf(u, 32)
    ensures old(bs.zbits) <= bs.zbits
  {
    hide BitStream.Written, BitStream.Valid, BitsOf, Shr, Low;
    Pow2Values();
    WordSplit(u);
    ghost var w := bs.Written();
    ghost var a, b, c, d := BitsOf(Low(Shr(u, 24), 8), 8), BitsOf(Low(Shr(u, 16), 8), 8), BitsOf(Low(Shr(u, 8), 8), 8),
        BitsOf(Low(u, 8), 8);
    ByteOf(Shr(u, 24));
    ByteOf(Shr(u, 16));
    ByteOf(Shr(u, 8));
    ByteOf(u);
    bs.W(8, Low(Shr(u, 24), 8));
    bs.W(8, Low(Shr(u, 16), 8));
    bs.W(8, Low(Shr(u, 8), 8));
    bs.W(8, Low(u, 8));
    assert w + a + b + c + d == w + (a + b + c + d);
  }

  lemma ByteOf(v: nat)
    ensures Low(v, 8) < Pow2(8)
  {
    ShlShr(v, 8);
  }

  lemma WordSplit(u: nat)
    ensures BitsOf(u, 32) == BitsOf(Low(Shr(u, 24), 8), 8) + BitsOf(Low(Shr(u, 16), 8), 8) +
            BitsOf(Low(Shr(u, 8), 8), 8) + BitsOf(Low(u, 8), 8)
  {
    hide BitsOf, Shr, Low;
    BitsOfSplit(u, 24, 8);
    BitsOfSplit(Shr(u, 8), 16, 8);
    BitsOfSplit(Shr(u, 16), 8, 8);
    ShrTwice(u, 8, 8);
    ShrTwice(u, 16, 8);
    BitsOfLow(u, 8);
    BitsOfLow(Shr(u, 8), 8);
    BitsOfLow(Shr(u, 16), 8);
    BitsOfLow(Shr(u, 24), 8);
  }

  method WriteHeader(bs: BitStream, crc: nat, origPtr: nat)
    requires bs.Valid() && crc < 0x1_0000_0000 && origPtr < 0x100_0000
    modifies bs
    ensures bs.Valid() && bs.Written() == old(bs.Written()) + HeaderBits(crc, origPtr)
    ensures old(bs.zbits) <= bs.zbits
  {
    hide BitStream.Written, BitStream.Valid, BitsOf, BytesAsBits;
    Pow2Values();
    ghost var w := bs.Written();
    WriteBytes(bs, BLOCK_MAGIC);
    WriteUInt32(bs, crc);
    WriteBit(bs, false);
    bs.W(24, origPtr);
    ghost var a, b, c := BytesAsBits(BLOCK_MAGIC), BitsOf(crc, 32), BitsOf(origPtr, 24);
    Assoc(w + a + b, [false], c);
    Assoc(w + a, b, [false] + c);
    Assoc(w, a, b + ([false] + c));
  }

  /** Everything sendMTFValues sends once the plan is made. */
  method WriteBody(bs: BitStream, inUse: InUse, p: Plan, alphaSize: nat, mtfv: seq<nat>)
    requires bs.Valid() && PlanOk(p, alphaSize, |mtfv|) && alphaSize >= 3 && forall i :: 0 <= i < |mtfv| ==>
             mtfv[i] < alphaSize
    requires TableChoice.Rows(p.len, p.nGroups, alphaSize)
    modifies bs
    ensures Covers(Ascending(p.nGroups), p.selector)
    ensures bs.Valid() && bs.Written() == old(bs.Written()) + BodyBits(inUse, alphaSize, p, mtfv)
    ensures old(bs.zbits) <= bs.zbits
  {
    hide BitStream.Written, BitStream.Valid, BitsOf, Map16Bits, MapBits, UnaryBits, SelectorRanks, TableBits,
         SymbolBits, Code, Fits;
    Pow2Values();
    ghost var w := bs.Written();
    var ranks := SelectorMtf(p.selector, p.nGroups);
    var code := AssignAllCodes(p, alphaSize, |mtfv|);
    WriteMap16(bs, inUse);
    WriteMap(bs, inUse);
    bs.W(3, p.nGroups);
    bs.W(15, |p.selector|);
    WriteRanks(bs, ranks);
    LengthsSmall(p, alphaSize, |mtfv|);
    WriteTables(bs, p.len);
    WriteSymbols(bs, p, alphaSize, mtfv, code);
    ghost var a, b, c, d := Map16Bits(inUse, 0), MapBits(inUse, 0), BitsOf(p.nGroups, 3), BitsOf(|p.selector|, 15);
    ghost var e, f, g := UnaryBits(ranks), TableBits(p.len), SymbolBits(p, mtfv, alphaSize, 0);
    Assoc(w + a + b + c + d + e, f, g);
    Assoc(w + a + b + c + d, e, f + g);
    Assoc(w + a + b + c, d, e + (f + g));
    Assoc(w + a + b, c, d + (e + (f + g)));
    Assoc(w + a, b, c + (d + (e + (f + g))));
    Assoc(w, a, b + (c + (d + (e + (f + g)))));
  }

  lemma LengthsSmall(p: Plan, alphaSize: nat, nMTF: nat)
    requires PlanOk(p, alphaSize, nMTF) && alphaSize > 0
    ensures forall t :: 0 <= t < |p.len| ==> |p.len[t]| > 0 && forall v :: 0 <= v < |p.len[t]| ==> p.len[t][v] < 32
  {
  }
}
