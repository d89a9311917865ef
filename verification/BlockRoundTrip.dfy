/** The bits of a whole block take the decoder to its output state with the block recovered. */
module BlockRoundTrip {
  import opened Bits
  import opened ByteMaps
  import opened HuffmanCodes
  import opened MoveToFront
  import opened Rotations
  import opened Decompressor
  import opened BlockFormat
  import opened Pieces
  import opened HeaderRoundTrip
  import opened MapRoundTrip
  import opened TableRoundTrip
  import opened SymbolRoundTrip

  /** The bytes that sequence numbers stand for. */
  function Unsequence(seqToUnseq: seq<Byte>, s: seq<nat>): (r: seq<Byte>)
    requires AllBelow(s, |seqToUnseq|)
    ensures |r| == |s|
  {
    seq(|s|, i requires 0 <= i < |s| => seqToUnseq[s[i]])
  }

  predicate Grown(d: Decoder, d': Decoder, more: seq<Byte>) {
    d' == d.(grp := d'.grp, run := d'.run, state := d'.state) && d'.run.block == d.run.block + more
  }

  // ---- all symbols of the block ----

  lemma TakeNonRun(d: Decoder, p: nat)
    requires MtfLive(d) && 1 <= p < NInUse(d) && |d.run.block| < NblockMax(d)
    ensures var b := d.maps.seqToUnseq[d.run.mtf[..NInUse(d)][p]];
            var d' := d.(run := d.run.(mtf := MoveFront(d.run.mtf, p), block := d.run.block + [b]));
            MtfLive(d') && d'.run.mtf[..NInUse(d)] == MoveFront(d.run.mtf[..NInUse(d)], p)
            && TakeSymbol(d, p + 1) == StartSymbol(d', 5)
  {
    hide DecodeTables, StartSymbol;
    assert MoveFront(d.run.mtf, p)[..NInUse(d)] == MoveFront(d.run.mtf[..NInUse(d)], p);
  }

  /** The bytes produced by pend pending characters and then s. */
  function Produced(d: Decoder, pend: nat, s: seq<nat>): (r: seq<Byte>)
    requires MtfLive(d) && AllBelow(s, NInUse(d))
    ensures |r| == pend + |s|
  {
    seq(pend, _ => Front(d)) + Unsequence(d.maps.seqToUnseq, s)
  }

  lemma {:induction false} TakeData(d: Decoder, c: Coded, i: nat, k: nat, s: seq<nat>, pend: nat) returns (d': Decoder)
    requires Ready(d, c, i, k) && k != 3
    requires Covers(d.run.mtf[..NInUse(d)], s) && AllBelow(s, NInUse(d))
    requires c.mtfv[i..] == Encode(d.run.mtf[..NInUse(d)], s, pend) + [NInUse(d) + 1]
    requires |d.run.block| + pend + |s| <= NblockMax(d)
    ensures Grown(d, d', Produced(d, pend, s)) && MtfLive(d')
    ensures Leads(StartSymbol(d, k), From(c, i), Finish(d'), [])
    decreases |s|
  {
    hide Leads, StartSymbol, SymbolBits, DecodeTables, TakeSymbol, CodedOk, TablesKnown, RunDigits, Finish;
    var list := d.run.mtf[..NInUse(d)];
    if s == [] {
      var z := |RunDigits(pend)|;
      assert c.mtfv[i..][..z] == c.mtfv[i..i + z];
      d' := TakeRunThenSymbol(d, c, i, k, pend, NInUse(d) + 1);
      assert TakeSymbol(d', NInUse(d) + 1) == Finish(d') by { TakeEnd(d'); }
      assert i + z + 1 == |c.mtfv|;
      assert From(c, |c.mtfv|) == [] by { FromEnd(c); }
      assert Produced(d, pend, s) == seq(pend, _ => Front(d));
    } else if IndexOf(list, s[0]) == 0 {
      d' := TakeData(d, c, i, k, s[1..], pend + 1);
      OutputFront(d, pend, s);
    } else {
      d' := TakeRunAndOne(d, c, i, k, s, pend);
    }
  }

  lemma FromEnd(c: Coded)
    requires CodedOk(c)
    ensures From(c, |c.mtfv|) == []
  {
  }

  lemma TakeEnd(d: Decoder)
    requires MtfLive(d)
    ensures TakeSymbol(d, NInUse(d) + 1) == Finish(d)
  {
  }

  lemma OutputFront(d: Decoder, pend: nat, s: seq<nat>)
    requires MtfLive(d) && AllBelow(s, NInUse(d)) && s != [] && s[0] == d.run.mtf[..NInUse(d)][0]
    ensures Produced(d, pend + 1, s[1..]) == Produced(d, pend, s)
  {
  }

  /** A run, a character off the front of the list, and all the rest. */
  lemma {:induction false} TakeRunAndOne(d: Decoder, c: Coded, i: nat, k: nat, s: seq<nat>, pend: nat) returns (d': Decoder)
    requires Ready(d, c, i, k) && k != 3
    requires Covers(d.run.mtf[..NInUse(d)], s) && AllBelow(s, NInUse(d))
    requires c.mtfv[i..] == Encode(d.run.mtf[..NInUse(d)], s, pend) + [NInUse(d) + 1]
    requires |d.run.block| + pend + |s| <= NblockMax(d)
    requires s != [] && IndexOf(d.run.mtf[..NInUse(d)], s[0]) > 0
    ensures Grown(d, d', Produced(d, pend, s)) && MtfLive(d')
    ensures Leads(StartSymbol(d, k), From(c, i), Finish(d'), [])
    decreases |s|, 0
  {
    hide Leads, StartSymbol, SymbolBits, DecodeTables, TakeSymbol, CodedOk, TablesKnown, RunDigits, Finish, Encode, Produced;
    var list := d.run.mtf[..NInUse(d)];
    var p := IndexOf(list, s[0]);
    var z := |RunDigits(pend)|;
    EncodeSplits(c, i, list, s, pend, NInUse(d) + 1);
    var d1 := TakeRunThenSymbol(d, c, i, k, pend, p + 1);
    TakeNonRun(d1, p);
    var b := d.maps.seqToUnseq[s[0]];
    var d2 := d1.(run := d1.run.(mtf := MoveFront(d1.run.mtf, p), block := d1.run.block + [b]));
    d' := TakeData(d2, c, i + z + 1, 5, s[1..], 0);
    LeadsOn(StartSymbol(d, k), From(c, i), TakeSymbol(d1, p + 1), From(c, i + z + 1), Finish(d'), []);
    OutputJoin(d, d2, pend, s);
  }

  /** The symbols of s start with the pending run and the first rank. */
  lemma EncodeSplits(c: Coded, i: nat, list: seq<nat>, s: seq<nat>, pend: nat, end: nat)
    requires Covers(list, s) && s != [] && IndexOf(list, s[0]) > 0 && i <= |c.mtfv|
    requires c.mtfv[i..] == Encode(list, s, pend) + [end]
    ensures var p := IndexOf(list, s[0]);
            var z := |RunDigits(pend)|;
            DigitsAt(c, i, pend, p + 1) && Covers(MoveFront(list, p), s[1..])
            && c.mtfv[i + z + 1..] == Encode(MoveFront(list, p), s[1..], 0) + [end]
  {
    hide RunDigits, MoveFront, IndexOf, Encode, Covers;
    var p := IndexOf(list, s[0]);
    EncodeStep(list, s, pend);
    var tail := Encode(MoveFront(list, p), s[1..], 0);
    Regroup(RunDigits(pend), p + 1, tail, end);
    SplitAt(c.mtfv, i, RunDigits(pend), p + 1, tail + [end]);
  }

  lemma Regroup(a: seq<nat>, x: nat, b: seq<nat>, y: nat)
    ensures a + [x] + b + [y] == a + ([x] + (b + [y]))
  {
  }

  lemma SplitAt(m: seq<nat>, i: nat, a: seq<nat>, x: nat, b: seq<nat>)
    requires i <= |m| && m[i..] == a + ([x] + b)
    ensures i + |a| < |m| && m[i..i + |a|] == a && m[i + |a|] == x && m[i + |a| + 1..] == b
  {
  }

  lemma OutputJoin(d: Decoder, d2: Decoder, pend: nat, s: seq<nat>)
    requires MtfLive(d) && MtfLive(d2) && d2.maps == d.maps && AllBelow(s, NInUse(d)) && s != []
    ensures Produced(d, pend, s) == seq(pend, _ => Front(d)) + [d.maps.seqToUnseq[s[0]]] + Produced(d2, 0, s[1..])
  {
    hide DecodeTables;
  }

  // ---- the whole block ----

  /** A block ready to be written: its bytes in use, its symbols' coding and the sequence numbers they code. */
  predicate BlockOk(inUse: InUse, p: Plan, s: seq<nat>) {
    var n := |InUseList(inUse, 256)|;
    && true in inUse && 1 <= n <= 256 && AllBelow(s, n)
    && PlanOk(p, n + 2, |Symbols(n, s)|)
  }

  /** The symbols of a block: move-to-front ranks, zero runs, and the end-of-block symbol. */
  function Symbols(n: nat, s: seq<nat>): seq<nat>
    requires AllBelow(s, n)
  {
    AscendingCovers(n, s);
    Encode(Ascending(n), s, 0) + [n + 1]
  }

  lemma SymbolsBelow(n: nat, s: seq<nat>)
    requires AllBelow(s, n) && n >= 1
    ensures AllBelow(Symbols(n, s), n + 2)
  {
    AscendingCovers(n, s);
    var e := Encode(Ascending(n), s, 0);
    forall i | 0 <= i < |e| ensures e[i] < n + 2 {
      EncodeRange(Ascending(n), s, 0, i);
    }
  }

  /** A written block has no more selectors than the decoder's arrays have room for. */
  lemma SelectorsFit(inUse: InUse, p: Plan, s: seq<nat>)
    requires BlockOk(inUse, p, s) && |s| <= 900_000
    ensures |p.selector| <= MAX_SELECTORS
  {
    hide InUseList;
    var n := |InUseList(inUse, 256)|;
    AscendingCovers(n, s);
    EncodeNoLonger(Ascending(n), s, 0);
  }

  /** What compress.c writes for the block after its header. */
  function Body(inUse: InUse, p: Plan, s: seq<nat>): seq<bool>
    requires BlockOk(inUse, p, s)
  {
    var n := |InUseList(inUse, 256)|;
    SymbolsBelow(n, s);
    AscendingCovers(p.nGroups, p.selector);
    BodyBits(inUse, n + 2, p, Symbols(n, s))
  }

  function SelectorBits(p: Plan): seq<bool>
    requires Covers(Ascending(p.nGroups), p.selector)
  {
    BitsOf(p.nGroups, 3) + (BitsOf(|p.selector|, 15) + UnaryBits(SelectorRanks(Ascending(p.nGroups), p.selector)))
  }

  predicate SameBlock(d: Decoder, d': Decoder) {
    d'.hdr == d.hdr && d'.maps == d.maps
  }

  lemma TakeSelectors(d: Decoder, p: Plan) returns (d': Decoder)
    requires Valid(d) && d.state == Selector1 && 2 <= p.nGroups <= 6 && 1 <= |p.selector| < 32768
    requires AllBelow(p.selector, p.nGroups) && Covers(Ascending(p.nGroups), p.selector)
    ensures SameBlock(d, d') && d'.state == Coding1 && Valid(d')
    ensures d'.sel.selector == p.selector && d'.sel.nGroups == p.nGroups && d'.cod.len == []
    ensures Takes(More(d), SelectorBits(p), More(d'))
  {
    hide Takes, BitsOf, UnaryBits, SelectorRanks;
    var ranks := SelectorRanks(Ascending(p.nGroups), p.selector);
    SelectorsUndo(Ascending(p.nGroups), p.selector);
    Pow2Values();
    var d1 := d.(sel := d.sel.(nGroups := p.nGroups), state := Selector2);
    var d2 := d1.(sel := d1.sel.(nSelectors := |p.selector|, j := 0, selectorMtf := []), state := Selector3);
    Step(d, p.nGroups, 3);
    assert Advance(d, p.nGroups) == More(d1);
    Step(d1, |p.selector|, 15);
    assert Advance(d1, |p.selector|) == More(d2);
    hide Advance;
    assert ranks[0..] == ranks;
    TakeRanks(d2, ranks, 0);
    d' := AtCoding(d2, ranks);
    Chain(More(d1), BitsOf(|p.selector|, 15), More(d2), UnaryBits(ranks), More(d'));
    Chain(More(d), BitsOf(p.nGroups, 3), More(d1), BitsOf(|p.selector|, 15) + UnaryBits(ranks), More(d'));
  }

  /** Tables and symbols. */
  lemma TakeCoded(d: Decoder, c: Coded, s: seq<nat>) returns (d': Decoder)
    requires Valid(d) && d.state == Coding1 && d.cod.len == [] && CodedOk(c) && AllBelow(s, NInUse(d))
    requires c.plan.selector == d.sel.selector && c.plan.nGroups == d.sel.nGroups && c.alphaSize == AlphaSize(d)
    requires c.mtfv == Symbols(NInUse(d), s) && |s| <= NblockMax(d)
    ensures SameBlock(d, d') && d'.sel == d.sel && d'.run.block == Unsequence(d.maps.seqToUnseq, s) && SizeKnown(d')
    ensures Takes(More(d), TableBits(c.plan.len) + From(c, 0), Finish(d'))
  {
    hide Takes, Leads, TableBits, SymbolBits, StartSymbol, DecodeTables, Encode, Finish;
    var len := c.plan.len;
    RowsOfPlan(c);
    assert len[0..] == len;
    var curr := TakeTables(d, len, 0);
    var d1 := AtSymbols(d, len, curr);
    var d2 := d1.(grp := Group(-1, 0, 0, 0, 0), run := Runs(-1, 1, Ascending(256), []));
    assert BeginMtf(d1) == StartSymbol(d2, 1);
    var list := Ascending(NInUse(d));
    assert d2.run.mtf[..NInUse(d)] == list;
    AscendingCovers(NInUse(d), s);
    assert c.mtfv[0..] == c.mtfv;
    d' := TakeData(d2, c, 0, 1, s, 0);
    assert Produced(d2, 0, s) == Unsequence(d.maps.seqToUnseq, s);
    LeadsAll(StartSymbol(d2, 1), From(c, 0), Finish(d'));
    Chain(More(d), TableBits(len), StartSymbol(d2, 1), From(c, 0), Finish(d'));
  }

  lemma RowsOfPlan(c: Coded)
    requires CodedOk(c)
    ensures RowsOk(c.plan.len, c.alphaSize)
  {
  }

  /** The decoder is about to output the block whose bytes stand at the places s of the list of bytes in use. */
  predicate HoldsBlock(d: Decoder, hdr: Header, list: seq<Byte>, s: seq<nat>) {
    && d.state == Output && d.hdr == hdr
    && AllBelow(s, |list|) && d.run.block == Unsequence(list, s)
    && hdr.origPtr < |d.run.block| && d.out == FirstOutput(d.run.block, hdr.origPtr)
  }

  /** A block's header and body take the decoder to its output state, holding the block's bytes,
      its origin and its check value: no error return is taken. */
  lemma BlockDecodes(d: Decoder, crc: nat, orig: nat, inUse: InUse, p: Plan, s: seq<nat>) returns (d': Decoder)
    requires SizeKnown(d) && d.state == BlkHdr(1) && crc < 0x1_0000_0000
    requires BlockOk(inUse, p, s) && orig < |s| <= NblockMax(d)
    ensures Takes(More(d), HeaderBits(crc, orig) + Body(inUse, p, s), Return(d', Ok))
    ensures HoldsBlock(d', AtMapping(d, crc, orig).hdr, InUseList(inUse, 256), s)
    ensures d'.sel.nSelectors == |p.selector| <= MAX_SELECTORS
  {
    hide Takes, HeaderBits, Map16Bits, MapBits, TableBits, SymbolBits, UnaryBits, SelectorRanks, BitsOf, InUseList,
         Encode, Unsequence;
    var n := |InUseList(inUse, 256)|;
    SymbolsBelow(n, s);
    SelectorsFit(inUse, p, s);
    AscendingCovers(p.nGroups, p.selector);
    var c := Coded(p, Symbols(n, s), n + 2);
    var d1 := AtMapping(d, crc, orig);
    TakeHeader(d, crc, orig);
    var j := TakeMaps(d1, inUse);
    var d2 := AtSelectors(d1, inUse, j);
    var d3 := TakeSelectors(d2, p);
    var d4 := TakeCoded(d3, c, s);
    d' := Finish(d4).d;
    var maps, coded := Map16Bits(inUse, 0) + MapBits(inUse, 0), TableBits(p.len) + From(c, 0);
    Chain(More(d2), SelectorBits(p), More(d3), coded, Finish(d4));
    Chain(More(d1), maps, More(d2), SelectorBits(p) + coded, Finish(d4));
    Chain(More(d), HeaderBits(crc, orig), More(d1), maps + (SelectorBits(p) + coded), Finish(d4));
    assert Body(inUse, p, s) == maps + (SelectorBits(p) + coded) by {
      BodyGroups(inUse, p, c);
    }
  }

  lemma BodyGroups(inUse: InUse, p: Plan, c: Coded)
    requires CodedOk(c) && c.plan == p && Covers(Ascending(p.nGroups), p.selector)
    ensures BodyBits(inUse, c.alphaSize, p, c.mtfv)
         == Map16Bits(inUse, 0) + MapBits(inUse, 0) + (SelectorBits(p) + (TableBits(p.len) + From(c, 0)))
  {
    hide Map16Bits, MapBits, TableBits, SymbolBits, UnaryBits, SelectorRanks, BitsOf;
    var a, b := Map16Bits(inUse, 0), MapBits(inUse, 0);
    var x, y, z := BitsOf(p.nGroups, 3), BitsOf(|p.selector|, 15),
        UnaryBits(SelectorRanks(Ascending(p.nGroups), p.selector));
    var t := TableBits(p.len) + From(c, 0);
    assert x + (y + (z + t)) == x + (y + z) + t;
    assert a + (b + (x + (y + z) + t)) == a + b + (x + (y + z) + t);
  }
}
