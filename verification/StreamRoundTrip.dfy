/** What the decompressor makes of a bit stream, and the round trip of whole streams. */
module StreamRoundTrip {
  import opened Bits
  import opened ByteMaps
  import opened Rotations
  import opened Checksums
  import opened RunLength
  import opened Decompressor
  import opened DecoderReturns
  import opened BlockFormat
  import opened Pieces
  import opened HeaderRoundTrip
  import opened BlockRoundTrip
  import opened BlockCompressor
  import opened StreamFormat

  // ---- decoding, block after block ----

  datatype Ending = Starved | Ended(code: Status) | Randomised

  datatype Decoded = Decoded(out: seq<Byte>, end: Ending, rest: seq<bool>)

  /** The block's bytes, read off the last column from the origin; i bytes of it, which go round again after |block|. */
  function Column(d: Decoder, i: nat): seq<Byte>
    requires d.hdr.origPtr < |d.run.block|
  {
    Unwind(d.run.block, d.hdr.origPtr, i)
  }

  /** What the output phase writes for a decoded block. */
  function Emit(d: Decoder): Expansion
    requires d.hdr.origPtr < |d.run.block|
  {
    var n := |d.run.block|;
    Expand(Column(d, n), Column(d, n + 1)[n])
  }

  /** BZ2_bzDecompress with all its input and no limit on output: c is the combined check value so far.
      Randomised blocks are not followed further. */
  function Decode(upd: Update, d: Decoder, c: Word, bits: seq<bool>): Decoded
    requires Valid(d) && Waiting(d)
    decreases |bits|
  {
    RunReturns(More(d), bits);
    match Run(More(d), bits)
    case Blocked(_, rest) => Decoded([], Starved, rest)
    case Stopped(d1, code, rest) =>
      if code == Ok then
        if d1.hdr.blockRandomised then Decoded([], Randomised, rest)
        else
          var e := Emit(d1);
          var crc := Final(Fold(upd, e.out));
          if e.torn || crc != d1.hdr.storedBlockCRC then Decoded(e.out, Ended(DataError), rest)
          else Joined(e.out, Decode(upd, d1.(state := BlkHdr(1)), Combine(c, crc), rest))
      else if code == StreamEnd && c != d1.hdr.storedCombinedCRC then Decoded([], Ended(DataError), rest)
      else Decoded([], Ended(code), rest)
  }

  function Joined(out: seq<Byte>, r: Decoded): Decoded { r.(out := out + r.out) }

  // ---- the pieces of a stream ----

  predicate AtBlock(d: Decoder, k: nat) {
    d.state == BlkHdr(1) && d.hdr.blockSize100k == k && 1 <= k <= 9
  }

  lemma StepMagic(d: Decoder, v: Byte)
    requires Valid(d) && d.state.Magic?
    ensures Takes(More(d), BitsOf(v, 8), AfterMagic(d, d.state.k, v))
  {
    hide Takes, AfterMagic;
    StepByte(d, v);
  }

  lemma FourByteBits(a: Byte, b: Byte, c: Byte, e: Byte)
    ensures BytesAsBits([a, b, c, e]) == BitsOf(a, 8) + (BitsOf(b, 8) + (BitsOf(c, 8) + BitsOf(e, 8)))
  {
    hide BitsOf;
    assert BytesAsBits([e]) == BitsOf(e, 8) + BytesAsBits([]);
    assert [c, e][1..] == [e] && BytesAsBits([c, e]) == BitsOf(c, 8) + BytesAsBits([e]);
    assert [b, c, e][1..] == [c, e] && BytesAsBits([b, c, e]) == BitsOf(b, 8) + BytesAsBits([c, e]);
    assert [a, b, c, e][1..] == [b, c, e];
  }

  lemma TakeStreamHeader(k: nat) returns (d: Decoder)
    requires 1 <= k <= 9
    ensures AtBlock(d, k) && Takes(More(Start), StreamHeader(k), More(d))
  {
    hide Takes, BitsOf;
    var d1, d2, d3 := Start.(state := Magic(2)), Start.(state := Magic(3)), Start.(state := Magic(4));
    d := d3.(hdr := d3.hdr.(blockSize100k := k), state := BlkHdr(1));
    StepMagic(Start, 0x42);
    StepMagic(d1, 0x5a);
    StepMagic(d2, 0x68);
    StepMagic(d3, 0x30 + k);
    FourByteBits(0x42, 0x5a, 0x68, 0x30 + k);
    Chain(More(d2), BitsOf(0x68, 8), More(d3), BitsOf(0x30 + k, 8), More(d));
    Chain(More(d1), BitsOf(0x5a, 8), More(d2), BitsOf(0x68, 8) + BitsOf(0x30 + k, 8), More(d));
    Chain(More(Start), BitsOf(0x42, 8), More(d1), BitsOf(0x5a, 8) + (BitsOf(0x68, 8) + BitsOf(0x30 + k, 8)), More(d));
  }

  lemma StepEndHdr(d: Decoder, v: Byte)
    requires Valid(d) && d.state.EndHdr?
    ensures Takes(More(d), BitsOf(v, 8), AfterEndHdr(d, d.state.k, v))
  {
    hide Takes, AfterEndHdr;
    StepByte(d, v);
  }

  lemma StepCCrc(d: Decoder, v: Byte)
    requires Valid(d) && d.state.CCrc?
    ensures Takes(More(d), BitsOf(v, 8), AfterCCrc(d, d.state.k, v))
  {
    hide Takes, AfterCCrc;
    StepByte(d, v);
  }

  lemma {:induction false} TakeEndMagic(d: Decoder, k: nat)
    requires d.state == EndHdr(k) && 2 <= k <= 6
    ensures Takes(More(d), BytesAsBits(END_MAGIC[k - 1..]),
            More(d.(hdr := d.hdr.(storedCombinedCRC := 0), state := CCrc(1))))
    decreases 7 - k
  {
    hide Takes, BitsOf;
    var bytes := END_MAGIC[k - 1..];
    var d' := d.(hdr := d.hdr.(storedCombinedCRC := 0), state := CCrc(1));
    StepEndHdr(d, bytes[0]);
    if k < 6 {
      var d1 := d.(state := EndHdr(k + 1));
      assert bytes[1..] == END_MAGIC[k..];
      TakeEndMagic(d1, k + 1);
      Chain(More(d), BitsOf(bytes[0], 8), More(d1), BytesAsBits(bytes[1..]), More(d'));
    } else {
      assert BytesAsBits(bytes) == BitsOf(bytes[0], 8) + BytesAsBits([]);
      assert BytesAsBits(bytes) == BitsOf(bytes[0], 8);
    }
  }

  lemma TakeCombined(d: Decoder, w: Word) returns (d': Decoder)
    requires d.state == CCrc(1) && d.hdr.storedCombinedCRC == 0
    ensures d'.hdr.storedCombinedCRC == w && Takes(More(d), BitsOf(w, 32), Return(d', StreamEnd))
  {
    hide Takes, BitsOf, Shl;
    var c1, c2, c3 := FourBytes(w);
    var d1 := d.(hdr := d.hdr.(storedCombinedCRC := c3), state := CCrc(2));
    var d2 := d.(hdr := d.hdr.(storedCombinedCRC := c2), state := CCrc(3));
    var d3 := d.(hdr := d.hdr.(storedCombinedCRC := c1), state := CCrc(4));
    d' := d.(hdr := d.hdr.(storedCombinedCRC := w), state := Idle);
    StepCCrc(d, c3);
    StepCCrc(d1, c2 % 256);
    StepCCrc(d2, c1 % 256);
    StepCCrc(d3, w % 256);
    Chain(More(d), BitsOf(c3, 8), More(d1), BitsOf(c2 % 256, 8), More(d2));
    Chain(More(d), BitsOf(c2, 16), More(d2), BitsOf(c1 % 256, 8), More(d3));
    Chain(More(d), BitsOf(c1, 24), More(d3), BitsOf(w % 256, 8), Return(d', StreamEnd));
  }

  lemma TakeTrailer(d: Decoder, w: Word) returns (d': Decoder)
    requires SizeKnown(d) && d.state == BlkHdr(1)
    ensures d'.hdr.storedCombinedCRC == w && Takes(More(d), Trailer(w), Return(d', StreamEnd))
  {
    hide Takes, BitsOf;
    var d1 := d.(state := EndHdr(2));
    var d2 := d1.(hdr := d1.hdr.(storedCombinedCRC := 0), state := CCrc(1));
    StepBlockMagic(d, 0x17);
    TakeEndMagic(d1, 2);
    d' := TakeCombined(d2, w);
    assert BytesAsBits(END_MAGIC) == BitsOf(0x17, 8) + BytesAsBits(END_MAGIC[1..]);
    Chain(More(d), BitsOf(0x17, 8), More(d1), BytesAsBits(END_MAGIC[1..]), More(d2));
    Chain(More(d), BytesAsBits(END_MAGIC), More(d2), BitsOf(w, 32), Return(d', StreamEnd));
  }

  // ---- one block ----

  /** A written block comes back as its runs, with its check value right, and the next block can follow. */
  lemma TakeBlock(upd: Update, k: nat, d: Decoder, c: Closed) returns (d': Decoder)
    requires AtBlock(d, k) && ClosedOk(upd, k, c)
    ensures Takes(More(d), c.bits, Return(d', Ok)) && d'.state == Output && Valid(d') && d'.hdr.blockSize100k == k
    ensures !d'.hdr.blockRandomised && d'.hdr.storedBlockCRC == BlockCrc(upd, c.runs)
    ensures Emit(d') == Expansion(Unpacked(c.runs), false)
  {
    hide Takes, Body, HeaderBits, BlockOk, BlockCrc, PackAll, Unwind, Unsequence, InUseList, Expand, Unpacked;
    var inUse: InUse, p, s: seq<nat>,
        orig: nat :| CodeWith(c.bits, PackAll(c.runs), BlockCrc(upd, c.runs), inUse, p, s, orig);
    d' := BlockDecodes(d, BlockCrc(upd, c.runs), orig, inUse, p, s);
    FirstOutputSize(d'.run.block, orig);
    ExpandPackAll(c.runs, Column(d', |s| + 1)[|s|]);
  }

  lemma FirstOutputSize(last: Block, orig: nat)
    requires orig < |last|
    ensures |FirstOutput(last, orig).tt| == |last|
  {
  }

  lemma RunTakes(o: Outcome, bits: seq<bool>, o': Outcome, rest: seq<bool>)
    requires Takes(o, bits, o')
    ensures Live(o) && Live(o') && Run(o, bits + rest) == Run(o', rest)
  {
  }

  lemma DecodeBlock(upd: Update, k: nat, d: Decoder, w: Word, c: Closed, tail: seq<bool>) returns (d': Decoder)
    requires AtBlock(d, k) && ClosedOk(upd, k, c)
    ensures AtBlock(d', k)
    ensures Decode(upd, d, w, c.bits + tail) ==
            Joined(Unpacked(c.runs), Decode(upd, d', Combine(w, BlockCrc(upd, c.runs)), tail))
  {
    hide Takes, Emit, Unpacked, Fold, Final, Combine, ClosedOk;
    var d1 := TakeBlock(upd, k, d, c);
    RunTakes(More(d), c.bits, Return(d1, Ok), tail);
    assert Run(Return(d1, Ok), tail) == Stopped(d1, Ok, tail);
    d' := d1.(state := BlkHdr(1));
  }

  // ---- all blocks, and the trailer ----

  lemma {:induction false} DecodeBlocks(upd: Update, k: nat, d: Decoder, w: Word, cs: seq<Closed>, pad: seq<bool>)
    requires AtBlock(d, k) && AllClosedOk(upd, k, cs)
    ensures Decode(upd, d, w, AllBits(cs) + (Trailer(AllCombined(upd, w, cs)) + pad)) ==
            Decoded(AllData(cs), Ended(StreamEnd), pad)
    decreases |cs|
  {
    hide Takes, Decode, Trailer, Unpacked, ClosedOk, BlockCrc, Combine;
    if cs == [] {
      assert AllBits(cs) + (Trailer(w) + pad) == Trailer(w) + pad;
      DecodeTrailer(upd, d, w, pad);
    } else {
      var w' := Combine(w, BlockCrc(upd, cs[0].runs));
      var tail := AllBits(cs[1..]) + (Trailer(AllCombined(upd, w', cs[1..])) + pad);
      assert AllBits(cs) + (Trailer(AllCombined(upd, w, cs)) + pad) == cs[0].bits + tail;
      var d' := DecodeBlock(upd, k, d, w, cs[0], tail);
      DecodeBlocks(upd, k, d', w', cs[1..], pad);
    }
  }

  lemma DecodeTrailer(upd: Update, d: Decoder, w: Word, pad: seq<bool>)
    requires SizeKnown(d) && d.state == BlkHdr(1)
    ensures Decode(upd, d, w, Trailer(w) + pad) == Decoded([], Ended(StreamEnd), pad)
  {
    hide Takes, Trailer, Emit;
    var d' := TakeTrailer(d, w);
    RunTakes(More(d), Trailer(w), Return(d', StreamEnd), pad);
    assert Run(Return(d', StreamEnd), pad) == Stopped(d', StreamEnd, pad);
  }

  /** A finished stream decodes to the bytes its blocks were made of, with every check value right. */
  lemma StreamDecodes(upd: Update, k: nat, cs: seq<Closed>, pad: seq<bool>)
    requires 1 <= k <= 9 && AllClosedOk(upd, k, cs)
    ensures Decode(upd, Start, 0, StreamHeader(k) + AllBits(cs) + Trailer(AllCombined(upd, 0, cs)) + pad)
         == Decoded(AllData(cs), Ended(StreamEnd), pad)
  {
    hide Takes, Trailer, StreamHeader, AllBits, AllCombined, Emit;
    var tail := AllBits(cs) + (Trailer(AllCombined(upd, 0, cs)) + pad);
    assert StreamHeader(k) + AllBits(cs) + Trailer(AllCombined(upd, 0, cs)) + pad == StreamHeader(k) + tail;
    var d := TakeStreamHeader(k);
    RunTakes(More(Start), StreamHeader(k), More(d), tail);
    DecodeBlocks(upd, k, d, 0, cs, pad);
    SameRun(upd, Start, d, 0, StreamHeader(k) + tail, tail);
  }

  /** Decoding depends on the run alone. */
  lemma SameRun(upd: Update, d: Decoder, d': Decoder, w: Word, bits: seq<bool>, bits': seq<bool>)
    requires Valid(d) && Waiting(d) && Valid(d') && Waiting(d') && Run(More(d), bits) == Run(More(d'), bits')
    ensures Decode(upd, d, w, bits) == Decode(upd, d', w, bits')
  {
    hide Run, Emit;
  }
}
