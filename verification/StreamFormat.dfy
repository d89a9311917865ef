/** A whole compressed stream: the stream header, the coded blocks, and the trailer with the combined check value. */
module StreamFormat {
  import opened Bits
  import opened Checksums
  import opened RunLength
  import opened BlockFormat
  import opened BlockCompressor

  /** A block that was written: the runs it holds and the bits that code it. */
  datatype Closed = Closed(runs: seq<Pair>, bits: seq<bool>)

  function StreamHeader(blockSize100k: nat): seq<bool>
    requires 1 <= blockSize100k <= 9
  {
    BytesAsBits([0x42, 0x5a, 0x68, 0x30 + blockSize100k])
  }

  function Trailer(combined: Word): seq<bool> {
    BytesAsBits(END_MAGIC) + BitsOf(combined, 32)
  }

  function AllBits(cs: seq<Closed>): seq<bool> {
    if cs == [] then [] else cs[0].bits + AllBits(cs[1..])
  }

  function AllData(cs: seq<Closed>): seq<Byte> {
    if cs == [] then [] else Unpacked(cs[0].runs) + AllData(cs[1..])
  }

  /** The check value of a block: over the bytes its runs stand for. */
  function BlockCrc(upd: Update, runs: seq<Pair>): Word {
    Final(Fold(upd, Unpacked(runs)))
  }

  /** The combined check value, going on from c. */
  function AllCombined(upd: Update, c: Word, cs: seq<Closed>): Word
    decreases |cs|
  {
    if cs == [] then c else AllCombined(upd, Combine(c, BlockCrc(upd, cs[0].runs)), cs[1..])
  }

  ghost predicate ClosedOk(upd: Update, blockSize100k: nat, c: Closed) {
    && RunsOk(c.runs) && 0 < |PackAll(c.runs)| <= 100_000 * blockSize100k
    && CodeBlock(c.bits, PackAll(c.runs), BlockCrc(upd, c.runs))
  }

  ghost predicate AllClosedOk(upd: Update, blockSize100k: nat, cs: seq<Closed>) {
    forall i :: 0 <= i < |cs| ==> ClosedOk(upd, blockSize100k, cs[i])
  }

  lemma {:induction false} AllBitsAppend(cs: seq<Closed>, c: Closed)
    ensures AllBits(cs + [c]) == AllBits(cs) + c.bits
    decreases |cs|
  {
    if cs == [] {
      assert [] + [c] == [c] && [c][1..] == [];
      assert AllBits([c]) == c.bits + AllBits([]);
    } else {
      assert (cs + [c])[1..] == cs[1..] + [c];
      AllBitsAppend(cs[1..], c);
    }
  }

  lemma {:induction false} AllDataAppend(cs: seq<Closed>, c: Closed)
    ensures AllData(cs + [c]) == AllData(cs) + Unpacked(c.runs)
    decreases |cs|
  {
    hide Unpacked;
    if cs == [] {
      assert [] + [c] == [c] && [c][1..] == [];
      assert AllData([c]) == Unpacked(c.runs) + AllData([]);
    } else {
      assert (cs + [c])[1..] == cs[1..] + [c];
      AllDataAppend(cs[1..], c);
    }
  }

  lemma {:induction false} AllCombinedAppend(upd: Update, w: Word, cs: seq<Closed>, c: Closed)
    ensures AllCombined(upd, w, cs + [c]) == Combine(AllCombined(upd, w, cs), BlockCrc(upd, c.runs))
    decreases |cs|
  {
    hide Combine, BlockCrc;
    if cs == [] {
      assert [] + [c] == [c] && [c][1..] == [];
      var v := Combine(w, BlockCrc(upd, c.runs));
      assert AllCombined(upd, w, [c]) == AllCombined(upd, v, []);
    } else {
      assert (cs + [c])[1..] == cs[1..] + [c];
      AllCombinedAppend(upd, Combine(w, BlockCrc(upd, cs[0].runs)), cs[1..], c);
    }
  }

  // ---- the combined check value, bit by bit ----

  /** Bit i of what the blocks' check values add up to, the last one in place and each earlier one a bit further round */
  function CombinedBit(upd: Update, cs: seq<Closed>, i: nat): bool
    requires i < 32
    decreases |cs|
  {
    if cs == [] then false
    else
      var last := |cs| - 1;
      BitsOf(BlockCrc(upd, cs[last].runs), 32)[i] != CombinedBit(upd, cs[..last], (i + 1) % 32)
  }

  lemma {:induction false} AllCombinedBits(upd: Update, cs: seq<Closed>, i: nat)
    requires i < 32
    ensures BitsOf(AllCombined(upd, 0, cs), 32)[i] == CombinedBit(upd, cs, i)
    decreases |cs|
  {
    hide BitsOf, Combine, BlockCrc;
    if cs == [] {
      ZeroBits(32, i);
    } else {
      var last := |cs| - 1;
      assert cs == cs[..last] + [cs[last]];
      AllCombinedAppend(upd, 0, cs[..last], cs[last]);
      CombineBits(AllCombined(upd, 0, cs[..last]), BlockCrc(upd, cs[last].runs), i);
      AllCombinedBits(upd, cs[..last], (i + 1) % 32);
    }
  }

  lemma {:induction false} ZeroBits(n: nat, i: nat)
    requires i < n
    ensures !BitsOf(0, n)[i]
    decreases n
  {
    if i < n - 1 { ZeroBits(n - 1, i); }
  }

  /** The trailer of a stream of two blocks: after its magic, the first check value turned by one bit with the second
      laid over it. */
  lemma TwoBlockTrailer(upd: Update, x: Closed, y: Closed, i: nat)
    requires i < 32
    ensures var t, first, second := Trailer(AllCombined(upd, 0, [x, y])), BitsOf(BlockCrc(upd, x.runs), 32), BitsOf(BlockCrc(upd, y.runs), 32);
            |t| == 80 && t[48 + i] == (first[(i + 1) % 32] != second[i])
  {
    hide BitsOf, Combine, BlockCrc, AllCombined;
    assert |BytesAsBits(END_MAGIC)| == 48 by { SixBytes(); }
    assert [x, y][..1] == [x] && [x][..0] == [];
    AllCombinedBits(upd, [x, y], i);
    assert CombinedBit(upd, [], ((i + 1) % 32 + 1) % 32) == false;
  }

  lemma SixBytes()
    ensures |BytesAsBits(END_MAGIC)| == 48
  {
    BytesBits(END_MAGIC);
  }

  lemma {:induction false} BytesBits(bytes: seq<Byte>)
    ensures |BytesAsBits(bytes)| == 8 * |bytes|
  {
    if bytes != [] { BytesBits(bytes[1..]); }
  }
}
