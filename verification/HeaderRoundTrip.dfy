/** The decoder machine on the header of a block. */
module HeaderRoundTrip {
  import opened Bits
  import opened Decompressor
  import opened BlockFormat
  import opened Pieces

  lemma StepBlockMagic(d: Decoder, v: Byte)
    requires Valid(d) && d.state.BlkHdr?
    ensures Takes(More(d), BitsOf(v, 8), AfterBlkHdr(d, d.state.k, v))
  {
    hide Takes, AfterBlkHdr;
    StepByte(d, v);
  }

  lemma {:induction false} TakeBlockMagic(d: Decoder, k: nat)
    requires SizeKnown(d) && d.state == BlkHdr(k) && 1 <= k <= 6
    ensures Takes(More(d), BytesAsBits(BLOCK_MAGIC[k - 1..]),
                  More(d.(hdr := d.hdr.(currBlockNo := d.hdr.currBlockNo + 1, storedBlockCRC := 0), state := BCrc(1))))
    decreases 7 - k
  {
    hide Takes, Advance, AdvanceHeader, BitsOf;
    var bytes := BLOCK_MAGIC[k - 1..];
    var d' := d.(hdr := d.hdr.(currBlockNo := d.hdr.currBlockNo + 1, storedBlockCRC := 0), state := BCrc(1));
    StepBlockMagic(d, bytes[0]);
    if k < 6 {
      var d1 := d.(state := BlkHdr(k + 1));
      assert bytes[1..] == BLOCK_MAGIC[k..];
      TakeBlockMagic(d1, k + 1);
      Chain(More(d), BitsOf(bytes[0], 8), More(d1), BytesAsBits(bytes[1..]), More(d'));
    } else {
      assert BytesAsBits(bytes) == BitsOf(bytes[0], 8) + BytesAsBits([]);
      assert BytesAsBits(bytes) == BitsOf(bytes[0], 8);
    }
  }

  /** A field of whole bytes is read most significant byte first. */
  lemma SplitByte(v: nat, n: nat)
    ensures BitsOf(v, n + 8) == BitsOf(v / 256, n) + BitsOf(v % 256, 8)
    ensures Shl(v / 256, 8) + v % 256 == v
  {
    BitsOfSplit(v, n, 8);
    assert Shr(v, 8) == v / 256 by { EightHalves(v); }
    assert BitsOf(v, 8) == BitsOf(v % 256, 8) by {
      BitsOfLow(v, 8);
      EightHalves(v);
    }
    ShlShr(v, 8);
    EightHalves(v);
  }

  lemma EightHalves(v: nat)
    ensures Shr(v, 8) == v / 256 && Low(v, 8) == v % 256
  {
    ShlShr(v, 8);
    Pow2Values();
    ShlEight(Shr(v, 8));
  }

  lemma FourBytes(v: nat) returns (v1: nat, v2: nat, v3: nat)
    requires v < 0x1_0000_0000
    ensures v1 < 0x100_0000 && v2 < 0x1_0000 && v3 < 0x100
    ensures Shl(0, 8) + v3 == v3 && Shl(v3, 8) + v2 % 256 == v2 && Shl(v2, 8) + v1 % 256 == v1 && Shl(v1, 8) + v % 256 == v
    ensures BitsOf(v2, 16) == BitsOf(v3, 8) + BitsOf(v2 % 256, 8)
    ensures BitsOf(v1, 24) == BitsOf(v2, 16) + BitsOf(v1 % 256, 8)
    ensures BitsOf(v, 32) == BitsOf(v1, 24) + BitsOf(v % 256, 8)
  {
    hide BitsOf, Shl;
    v1 := v / 256;
    v2 := v1 / 256;
    v3 := v2 / 256;
    SplitByte(v, 24);
    SplitByte(v1, 16);
    SplitByte(v2, 8);
    ShlEight(0);
  }

  lemma TakeCrc(d: Decoder, crc: nat)
    requires SizeKnown(d) && d.state == BCrc(1) && d.hdr.storedBlockCRC == 0 && crc < 0x1_0000_0000
    ensures Takes(More(d), BitsOf(crc, 32), More(d.(hdr := d.hdr.(storedBlockCRC := crc), state := RandBit)))
  {
    hide Takes, BitsOf, Shl, Advance, AdvanceHeader;
    var c1, c2, c3 := FourBytes(crc);
    var d1 := d.(hdr := d.hdr.(storedBlockCRC := c3), state := BCrc(2));
    var d2 := d.(hdr := d.hdr.(storedBlockCRC := c2), state := BCrc(3));
    var d3 := d.(hdr := d.hdr.(storedBlockCRC := c1), state := BCrc(4));
    var d4 := d.(hdr := d.hdr.(storedBlockCRC := crc), state := RandBit);
    StepCrc(d, 0, c3);
    StepCrc(d1, c3, c2 % 256);
    StepCrc(d2, c2, c1 % 256);
    StepCrc(d3, c1, crc % 256);
    Chain(More(d), BitsOf(c3, 8), More(d1), BitsOf(c2 % 256, 8), More(d2));
    Chain(More(d), BitsOf(c2, 16), More(d2), BitsOf(c1 % 256, 8), More(d3));
    Chain(More(d), BitsOf(c1, 24), More(d3), BitsOf(crc % 256, 8), More(d4));
  }

  lemma StepCrc(d: Decoder, acc: nat, v: Byte)
    requires SizeKnown(d) && d.state.BCrc? && 1 <= d.state.k <= 4 && d.hdr.storedBlockCRC == acc
    ensures Takes(More(d), BitsOf(v, 8),
                  More(d.(hdr := d.hdr.(storedBlockCRC := Shl(acc, 8) + v), state := if d.state.k < 4
                      then BCrc(d.state.k + 1) else RandBit)))
  {
    hide Takes;
    StepByte(d, v);
  }

  lemma StepOrigPtr(d: Decoder, v: Byte)
    requires Valid(d) && d.state.OrigPtr?
    ensures Takes(More(d), BitsOf(v, 8), AfterOrigPtr(d, d.state.k, v))
  {
    hide Takes, AfterOrigPtr;
    StepByte(d, v);
  }

  lemma TakeOrigPtr(d: Decoder, orig: nat)
    requires SizeKnown(d) && d.state == OrigPtr(1) && d.hdr.origPtr == 0 && orig <= NblockMax(d)
    ensures Takes(More(d), BitsOf(orig, 24),
                  More(d.(hdr := d.hdr.(origPtr := orig), maps := Maps(0, 0, [], d.maps.inUse, d.maps.seqToUnseq),
                      state := Mapping1)))
  {
    hide Takes, BitsOf, Shl, Advance, AdvanceHeader;
    var d3 := d.(hdr := d.hdr.(origPtr := orig), maps := Maps(0, 0, [], d.maps.inUse, d.maps.seqToUnseq), state := Mapping1);
    var o1, o2, o3 := FourBytes(256 * orig);
    var d1 := d.(hdr := d.hdr.(origPtr := o3), state := OrigPtr(2));
    var d2 := d.(hdr := d.hdr.(origPtr := o2), state := OrigPtr(3));
    StepOrigPtr(d, o3);
    StepOrigPtr(d1, o2 % 256);
    StepOrigPtr(d2, o1 % 256);
    assert o1 == orig by { ShlEight(o1); }
    Chain(More(d), BitsOf(o3, 8), More(d1), BitsOf(o2 % 256, 8), More(d2));
    Chain(More(d), BitsOf(o2, 16), More(d2), BitsOf(orig % 256, 8), More(d3));
  }

  /** The decoder at the start of the byte map, having read a block header. */
  function AtMapping(d: Decoder, crc: nat, orig: nat): Decoder {
    d.(hdr := Header(d.hdr.blockSize100k, d.hdr.currBlockNo + 1, crc, false, orig, d.hdr.storedCombinedCRC),
       maps := Maps(0, 0, [], d.maps.inUse, d.maps.seqToUnseq),
       state := Mapping1)
  }

  lemma TakeHeader(d: Decoder, crc: nat, orig: nat)
    requires SizeKnown(d) && d.state == BlkHdr(1) && crc < 0x1_0000_0000 && orig <= NblockMax(d)
    ensures Takes(More(d), HeaderBits(crc, orig), More(AtMapping(d, crc, orig)))
  {
    hide Takes, BitsOf, BytesAsBits;
    var d1 := d.(hdr := d.hdr.(currBlockNo := d.hdr.currBlockNo + 1, storedBlockCRC := 0), state := BCrc(1));
    var d2 := d1.(hdr := d1.hdr.(storedBlockCRC := crc), state := RandBit);
    var d3 := d2.(hdr := d2.hdr.(blockRandomised := false, origPtr := 0), state := OrigPtr(1));
    var d4 := AtMapping(d, crc, orig);
    assert BLOCK_MAGIC[0..] == BLOCK_MAGIC;
    TakeBlockMagic(d, 1);
    TakeCrc(d1, crc);
    StepBit(d2, false);
    TakeOrigPtr(d3, orig);
    Chain(More(d2), [false], More(d3), BitsOf(orig, 24), More(d4));
    Chain(More(d1), BitsOf(crc, 32), More(d2), [false] + BitsOf(orig, 24), More(d4));
    Chain(More(d), BytesAsBits(BLOCK_MAGIC), More(d1), BitsOf(crc, 32) + ([false] + BitsOf(orig, 24)), More(d4));
  }
}
