/** What the decoder refuses: wrong magic numbers, an origin beyond the block, runs of too many digits. */
module DecoderChecks {
  import opened Bits
  import opened Decompressor
  import opened DecoderReturns

  /** The bits begin with these bytes. */
  predicate Begins(bits: seq<bool>, bytes: seq<nat>)
    decreases |bytes|
  {
    bytes == [] || (|bits| >= 8 && ValueOf(bits[..8]) == bytes[0] && Begins(bits[8..], bytes[1..]))
  }

  lemma BeginsFirst(bits: seq<bool>, bytes: seq<nat>, i: nat)
    requires i < |bytes| && |bits| >= 8
    ensures Begins(bits, bytes[i..]) <==> ValueOf(bits[..8]) == bytes[i] && Begins(bits[8..], bytes[i + 1..])
  {
    hide ValueOf;
    assert bytes[i..][0] == bytes[i] && bytes[i..][1..] == bytes[i + 1..];
  }

  lemma BeginsNothing(bits: seq<bool>, bytes: seq<nat>)
    ensures Begins(bits, bytes[|bytes|..])
  {
  }

  lemma Further(bits: seq<bool>, n: nat)
    requires 8 + n <= |bits|
    ensures bits[8..][n..] == bits[8 + n..]
  {
  }

  /** Behind the letters and the size of blocks */
  function Sized(d: Decoder, level: nat): (r: Decoder)
    requires 0x31 <= level <= 0x39
    ensures Valid(r) && Waiting(r)
  {
    d.(hdr := d.hdr.(blockSize100k := level - 0x30), state := BlkHdr(1))
  }

  /** Behind the magic of a block */
  function InBlock(d: Decoder): (r: Decoder)
    requires SizeKnown(d)
    ensures Valid(r) && Waiting(r)
  {
    d.(hdr := d.hdr.(currBlockNo := d.hdr.currBlockNo + 1, storedBlockCRC := 0), state := BCrc(1))
  }

  /** Behind the magic of the trailer */
  function InTrailer(d: Decoder): (r: Decoder)
    ensures Valid(r) && Waiting(r)
  {
    d.(hdr := d.hdr.(storedCombinedCRC := 0), state := CCrc(1))
  }

  predicate Fails(r: Result, code: Status) {
    r.Stopped? && r.code == code
  }

  lemma MagicByte(d: Decoder, k: nat, bits: seq<bool>)
    requires d.state == Magic(k) && 1 <= k <= 4 && |bits| >= 8
    ensures Valid(d) && Waiting(d)
    ensures var v, r := ValueOf(bits[..8]), Run(More(d), bits);
            if k < 4
            then if v == [0x42, 0x5a, 0x68][k - 1]
                 then Valid(d.(state := Magic(k + 1))) && r == Run(More(d.(state := Magic(k + 1))), bits[8..])
                 else Fails(r, DataErrorMagic)
            else if 0x31 <= v <= 0x39 then r == Run(More(Sized(d, v)), bits[8..]) else Fails(r, DataErrorMagic)
  {
    hide ValueOf, AfterMtf, AfterMapping1, AfterMapping2, AfterCoding2, AfterSelector3;
  }

  lemma BlockByte(d: Decoder, k: nat, bits: seq<bool>)
    requires d.state == BlkHdr(k) && SizeKnown(d) && 1 <= k <= 6 && |bits| >= 8
    ensures Valid(d) && Waiting(d)
    ensures var v, r := ValueOf(bits[..8]), Run(More(d), bits);
            if k == 1 && v == 0x17
            then Valid(d.(state := EndHdr(2))) && r == Run(More(d.(state := EndHdr(2))), bits[8..])
            else if v != [0x31, 0x41, 0x59, 0x26, 0x53, 0x59][k - 1] then Fails(r, DataError)
            else if k < 6 then Valid(d.(state := BlkHdr(k + 1))) && r == Run(More(d.(state := BlkHdr(k + 1))), bits[8..])
            else r == Run(More(InBlock(d)), bits[8..])
  {
    hide ValueOf, AfterMtf, AfterMapping1, AfterMapping2, AfterCoding2, AfterSelector3;
  }

  lemma TrailerByte(d: Decoder, k: nat, bits: seq<bool>)
    requires d.state == EndHdr(k) && 2 <= k <= 6 && |bits| >= 8
    ensures Valid(d) && Waiting(d)
    ensures var v, r := ValueOf(bits[..8]), Run(More(d), bits);
            if v != [0x17, 0x72, 0x45, 0x38, 0x50, 0x90][k - 1] then Fails(r, DataError)
            else if k < 6 then Valid(d.(state := EndHdr(k + 1))) && r == Run(More(d.(state := EndHdr(k + 1))), bits[8..])
            else r == Run(More(InTrailer(d)), bits[8..])
  {
    hide ValueOf, AfterMtf, AfterMapping1, AfterMapping2, AfterCoding2, AfterSelector3;
  }

  lemma {:induction false} StreamLetters(d: Decoder, k: nat, letters: seq<nat>, bits: seq<bool>)
    requires d.state == Magic(k) && 1 <= k <= 4 && |bits| >= 8 * (5 - k) && Valid(d) && Waiting(d)
    requires letters == [0x42, 0x5a, 0x68]
    ensures var level := ValueOf(bits[8 * (4 - k)..8 * (5 - k)]);
            if Begins(bits, letters[k - 1..]) && 0x31 <= level <= 0x39
            then Run(More(d), bits) == Run(More(Sized(d, level)), bits[8 * (5 - k)..])
            else Fails(Run(More(d), bits), DataErrorMagic)
    decreases 4 - k
  {
    hide Run, ValueOf, Begins, Valid, Fails;
    MagicByte(d, k, bits);
    if k < 4 {
      BeginsFirst(bits, letters, k - 1);
      if ValueOf(bits[..8]) == letters[k - 1] {
        StreamLetters(d.(state := Magic(k + 1)), k + 1, letters, bits[8..]);
        assert bits[8..][8 * (3 - k)..8 * (4 - k)] == bits[8 * (4 - k)..8 * (5 - k)];
        Further(bits, 8 * (4 - k));
      }
    } else {
      BeginsNothing(bits, letters);
    }
  }

  /** The answer is that the magic is wrong exactly when the first four bytes are not B, Z, h and a digit from 1 to 9;
      the digit is the size of blocks. */
  lemma StreamMagic(bits: seq<bool>)
    requires |bits| >= 32
    ensures var r, level := Run(More(Start), bits), ValueOf(bits[24..32]);
            var right := Begins(bits, [0x42, 0x5a, 0x68]) && 0x31 <= level <= 0x39;
            && (r.Stopped? && r.code == DataErrorMagic <==> !right)
            && (right ==> r == Run(More(Sized(Start, level)), bits[32..]))
  {
    hide Run, ValueOf, Begins;
    var letters := [0x42, 0x5a, 0x68];
    assert letters[0..] == letters;
    StreamLetters(Start, 1, letters, bits);
    var level := ValueOf(bits[24..32]);
    if Begins(bits, letters) && 0x31 <= level <= 0x39 {
      RunReturns(More(Sized(Start, level)), bits[32..]);
    }
  }

  lemma {:induction false} BlockLetters(d: Decoder, k: nat, letters: seq<nat>, bits: seq<bool>)
    requires d.state == BlkHdr(k) && SizeKnown(d) && 2 <= k <= 6 && |bits| >= 8 * (7 - k) && Valid(d) && Waiting(d)
    requires letters == [0x31, 0x41, 0x59, 0x26, 0x53, 0x59]
    ensures if Begins(bits, letters[k - 1..]) then Run(More(d), bits) == Run(More(InBlock(d)), bits[8 * (7 - k)..])
            else Fails(Run(More(d), bits), DataError)
    decreases 6 - k
  {
    hide Run, ValueOf, Begins, Valid, Fails;
    BlockByte(d, k, bits);
    BeginsFirst(bits, letters, k - 1);
    if ValueOf(bits[..8]) != letters[k - 1] {
    } else if k < 6 {
      BlockLetters(d.(state := BlkHdr(k + 1)), k + 1, letters, bits[8..]);
      Further(bits, 8 * (6 - k));
    } else {
      BeginsNothing(bits[8..], letters);
    }
  }

  lemma {:induction false} TrailerLetters(d: Decoder, k: nat, letters: seq<nat>, bits: seq<bool>)
    requires d.state == EndHdr(k) && 2 <= k <= 6 && |bits| >= 8 * (7 - k) && Valid(d) && Waiting(d)
    requires letters == [0x17, 0x72, 0x45, 0x38, 0x50, 0x90]
    ensures if Begins(bits, letters[k - 1..]) then Run(More(d), bits) == Run(More(InTrailer(d)), bits[8 * (7 - k)..])
            else Fails(Run(More(d), bits), DataError)
    decreases 6 - k
  {
    hide Run, ValueOf, Begins, Valid, Fails;
    TrailerByte(d, k, bits);
    BeginsFirst(bits, letters, k - 1);
    if ValueOf(bits[..8]) != letters[k - 1] {
    } else if k < 6 {
      TrailerLetters(d.(state := EndHdr(k + 1)), k + 1, letters, bits[8..]);
      Further(bits, 8 * (6 - k));
    } else {
      BeginsNothing(bits[8..], letters);
    }
  }

  lemma FromBlock(d: Decoder, bits: seq<bool>)
    requires d.state == BlkHdr(1) && SizeKnown(d) && |bits| >= 48 && ValueOf(bits[..8]) == 0x31
    ensures if Begins(bits, [0x31, 0x41, 0x59, 0x26, 0x53, 0x59]) then Run(More(d), bits) == Run(More(InBlock(d)), bits[48..])
            else Fails(Run(More(d), bits), DataError)
  {
    hide Run, ValueOf, Begins, Valid, Fails;
    var letters := [0x31, 0x41, 0x59, 0x26, 0x53, 0x59];
    assert letters[0..] == letters;
    BlockByte(d, 1, bits);
    BeginsFirst(bits, letters, 0);
    BlockLetters(d.(state := BlkHdr(2)), 2, letters, bits[8..]);
    Further(bits, 40);
  }

  lemma FromTrailer(d: Decoder, bits: seq<bool>)
    requires d.state == BlkHdr(1) && SizeKnown(d) && |bits| >= 48 && ValueOf(bits[..8]) == 0x17
    ensures if Begins(bits, [0x17, 0x72, 0x45, 0x38, 0x50, 0x90]) then Run(More(d), bits) == Run(More(InTrailer(d)), bits[48..])
            else Fails(Run(More(d), bits), DataError)
  {
    hide Run, ValueOf, Begins, Valid, Fails;
    var letters := [0x17, 0x72, 0x45, 0x38, 0x50, 0x90];
    assert letters[0..] == letters;
    BlockByte(d, 1, bits);
    BeginsFirst(bits, letters, 0);
    TrailerLetters(d.(state := EndHdr(2)), 2, letters, bits[8..]);
    Further(bits, 40);
  }

  lemma FirstOf(bits: seq<bool>, bytes: seq<nat>)
    requires bytes != [] && Begins(bits, bytes)
    ensures |bits| >= 8 && ValueOf(bits[..8]) == bytes[0]
  {
  }

  /** Where a block may begin, the magic of a block leads to its check value, that of the trailer to the one of the stream,
      and any other six bytes are an error. */
  lemma BlockOrTrailer(d: Decoder, bits: seq<bool>)
    requires d.state == BlkHdr(1) && SizeKnown(d) && |bits| >= 48
    ensures var r := Run(More(d), bits);
            if Begins(bits, [0x31, 0x41, 0x59, 0x26, 0x53, 0x59]) then r == Run(More(InBlock(d)), bits[48..])
            else if Begins(bits, [0x17, 0x72, 0x45, 0x38, 0x50, 0x90]) then r == Run(More(InTrailer(d)), bits[48..])
            else Fails(r, DataError)
  {
    hide Run, ValueOf, Begins, Valid, Fails, InBlock, InTrailer;
    var v := ValueOf(bits[..8]);
    if Begins(bits, [0x31, 0x41, 0x59, 0x26, 0x53, 0x59]) { FirstOf(bits, [0x31, 0x41, 0x59, 0x26, 0x53, 0x59]); }
    if Begins(bits, [0x17, 0x72, 0x45, 0x38, 0x50, 0x90]) { FirstOf(bits, [0x17, 0x72, 0x45, 0x38, 0x50, 0x90]); }
    if v == 0x17 {
      FromTrailer(d, bits);
    } else if v == 0x31 {
      FromBlock(d, bits);
    } else {
      BlockByte(d, 1, bits);
    }
  }

  // ---- the origin and the length of runs ----

  /** Behind the origin */
  function AtMaps(d: Decoder, p: nat): (r: Decoder)
    requires SizeKnown(d)
    ensures Valid(r) && Waiting(r)
  {
    d.(hdr := d.hdr.(origPtr := p), maps := Maps(0, 0, [], d.maps.inUse, d.maps.seqToUnseq), state := Mapping1)
  }

  /** Behind a byte of the origin, before byte k of it */
  function AtOrigin(d: Decoder, p: nat, k: nat): (r: Decoder)
    requires SizeKnown(d) && 1 <= k <= 3
    ensures Valid(r) && Waiting(r) && SizeKnown(r) && r.state == OrigPtr(k) && r.hdr.origPtr == p
    ensures r.hdr.blockSize100k == d.hdr.blockSize100k
  {
    d.(hdr := d.hdr.(origPtr := p), state := OrigPtr(k))
  }

  lemma ThenMaps(d: Decoder, p: nat, k: nat, q: nat)
    requires SizeKnown(d) && 1 <= k <= 3
    ensures AtMaps(AtOrigin(d, p, k), q) == AtMaps(d, q)
  {
  }

  lemma OriginByte(d: Decoder, k: nat, bits: seq<bool>)
    requires d.state == OrigPtr(k) && SizeKnown(d) && 1 <= k <= 3 && |bits| >= 8
    ensures Valid(d) && Waiting(d)
    ensures var p, r := 256 * d.hdr.origPtr + ValueOf(bits[..8]), Run(More(d), bits);
            if k < 3 then r == Run(More(AtOrigin(d, p, k + 1)), bits[8..])
            else if p > 10 + 100_000 * d.hdr.blockSize100k then Fails(r, DataError)
            else r == Run(More(AtMaps(d, p)), bits[8..])
  {
    hide ValueOf, Shl, AfterMtf, AfterMapping1, AfterMapping2, AfterCoding2, AfterSelector3;
    ShlEight(d.hdr.origPtr);
  }

  lemma ThreeBytes(bits: seq<bool>)
    requires |bits| >= 24
    ensures ValueOf(bits[..24]) ==
            256 * (256 * ValueOf(bits[..8]) + ValueOf(bits[8..][..8])) + ValueOf(bits[8..][8..][..8])
  {
    hide ValueOf, Shl;
    var a, b, c := bits[..8], bits[8..][..8], bits[8..][8..][..8];
    assert bits[..24] == (a + b) + c;
    ValueOfConcat(a, b);
    ValueOfConcat(a + b, c);
    ShlEight(ValueOf(a));
    ShlEight(ValueOf(a + b));
  }

  /** The origin is a number of 24 bits; it is refused if and only if it exceeds the size of a block by more than ten. */
  lemma OriginRead(d: Decoder, bits: seq<bool>)
    requires d.state == OrigPtr(1) && SizeKnown(d) && d.hdr.origPtr == 0 && |bits| >= 24
    ensures Valid(d) && Waiting(d)
    ensures var p, r := ValueOf(bits[..24]), Run(More(d), bits);
            if p > 10 + 100_000 * d.hdr.blockSize100k then Fails(r, DataError) else r == Run(More(AtMaps(d, p)), bits[24..])
  {
    hide Run, ValueOf, Fails, Valid, Waiting, AtOrigin, AtMaps;
    ThreeBytes(bits);
    var p1, p2 := ValueOf(bits[..8]), ValueOf(bits[8..][..8]);
    OriginByte(d, 1, bits);
    var d1 := AtOrigin(d, p1, 2);
    OriginByte(d1, 2, bits[8..]);
    var d2 := AtOrigin(d1, 256 * p1 + p2, 3);
    OriginByte(d2, 3, bits[8..][8..]);
    var p := ValueOf(bits[..24]);
    ThenMaps(d, p1, 2, p);
    ThenMaps(d1, 256 * p1 + p2, 3, p);
    assert bits[8..][8..][8..] == bits[24..];
  }

  /** A run may have 21 digits and no more. */
  lemma RunDigits(d: Decoder, sym: nat, digits: nat)
    requires RunLive(d) && sym <= 1 && d.run.n == Pow2(digits)
    ensures digits >= 21 ==> RunDigit(d, sym) == Return(d, DataError)
    ensures digits < 21 ==>
              RunDigit(d, sym) ==
              StartSymbol(d.(run := d.run.(es := d.run.es + Pow2(digits) * (1 + sym), n := Pow2(digits + 1))), 3)
  {
    hide StartSymbol;
    assert Pow2(16) == 65536 by { Pow2Values(); }
    assert Pow2(21) == 2 * Pow2(20) == 4 * Pow2(19) == 8 * Pow2(18) == 16 * Pow2(17) == 32 * Pow2(16);
    if digits >= 21 { Pow2Monotone(21, digits); } else { Pow2Monotone(digits, 20); }
  }
}
