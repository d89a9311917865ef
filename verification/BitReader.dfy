/** The decoder object: the machine with its 32-bit input buffer, called with whatever input there is. */
module BitReader {
  import opened Bits
  import opened Decompressor

  // ---- the buffer ----

  lemma {:induction false} BytesFromLeft(bytes: seq<Byte>)
    requires bytes != []
    ensures BytesToBits(bytes) == BitsOf(bytes[0], 8) + BytesToBits(bytes[1..])
  {
    assert bytes == [bytes[0]] + bytes[1..];
    BytesToBitsConcat([bytes[0]], bytes[1..]);
    assert [bytes[0]][..0] == [];
    assert BytesToBits([bytes[0]]) == BytesToBits([]) + BitsOf(bytes[0], 8);
  }

  /** Truncation to 32 bits does not show in a field of at most 32. */
  lemma FieldOfWord(v: nat, m: nat)
    requires m <= 32
    ensures BitsOf(Low(v, 32), m) == BitsOf(v, m)
  {
    hide BitsOf, Low;
    BitsOfLow(v, 32);
    BitsOfSplit(v, 32 - m, m);
    BitsOfSplit(Low(v, 32), 32 - m, m);
    assert BitsOf(v, 32)[32 - m..] == BitsOf(v, m);
    assert BitsOf(Low(v, 32), 32)[32 - m..] == BitsOf(Low(v, 32), m);
  }

  lemma ShiftInByte(bsBuff: nat, bsLive: nat, b: Byte)
    requires bsLive <= 24
    ensures BitsOf(Low(Shl(bsBuff, 8) + b, 32), bsLive + 8) == BitsOf(bsBuff, bsLive) + BitsOf(b, 8)
  {
    hide BitsOf, Low, Shl, Shr;
    var w := Shl(bsBuff, 8) + b;
    Pow2Values();
    FieldOfWord(w, bsLive + 8);
    BitsOfSplit(w, bsLive, 8);
    ShrOfSum(bsBuff, b, 8);
    BitsOfLow(w, 8);
  }

  lemma TakeField(bsBuff: nat, bsLive: nat, n: nat)
    requires n <= bsLive
    ensures BitsOf(bsBuff, bsLive)[n..] == BitsOf(bsBuff, bsLive - n)
    ensures ValueOf(BitsOf(bsBuff, bsLive)[..n]) == Low(Shr(bsBuff, bsLive - n), n)
  {
    hide BitsOf, Low, Shr, ValueOf;
    BitsOfSplit(bsBuff, n, bsLive - n);
    assert BitsOf(bsBuff, bsLive)[..n] == BitsOf(Shr(bsBuff, bsLive - n), n);
    ValueOfBitsOf(Shr(bsBuff, bsLive - n), n);
  }

  lemma {:induction false} LowWord(v: nat)
    ensures Low(v, 32) < 0x1_0000_0000
  {
    ShlShr(v, 32);
    Pow2Values();
  }

  // ---- the decoder ----

  class DState {
    /** The fields of the decoder that the machine describes, with the save area. */
    var regs: Decoder
    var bsBuff: nat
    var bsLive: nat
    /** next_in[..avail_in] */
    var input: seq<Byte>

    ghost predicate Ok()
      reads this
    {
      bsLive <= 32 && bsBuff < 0x1_0000_0000 && Decompressor.Valid(regs)
    }

    /** The bits not yet taken: those in the buffer and those not yet fetched. */
    ghost function Ahead(): seq<bool>
      reads this
    {
      BitsOf(bsBuff, bsLive) + BytesToBits(input)
    }

    /** BZ2_bzDecompressInit */
    constructor ()
      ensures Ok() && regs == Start && Ahead() == [] && input == []
    {
      regs, bsBuff, bsLive, input := Start, 0, 0, [];
    }

    /** The caller points next_in at more bytes. */
    method Supply(more: seq<Byte>)
      modifies this
      requires Ok()
      ensures Ok() && regs == old(regs) && Ahead() == old(Ahead()) + BytesToBits(more)
    {
      BytesToBitsConcat(input, more);
      input := input + more;
    }

    /** The fetch loop of GET_BITS: false when the input runs out first. */
    method Fetch(n: nat) returns (enough: bool)
      requires Ok() && n <= 20
      modifies `bsBuff, `bsLive, `input
      ensures Ok() && Ahead() == old(Ahead())
      ensures if enough then bsLive >= n else bsLive < n && input == []
    {
      hide BitsOf, Low, Shl, BytesToBits, Decompressor.Valid;
      while bsLive < n
        invariant Ok() && Ahead() == old(Ahead())
        decreases |input|
      {
        if input == [] { return false; }
        ShiftInByte(bsBuff, bsLive, input[0]);
        BytesFromLeft(input);
        LowWord(Shl(bsBuff, 8) + input[0]);
        ghost var a, b, c := BitsOf(bsBuff, bsLive), BitsOf(input[0], 8), BytesToBits(input[1..]);
        assert (a + b) + c == a + (b + c);
        bsBuff := Low(Shl(bsBuff, 8) + input[0], 32);
        bsLive := bsLive + 8;
        input := input[1..];
      }
      return true;
    }

    /** BZ2_decompress: runs until the input is used up or the machine returns. Wherever the
        calls divide the input, the machine is where one call with all of it would be. */
    method Decompress() returns (code: Status)
      requires Ok() && Waiting(regs)
      modifies this
      ensures Run(More(old(regs)), old(Ahead())) == Blocked(regs, Ahead())
           || Run(More(old(regs)), old(Ahead())) == Stopped(regs, code, Ahead())
      ensures Run(More(old(regs)), old(Ahead())).Blocked? ==> code == Status.Ok && input == [] && Ok() && Waiting(regs)
      ensures bsLive <= 32 && bsBuff < 0x1_0000_0000
    {
      hide BitsOf, Low, Shr, Shl, Advance, BytesToBits, ValueOf, Decompressor.Valid;
      ghost var whole := Run(More(regs), Ahead());
      while true
        invariant Ok() && Waiting(regs) && Run(More(regs), Ahead()) == whole
        decreases |Ahead()|
      {
        var n := Need(regs);
        var enough := Fetch(n);
        if !enough {
          assert BytesToBits([]) == [];
          assert |Ahead()| < n;
          return Status.Ok;
        }
        TakeField(bsBuff, bsLive, n);
        ghost var ahead := Ahead();
        assert ahead[..n] == BitsOf(bsBuff, bsLive)[..n] && ahead[n..] == BitsOf(bsBuff, bsLive)[n..] + BytesToBits(input);
        var v := Low(Shr(bsBuff, bsLive - n), n);
        bsLive := bsLive - n;
        assert Ahead() == ahead[n..];
        var o := Advance(regs, v);
        assert Run(More(regs), ahead) == Run(o, Ahead());
        regs := o.d;
        if o.Return? {
          return o.code;
        }
      }
    }
  }

  // ---- any division of the input ----

  function Flatten(chunks: seq<seq<bool>>): seq<bool> {
    if chunks == [] then [] else chunks[0] + Flatten(chunks[1..])
  }

  /** The machine called once for each chunk, keeping what a call could not use. */
  function RunChunks(o: Outcome, kept: seq<bool>, chunks: seq<seq<bool>>): Result
    requires o.More? ==> Decompressor.Valid(o.d) && Waiting(o.d)
    decreases |chunks|
  {
    match Run(o, kept)
    case Stopped(d, code, rest) => Stopped(d, code, rest + Flatten(chunks))
    case Blocked(d, rest) => if chunks == [] then Blocked(d, rest) else RunChunks(More(d), rest + chunks[0], chunks[1..])
  }

  /** However the input is cut, the calls together end as one call on all of it. */
  lemma {:induction false} AnyDivision(o: Outcome, kept: seq<bool>, chunks: seq<seq<bool>>)
    requires o.More? ==> Decompressor.Valid(o.d) && Waiting(o.d)
    ensures RunChunks(o, kept, chunks) == Run(o, kept + Flatten(chunks))
    decreases |chunks|
  {
    hide Run;
    RunSplit(o, kept, Flatten(chunks));
    match Run(o, kept)
    case Stopped(d, code, rest) =>
    case Blocked(d, rest) =>
      if chunks == [] {
        RunSplit(o, kept, []);
        assert kept + Flatten(chunks) == kept;
      } else {
        AnyDivision(More(d), rest + chunks[0], chunks[1..]);
        assert rest + chunks[0] + Flatten(chunks[1..]) == rest + Flatten(chunks);
      }
  }
}
