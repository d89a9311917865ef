/** The decompressing side of bzlib.c: BZ2_bzDecompress, with any division of input and output. */
module Decompression {
  import opened Bits
  import opened Checksums
  import opened Rotations
  import opened RunLength
  import opened Decompressor
  import opened DecoderReturns
  import opened BitReader
  import opened InverseTransform
  import opened OutputRuns
  import opened StreamRoundTrip

  // ---- one block's output ----

  /** delta has been written; what is left is what the registers say. */
  ghost predicate Sent(last: seq<Byte>, orig: nat, left0: Expansion, delta: seq<Byte>, c: Cursor) {
    orig < |last| && c.used >= 1 && left0 == Prepend(delta, Left(last, orig, c))
  }

  lemma SentStart(last: seq<Byte>, orig: nat, c: Cursor)
    requires orig < |last| && c.used >= 1
    ensures Sent(last, orig, Left(last, orig, c), [], c)
  {
  }

  lemma SentOne(last: seq<Byte>, orig: nat, left0: Expansion, delta: seq<Byte>, c: Cursor)
    requires Sent(last, orig, left0, delta, c) && c.len > 0
    ensures Sent(last, orig, left0, delta + [c.ch], c.(len := c.len - 1))
  {
  }

  lemma SentRun(last: seq<Byte>, orig: nat, left0: Expansion, delta: seq<Byte>, c0: Cursor, c: Cursor)
    requires Sent(last, orig, left0, delta, c0) && c0.len == 0 && Advanced(last, orig, c0, c)
    ensures Sent(last, orig, left0, delta, c)
  {
    hide TailFrom;
    var e := TailFrom(last, orig, c0.used);
    assert Repeat(c0.ch, 0) + e.out == e.out;
  }

  lemma SentEnd(last: seq<Byte>, orig: nat, left0: Expansion, delta: seq<Byte>, c: Cursor)
    requires Sent(last, orig, left0, delta, c) && c.len == 0 && c.used >= |last| + 1
    ensures left0 == Expansion(delta, c.used > |last| + 1)
    ensures Left(last, orig, c) == Expansion([], c.used > |last| + 1)
  {
  }

  /** The loops' registers with the check value and the bytes written by this call. */
  class Writer {
    const upd: Update
    const src: Source
    var cur: Cursor
    var crc: Word
    var delta: seq<Byte>
    var availOut: nat
    ghost const left0: Expansion
    ghost const before: seq<Byte>

    ghost predicate Valid()
      reads this, src, src.tt, src.ll16, src.ll4, src.cftab
    {
      Stands(src, cur) && Sent(src.last, src.orig, left0, delta, cur) && crc == Fold(upd, before + delta)
    }

    /** The registers fetched at the start of a call. */
    constructor (upd: Update, src: Source, cur: Cursor, crc: Word, availOut: nat, ghost before: seq<Byte>)
      requires Stands(src, cur) && crc == Fold(upd, before)
      ensures Valid() && this.upd == upd && this.src == src && this.cur == cur && this.availOut == availOut && delta == []
      ensures this.before == before && left0 == Left(src.last, src.orig, cur)
    {
      this.upd, this.src, this.cur, this.crc, this.availOut := upd, src, cur, crc, availOut;
      delta := [];
      this.before := before;
      left0 := Left(src.last, src.orig, cur);
      new;
      SentStart(src.last, src.orig, cur);
      assert before + [] == before;
    }

    /** Writes one byte of the run. */
    method Put()
      requires Valid() && availOut > 0 && cur.len > 0
      modifies this
      ensures Valid() && availOut == old(availOut) - 1 && |delta| == |old(delta)| + 1 &&
              cur == old(cur).(len := old(cur).len - 1)
    {
      hide Fold, Sent, Source.Ready, Good, Source.Position, Row;
      SentOne(src.last, src.orig, left0, delta, cur);
      FoldNext(upd, before + delta, cur.ch);
      assert before + (delta + [cur.ch]) == before + delta + [cur.ch];
      crc := upd(crc, cur.ch);
      delta := delta + [cur.ch];
      availOut := availOut - 1;
      GoodLess(src.last, src.orig, cur);
      cur := cur.(len := cur.len - 1);
    }

    /** Writes the run in hand as far as there is room. */
    method FinishRun() returns (room: bool)
      requires Valid()
      modifies this
      ensures Valid() && |delta| + availOut == old(|delta| + availOut) && cur == old(cur).(len := cur.len)
      ensures room <==> cur.len == 0
      ensures !room ==> availOut == 0
    {
      hide Writer.Valid;
      while cur.len > 0
        invariant Valid() && |delta| + availOut == old(|delta| + availOut) && cur == old(cur).(len := cur.len)
        decreases cur.len
      {
        if availOut == 0 { return false; }
        Put();
      }
      room := true;
    }

    /** Starts the next run. */
    method NextRun(fast: bool, n: nat)
      requires Valid() && cur.len == 0 && cur.used <= n == |src.last|
      modifies `cur
      ensures Valid() && old(cur).used < cur.used <= n + 2
    {
      hide Fold, Sent, Source.Ready, Source.Position, Row, Left, TailFrom, ByteAt;
      ghost var c0 := cur;
      if fast { cur := NextRunFast(src, cur); } else { cur := NextRunSmall(src, cur); }
      SentRun(src.last, src.orig, left0, delta, c0, cur);
      AdvancedGood(src.last, src.orig, c0, cur);
    }

    lemma Size()
      requires Valid()
      ensures src.Ready() && 1 <= cur.used <= |src.last| + 2
    {
    }

    /** unRLE_obuf_to_output_FAST: true when the data is found corrupt. */
    method RunFast() returns (corrupt: bool)
      requires Valid() && delta == []
      modifies this
      ensures Valid() && |delta| + availOut == old(availOut)
      ensures corrupt <==> cur.used > |src.last| + 1 && cur.len == 0
      ensures !corrupt ==> availOut == 0 || (cur.used == |src.last| + 1 && cur.len == 0)
    {
      hide Writer.Valid;
      Size();
      var n := src.Size();
      while true
        invariant Valid() && |delta| + availOut == old(availOut) && n == |src.last|
        decreases n + 2 - cur.used
      {
        var room := FinishRun();
        if !room { return false; }
        if cur.used > n + 1 { return true; }
        if cur.used == n + 1 { return false; }
        NextRun(true, n);
      }
    }

    /** unRLE_obuf_to_output_SMALL: room for output is asked for before anything else. */
    method RunSmall() returns (corrupt: bool)
      requires Valid() && delta == []
      modifies this
      ensures Valid() && |delta| + availOut == old(availOut)
      ensures corrupt <==> cur.used > |src.last| + 1 && cur.len == 0 && availOut > 0
      ensures !corrupt ==> availOut == 0 || (cur.used == |src.last| + 1 && cur.len == 0)
    {
      hide Writer.Valid;
      Size();
      var n := src.Size();
      while true
        invariant Valid() && |delta| + availOut == old(availOut) && n == |src.last|
        decreases n + 2 - cur.used
      {
        var room := FinishRun();
        if !room || availOut == 0 { return false; }
        if cur.used == n + 1 { return false; }
        if cur.used > n + 1 { return true; }
        NextRun(false, n);
      }
    }
  }

  lemma GoodLess(last: seq<Byte>, orig: nat, c: Cursor)
    requires Good(last, orig, c) && c.len > 0
    ensures Good(last, orig, c.(len := c.len - 1))
  {
  }

  // ---- a session of calls ----

  /** The block of d is being written: done so far, left still to come. */
  function Finishing(upd: Update, d: Decoder, c: Word, done: seq<Byte>, left: Expansion, bits: seq<bool>): Decoded
    requires SizeKnown(d)
  {
    var crc := Final(Fold(upd, done + left.out));
    if left.torn || crc != d.hdr.storedBlockCRC then Decoded(left.out, Ended(DataError), bits)
    else Joined(left.out, Decode(upd, d.(state := BlkHdr(1)), Combine(c, crc), bits))
  }

  /** One call on all input, with no limit on output. */
  function Whole(upd: Update, bits: seq<bool>): Decoded {
    Decode(upd, Start, 0, bits)
  }

  predicate Resumable(d: Decoder) {
    Decompressor.Valid(d) && (Waiting(d) || (d.state == Output && !d.hdr.blockRandomised))
  }

  /** What is still to come of the output, given the bits still to come. */
  function Future(upd: Update, d: Decoder, c: Word, done: seq<Byte>, left: Expansion, bits: seq<bool>): Decoded
    requires Resumable(d)
  {
    if d.state == Output then Finishing(upd, d, c, done, left, bits) else Decode(upd, d, c, bits)
  }

  /** Whatever input follows, the output so far and the future output are what one call on all input gives. */
  ghost predicate Session(upd: Update, fed: seq<bool>, output: seq<Byte>, d: Decoder, c: Word, done: seq<Byte>,
                          left: Expansion, ahead: seq<bool>)
  {
    Resumable(d) && forall more :: Whole(upd, fed + more) == Joined(output, Future(upd, d, c, done, left, ahead + more))
  }

  /** Whatever input follows, one call on all input ends so, having written the output so far. */
  ghost predicate Closing(upd: Update, fed: seq<bool>, output: seq<Byte>, end: Ending, ahead: seq<bool>) {
    forall more :: Whole(upd, fed + more) == Decoded(output, end, ahead + more)
  }

  /** Whatever input follows, one call on all input finds bad data, and the output so far is the beginning of what it
      writes. */
  ghost predicate Broken(upd: Update, fed: seq<bool>, output: seq<Byte>) {
    forall more :: Whole(upd, fed + more).end == Ended(DataError) && output <= Whole(upd, fed + more).out
  }

  /** BZ2_decompress, given the bits in hand, asks for more. */
  predicate Starving(d: Decoder, ahead: seq<bool>) {
    Decompressor.Valid(d) && Waiting(d) && Run(More(d), ahead).Blocked?
  }

  lemma SessionStart(upd: Update)
    ensures Session(upd, [], [], Start, 0, [], Expansion([], false), [])
  {
    hide Decode;
  }

  lemma SessionFed(upd: Update, fed: seq<bool>, output: seq<Byte>, d: Decoder, c: Word, done: seq<Byte>,
                   left: Expansion, ahead: seq<bool>, bits: seq<bool>)
    requires Session(upd, fed, output, d, c, done, left, ahead)
    ensures Session(upd, fed + bits, output, d, c, done, left, ahead + bits)
  {
    hide Decode, Future, Resumable, Whole;
    forall more ensures Whole(upd, fed + bits + more) == Joined(output, Future(upd, d, c, done, left, ahead + bits + more)) {
      assert fed + bits + more == fed + (bits + more) && ahead + bits + more == ahead + (bits + more);
    }
  }

  lemma SessionWrote(upd: Update, fed: seq<bool>, output: seq<Byte>, d: Decoder, c: Word, done: seq<Byte>,
                     left: Expansion, ahead: seq<bool>,
                     delta: seq<Byte>, left': Expansion)
    requires Session(upd, fed, output, d, c, done, left, ahead) && d.state == Output && left == Prepend(delta, left')
    ensures Session(upd, fed, output + delta, d, c, done + delta, left', ahead)
  {
    hide Decode, Fold, Whole;
    forall more ensures Whole(upd, fed + more) ==
        Joined(output + delta, Future(upd, d, c, done + delta, left', ahead + more)) {
      assert done + delta + left'.out == done + left.out;
      JoinedTwice(output, delta, left'.out);
      assert Whole(upd, fed + more) == Joined(output, Finishing(upd, d, c, done, left, ahead + more));
      FinishingJoined(upd, d, c, done, left, delta, left', ahead + more);
    }
  }

  lemma JoinedTwice(a: seq<Byte>, b: seq<Byte>, c: seq<Byte>)
    ensures a + (b + c) == a + b + c
  {
  }

  lemma FinishingJoined(upd: Update, d: Decoder, c: Word, done: seq<Byte>, left: Expansion, delta: seq<Byte>,
                        left': Expansion, bits: seq<bool>)
    requires SizeKnown(d) && left == Prepend(delta, left')
    ensures Finishing(upd, d, c, done, left, bits) == Joined(delta, Finishing(upd, d, c, done + delta, left', bits))
    ensures forall out ::
            Joined(out, Joined(delta, Finishing(upd, d, c, done + delta, left', bits))) ==
            Joined(out + delta, Finishing(upd, d, c, done + delta, left', bits))
  {
    hide Decode, Fold, Whole;
    assert done + delta + left'.out == done + left.out;
    var crc := Final(Fold(upd, done + left.out));
    var r := Decode(upd, d.(state := BlkHdr(1)), Combine(c, crc), bits);
    JoinedTwice(delta, left'.out, r.out);
    forall out: seq<Byte> ensures Joined(out, Joined(delta, Finishing(upd, d, c, done + delta, left', bits))) ==
        Joined(out + delta, Finishing(upd, d, c, done + delta, left', bits)) {
      JoinedTwice(out, delta, Finishing(upd, d, c, done + delta, left', bits).out);
    }
  }

  /** A block all written with the right check value: on to the next header. */
  lemma SessionNextBlock(upd: Update, fed: seq<bool>, output: seq<Byte>, d: Decoder, c: Word, done: seq<Byte>,
                         ahead: seq<bool>)
    requires Session(upd, fed, output, d, c, done, Expansion([], false), ahead) && d.state == Output
    ensures Final(Fold(upd, done)) == d.hdr.storedBlockCRC
        ==> Session(upd, fed, output, d.(state := BlkHdr(1)), Combine(c, Final(Fold(upd, done))), [],
            Expansion([], false), ahead)
    ensures Final(Fold(upd, done)) != d.hdr.storedBlockCRC ==> Broken(upd, fed, output)
  {
    hide Decode, Fold, Whole;
    assert done + [] == done;
    var crc := Final(Fold(upd, done));
    var d' := d.(state := BlkHdr(1));
    forall more ensures crc == d.hdr.storedBlockCRC ==>
        Whole(upd, fed + more) == Joined(output,
        Future(upd, d', Combine(c, crc), [], Expansion([], false), ahead + more))
                ensures crc != d.hdr.storedBlockCRC ==>
                          Whole(upd, fed + more).end == Ended(DataError) && output <= Whole(upd, fed + more).out {
      var r := Decode(upd, d', Combine(c, crc), ahead + more);
      assert [] + r.out == r.out;
    }
  }

  lemma SessionTorn(upd: Update, fed: seq<bool>, output: seq<Byte>, d: Decoder, c: Word, done: seq<Byte>,
                    left: Expansion, ahead: seq<bool>)
    requires Session(upd, fed, output, d, c, done, left, ahead) && d.state == Output && left.torn
    ensures Broken(upd, fed, output)
  {
    hide Decode, Fold, Whole;
  }

  /** BZ2_decompress stopped for want of input. */
  lemma SessionBlocked(upd: Update, fed: seq<bool>, output: seq<Byte>, d: Decoder, c: Word, ahead: seq<bool>,
                       d': Decoder, rest: seq<bool>, done: seq<Byte>, left: Expansion, done': seq<Byte>,
                       left': Expansion)
    requires Session(upd, fed, output, d, c, done, left, ahead) && Waiting(d) && Run(More(d), ahead) == Blocked(d', rest)
    ensures Session(upd, fed, output, d', c, done', left', rest) && Starving(d', rest)
  {
    hide Decode, Run, Decompressor.Valid, Whole;
    RunSplit(More(d), ahead, []);
    assert ahead + [] == ahead && rest + [] == rest;
    forall more ensures Whole(upd, fed + more) == Joined(output, Future(upd, d', c, done', left', rest + more)) {
      RunSplit(More(d), ahead, more);
      SameRun(upd, d, d', c, ahead + more, rest + more);
    }
  }

  /** BZ2_decompress returned: with a block to write, or at an end. */
  lemma SessionStopped(upd: Update, fed: seq<bool>, output: seq<Byte>, d: Decoder, c: Word, ahead: seq<bool>,
                       d': Decoder, code: Status, rest: seq<bool>, done: seq<Byte>, left: Expansion)
    requires Session(upd, fed, output, d, c, done, left, ahead) && Waiting(d) &&
             Run(More(d), ahead) == Stopped(d', code, rest)
    ensures code == Ok && !d'.hdr.blockRandomised
        ==> d'.state == Output && Decompressor.Valid(d') && Session(upd, fed, output, d', c, [], Emit(d'), rest)
    ensures code == Ok ==> d'.state == Output && Decompressor.Valid(d')
    ensures code == Ok && d'.hdr.blockRandomised ==> Closing(upd, fed, output, Randomised, rest)
    ensures code == StreamEnd && c != d'.hdr.storedCombinedCRC ==> Closing(upd, fed, output, Ended(DataError), rest)
    ensures code != Ok && (code == StreamEnd ==> c == d'.hdr.storedCombinedCRC) ==>
            Closing(upd, fed, output, Ended(code), rest)
  {
    hide Run, Emit, Fold, Decompressor.Valid, Decode, Whole;
    RunReturns(More(d), ahead);
    forall more ensures Whole(upd, fed + more) == Joined(output, Decode(upd, d, c, ahead + more))
                     && Run(More(d), ahead + more) == Stopped(d', code, rest + more) {
      RunSplit(More(d), ahead, more);
    }
    DecodeStopped(upd, fed, output, d, c, ahead, d', code, rest);
  }

  lemma DecodeStopped(upd: Update, fed: seq<bool>, output: seq<Byte>, d: Decoder, c: Word, ahead: seq<bool>,
                      d': Decoder, code: Status, rest: seq<bool>)
    requires Decompressor.Valid(d) && Waiting(d) && (code == Ok ==> d'.state == Output && Decompressor.Valid(d'))
    requires forall more :: Whole(upd, fed + more) == Joined(output, Decode(upd, d, c, ahead + more))
    requires forall more :: Run(More(d), ahead + more) == Stopped(d', code, rest + more)
    ensures code == Ok && !d'.hdr.blockRandomised ==> Session(upd, fed, output, d', c, [], Emit(d'), rest)
    ensures code == Ok && d'.hdr.blockRandomised ==> Closing(upd, fed, output, Randomised, rest)
    ensures code == StreamEnd && c != d'.hdr.storedCombinedCRC ==> Closing(upd, fed, output, Ended(DataError), rest)
    ensures code != Ok && (code == StreamEnd ==> c == d'.hdr.storedCombinedCRC) ==>
            Closing(upd, fed, output, Ended(code), rest)
  {
    hide Run, Emit, Fold, Decode, Whole;
    assert output + [] == output;
    forall more ensures code == Ok && !d'.hdr.blockRandomised ==>
        Decode(upd, d, c, ahead + more) == Finishing(upd, d', c, [], Emit(d'), rest + more)
                ensures code == Ok && d'.hdr.blockRandomised ==>
                        Decode(upd, d, c, ahead + more) == Decoded([], Randomised, rest + more)
                ensures code == StreamEnd && c != d'.hdr.storedCombinedCRC ==>
                        Decode(upd, d, c, ahead + more) == Decoded([], Ended(DataError), rest + more)
                ensures code != Ok && (code == StreamEnd ==> c == d'.hdr.storedCombinedCRC) ==>
                        Decode(upd, d, c, ahead + more) == Decoded([], Ended(code), rest + more) {
      assert Run(More(d), ahead + more) == Stopped(d', code, rest + more);
      DecodeOnce(upd, d, c, ahead + more, d', code, rest + more);
    }
  }

  lemma DecodeOnce(upd: Update, d: Decoder, c: Word, bits: seq<bool>, d': Decoder, code: Status, rest: seq<bool>)
    requires Decompressor.Valid(d) && Waiting(d) && Run(More(d), bits) == Stopped(d', code, rest)
    requires code == Ok ==> d'.state == Output && Decompressor.Valid(d')
    ensures code == Ok && !d'.hdr.blockRandomised ==> Decode(upd, d, c, bits) == Finishing(upd, d', c, [], Emit(d'), rest)
    ensures code == Ok && d'.hdr.blockRandomised ==> Decode(upd, d, c, bits) == Decoded([], Randomised, rest)
    ensures code == StreamEnd && c != d'.hdr.storedCombinedCRC ==>
            Decode(upd, d, c, bits) == Decoded([], Ended(DataError), rest)
    ensures code != Ok && (code == StreamEnd ==> c == d'.hdr.storedCombinedCRC) ==>
            Decode(upd, d, c, bits) == Decoded([], Ended(code), rest)
  {
    hide Run, Emit, Fold;
    if code == Ok { assert [] + Emit(d').out == Emit(d').out; }
  }

  // ---- the stream object ----

  datatype DReply = DOk | DStreamEnd | DDataError | DDataErrorMagic | DSequenceError | DRandomised

  class BzStream {
    const upd: Update
    const small: bool
    const ds: DState
    var src: Source?
    var cur: Cursor
    var blockCRC: Word
    var combinedCRC: Word
    /** what was put at next_out, and avail_out */
    var output: seq<Byte>
    var availOut: nat
    /** The bytes of the block written so far, and all bits ever supplied. */
    ghost var emitted: seq<Byte>
    ghost var fed: seq<bool>

    /** While a block is written: its source, its registers and its check value. */
    ghost predicate Writing()
      reads this, ds, src, if src == null then {} else {src.tt, src.ll16, src.ll4, src.cftab}
    {
      src != null && Stands(src, cur) && blockCRC == Fold(upd, emitted)
    }

    ghost function Remaining(): Expansion
      reads this, ds, src, if src == null then {} else {src.tt, src.ll16, src.ll4, src.cftab}
    {
      if ds.regs.state == Output && Writing() then Left(src.last, src.orig, cur) else Expansion([], false)
    }

    /** Between calls: what was written, and what is to come, are what one call on all input gives. */
    ghost predicate Valid()
      reads this, ds, src, if src == null then {} else {src.tt, src.ll16, src.ll4, src.cftab}
    {
      && ds.Ok() && (Waiting(ds.regs) || ds.regs.state == Output) && (ds.regs.state == Output ==> Writing())
      && Session(upd, fed, output, ds.regs, combinedCRC, emitted, Remaining(), ds.Ahead())
    }

    /** BZ2_bzDecompressInit */
    constructor (upd: Update, small: bool)
      ensures Valid() && this.upd == upd && this.small == small && fed == [] && output == [] && availOut == 0 && fresh(ds)
    {
      this.upd, this.small := upd, small;
      ds := new DState();
      src, cur, blockCRC, combinedCRC := null, Cursor(0, 0, 0, 0, 0), 0xffff_ffff, 0;
      output, availOut, emitted, fed := [], 0, [], [];
      new;
      hide Session, DState.Ahead;
      SessionStart(upd);
    }

    /** More input, and room for output. */
    method Supply(more: seq<Byte>, room: nat)
      requires Valid()
      modifies this, ds
      ensures Valid() && fed == old(fed) + BytesToBits(more) && output == old(output) && availOut == room
    {
      hide Session, DState.Ahead, Source.Ready, Decompressor.Valid, Left, Fold;
      SessionFed(upd, fed, output, ds.regs, combinedCRC, emitted, Remaining(), ds.Ahead(), BytesToBits(more));
      ds.Supply(more);
      fed := fed + BytesToBits(more);
      availOut := room;
    }

    /** No byte of the block, and no copy of its last run, is still to be written. */
    ghost predicate AllWritten()
      requires src != null
      reads this, src
    {
      cur.used == |src.last| + 1 && cur.len == 0
    }

    /** One call of the output loops on the registers as they stand. */
    method RunWriter() returns (w: Writer, corrupt: bool)
      requires Writing()
      ensures fresh(w) && w.upd == upd && w.src == src && w.before == emitted && w.left0 == Left(src.last, src.orig, cur)
      ensures w.Valid() && |w.delta| + w.availOut == availOut
      ensures Sent(src.last, src.orig, w.left0, w.delta, w.cur) && Stands(src, w.cur) &&
              w.crc == Fold(upd, emitted + w.delta)
      ensures corrupt <==> w.cur.used > |src.last| + 1 && w.cur.len == 0 && (small ==> w.availOut > 0)
      ensures !corrupt ==> w.availOut == 0 || (w.cur.used == |src.last| + 1 && w.cur.len == 0)
    {
      hide Source.Ready, Left, Fold, Good, Sent;
      w := new Writer(upd, src, cur, blockCRC, availOut, emitted);
      if small { corrupt := w.RunSmall(); } else { corrupt := w.RunFast(); }
    }

    /** The output half of a turn. */
    method WriteOut() returns (corrupt: bool)
      requires Valid() && ds.regs.state == Output
      modifies `cur, `blockCRC, `output, `availOut, `emitted
      ensures corrupt ==> Broken(upd, fed, output)
      ensures !corrupt ==> Valid() && src != null && (availOut == 0 || AllWritten())
      ensures corrupt && !small ==> output == old(output) && availOut == old(availOut)
      ensures corrupt && small ==> availOut > 0 && src != null && output == old(output) + old(Remaining()).out
      ensures old(output) <= output && |output| + availOut == |old(output)| + old(availOut)
    {
      hide Session, DState.Ahead, Source.Ready, Decompressor.Valid, Left, Fold, Good, Broken, Sent, Writer.Valid, Prepend;
      var w;
      w, corrupt := RunWriter();
      SentLeft(src.last, src.orig, w.left0, w.delta, w.cur);
      ghost var left' := Left(src.last, src.orig, w.cur);
      SessionWrote(upd, fed, output, ds.regs, combinedCRC, emitted, w.left0, ds.Ahead(), w.delta, left');
      if corrupt {
        SentEnd(src.last, src.orig, w.left0, w.delta, w.cur);
        SessionTorn(upd, fed, output, ds.regs, combinedCRC, emitted, w.left0, ds.Ahead());
        SessionTorn(upd, fed, output + w.delta, ds.regs, combinedCRC, emitted + w.delta, left', ds.Ahead());
        if !small { return; }
      }
      cur, blockCRC, availOut := w.cur, w.crc, w.availOut;
      output := output + w.delta;
      emitted := emitted + w.delta;
    }

    /** The check at the end of a block. */
    method EndBlock() returns (good: bool)
      requires Valid() && ds.regs.state == Output && src != null && AllWritten()
      modifies `combinedCRC, `emitted, ds
      ensures !good ==> Broken(upd, fed, output)
      ensures good ==> Valid() && Waiting(ds.regs) && ds.Ahead() == old(ds.Ahead())
    {
      hide Session, Source.Ready, Decompressor.Valid, Fold, Good, Broken, BitsOf, BytesToBits;
      StandsFacts(src, cur);
      NothingLeft(src.last, src.orig, cur);
      SessionNextBlock(upd, fed, output, ds.regs, combinedCRC, emitted, ds.Ahead());
      good := Final(blockCRC) == ds.regs.hdr.storedBlockCRC;
      if good {
        combinedCRC := Combine(combinedCRC, Final(blockCRC));
        BackToHeader(ds.regs);
        ds.regs := ds.regs.(state := BlkHdr(1));
        emitted := [];
      }
    }

    /** The block just decoded is made ready to be written. */
    method BeginBlock()
      requires ds.regs.state == Output && Decompressor.Valid(ds.regs) && |ds.regs.run.block| <= NblockMax(ds.regs)
      modifies `src, `cur, `blockCRC, `emitted
      ensures Writing() && fresh(src) && emitted == []
      ensures Remaining() == Emit(ds.regs)
    {
      hide Source.Ready, ByteAt, Row, Decompressor.Valid, Emit, Left, Source.Position;
      OutputFacts(ds.regs);
      src := BuildSource(small, ds.regs.run.block, ds.regs.hdr.origPtr, NblockMax(ds.regs));
      var t0 := src.Start(ds.regs.hdr.origPtr);
      var k0, t := src.Get(t0, 0);
      cur := Cursor(t, 1, k0, 0, 0);
      blockCRC, emitted := 0xffff_ffff, [];
      FirstLeft(ds.regs, cur);
    }

    /** The decoding half of a turn: block tells that one is ready to be written. */
    method ReadIn() returns (block: bool, r: DReply)
      requires Valid() && Waiting(ds.regs)
      modifies this, ds
      ensures output == old(output) && availOut == old(availOut) && fed == old(fed)
      ensures block ==> Valid() && ds.regs.state == Output && |ds.Ahead()| < |old(ds.Ahead())|
      ensures !block && r.DOk? ==> Valid() && ds.input == [] && Starving(ds.regs, ds.Ahead())
      ensures !block && r.DStreamEnd? ==> Closing(upd, fed, output, Ended(StreamEnd), ds.Ahead()) && ds.regs.state == Idle
      ensures !block && r.DDataError? ==> Closing(upd, fed, output, Ended(DataError), ds.Ahead())
      ensures !block && r.DDataErrorMagic? ==> Closing(upd, fed, output, Ended(DataErrorMagic), ds.Ahead())
      ensures !block && r.DRandomised? ==> Closing(upd, fed, output, Randomised, ds.Ahead())
      ensures !r.DSequenceError?
    {
      hide Session, Closing, Starving, DState.Ahead, Source.Ready, Left, Fold, Good, Decompressor.Valid, Run, Emit;
      ghost var d, ahead, left := ds.regs, ds.Ahead(), Remaining();
      RunReturns(More(d), ahead);
      var code := ds.Decompress();
      block, r := false, DOk;
      if code == Status.StreamEnd {
        SessionStopped(upd, fed, output, d, combinedCRC, ahead, ds.regs, code, ds.Ahead(), emitted, left);
        r := if combinedCRC == ds.regs.hdr.storedCombinedCRC then DStreamEnd else DDataError;
      } else if code != Status.Ok {
        SessionStopped(upd, fed, output, d, combinedCRC, ahead, ds.regs, code, ds.Ahead(), emitted, left);
        r := if code == DataError then DDataError else DDataErrorMagic;
      } else if ds.regs.state != Output {
        NotStopped(d, ahead, ds.regs, code, ds.Ahead());
        SessionBlocked(upd, fed, output, d, combinedCRC, ahead, ds.regs, ds.Ahead(), emitted, left, emitted, Remaining());
      } else {
        SessionStopped(upd, fed, output, d, combinedCRC, ahead, ds.regs, code, ds.Ahead(), emitted, left);
        if ds.regs.hdr.blockRandomised { r := DRandomised; return; }
        BlockSize(d, ahead, ds.regs, ds.Ahead());
        BeginBlock();
        block := true;
      }
    }

    /** What a call has returned is right: without an error there was no room left, or BZ2_decompress asks for more; an
        end, good or bad, is that of one call on all the input, whatever follows. */
    ghost predicate Answers(r: DReply)
      reads this, ds, src, if src == null then {} else {src.tt, src.ll16, src.ll4, src.cftab}
    {
      match r
      case DOk => Valid() && (availOut == 0 || Starving(ds.regs, ds.Ahead()))
      case DStreamEnd => Closing(upd, fed, output, Ended(StreamEnd), ds.Ahead())
      case DDataError => Broken(upd, fed, output)
      case DDataErrorMagic => Closing(upd, fed, output, Ended(DataErrorMagic), ds.Ahead())
      case DRandomised => Closing(upd, fed, output, Randomised, ds.Ahead())
      case DSequenceError => ds.regs.state == Idle
    }

    /** BZ2_bzDecompress. Whatever pieces the input comes in and whatever room each call has, the output so far
        and the verdict are those of one call on all the input. Without an error it stops only when the room
        for output is used up, or the input, with too few bits left in hand to go on. */
    method BzDecompress() returns (r: DReply)
      requires ds.regs.state == Idle || Valid()
      modifies this, ds
      ensures fed == old(fed) && old(output) <= output && |output| + availOut == |old(output)| + old(availOut)
      ensures Answers(r) && (old(ds.regs.state) == Idle <==> r.DSequenceError?)
      ensures r.DSequenceError? ==> output == old(output)
      ensures r.DOk? ==> availOut == 0 || ds.input == []
      ensures r.DStreamEnd? ==> ds.regs.state == Idle
    {
      hide Session, Closing, Starving, DState.Ahead, Source.Ready, Left, Fold, Good, Decompressor.Valid, Run, Emit, Broken,
           Remaining, DState.Ok;
      if ds.regs.state == Idle { return DSequenceError; }
      while true
        invariant Valid() && fed == old(fed) && old(output) <= output
        invariant |output| + availOut == |old(output)| + old(availOut)
        decreases |ds.Ahead()|
      {
        ghost var ahead := ds.Ahead();
        if ds.regs.state == Output {
          var corrupt := WriteOut();
          if corrupt { return DDataError; }
          var n := src.Size();
          if cur.used != n + 1 || cur.len != 0 { return DOk; }
          var good := EndBlock();
          if !good { return DDataError; }
        }
        var block;
        block, r := ReadIn();
        if !block {
          if r.DDataError? { ClosingBroken(upd, fed, output, ds.Ahead()); }
          return;
        }
      }
    }
  }

  lemma ClosingBroken(upd: Update, fed: seq<bool>, output: seq<Byte>, ahead: seq<bool>)
    requires Closing(upd, fed, output, Ended(DataError), ahead)
    ensures Broken(upd, fed, output)
  {
    hide Decode, Whole;
  }

  lemma NotStopped(d: Decoder, ahead: seq<bool>, d': Decoder, code: Status, rest: seq<bool>)
    requires Decompressor.Valid(d) && Waiting(d) && code == Ok && d'.state != Output
    ensures Run(More(d), ahead) != Stopped(d', code, rest)
  {
    hide Run;
    RunReturns(More(d), ahead);
  }

  lemma BlockSize(d: Decoder, ahead: seq<bool>, d': Decoder, rest: seq<bool>)
    requires Decompressor.Valid(d) && Waiting(d) && Run(More(d), ahead) == Stopped(d', Ok, rest)
    ensures |d'.run.block| <= NblockMax(d')
  {
    hide Run;
    RunReturns(More(d), ahead);
  }

  lemma OutputFacts(d: Decoder)
    requires Decompressor.Valid(d) && d.state == Output
    ensures d.hdr.origPtr < |d.run.block| && NblockMax(d) <= 900_000
  {
  }

  /** With the first byte fetched, what is left is the whole block. */
  lemma FirstLeft(d: Decoder, c: Cursor)
    requires d.hdr.origPtr < |d.run.block| && c.used == 1 && c.len == 0
    ensures Left(d.run.block, d.hdr.origPtr, c) == Emit(d)
  {
    hide Expand, ByteAt, Rotations.Unwind;
    var last, orig, n := d.run.block, d.hdr.origPtr, |d.run.block|;
    UnwindBytes(last, orig, 0, n);
    UnwindBytes(last, orig, 0, n + 1);
    RowStart(last, orig);
    assert Column(d, n) == Text(last, orig);
    assert Text(last, orig)[0..] == Text(last, orig);
    assert Repeat(c.ch, 0) + Emit(d).out == Emit(d).out;
  }

  lemma RowStart(last: seq<Byte>, orig: nat)
    requires orig < |last|
    ensures Row(last, orig, 0) == orig
  {
  }

  lemma SentLeft(last: seq<Byte>, orig: nat, left0: Expansion, delta: seq<Byte>, c: Cursor)
    requires Sent(last, orig, left0, delta, c)
    ensures orig < |last| && c.used >= 1 && left0 == Prepend(delta, Left(last, orig, c))
  {
  }

  lemma StandsFacts(src: Source, c: Cursor)
    requires Stands(src, c)
    ensures src.orig < |src.last| && 1 <= c.used <= |src.last| + 2
  {
  }

  lemma NothingLeft(last: seq<Byte>, orig: nat, c: Cursor)
    requires orig < |last| && c.used == |last| + 1 && c.len == 0
    ensures Left(last, orig, c) == Expansion([], false)
  {
  }

  lemma BackToHeader(d: Decoder)
    requires Decompressor.Valid(d) && d.state == Output
    ensures Decompressor.Valid(d.(state := BlkHdr(1))) && Waiting(d.(state := BlkHdr(1)))
  {
  }
}
