/** Both sides together: what BZ2_bzCompress delivers, BZ2_bzDecompress turns back into the input. */
module RoundTrip {
  import opened Bits
  import opened Checksums
  import opened Decompressor
  import opened BitWriter
  import opened RunLength
  import opened StreamFormat
  import opened StreamRoundTrip
  import C = Compressor
  import D = Decompression

  lemma FinishedDecodes(upd: Update, k: nat, cs: seq<Closed>, zbits: seq<Byte>)
    requires 1 <= k <= 9 && AllClosedOk(upd, k, cs) && C.Finished(upd, k, cs, zbits)
    ensures D.Whole(upd, BytesToBits(zbits)).out == AllData(cs) && D.Whole(upd, BytesToBits(zbits)).end == Ended(StreamEnd)
  {
    hide AllClosedOk, Decode, StreamHeader, AllBits, Trailer, AllCombined, AllData, BytesToBits;
    var n :| 0 <= n < 8 && C.FinishedWith(upd, k, cs, zbits, n);
    StreamDecodes(upd, k, cs, Zeros(n));
  }

  /** Any sequence of RUN, FLUSH and FINISH calls that reached STREAM_END has delivered bytes that decode,
      with every check passed, to exactly the input that was taken. */
  lemma CompressedDecodes(e: C.EState)
    requires e.Complete()
    ensures D.Whole(e.rb.upd, BytesToBits(e.output)).out == e.consumed
    ensures D.Whole(e.rb.upd, BytesToBits(e.output)).end == Ended(StreamEnd)
  {
    hide C.Finished, AllClosedOk, AllData, D.Whole;
    FinishedDecodes(e.rb.upd, e.blockSize100k, e.closed, e.output);
  }

  lemma AtClosing(upd: Update, fed: seq<bool>, output: seq<Byte>, end: Ending, ahead: seq<bool>, more: seq<bool>)
    requires D.Closing(upd, fed, output, end, ahead)
    ensures D.Whole(upd, fed + more).out == output && D.Whole(upd, fed + more).end == end
  {
    hide D.Whole;
    assert D.Whole(upd, fed + more) == Decoded(output, end, ahead + more);
  }

  /** Between any calls, and with any part of the bytes supplied, what a decompressor has written is a prefix of the
      input. */
  lemma OutputIsPrefix(e: C.EState, s: D.BzStream, more: seq<bool>)
    requires e.Complete() && s.upd == e.rb.upd && s.Valid() && s.fed + more == BytesToBits(e.output)
    ensures s.output <= e.consumed
  {
    hide *;
    CompressedDecodes(e);
    ValidSession(s);
    AtSession(s.upd, s.fed, s.output, s.ds.regs, s.combinedCRC, s.emitted, s.Remaining(), s.ds.Ahead(), more);
  }

  lemma ValidSession(s: D.BzStream)
    requires s.Valid()
    ensures D.Session(s.upd, s.fed, s.output, s.ds.regs, s.combinedCRC, s.emitted, s.Remaining(), s.ds.Ahead())
  {
  }

  lemma AtSession(upd: Update, fed: seq<bool>, output: seq<Byte>, d: Decoder, c: Word, done: seq<Byte>,
                  left: Expansion, ahead: seq<bool>, more: seq<bool>)
    requires D.Session(upd, fed, output, d, c, done, left, ahead)
    ensures output <= D.Whole(upd, fed + more).out
  {
    hide D.Whole, D.Future, D.Resumable;
    assert D.Whole(upd, fed + more) == Joined(output, D.Future(upd, d, c, done, left, ahead + more));
  }

  /** On a compressor's output no call reports an error, whatever part of the bytes it was given. A call that has been
      given them all and has room left says STREAM_END, and STREAM_END comes with exactly the input written. */
  lemma StreamCompletes(e: C.EState, s: D.BzStream, more: seq<bool>, r: D.DReply)
    requires e.Complete() && s.upd == e.rb.upd && s.fed + more == BytesToBits(e.output)
    requires s.Answers(r) && !r.DSequenceError?
    ensures r.DOk? || r.DStreamEnd?
    ensures more == [] && s.availOut > 0 ==> r.DStreamEnd?
    ensures r.DStreamEnd? ==> s.output == e.consumed
    ensures s.output <= e.consumed
  {
    hide *;
    CompressedDecodes(e);
    Verdict(s, more, r);
  }

  /** What a reply tells of one call on all the input, with anything that may still follow */
  lemma Verdict(s: D.BzStream, more: seq<bool>, r: D.DReply)
    requires s.Answers(r)
    ensures var w := D.Whole(s.upd, s.fed + more);
            && (!r.DSequenceError? ==> s.output <= w.out)
            && (r.DOk? && more == [] && s.availOut > 0 ==> w.end == Starved)
            && (r.DStreamEnd? ==> w.out == s.output && w.end == Ended(StreamEnd))
            && (r.DDataError? ==> w.end == Ended(DataError))
            && (r.DDataErrorMagic? ==> w.out == s.output && w.end == Ended(DataErrorMagic))
            && (r.DRandomised? ==> w.out == s.output && w.end == Randomised)
  {
    hide *;
    AnswerFacts(s, r);
    match r {
      case DOk =>
        ValidSession(s);
        AtSession(s.upd, s.fed, s.output, s.ds.regs, s.combinedCRC, s.emitted, s.Remaining(), s.ds.Ahead(), more);
        if more == [] && s.availOut > 0 {
          StarvedSession(s.upd, s.fed, s.output, s.ds.regs, s.combinedCRC, s.emitted, s.Remaining(), s.ds.Ahead());
          assert s.fed + [] == s.fed;
        }
      case DStreamEnd => AtClosing(s.upd, s.fed, s.output, Ended(StreamEnd), s.ds.Ahead(), more);
      case DDataError => BrokenAt(s.upd, s.fed, s.output, more);
      case DDataErrorMagic => AtClosing(s.upd, s.fed, s.output, Ended(DataErrorMagic), s.ds.Ahead(), more);
      case DRandomised => AtClosing(s.upd, s.fed, s.output, Randomised, s.ds.Ahead(), more);
      case DSequenceError =>
    }
  }

  lemma AnswerFacts(s: D.BzStream, r: D.DReply)
    requires s.Answers(r)
    ensures r.DOk? ==> s.Valid() && (s.availOut == 0 || D.Starving(s.ds.regs, s.ds.Ahead()))
    ensures r.DStreamEnd? ==> D.Closing(s.upd, s.fed, s.output, Ended(StreamEnd), s.ds.Ahead())
    ensures r.DDataError? ==> D.Broken(s.upd, s.fed, s.output)
    ensures r.DDataErrorMagic? ==> D.Closing(s.upd, s.fed, s.output, Ended(DataErrorMagic), s.ds.Ahead())
    ensures r.DRandomised? ==> D.Closing(s.upd, s.fed, s.output, Randomised, s.ds.Ahead())
  {
  }

  /** If the decoder asks for more, then so would one call on all the input there has been. */
  lemma StarvedSession(upd: Update, fed: seq<bool>, output: seq<Byte>, d: Decoder, c: Word, done: seq<Byte>,
                       left: Expansion, ahead: seq<bool>)
    requires D.Session(upd, fed, output, d, c, done, left, ahead) && D.Starving(d, ahead)
    ensures D.Whole(upd, fed).end == Starved
  {
    hide D.Whole, Run, Decompressor.Valid;
    assert fed + [] == fed && ahead + [] == ahead;
    assert D.Whole(upd, fed + []) == Joined(output, D.Future(upd, d, c, done, left, ahead + []));
  }

  lemma BrokenAt(upd: Update, fed: seq<bool>, output: seq<Byte>, more: seq<bool>)
    requires D.Broken(upd, fed, output)
    ensures D.Whole(upd, fed + more).end == Ended(DataError) && output <= D.Whole(upd, fed + more).out
  {
    hide D.Whole;
  }
}
