/** The compressing side of bzlib.c: BZ2_bzCompress with its modes, blocks filled from the input and
    drained to the output. */
module Compressor {
  import opened Bits
  import opened Checksums
  import opened RunLength
  import opened BlockFormat
  import opened BitWriter
  import opened BlockWriter
  import opened BlockCompressor
  import opened StreamFormat
  import opened InputRuns

  datatype Mode = Idle | Running | Flushing | Finishing

  datatype Stage = Input | Output

  datatype Action = RUN | FLUSH | FINISH

  datatype Reply = RunOk | FlushOk | FinishOk | StreamEnd | SequenceError | ParamError

  /** What has been written before the trailer. */
  function Begun(began: bool, k: nat, cs: seq<Closed>): seq<bool>
    requires 1 <= k <= 9
  {
    (if began then StreamHeader(k) else []) + AllBits(cs)
  }

  /** The finished stream: header, blocks, trailer, and zeros to fill the last byte. */
  ghost predicate Finished(upd: Update, k: nat, cs: seq<Closed>, zbits: seq<Byte>)
    requires 1 <= k <= 9
  {
    exists n :: 0 <= n < 8 && FinishedWith(upd, k, cs, zbits, n)
  }

  predicate FinishedWith(upd: Update, k: nat, cs: seq<Closed>, zbits: seq<Byte>, n: nat)
    requires 1 <= k <= 9
  {
    BytesToBits(zbits) == StreamHeader(k) + AllBits(cs) + Trailer(AllCombined(upd, 0, cs)) + Zeros(n)
  }

  /** Closing a block: its runs, check value and bits join those of the blocks before it. */
  lemma CloseStep(upd: Update, k: nat, cs: seq<Closed>, combined: Word, runs: seq<Pair>, bits: seq<bool>)
    requires AllClosedOk(upd, k, cs) && combined == AllCombined(upd, 0, cs)
    requires RunsOk(runs) && 0 < |PackAll(runs)| <= 100_000 * k && CodeBlock(bits, PackAll(runs), BlockCrc(upd, runs))
    ensures AllClosedOk(upd, k, cs + [Closed(runs, bits)])
    ensures Combine(combined, BlockCrc(upd, runs)) == AllCombined(upd, 0, cs + [Closed(runs, bits)])
    ensures AllBits(cs + [Closed(runs, bits)]) == AllBits(cs) + bits
    ensures AllData(cs + [Closed(runs, bits)]) == AllData(cs) + Unpacked(runs)
  {
    hide CodeBlock, Unpacked, BlockCrc, Combine;
    var c := Closed(runs, bits);
    AllBitsAppend(cs, c);
    AllDataAppend(cs, c);
    AllCombinedAppend(upd, 0, cs, c);
    forall i | 0 <= i < |cs + [c]| ensures ClosedOk(upd, k, (cs + [c])[i]) {
      if i < |cs| { assert (cs + [c])[i] == cs[i]; }
    }
  }

  lemma OpenRuns(upd: Update, runs: seq<Pair>, block: seq<Byte>, inUse: seq<bool>, crc: Word)
    requires Open(upd, runs, block, inUse, crc)
    ensures RunsOk(runs) && block == PackAll(runs) && Marked(inUse, block) && |inUse| == 256 &&
            Final(crc) == BlockCrc(upd, runs)
    ensures (block == [] ==> runs == []) && Unpacked([]) == []
  {
  }

  lemma EmptyStream(k: nat)
    requires 1 <= k <= 9
    ensures Begun(false, k, []) == []
  {
  }

  lemma BegunHeader(k: nat, cs: seq<Closed>)
    requires 1 <= k <= 9
    ensures cs == [] ==> Begun(false, k, cs) + StreamHeader(k) == Begun(true, k, cs)
  {
  }

  lemma BegunAppend(k: nat, cs: seq<Closed>, c: Closed)
    requires 1 <= k <= 9
    ensures Begun(true, k, cs + [c]) == Begun(true, k, cs) + c.bits
  {
    hide StreamHeader;
    AllBitsAppend(cs, c);
    Assoc(StreamHeader(k), AllBits(cs), c.bits);
  }

  /** Every block is coded with a map of its bytes and with the tables chosen for its symbols. */
  ghost predicate WellCoded(upd: Update, cs: seq<Closed>) {
    forall i :: 0 <= i < |cs| ==>
      RunsOk(cs[i].runs) && CodedWell(cs[i].bits, PackAll(cs[i].runs), BlockCrc(upd, cs[i].runs))
  }

  lemma WellCodedMore(upd: Update, cs: seq<Closed>, c: Closed)
    requires WellCoded(upd, cs) && RunsOk(c.runs) && CodedWell(c.bits, PackAll(c.runs), BlockCrc(upd, c.runs))
    ensures WellCoded(upd, cs + [c])
  {
    hide CodedWell, PackAll, BlockCrc;
  }

  /** The blocks closed since are full: no more than nineteen bytes short of their size. */
  ghost predicate FullSince(before: seq<Closed>, after: seq<Closed>, blockSize100k: nat) {
    && before <= after
    && forall i :: |before| <= i < |after| ==>
         RunsOk(after[i].runs) && |PackAll(after[i].runs)| >= 100_000 * blockSize100k - 19
  }

  lemma FullTwice(a: seq<Closed>, b: seq<Closed>, c: seq<Closed>, blockSize100k: nat)
    requires FullSince(a, b, blockSize100k) && FullSince(b, c, blockSize100k)
    ensures FullSince(a, c, blockSize100k)
  {
    hide PackAll;
    forall i | |a| <= i < |c| ensures RunsOk(c[i].runs) && |PackAll(c[i].runs)| >= 100_000 * blockSize100k - 19 {
      if i < |b| { assert c[i] == b[i]; }
    }
  }

  class EState {
    const blockSize100k: nat
    const rb: RunBuffer
    const bs: BitStream
    var state: Stage
    var mode: Mode
    var availInExpect: nat
    var blockNo: nat
    var combinedCRC: Word
    var stateOutPos: nat
    /** next_in[..avail_in], what was put at next_out, and avail_out */
    var input: seq<Byte>
    var output: seq<Byte>
    var availOut: nat
    /** The blocks written, the input taken, and whether the trailer is out. */
    ghost var closed: seq<Closed>
    ghost var consumed: seq<Byte>
    ghost var ended: bool

    function NblockMax(): int {
      100_000 * blockSize100k - 19
    }

    ghost predicate Began()
      reads `blockNo, `state
    {
      blockNo > 1 || state.Output?
    }

    /** The block being filled, or between blocks only the held run. */
    ghost predicate Filling()
      reads `state, rb
    {
      && (state.Input? ==> rb.Valid() && |rb.block| < NblockMax() && (rb.stateInCh == NONE ==> rb.runs == []))
      && (state.Output? ==> rb.runs == [] && Held([], rb.stateInCh, rb.stateInLen))
    }

    ghost predicate Blocks()
      reads `closed, `combinedCRC, `consumed, rb
    {
      && AllClosedOk(rb.upd, blockSize100k, closed) && combinedCRC == AllCombined(rb.upd, 0, closed)
      && WellCoded(rb.upd, closed)
      && consumed == AllData(closed) + rb.Data()
    }

    ghost predicate Stream()
      reads `state, `blockNo, `ended, `closed, rb, bs
    {
      && 1 <= blockSize100k <= 9 && blockNo >= 1 && (!Began() ==> closed == [])
      && (!ended ==> bs.Valid() && bs.Written() == Begun(Began(), blockSize100k, closed))
      && (ended ==> Finished(rb.upd, blockSize100k, closed, bs.zbits))
    }

    ghost predicate Drained()
      reads `state, `stateOutPos, `output, bs
    {
      && stateOutPos <= |bs.zbits| && output == bs.zbits[..stateOutPos]
      && (state.Input? ==> stateOutPos == |bs.zbits|)
    }

    ghost predicate Modes()
      reads `state, `mode, `ended, `availInExpect, rb
    {
      && (state.Output? && rb.stateInCh == NONE ==> !mode.Running? && (mode.Finishing? ==> ended))
      && (ended ==> state.Output? && rb.stateInCh == NONE && (mode.Finishing? || mode.Idle?) && availInExpect == 0)
      && (mode.Idle? ==> ended)
    }

    ghost predicate Valid()
      reads this, rb, bs
    {
      Filling() && Blocks() && Stream() && Drained() && Modes()
    }

    /** BZ2_bzCompressInit */
    constructor (blockSize100k: nat, upd: Update)
      requires 1 <= blockSize100k <= 9
      ensures Valid() && mode == Running && !ended && this.blockSize100k == blockSize100k && rb.upd == upd
      ensures consumed == [] && input == [] && output == [] && availOut == 0 && fresh(rb) && fresh(bs)
    {
      hide Finished, BitStream.Valid, BitStream.Written, RunBuffer.Valid, RunBuffer.Data, Begun, ClosedOk, Open;
      this.blockSize100k := blockSize100k;
      rb := new RunBuffer(upd);
      bs := new BitStream();
      state, mode, availInExpect, blockNo, combinedCRC, stateOutPos := Input, Running, 0, 1, 0, 0;
      input, output, availOut := [], [], 0;
      closed, consumed, ended := [], [], false;
      new;
      EmptyStream(blockSize100k);
    }

    /** The stream header of BZ2_compressBlock. */
    method PutStreamHeader()
      requires 1 <= blockSize100k <= 9 && blockNo >= 1 && bs.Valid() && (blockNo == 1 ==> closed == [])
      requires bs.Written() == Begun(blockNo > 1, blockSize100k, closed)
      modifies bs
      ensures bs.Valid() && bs.Written() == Begun(true, blockSize100k, closed) && old(bs.zbits) <= bs.zbits
    {
      hide BitStream.Valid, BitStream.Written, Begun, BytesAsBits;
      if blockNo == 1 {
        BegunHeader(blockSize100k, closed);
        WriteBytes(bs, [0x42, 0x5a, 0x68, 0x30 + blockSize100k]);
      }
    }

    /** The coded block, when there is one. */
    method PutBlock()
      requires 1 <= blockSize100k <= 9 && rb.Valid() && |rb.block| <= 100_000 * blockSize100k && Blocks()
      requires bs.Valid() && bs.Written() == Begun(true, blockSize100k, closed)
      modifies `combinedCRC, `closed, rb`blockCRC, rb`runs, bs
      ensures Blocks() && rb.runs == []
      ensures bs.Valid() && bs.Written() == Begun(true, blockSize100k, closed) && old(bs.zbits) <= bs.zbits
      ensures |rb.block| >= 100_000 * blockSize100k - 19 ==> FullSince(old(closed), closed, blockSize100k)
    {
      hide BitStream.Valid, BitStream.Written, Begun, WellCoded, AllClosedOk, Unpacked, Open, Held, CodeBlock,
           AllBits, PackAll, BlockCrc, Combine, RunsOk, Marked, CodedWell;
      ghost var runs, cs := rb.runs, closed;
      OpenRuns(rb.upd, runs, rb.block, rb.inUse, rb.blockCRC);
      ghost var held := HeldData(rb.stateInCh, rb.stateInLen);
      if |rb.block| > 0 {
        rb.blockCRC := Final(rb.blockCRC);
        combinedCRC := Combine(combinedCRC, rb.blockCRC);
        ghost var bits := EncodeBlock(bs, rb.block, rb.inUse, rb.blockCRC);
        CloseStep(rb.upd, blockSize100k, cs, old(combinedCRC), runs, bits);
        BegunAppend(blockSize100k, cs, Closed(runs, bits));
        WellCodedMore(rb.upd, cs, Closed(runs, bits));
        closed := cs + [Closed(runs, bits)];
      }
      rb.runs := [];
      Regroup(AllData(cs), Unpacked(runs), held);
    }

    /** The trailer, and the last bits in a byte of their own. */
    method PutTrailer()
      requires 1 <= blockSize100k <= 9 && Blocks() && bs.Valid() && bs.Written() == Begun(true, blockSize100k, closed)
      modifies bs
      ensures Finished(rb.upd, blockSize100k, closed, bs.zbits) && old(bs.zbits) <= bs.zbits
    {
      hide BitStream.Valid, BitStream.Written, AllBits, StreamHeader, BytesAsBits, WellCoded, AllClosedOk,
           AllCombined, Unpacked, BitsOf, BytesToBits;
      ghost var w := bs.Written();
      WriteBytes(bs, END_MAGIC);
      WriteUInt32(bs, combinedCRC);
      Assoc(w, BytesAsBits(END_MAGIC), BitsOf(combinedCRC, 32));
      bs.FinishWrite();
      assert FinishedWith(rb.upd, blockSize100k, closed, bs.zbits, -bs.bsLive);
    }

    /** BZ2_compressBlock */
    method CompressBlock(isLastBlock: bool)
      requires state.Input? && rb.Valid() && |rb.block| <= 100_000 * blockSize100k && Blocks() && Stream() && !ended
      modifies `combinedCRC, `closed, rb`blockCRC, rb`runs, bs
      ensures Blocks() && rb.runs == [] && old(bs.zbits) <= bs.zbits
      ensures !isLastBlock ==> bs.Valid() && bs.Written() == Begun(true, blockSize100k, closed)
      ensures isLastBlock ==> Finished(rb.upd, blockSize100k, closed, bs.zbits)
      ensures |rb.block| >= 100_000 * blockSize100k - 19 ==> FullSince(old(closed), closed, blockSize100k)
    {
      hide BitStream.Valid, BitStream.Written, Begun, WellCoded, AllClosedOk, Unpacked, Open, Held, AllBits,
           AllCombined, Finished, FullSince;
      PutStreamHeader();
      PutBlock();
      if isLastBlock { PutTrailer(); }
    }

    /** copy_input_until_stop */
    method CopyInputUntilStop() returns (progressIn: bool)
      requires state.Input? && Filling() && Blocks() && 1 <= blockSize100k
      modifies `input, `consumed, `availInExpect, rb
      ensures rb.Valid() && |rb.block| <= NblockMax() + 4 && (rb.stateInCh == NONE ==> rb.runs == []) && Blocks()
      ensures consumed + input == old(consumed + input) && |input| <= |old(input)| && progressIn == (|input| < |old(input)|)
      ensures mode != Running ==> availInExpect - |input| == old(availInExpect - |input|)
      ensures |rb.block| >= 100_000 * blockSize100k - 19 || input == [] || (mode != Running && availInExpect == 0)
      ensures !progressIn ==> |rb.block| < NblockMax()
    {
      hide WellCoded, AllClosedOk, AllCombined, AllData, RunBuffer.Data, RunBuffer.Valid;
      progressIn := false;
      while true
        invariant rb.Valid() && |rb.block| <= NblockMax() + 4 && (rb.stateInCh == NONE ==> rb.runs == []) && Blocks()
        invariant consumed + input == old(consumed + input) && |input| <= |old(input)| &&
                  progressIn == (|input| < |old(input)|)
        invariant mode != Running ==> availInExpect - |input| == old(availInExpect - |input|)
        invariant !progressIn ==> |rb.block| < NblockMax()
        decreases |input|
      {
        if |rb.block| >= NblockMax() { break; }
        if input == [] { break; }
        if mode != Running && availInExpect == 0 { break; }
        progressIn := true;
        ghost var b, data := input[0], rb.Data();
        NextByte(consumed, input, AllData(closed), data);
        rb.AddChar(input[0]);
        consumed := consumed + [b];
        input := input[1..];
        if mode != Running { availInExpect := availInExpect - 1; }
      }
    }

    /** copy_output_until_stop */
    method CopyOutputUntilStop() returns (progressOut: bool)
      requires stateOutPos <= |bs.zbits| && output == bs.zbits[..stateOutPos]
      modifies `output, `stateOutPos, `availOut
      ensures stateOutPos <= |bs.zbits| && output == bs.zbits[..stateOutPos] && old(output) <= output
      ensures availOut == 0 || stateOutPos == |bs.zbits|
      ensures |output| + availOut == |old(output)| + old(availOut) && progressOut == (output != old(output))
    {
      progressOut := false;
      while true
        invariant stateOutPos <= |bs.zbits| && output == bs.zbits[..stateOutPos] && old(output) <= output
        invariant |output| + availOut == |old(output)| + old(availOut) && progressOut == (|output| > |old(output)|)
        decreases availOut
      {
        if availOut == 0 { break; }
        if stateOutPos >= |bs.zbits| { break; }
        progressOut := true;
        output := output + [bs.zbits[stateOutPos]];
        stateOutPos := stateOutPos + 1;
        availOut := availOut - 1;
      }
    }

    /** How far handle_compress is from stopping, with the same input left. */
    ghost function Rank(): nat
      reads this, rb
    {
      if state.Input? then 1 else if rb.stateInCh == NONE then 0 else 2
    }

    /** Between prepare_new_block and the next input. */
    method PrepareNewBlock()
      requires state.Output? && Valid() && !ended && stateOutPos == |bs.zbits|
      modifies `state, `blockNo, rb
      ensures Valid() && state.Input? && rb.block == [] && Whole() == old(Whole()) && rb.stateInCh == old(rb.stateInCh)
      ensures blockNo == old(blockNo) + 1
    {
      hide WellCoded, AllClosedOk, AllCombined, AllData, Open, Unpacked, BitStream.Valid, BitStream.Written, Begun,
           Held;
      rb.Prepare();
      blockNo := blockNo + 1;
      state := Input;
    }

    ghost function Whole(): seq<Byte>
      reads this
    {
      consumed + input
    }

    /** The end of the block: by a flush or finish that has used its input, or by a full block. */
    method CloseBlock(isLastBlock: bool, flush: bool)
      requires state.Input? && rb.Valid() && |rb.block| <= NblockMax() + 4 && (rb.stateInCh == NONE ==> rb.runs == [])
      requires Blocks() && Stream() && Drained() && Modes() &&
               (isLastBlock ==> flush && mode.Finishing? && availInExpect == 0)
      requires !flush ==> rb.stateInCh != NONE
      requires flush ==> !mode.Running? && (mode.Finishing? ==> isLastBlock)
      modifies `state, `combinedCRC, `closed, `ended, rb, bs
      ensures Valid() && state.Output? && Whole() == old(Whole()) && (flush ==> rb.stateInCh == NONE)
      ensures output == old(output) && ended == isLastBlock
      ensures !flush && old(|rb.block|) >= 100_000 * blockSize100k - 19 ==>
                FullSince(old(closed), closed, blockSize100k)
    {
      hide WellCoded, AllClosedOk, AllCombined, AllData, Open, Unpacked, BitStream.Valid, BitStream.Written, Begun,
           Finished, FullSince;
      if flush { rb.FlushRL(); }
      CompressBlock(isLastBlock);
      state := Output;
      ended := isLastBlock;
    }

    /** The output half of a turn: false when handle_compress must stop. */
    method DrainHalf() returns (on: bool, progressOut: bool)
      requires Valid() && state.Output? && !mode.Idle?
      modifies `state, `blockNo, `output, `stateOutPos, `availOut, rb
      ensures Valid() && Whole() == old(Whole()) && on == state.Input? && old(output) <= output
      ensures |output| + availOut == |old(output)| + old(availOut) && progressOut == (output != old(output))
      ensures on ==> rb.stateInCh == old(rb.stateInCh) && rb.block == []
      ensures !on ==> (availOut == 0 && stateOutPos < |bs.zbits|) || (ended && stateOutPos == |bs.zbits|)
      ensures on && mode.Finishing? ==> !ended && !(availInExpect == 0 && rb.stateInCh == NONE)
    {
      hide WellCoded, AllClosedOk, AllCombined, AllData, Open, Unpacked, BitStream.Valid, BitStream.Written, Begun,
           Held, Finished;
      progressOut := CopyOutputUntilStop();
      if stateOutPos < |bs.zbits| { return false, progressOut; }
      if mode == Finishing && availInExpect == 0 && rb.stateInCh == NONE { return false, progressOut; }
      PrepareNewBlock();
      on := true;
    }

    /** The input half of a turn: false when the input is used up. */
    method FillHalf() returns (on: bool, progressIn: bool)
      requires Valid() && state.Input? && !mode.Idle? && (mode != Running ==> availInExpect == |input|)
      modifies `state, `combinedCRC, `closed, `ended, `input, `consumed, `availInExpect, rb, bs
      ensures Valid() && Whole() == old(Whole()) && on == state.Output? && output == old(output)
      ensures |input| <= |old(input)| && progressIn == (|input| < |old(input)|) &&
              (mode != Running ==> availInExpect == |input|)
      ensures !on ==> mode.Running? && input == []
      ensures on && !progressIn ==> rb.stateInCh == NONE && input == []
      ensures mode.Running? ==> FullSince(old(closed), closed, blockSize100k)
    {
      hide WellCoded, AllClosedOk, AllCombined, AllData, Open, Unpacked, BitStream.Valid, BitStream.Written, Begun,
           Held, Finished, PackAll;
      progressIn := CopyInputUntilStop();
      on := true;
      if mode != Running && availInExpect == 0 {
        CloseBlock(mode == Finishing, true);
      } else if |rb.block| >= NblockMax() {
        HeldOrEmpty();
        CloseBlock(false, false);
      } else {
        on := false;
      }
    }

    /** A full block is not empty, so a run is held. */
    lemma HeldOrEmpty()
      requires rb.Valid() && 1 <= blockSize100k && |rb.block| >= NblockMax() && (rb.stateInCh == NONE ==> rb.runs == [])
      ensures rb.stateInCh != NONE
    {
    }

    /** handle_compress. It stops when the room for output is used up, when the input is used up, or when
        the flush or finish is complete. */
    method HandleCompress() returns (progress: bool)
      requires Valid() && !mode.Idle? && (mode != Running ==> availInExpect == |input|)
      modifies `state, `blockNo, `combinedCRC, `closed, `ended, `input, `consumed, `availInExpect, `output,
               `stateOutPos, `availOut, rb, bs
      ensures Valid() && Whole() == old(Whole()) && old(output) <= output &&
              |output| + availOut == |old(output)| + old(availOut)
      ensures |input| <= |old(input)| && (mode != Running ==> availInExpect == |input|)
      ensures progress == (|input| < |old(input)| || output != old(output))
      ensures || (availOut == 0 && stateOutPos < |bs.zbits|)
              || (ended && stateOutPos == |bs.zbits| && input == [])
              || (state.Input? && input == [] && (mode.Running? || (mode.Flushing? && rb.stateInCh == NONE)))
      ensures mode == old(mode) && (mode.Running? ==> FullSince(old(closed), closed, blockSize100k))
    {
      hide EState.Filling, EState.Blocks, EState.Stream, PackAll;
      var progressIn, progressOut := false, false;
      while true
        invariant Valid() && !mode.Idle? && Whole() == old(Whole()) && old(output) <= output
        invariant |output| + availOut == |old(output)| + old(availOut)
        invariant |input| <= |old(input)| && (mode != Running ==> availInExpect == |input|)
        invariant progressIn == (|input| < |old(input)|) && progressOut == (output != old(output))
        invariant mode.Running? ==> FullSince(old(closed), closed, blockSize100k)
        decreases |input|, Rank()
      {
        ghost var before := closed;
        if state == Output {
          var on, more := DrainHalf();
          progressOut := progressOut || more;
          if !on { break; }
          if mode == Flushing && availInExpect == 0 && rb.stateInCh == NONE { break; }
        }
        var on, more := FillHalf();
        if mode.Running? { FullTwice(old(closed), before, closed, blockSize100k); }
        progressIn := progressIn || more;
        if !on { break; }
      }
      progress := progressIn || progressOut;
    }

    /** The finished stream has been handed over, and its blocks hold all input taken. */
    ghost predicate Complete()
      reads this, rb, bs
    {
      && ended && mode.Idle? && input == [] && output == bs.zbits && 1 <= blockSize100k <= 9
      && Finished(rb.upd, blockSize100k, closed, output) && AllClosedOk(rb.upd, blockSize100k, closed)
      && AllData(closed) == consumed && WellCoded(rb.upd, closed)
    }

    lemma AtEnd()
      requires Valid() && ended && mode.Idle? && input == [] && stateOutPos == |bs.zbits|
      ensures Complete() && Whole() == consumed
    {
      hide Finished, WellCoded, AllClosedOk, AllCombined, AllData, BitStream.Valid, BitStream.Written, Begun,
           RunBuffer.Valid;
      assert rb.Data() == [];
      assert output == bs.zbits;
      assert consumed + [] == consumed;
    }

    /** A flush or a finish under way takes only its own action, with the input it was announced; an ended stream takes
        none. */
    predicate Refuses(action: Action)
      reads `mode, `availInExpect, `input
    {
      mode.Idle? || (mode.Flushing? && !(action.FLUSH? && availInExpect == |input|))
      || (mode.Finishing? && !(action.FINISH? && availInExpect == |input|))
    }

    /** BZ2_bzCompress. However the calls divide input and output, nothing is lost: what was taken and what
        is left are the input. STREAM_END comes exactly when the finished stream has been handed over, and
        FINISH_OK or FLUSH_OK only when the room for output ran out. RUN closes no block that is not full. */
    method BzCompress(action: Action) returns (r: Reply)
      requires Valid()
      modifies this, rb, bs
      ensures Valid() && Whole() == old(Whole()) && old(output) <= output &&
              |output| + availOut == |old(output)| + old(availOut)
      ensures r.StreamEnd? ==> Complete() && consumed == old(Whole())
      ensures r.FinishOk? ==> availOut == 0 && mode.Finishing?
      ensures r.FlushOk? ==> availOut == 0 && mode.Flushing?
      ensures r.RunOk? ==>
              mode.Running? &&
              (action.FLUSH? ==> input == [] && state.Input? && rb.stateInCh == NONE && output == bs.zbits)
      ensures r.RunOk? && action.RUN? ==> availOut == 0 || input == []
      ensures var left := |input| > 0 || rb.stateInCh != NONE || stateOutPos < |bs.zbits|;
              var progress := |input| < |old(input)| || output != old(output);
              if old(Refuses(action))
              then r.SequenceError? && mode == old(mode) && input == old(input) && output == old(output)
              else match action
                   case RUN => mode.Running? && r == if progress then RunOk else ParamError
                   case FLUSH => mode == (if left then Flushing else Running) && r == if left then FlushOk else RunOk
                   case FINISH =>
                     if !progress then mode.Finishing? && r.SequenceError?
                     else mode == (if left then Finishing else Idle) && r == if left then FinishOk else StreamEnd
      ensures action.RUN? && old(mode).Running? ==> FullSince(old(closed), closed, blockSize100k)
    {
      hide EState.Filling, EState.Blocks, EState.Stream, EState.Complete, FullSince;
      if mode == Idle { return SequenceError; }
      if mode == Running {
        if action == RUN {
          var progress := HandleCompress();
          return if progress then RunOk else ParamError;
        }
        availInExpect := |input|;
        mode := if action == FLUSH then Flushing else Finishing;
      }
      if mode == Flushing {
        if action != FLUSH || availInExpect != |input| { return SequenceError; }
        var progress := HandleCompress();
        if availInExpect > 0 || rb.stateInCh != NONE || stateOutPos < |bs.zbits| { return FlushOk; }
        mode := Running;
        return RunOk;
      }
      if action != FINISH || availInExpect != |input| { return SequenceError; }
      var progress := HandleCompress();
      if !progress { return SequenceError; }
      if availInExpect > 0 || rb.stateInCh != NONE || stateOutPos < |bs.zbits| { return FinishOk; }
      mode := Idle;
      AtEnd();
      return StreamEnd;
    }
  }

  lemma NextByte(taken: seq<Byte>, input: seq<Byte>, before: seq<Byte>, data: seq<Byte>)
    requires input != [] && taken == before + data
    ensures taken + [input[0]] == before + (data + [input[0]])
    ensures taken + [input[0]] + input[1..] == taken + input
  {
  }

  lemma Regroup(a: seq<Byte>, b: seq<Byte>, c: seq<Byte>)
    ensures a + (b + c) == a + b + c && a + b + ([] + c) == a + b + c && (b == [] ==> a + (b + c) == a + ([] + c))
  {
  }
}
