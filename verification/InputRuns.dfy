/** The run-length stage of the compressor: ADD_CHAR_TO_BLOCK, add_pair_to_block and flush_RL. */
module InputRuns {
  import opened Bits
  import opened Checksums
  import opened RunLength
  import opened BlockCompressor

  const NONE := 256

  /** The open block packs the runs, marks their bytes, and has their check value. */
  ghost predicate Open(upd: Update, runs: seq<Pair>, block: seq<Byte>, inUse: seq<bool>, crc: Word) {
    RunsOk(runs) && block == PackAll(runs) && Marked(inUse, block) && crc == Fold(upd, Unpacked(runs))
  }

  /** The run not yet in the block. */
  ghost predicate Held(runs: seq<Pair>, ch: nat, len: nat) {
    if ch < 256 then 1 <= len <= 255 && (runs != [] ==> Joint(runs[|runs| - 1], Pair(ch, len))) else ch == NONE && len == 0
  }

  function HeldData(ch: nat, len: nat): seq<Byte> {
    if ch < 256 then Repeat(ch, len) else []
  }

  /** inUse after a run went into the block. */
  function Mark(inUse: seq<bool>, p: Pair): (r: seq<bool>)
    requires |inUse| == 256 && PairOk(p)
    ensures |r| == 256
  {
    var m := inUse[p.ch := true];
    if p.len >= 4 then m[p.len - 4 := true] else m
  }

  lemma MarkedAppend(inUse: seq<bool>, block: seq<Byte>, p: Pair)
    requires Marked(inUse, block) && PairOk(p)
    ensures Marked(Mark(inUse, p), block + Packed(p))
  {
    var m, more := Mark(inUse, p), block + Packed(p);
    forall b: Byte | m[b] ensures b in more {
      if inUse[b] {
        assert b in block;
      } else {
        assert b == Packed(p)[0] || (p.len >= 4 && b == Packed(p)[4]);
      }
    }
  }

  lemma {:induction false} FoldRepeat(upd: Update, s: seq<Byte>, ch: Byte, n: nat)
    ensures Fold(upd, s + Repeat(ch, n + 1)) == upd(Fold(upd, s + Repeat(ch, n)), ch)
  {
    assert s + Repeat(ch, n + 1) == (s + Repeat(ch, n)) + [ch];
    FoldNext(upd, s + Repeat(ch, n), ch);
  }

  /** The held run joins the block. */
  lemma OpenAppend(upd: Update, runs: seq<Pair>, block: seq<Byte>, inUse: seq<bool>, crc: Word, p: Pair, crc': Word)
    requires Open(upd, runs, block, inUse, crc) && PairOk(p) && (runs != [] ==> Joint(runs[|runs| - 1], p))
    requires crc' == Fold(upd, Unpacked(runs) + Repeat(p.ch, p.len))
    ensures Open(upd, runs + [p], block + Packed(p), Mark(inUse, p), crc')
  {
    hide Fold, Packed, Unpacked, Repeat, Marked, Mark;
    MarkedAppend(inUse, block, p);
    PackAllAppend(runs, p);
    UnpackedAppend(runs, p);
    RunsOkAppend(runs, p);
  }

  lemma OpenNew(upd: Update)
    ensures Open(upd, [], [], seq(256, _ => false), 0xffff_ffff)
  {
  }

  /** The block being filled, with the run held back. */
  class RunBuffer {
    const upd: Update
    var block: seq<Byte>
    var inUse: seq<bool>
    var blockCRC: Word
    var stateInCh: nat
    var stateInLen: nat
    /** The runs in the block. */
    ghost var runs: seq<Pair>

    ghost predicate Valid()
      reads this
    {
      Open(upd, runs, block, inUse, blockCRC) && Held(runs, stateInCh, stateInLen)
    }

    /** All input taken since the block was opened, and the run held from before. */
    ghost function Data(): seq<Byte>
      reads this
    {
      Unpacked(runs) + HeldData(stateInCh, stateInLen)
    }

    constructor (upd: Update)
      ensures Valid() && this.upd == upd && Data() == [] && block == [] && runs == [] && stateInCh == NONE
    {
      this.upd := upd;
      block, inUse, blockCRC := [], seq(256, _ => false), 0xffff_ffff;
      stateInCh, stateInLen := NONE, 0;
      runs := [];
      new;
      OpenNew(upd);
    }

    /** prepare_new_block: the held run stays. */
    method Prepare()
      modifies this
      requires Held([], stateInCh, stateInLen)
      ensures Valid() && block == [] && runs == [] && stateInCh == old(stateInCh) && stateInLen == old(stateInLen)
    {
      hide Open, Held;
      block, inUse, blockCRC := [], seq(256, _ => false), 0xffff_ffff;
      runs := [];
      OpenNew(upd);
    }

    /** The check value over the held run. */
    method UpdateCrc(ghost s: seq<Byte>)
      requires stateInCh < 256 && blockCRC == Fold(upd, s)
      modifies `blockCRC
      ensures blockCRC == Fold(upd, s + Repeat(stateInCh, stateInLen))
    {
      hide Fold, Repeat;
      var i := 0;
      NoRepeat(stateInCh);
      assert s + [] == s;
      while i < stateInLen
        invariant 0 <= i <= stateInLen && blockCRC == Fold(upd, s + Repeat(stateInCh, i))
      {
        FoldRepeat(upd, s, stateInCh, i);
        blockCRC := upd(blockCRC, stateInCh);
        i := i + 1;
      }
    }

    /** The switch of add_pair_to_block. */
    method AppendPair()
      requires stateInCh < 256 && PairOk(Pair(stateInCh, stateInLen)) && |inUse| == 256
      modifies `block, `inUse
      ensures block == old(block) + Packed(Pair(stateInCh, stateInLen)) &&
              inUse == Mark(old(inUse), Pair(stateInCh, stateInLen))
    {
      var ch: Byte := stateInCh;
      inUse := inUse[ch := true];
      if stateInLen == 1 {
        block := block + [ch];
      } else if stateInLen == 2 {
        block := block + [ch];
        block := block + [ch];
      } else if stateInLen == 3 {
        block := block + [ch];
        block := block + [ch];
        block := block + [ch];
      } else {
        inUse := inUse[stateInLen - 4 := true];
        block := block + [ch];
        block := block + [ch];
        block := block + [ch];
        block := block + [ch];
        block := block + [stateInLen - 4];
      }
    }

    /** add_pair_to_block */
    method AddPairToBlock()
      requires Valid() && stateInCh < 256
      modifies `block, `inUse, `blockCRC, `runs
      ensures Open(upd, runs, block, inUse, blockCRC) && runs == old(runs) + [Pair(stateInCh, stateInLen)]
      ensures |old(block)| < |block| <= |old(block)| + 5
      ensures Unpacked(runs) == old(Data())
    {
      hide Open, Fold, Packed, Unpacked, Repeat, Mark, Joint;
      ghost var p := Pair(stateInCh, stateInLen);
      OpenFacts(upd, runs, block, inUse, blockCRC);
      UpdateCrc(Unpacked(runs));
      AppendPair();
      OpenAppend(upd, runs, old(block), old(inUse), old(blockCRC), p, blockCRC);
      UnpackedAppend(runs, p);
      runs := runs + [p];
    }

    /** flush_RL */
    method FlushRL()
      requires Valid()
      modifies this
      ensures Valid() && Data() == old(Data()) && Unpacked(runs) == Data() && stateInCh == NONE
      ensures |old(block)| <= |block| <= |old(block)| + 5
    {
      hide Open, Unpacked, Repeat, Joint, Fold;
      if stateInCh < 256 { AddPairToBlock(); }
      stateInCh, stateInLen := NONE, 0;
      assert Unpacked(runs) + [] == Unpacked(runs);
    }

    /** The fast track of ADD_CHAR_TO_BLOCK: a held single byte and a different one. */
    method AddSingle(zchh: Byte)
      requires Valid() && zchh != stateInCh && stateInLen == 1
      modifies this
      ensures Valid() && Data() == old(Data()) + [zchh] && stateInCh < 256
      ensures |block| == |old(block)| + 1
    {
      hide Open, Unpacked, Fold, Mark, Repeat;
      ghost var p := Pair(stateInCh, 1);
      ghost var crc0 := blockCRC;
      OpenFacts(upd, runs, block, inUse, blockCRC);
      var ch: Byte := stateInCh;
      FoldNext(upd, Unpacked(runs), ch);
      OneCopy(ch);
      OneCopy(zchh);
      blockCRC := upd(blockCRC, ch);
      inUse := inUse[ch := true];
      block := block + [ch];
      OnlyMark(old(inUse), p);
      OpenAppend(upd, runs, old(block), old(inUse), crc0, p, blockCRC);
      UnpackedAppend(runs, p);
      runs := runs + [p];
      stateInCh := zchh;
    }

    /** ADD_CHAR_TO_BLOCK */
    method AddChar(zchh: Byte)
      requires Valid() && (stateInCh == NONE ==> runs == [])
      modifies this
      ensures Valid() && Data() == old(Data()) + [zchh] && stateInCh < 256
      ensures |old(block)| <= |block| <= |old(block)| + 5
    {
      hide Open, Unpacked, Fold, Mark, Repeat;
      if zchh != stateInCh && stateInLen == 1 {
        AddSingle(zchh);
      } else if zchh != stateInCh || stateInLen == 255 {
        if stateInCh < 256 {
          AddPairToBlock();
        } else {
          assert Unpacked(runs) == Data() by { assert Unpacked(runs) + [] == Unpacked(runs); }
        }
        stateInCh, stateInLen := zchh, 1;
        OneCopy(zchh);

      } else {
        OneMore(stateInCh, stateInLen);
        stateInLen := stateInLen + 1;
      }
    }
  }

  lemma NoRepeat(ch: Byte)
    ensures Repeat(ch, 0) == []
  {
  }

  lemma OneCopy(ch: Byte)
    ensures Repeat(ch, 1) == [ch] == Packed(Pair(ch, 1))
  {
  }

  lemma OneMore(ch: Byte, n: nat)
    ensures Repeat(ch, n + 1) == Repeat(ch, n) + [ch]
  {
  }

  lemma OnlyMark(inUse: seq<bool>, p: Pair)
    requires |inUse| == 256 && PairOk(p) && p.len < 4
    ensures Mark(inUse, p) == inUse[p.ch := true]
  {
  }

  lemma OpenFacts(upd: Update, runs: seq<Pair>, block: seq<Byte>, inUse: seq<bool>, crc: Word)
    requires Open(upd, runs, block, inUse, crc)
    ensures |inUse| == 256 && crc == Fold(upd, Unpacked(runs)) && block == PackAll(runs)
  {
  }
}
