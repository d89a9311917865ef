/** Why the decoder machine returns: OK only with a block to output, and only after taking bits. */
module DecoderReturns {
  import opened Bits
  import opened ByteMaps
  import opened HuffmanCodes
  import opened MoveToFront
  import opened Decompressor
  import opened BlockRoundTrip

  /** A return with OK leaves the machine in its output state, holding a block; the end of the stream leaves it idle. */
  predicate OkIsOutput(o: Outcome) {
    && (o.Return? && o.code == Ok ==> o.d.state == Output && Valid(o.d) && |o.d.run.block| <= NblockMax(o.d))
    && (o.Return? && o.code == StreamEnd ==> o.d.state == Idle)
  }

  /** The magic lies behind: no answer is about it any more. */
  predicate PastMagic(o: Outcome) {
    if o.More? then !o.d.state.Magic? else o.code != DataErrorMagic
  }

  lemma {:induction false} NextSixteenReturns(d: Decoder, i: nat)
    requires SizeKnown(d) && |d.maps.inUse16| == 16 && |d.maps.inUse| == 256 && i <= 16
    ensures OkIsOutput(NextSixteen(d, i)) && PastMagic(NextSixteen(d, i))
    decreases 16 - i
  {
    hide InUseList;
    if i < 16 && !d.maps.inUse16[i] { NextSixteenReturns(d, i + 1); }
  }

  lemma TakeSymbolReturns(d: Decoder, sym: nat)
    requires MtfLive(d) && 2 <= sym < AlphaSize(d)
    ensures OkIsOutput(TakeSymbol(d, sym)) && PastMagic(TakeSymbol(d, sym))
  {
  }

  lemma SymbolReturns(d: Decoder, k: nat, sym: nat)
    requires SymbolLive(d, k) && sym < AlphaSize(d)
    ensures OkIsOutput(Symbol(d, k, sym)) && PastMagic(Symbol(d, k, sym))
  {
    hide StartSymbol, TakeSymbol, DecodeTables;
    if sym <= 1 {
      var d' := if k == 3 then d else d.(run := d.run.(es := -1, n := 1));
      RunDigitReturns(d', sym);
    } else if k == 3 {
      var count := d.run.es + 1;
      if |d.run.block| + count <= NblockMax(d) {
        var uc := d.maps.seqToUnseq[d.run.mtf[..NInUse(d)][0]];
        TakeSymbolReturns(d.(run := d.run.(block := d.run.block + seq(count, _ => uc))), sym);
      }
    } else {
      TakeSymbolReturns(d, sym);
    }
  }

  lemma RunDigitReturns(d: Decoder, sym: nat)
    requires RunLive(d) && sym <= 1
    ensures OkIsOutput(RunDigit(d, sym)) && PastMagic(RunDigit(d, sym))
  {
  }

  lemma WalkReturns(d: Decoder, k: nat)
    requires SymbolLive(d, k) && 1 <= d.grp.zn <= 21
    ensures OkIsOutput(Walk(d, k)) && PastMagic(Walk(d, k))
  {
    hide Symbol;
    if d.grp.zn <= 20 {
      var t := d.cod.tables[d.grp.gSel];
      var idx := d.grp.zvec - t.base[d.grp.zn];
      if d.grp.zvec <= t.limit[d.grp.zn] && 0 <= idx < MAX_ALPHA_SIZE {
        SlotFilled(d.cod.len[d.grp.gSel], d.grp.zn, d.grp.zvec);
        SymbolReturns(d, k, t.perm[idx]);
      }
    }
  }

  lemma CodingReturns(d: Decoder, v: nat)
    requires Valid(d) && d.state == Coding2
    ensures OkIsOutput(AfterCoding2(d, v)) && PastMagic(AfterCoding2(d, v))
  {
  }

  lemma MtfReturns(d: Decoder, k: nat, v: nat)
    requires Valid(d) && d.state == Mtf(k)
    ensures OkIsOutput(AfterMtf(d, k, v)) && PastMagic(AfterMtf(d, k, v))
  {
    hide Walk, DecodeTables, MinLen, OkIsOutput;
    if k % 2 == 1 {
      WalkReturns(d.(grp := d.grp.(zvec := v)), k);
    } else {
      WalkReturns(d.(grp := d.grp.(zvec := 2 * d.grp.zvec + v)), k - 1);
    }
  }

  lemma MappingReturns(d: Decoder, v: nat)
    requires Valid(d)
    ensures d.state == Mapping1 ==> OkIsOutput(AfterMapping1(d, v)) && PastMagic(AfterMapping1(d, v))
    ensures d.state == Mapping2 ==> OkIsOutput(AfterMapping2(d, v)) && PastMagic(AfterMapping2(d, v))
  {
    hide NextSixteen;
    var m := d.maps;
    if d.state == Mapping1 {
      var d' := d.(maps := m.(i := m.i + 1, inUse16 := m.inUse16 + [v == 1]));
      if d'.maps.i == 16 { NextSixteenReturns(d'.(maps := d'.maps.(inUse := seq(256, _ => false))), 0); }
    } else if d.state == Mapping2 {
      var d' := d.(maps := m.(j := m.j + 1, inUse := if v == 1 then m.inUse[m.i * 16 + m.j := true] else m.inUse));
      if d'.maps.j == 16 { NextSixteenReturns(d', m.i + 1); }
    }
  }

  lemma AdvanceReturns(d: Decoder, v: nat)
    requires Valid(d) && Waiting(d)
    ensures OkIsOutput(Advance(d, v)) && (!d.state.Magic? ==> PastMagic(Advance(d, v)))
  {
    hide AfterMtf, AfterMapping1, AfterMapping2, AfterCoding2, InUseList, DecodeTables, UndoSelectors;
    if d.state.Mtf? {
      MtfReturns(d, d.state.k, v);
    } else if d.state.Mapping1? || d.state.Mapping2? {
      MappingReturns(d, v);
    } else if d.state.Coding2? {
      CodingReturns(d, v);
    }
  }

  /** A whole run: bits are taken, and OK means output. */
  lemma {:induction false} RunReturns(o: Outcome, bits: seq<bool>)
    requires o.More? ==> Valid(o.d) && Waiting(o.d)
    requires OkIsOutput(o)
    ensures match Run(o, bits)
            case Stopped(d, code, rest) => OkIsOutput(Return(d, code)) && |rest| <= |bits| && (o.More? ==> |rest| < |bits|)
            case Blocked(d, rest) => |rest| <= |bits|
    ensures PastMagic(o) && Run(o, bits).Stopped? ==> Run(o, bits).code != DataErrorMagic
    decreases |bits|
  {
    hide Advance, Valid;
    if o.More? {
      var n := Need(o.d);
      if |bits| >= n {
        var v := ValueOf(bits[..n]);
        AdvanceReturns(o.d, v);
        RunReturns(Advance(o.d, v), bits[n..]);
      }
    }
  }
}
