/** The decoder machine on the coded symbols of a block. */
module SymbolRoundTrip {
  import opened Bits
  import opened HuffmanCodes
  import opened MoveToFront
  import opened Decompressor
  import opened BlockFormat
  import opened Pieces

  /** A block's symbols and their coding. */
  datatype Coded = Coded(plan: Plan, mtfv: seq<nat>, alphaSize: nat)

  predicate CodedOk(c: Coded) {
    PlanOk(c.plan, c.alphaSize, |c.mtfv|) && 3 <= c.alphaSize <= MAX_ALPHA_SIZE && AllBelow(c.mtfv, c.alphaSize)
  }

  /** The bits of the symbols from index i on. */
  function From(c: Coded, i: nat): seq<bool>
    requires CodedOk(c) && i <= |c.mtfv|
  {
    SymbolBits(c.plan, c.mtfv, c.alphaSize, i)
  }

  /** The decoder has read the tables of this coding. */
  predicate Agrees(d: Decoder, c: Coded) {
    MtfLive(d) && AlphaSize(d) == c.alphaSize && d.sel.selector == c.plan.selector && d.cod.len == c.plan.len
  }

  /** The decoder's place in the groups of fifty, with symbol i next. */
  predicate InStep(d: Decoder, c: Coded, i: nat) {
    var g := d.grp;
    if i % 50 == 0 then g.groupPos == 0 && g.groupNo == i / 50 - 1
    else g.groupPos == 50 - i % 50 && g.groupNo == i / 50 < |c.plan.selector| && g.gSel == c.plan.selector[i / 50]
  }

  predicate Ready(d: Decoder, c: Coded, i: nat, k: nat) {
    && CodedOk(c) && Agrees(d, c) && InStep(d, c, i) && i <= |c.mtfv|
    && (k == 1 || k == 3 || k == 5) && (k == 3 ==> RunLive(d))
  }

  // ---- one symbol ----

  lemma StepMtf(d: Decoder, v: nat, n: nat, k: nat)
    requires Valid(d) && d.state == Mtf(k) && n == Need(d) && v < Pow2(n)
    ensures Takes(More(d), BitsOf(v, n), AfterMtf(d, k, v))
  {
    hide Takes, AfterMtf, BitsOf;
    Step(d, v, n);
  }

  /** The last n + 1 bits of a code are one bit and the last n bits. */
  lemma NextBit(code: nat, n: nat)
    ensures BitsOf(code, n + 1) == BitsOf(Shr(code, n) % 2, 1) + BitsOf(code, n)
    ensures Shr(code, n) == 2 * Shr(code, n + 1) + Shr(code, n) % 2
  {
    BitsOfSplit(code, 1, n);
    ShrTwice(code, n, 1);
    var x := Shr(code, n);
    assert BitsOf(x, 1) == BitsOf(x / 2, 0) + [x % 2 == 1];
    assert BitsOf(x % 2, 1) == BitsOf(x % 2 / 2, 0) + [x % 2 % 2 == 1];
    assert Shr(x, 1) == x / 2;
  }

  predicate Walking(d: Decoder, k: nat, s: nat) {
    && SymbolLive(d, k)
    && var row := d.cod.len[d.grp.gSel];
       s < |row| && Lengths(row) && Fits(row) && |row| <= MAX_ALPHA_SIZE
       && 1 <= MinLen(row) <= d.grp.zn <= row[s]
       && d.grp.zvec == Shr(Code(row, s), row[s] - d.grp.zn)
  }

  /** The code word is complete: the walk yields the symbol. */
  lemma WalkEnds(d: Decoder, k: nat, s: nat)
    requires Walking(d, k, s) && d.grp.zn == d.cod.len[d.grp.gSel][s]
    ensures s < AlphaSize(d) && Walk(d, k) == Symbol(d, k, s)
  {
    hide Symbol, DecodeTables, Code;
    var row := d.cod.len[d.grp.gSel];
    WalkStopsAtSymbol(row, s, d.grp.zn);
  }

  /** The code word is not complete: the walk asks for one more bit. */
  lemma WalkAsks(d: Decoder, k: nat, s: nat)
    requires Walking(d, k, s) && d.grp.zn < d.cod.len[d.grp.gSel][s]
    ensures Walk(d, k) == More(d.(grp := d.grp.(zn := d.grp.zn + 1), state := Mtf(k + 1)))
  {
    hide Symbol, DecodeTables, Code;
    var row := d.cod.len[d.grp.gSel];
    WalkStopsAtSymbol(row, s, d.grp.zn);
  }

  /** One more bit of the code read, the walk goes on. */
  lemma WalksOn(d: Decoder, k: nat, s: nat, b: nat)
    requires Walking(d, k, s) && d.grp.zn < d.cod.len[d.grp.gSel][s]
    requires var row := d.cod.len[d.grp.gSel];
             2 * d.grp.zvec + b == Shr(Code(row, s), row[s] - d.grp.zn - 1)
    ensures Valid(d.(grp := d.grp.(zn := d.grp.zn + 1), state := Mtf(k + 1)))
    ensures Walking(d.(grp := d.grp.(zn := d.grp.zn + 1, zvec := 2 * d.grp.zvec + b), state := Mtf(k + 1)), k, s)
  {
    hide DecodeTables, Code, Shr, MinLen;
    assert d.cod.len[d.grp.gSel][s] <= 20;
  }

  /** With a prefix of the code of s read, the walk reads the rest of it and yields s. */
  lemma {:induction false} TakeWalk(d: Decoder, k: nat, s: nat) returns (d': Decoder)
    requires Walking(d, k, s)
    ensures d' == d.(grp := d.grp.(zn := d'.grp.zn, zvec := d'.grp.zvec), state := d'.state)
    ensures SymbolLive(d', k) && s < AlphaSize(d')
    ensures var row := d.cod.len[d.grp.gSel];
            Takes(Walk(d, k), BitsOf(Code(row, s), row[s] - d.grp.zn), Symbol(d', k, s))
    decreases d.cod.len[d.grp.gSel][s] - d.grp.zn
  {
    hide Takes, Symbol, DecodeTables, BitsOf, Code, Shr, Walk, Advance, MinLen;
    var row := d.cod.len[d.grp.gSel];
    var code, m := Code(row, s), row[s] - d.grp.zn;
    if m == 0 {
      d' := d;
      WalkEnds(d, k, s);
      TakesNothing(Symbol(d, k, s));
      assert BitsOf(code, 0) == [];
    } else {
      NextBit(code, m - 1);
      var b := Shr(code, m - 1) % 2;
      var d1 := d.(grp := d.grp.(zn := d.grp.zn + 1), state := Mtf(k + 1));
      var d2 := d1.(grp := d1.grp.(zvec := 2 * d.grp.zvec + b));
      WalkAsks(d, k, s);
      WalksOn(d, k, s, b);
      Pow2Values();
      StepMtf(d1, b, 1, k + 1);
      d' := TakeWalk(d2, k, s);
      Chain(More(d1), BitsOf(b, 1), Walk(d2, k), BitsOf(code, m - 1), Symbol(d', k, s));
    }
  }

  /** The decoder as StartSymbol leaves it waiting for symbol i. */
  function Awaiting(d: Decoder, c: Coded, i: nat, k: nat): Decoder
    requires Ready(d, c, i, k) && i < |c.mtfv|
  {
    var gSel := c.plan.selector[i / 50];
    d.(grp := Group(i / 50, 49 - i % 50, gSel, MinLen(c.plan.len[gSel]), 0), state := Mtf(k))
  }

  lemma StartsGroup(d: Decoder, c: Coded, i: nat, k: nat)
    requires Ready(d, c, i, k) && i < |c.mtfv|
    ensures StartSymbol(d, k) == More(Awaiting(d, c, i, k))
    ensures Valid(Awaiting(d, c, i, k)) && InStep(Awaiting(d, c, i, k), c, i + 1)
  {
    hide DecodeTables, MinLen;
    var gSel := c.plan.selector[i / 50];
    MinLenInRange(c.plan.len[gSel]);
    assert d.cod.tables[gSel].minLen == MinLen(c.plan.len[gSel]) by { MinLenOf(c.plan.len[gSel]); }
    NextGroup(i);
  }

  lemma MinLenOf(row: seq<nat>)
    ensures DecodeTables(row).minLen == MinLen(row)
  {
  }

  lemma NextGroup(i: nat)
    ensures if i % 50 == 49 then (i + 1) % 50 == 0 && (i + 1) / 50 == i / 50 + 1
            else (i + 1) % 50 == i % 50 + 1 && (i + 1) / 50 == i / 50
  {
  }

  /** The decoder just after reading symbol i. */
  lemma TakeOne(d: Decoder, c: Coded, i: nat, k: nat) returns (d': Decoder)
    requires Ready(d, c, i, k) && i < |c.mtfv|
    ensures d' == d.(grp := d'.grp, state := d'.state)
    ensures Ready(d', c, i + 1, k) && SymbolLive(d', k)
    ensures Leads(StartSymbol(d, k), From(c, i), Symbol(d', k, c.mtfv[i]), From(c, i + 1))
  {
    hide Takes, Leads, Symbol, DecodeTables, BitsOf, Code, Shr, Advance, StartSymbol, Walk, MinLen;
    var s := c.mtfv[i];
    var d1 := Awaiting(d, c, i, k);
    StartsGroup(d, c, i, k);
    var row := c.plan.len[d1.grp.gSel];
    var code, m := Code(row, s), MinLen(row);
    MinLenInRange(row);
    assert m <= row[s];
    CodeHead(row, s, m);
    var d2 := d1.(grp := d1.grp.(zvec := Shr(code, row[s] - m)));
    StepMtf(d1, Shr(code, row[s] - m), m, k);
    d' := TakeWalk(d2, k, s);
    Chain(More(d1), BitsOf(Shr(code, row[s] - m), m), Walk(d2, k), BitsOf(code, row[s] - m), Symbol(d', k, s));
    LeadsTo(More(d1), BitsOf(code, row[s]), Symbol(d', k, s), From(c, i + 1));
  }

  /** A code word is its first m bits and the rest. */
  lemma CodeHead(row: seq<nat>, s: nat, m: nat)
    requires s < |row| && Lengths(row) && Fits(row) && m <= row[s]
    ensures Shr(Code(row, s), row[s] - m) < Pow2(m)
    ensures BitsOf(Code(row, s), row[s]) == BitsOf(Shr(Code(row, s), row[s] - m), m) + BitsOf(Code(row, s), row[s] - m)
  {
    hide Code, BitsOf, Shr;
    CodeAboveShorterCodes(row, s, m);
    BitsOfSplit(Code(row, s), m, row[s] - m);
    ShrAtLeast(Code(row, s), row[s] - m, Pow2(m));
    ShlTwice(1, m, row[s] - m);
  }

  // ---- runs of the front byte ----

  /** How far the run counters are from the run's length: the digits of z are still to come. */
  predicate RunGoal(d: Decoder, z: nat, total: nat) {
    RunLive(d) && d.run.es + 1 + d.run.n * z == total
  }

  lemma DigitStep(es: int, n: nat, z: nat, total: nat)
    requires z >= 1 && n >= 1 && es >= -1 && es + 1 + n * z == total
    ensures n <= total
    ensures es + ((z - 1) % 2 + 1) * n + 1 + (n * 2) * ((z - 1) / 2) == total
  {
  }

  predicate Appended(d: Decoder, d': Decoder, more: seq<Byte>) {
    d' == d.(grp := d'.grp, run := d.run.(es := d'.run.es, n := d'.run.n, block := d.run.block + more), state := d'.state)
  }

  /** The symbols from i on begin with the digits of z and then sym. */
  predicate DigitsAt(c: Coded, i: nat, z: nat, sym: nat) {
    && i + |RunDigits(z)| < |c.mtfv|
    && c.mtfv[i..i + |RunDigits(z)|] == RunDigits(z) && c.mtfv[i + |RunDigits(z)|] == sym
  }

  lemma DigitsNext(c: Coded, i: nat, z: nat, sym: nat)
    requires z >= 1 && DigitsAt(c, i, z, sym)
    ensures c.mtfv[i] == (z - 1) % 2 && DigitsAt(c, i + 1, (z - 1) / 2, sym)
    ensures |RunDigits(z)| == 1 + |RunDigits((z - 1) / 2)|
  {
    var n := |RunDigits(z)|;
    assert c.mtfv[i..i + n][0] == c.mtfv[i];
    assert c.mtfv[i..i + n][1..] == c.mtfv[i + 1..i + n];
  }

  function Front(d: Decoder): Byte
    requires MtfLive(d)
  {
    d.maps.seqToUnseq[d.run.mtf[..NInUse(d)][0]]
  }

  /** One more digit of the run is read at label k. */
  lemma TakeDigit(d: Decoder, c: Coded, i: nat, k: nat, z: nat, total: nat, sym: nat) returns (d': Decoder)
    requires Ready(d, c, i, k) && DigitsAt(c, i, z, sym) && z >= 1
    requires RunGoal(if k == 3 then d else d.(run := d.run.(es := -1, n := 1)), z, total)
    requires total <= NblockMax(d)
    ensures Appended(d, d', []) && Ready(d', c, i + 1, 3)
    ensures RunGoal(d', (z - 1) / 2, total)
    ensures Leads(StartSymbol(d, k), From(c, i), StartSymbol(d', 3), From(c, i + 1))
  {
    hide Leads, StartSymbol, SymbolBits, RunDigits, DecodeTables, CodedOk;
    var d1 := TakeOne(d, c, i, k);
    DigitsNext(c, i, z, sym);
    var digit := c.mtfv[i];
    var d2 := if k == 3 then d1 else d1.(run := d1.run.(es := -1, n := 1));
    DigitStep(d2.run.es, d2.run.n, z, total);
    d' := d2.(run := d2.run.(es := d2.run.es + (digit + 1) * d2.run.n, n := d2.run.n * 2));
    assert d.run.block + [] == d.run.block;
    assert Symbol(d1, k, digit) == StartSymbol(d', 3);
  }

  /** The rest of a run, and the symbol that ends it. */
  lemma {:induction false} TakeRun(d: Decoder, c: Coded, i: nat, z: nat, total: nat, sym: nat) returns (d': Decoder)
    requires Ready(d, c, i, 3) && DigitsAt(c, i, z, sym) && RunGoal(d, z, total)
    requires 2 <= sym < AlphaSize(d) && |d.run.block| + total <= NblockMax(d)
    ensures Appended(d, d', seq(total, _ => Front(d))) && Ready(d', c, i + |RunDigits(z)| + 1, 1)
    ensures Leads(StartSymbol(d, 3), From(c, i), TakeSymbol(d', sym), From(c, i + |RunDigits(z)| + 1))
    decreases z
  {
    hide Leads, StartSymbol, SymbolBits, DecodeTables, TakeSymbol, CodedOk;
    if z == 0 {
      var d1 := TakeOne(d, c, i, 3);
      d' := d1.(run := d1.run.(block := d1.run.block + seq(total, _ => Front(d))));
      assert Symbol(d1, 3, sym) == TakeSymbol(d', sym);
    } else {
      DigitsNext(c, i, z, sym);
      var d1 := TakeDigit(d, c, i, 3, z, total, sym);
      d' := TakeRun(d1, c, i + 1, (z - 1) / 2, total, sym);
      assert d1.run.block == d.run.block;
      LeadsOn(StartSymbol(d, 3), From(c, i), StartSymbol(d1, 3), From(c, i + 1), TakeSymbol(d', sym),
          From(c, i + |RunDigits(z)| + 1));
    }
  }

  /** A possibly empty run, and the symbol that ends it. */
  lemma TakeRunThenSymbol(d: Decoder, c: Coded, i: nat, k: nat, z: nat, sym: nat) returns (d': Decoder)
    requires Ready(d, c, i, k) && k != 3 && DigitsAt(c, i, z, sym)
    requires 2 <= sym < AlphaSize(d) && |d.run.block| + z <= NblockMax(d)
    ensures Appended(d, d', seq(z, _ => Front(d))) && Ready(d', c, i + |RunDigits(z)| + 1, 1)
    ensures Leads(StartSymbol(d, k), From(c, i), TakeSymbol(d', sym), From(c, i + |RunDigits(z)| + 1))
  {
    hide Leads, StartSymbol, SymbolBits, DecodeTables, TakeSymbol, CodedOk;
    if z == 0 {
      d' := TakeOne(d, c, i, k);
      assert d.run.block + seq(z, _ => Front(d)) == d.run.block;
      assert Symbol(d', k, sym) == TakeSymbol(d', sym);
    } else {
      DigitsNext(c, i, z, sym);
      var d1 := TakeDigit(d, c, i, k, z, z, sym);
      d' := TakeRun(d1, c, i + 1, (z - 1) / 2, z, sym);
      assert d1.run.block == d.run.block;
      LeadsOn(StartSymbol(d, k), From(c, i), StartSymbol(d1, 3), From(c, i + 1), TakeSymbol(d', sym),
          From(c, i + |RunDigits(z)| + 1));
    }
  }
}
