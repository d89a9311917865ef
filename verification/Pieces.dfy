/** Runs of the decoder machine, cut into pieces that can be joined. */
module Pieces {
  import opened Bits
  import opened Decompressor

  predicate Live(o: Outcome) {
    o.More? ==> Valid(o.d) && Waiting(o.d)
  }

  /** From o, the bits take the machine to o', whatever follows them. */
  ghost predicate Takes(o: Outcome, bits: seq<bool>, o': Outcome) {
    Live(o) && Live(o') && forall rest :: Run(o, bits + rest) == Run(o', rest)
  }

  lemma TakesNothing(o: Outcome)
    requires Live(o)
    ensures Takes(o, [], o)
  {
    forall rest ensures Run(o, [] + rest) == Run(o, rest) {
      assert [] + rest == rest;
    }
  }

  lemma Chain(o: Outcome, a: seq<bool>, m: Outcome, b: seq<bool>, o': Outcome)
    requires Takes(o, a, m) && Takes(m, b, o')
    ensures Takes(o, a + b, o')
  {
    hide Run;
    forall rest ensures Run(o, a + b + rest) == Run(o', rest) {
      assert a + b + rest == a + (b + rest);
      assert Run(o, a + (b + rest)) == Run(m, b + rest);
    }
  }

  /** A field of the width the machine waits for advances it by the field's value. */
  lemma Step(d: Decoder, v: nat, n: nat)
    requires Valid(d) && Waiting(d) && n == Need(d) && v < Pow2(n)
    ensures Takes(More(d), BitsOf(v, n), Advance(d, v))
  {
    ValueOfBitsOf(v, n);
    LowSmall(v, n);
    forall rest ensures Run(More(d), BitsOf(v, n) + rest) == Run(Advance(d, v), rest) {
      var bits := BitsOf(v, n) + rest;
      assert bits[..n] == BitsOf(v, n) && bits[n..] == rest;
    }
  }

  lemma StepBit(d: Decoder, b: bool)
    requires Valid(d) && Waiting(d) && Need(d) == 1
    ensures Takes(More(d), [b], Advance(d, if b then 1 else 0))
  {
    var v := if b then 1 else 0;
    assert BitsOf(v, 1) == [b];
    Pow2Values();
    Step(d, v, 1);
  }

  lemma StepByte(d: Decoder, v: Byte)
    requires Valid(d) && Waiting(d) && Need(d) == 8
    ensures Takes(More(d), BitsOf(v, 8), Advance(d, v))
  {
    Pow2Values();
    Step(d, v, 8);
  }

  /** From o with the bits a still to come, the machine ends as from o' with the bits b still to come. */
  ghost predicate Leads(o: Outcome, a: seq<bool>, o': Outcome, b: seq<bool>) {
    Live(o) && Live(o') && forall rest :: Run(o, a + rest) == Run(o', b + rest)
  }

  lemma LeadsTo(o: Outcome, a: seq<bool>, o': Outcome, b: seq<bool>)
    requires Takes(o, a, o')
    ensures Leads(o, a + b, o', b)
  {
    hide Run;
    forall rest ensures Run(o, a + b + rest) == Run(o', b + rest) {
      assert a + b + rest == a + (b + rest);
    }
  }

  lemma LeadsOn(o: Outcome, a: seq<bool>, m: Outcome, b: seq<bool>, o': Outcome, c: seq<bool>)
    requires Leads(o, a, m, b) && Leads(m, b, o', c)
    ensures Leads(o, a, o', c)
  {
    hide Run;
  }

  lemma LeadsAll(o: Outcome, a: seq<bool>, o': Outcome)
    requires Leads(o, a, o', [])
    ensures Takes(o, a, o')
  {
    hide Run;
    forall rest ensures Run(o, a + rest) == Run(o', rest) {
      assert [] + rest == rest;
    }
  }
}
