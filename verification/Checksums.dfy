/** The check values carried by the stream. The per-byte update is a parameter; finalising, and
    combining the values of the blocks, are the source's own arithmetic. */
module Checksums {
  import opened Bits

  type Word = w: nat | w < 0x1_0000_0000

  type Update = (Word, Byte) -> Word

  /** BZ_UPDATE_CRC over the bytes, from BZ_INITIALISE_CRC. */
  function Fold(upd: Update, s: seq<Byte>): Word {
    if s == [] then 0xffff_ffff else upd(Fold(upd, s[..|s| - 1]), s[|s| - 1])
  }

  lemma FoldNext(upd: Update, s: seq<Byte>, b: Byte)
    ensures Fold(upd, s + [b]) == upd(Fold(upd, s), b)
  {
    assert (s + [b])[..|s|] == s;
  }

  /** BZ_FINALISE_CRC */
  function Final(w: Word): Word { 0xffff_ffff - w }

  /** The combined check value so far, turned by one bit, and that of the next block laid over it. */
  function Combine(c: Word, b: Word): (r: Word) {
    var turned := (2 * c) % 0x1_0000_0000 + c / 0x8000_0000;
    XorWord(turned, b);
    BitXor(turned, b)
  }

  lemma XorWord(a: Word, b: Word)
    ensures BitXor(a, b) < 0x1_0000_0000
  {
    hide Shl, BitXor;
    Pow2Values();
    XorBelow(a, b, 32);
  }

  // ---- bit by bit ----

  lemma {:induction false} XorBits(a: nat, b: nat, n: nat, i: nat)
    requires i < n
    ensures BitsOf(BitXor(a, b), n)[i] == (BitsOf(a, n)[i] != BitsOf(b, n)[i])
    decreases n
  {
    if i < n - 1 { XorBits(a / 2, b / 2, n - 1, i); }
    XorHalves(a, b);
  }

  lemma XorHalves(a: nat, b: nat)
    ensures BitXor(a, b) / 2 == BitXor(a / 2, b / 2)
    ensures (BitXor(a, b) % 2 == 1) == ((a % 2 == 1) != (b % 2 == 1))
  {
    var x := BitXor(a / 2, b / 2);
    assert BitXor(a, b) == 2 * x + (a + b) % 2;
    hide BitXor;
    Odd(a, b);
  }

  lemma Odd(a: nat, b: nat)
    ensures ((a + b) % 2 == 1) == ((a % 2 == 1) != (b % 2 == 1))
  {
  }

  /** The highest bit comes round to the lowest place, and all others go up by one. */
  lemma TurnedBits(c: Word)
    ensures var turned := (2 * c) % 0x1_0000_0000 + c / 0x8000_0000;
            BitsOf(turned, 32) == BitsOf(c, 32)[1..] + BitsOf(c, 32)[..1]
  {
    hide BitsOf, Low, Shr;
    var top, low := c / 0x8000_0000, c % 0x8000_0000;
    var turned := (2 * c) % 0x1_0000_0000 + top;
    HighBit(c);
    assert turned == 2 * low + top && top <= 1;
    LastBit(turned, 31);
    BitsOfLow(c, 31);
    BitsOfSplit(c, 1, 31);
    LastBit(top, 0);
    assert BitsOf(0, 0) == [];
  }

  lemma LastBit(v: nat, n: nat)
    ensures BitsOf(v, n + 1) == BitsOf(v / 2, n) + [v % 2 == 1]
  {
  }

  lemma HighBit(c: Word)
    ensures Low(c, 31) == c % 0x8000_0000 && Shr(c, 31) == c / 0x8000_0000
  {
    hide Low, Shr;
    ShlShr(c, 31);
    HalfWord();
    ShlTimes(Shr(c, 31), 31);
  }

  lemma {:induction false} ShlTimes(v: nat, n: nat)
    ensures Shl(v, n) == v * Pow2(n)
  {
    if n > 0 {
      ShlTimes(v, n - 1);
      NextPow2(n - 1);
    }
  }

  /** Each bit of the combined value is that of the value so far one place further down, laid over by that of the block. */
  lemma CombineBits(c: Word, b: Word, i: nat)
    requires i < 32
    ensures BitsOf(Combine(c, b), 32)[i] == (BitsOf(c, 32)[(i + 1) % 32] != BitsOf(b, 32)[i])
  {
    hide BitsOf, BitXor;
    TurnedBits(c);
    XorBits((2 * c) % 0x1_0000_0000 + c / 0x8000_0000, b, 32, i);
  }

  /** Finalising turns every bit over. */
  lemma FinalBits(w: Word, i: nat)
    requires i < 32
    ensures BitsOf(Final(w), 32)[i] == !BitsOf(w, 32)[i]
  {
    Pow2Values();
    Complement(w, 32, i);
  }

  lemma {:induction false} Complement(w: nat, n: nat, i: nat)
    requires i < n && w < Pow2(n)
    ensures BitsOf(Pow2(n) - 1 - w, n)[i] == !BitsOf(w, n)[i]
    decreases n
  {
    hide Pow2;
    NextPow2(n - 1);
    assert (Pow2(n) - 1 - w) / 2 == Pow2(n - 1) - 1 - w / 2 && (Pow2(n) - 1 - w) % 2 == 1 - w % 2;
    if i < n - 1 { Complement(w / 2, n - 1, i); }
  }
}
