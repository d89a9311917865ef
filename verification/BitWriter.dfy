/** The compressor's bit buffer: 32 bits filled from the top, drained a byte at a time. */
module BitWriter {
  import opened Bits

  /** bsBuff holds the live bits of x at its top. */
  predicate Holds(bsBuff: nat, bsLive: nat, x: nat) {
    bsLive <= 32 && x < Pow2(bsLive) && bsBuff == Shl(x, 32 - bsLive)
  }

  lemma HoldsValue(bsBuff: nat, bsLive: nat, x: nat)
    requires Holds(bsBuff, bsLive, x)
    ensures Shr(bsBuff, 32 - bsLive) == x && bsBuff < 0x1_0000_0000
  {
    Pow2Positive(32 - bsLive);
    ShrOfSum(x, 0, 32 - bsLive);
    ShlMonotone(x + 1, Pow2(bsLive), 32 - bsLive);
    ShlAdd(x, 1, 32 - bsLive);
    ShlTwice(1, bsLive, 32 - bsLive);
    Pow2Values();
  }

  /** Draining the top byte. */
  lemma TopByte(bsBuff: nat, bsLive: nat, x: nat) returns (x': nat)
    requires Holds(bsBuff, bsLive, x) && bsLive >= 8
    ensures Shr(bsBuff, 24) < 256
    ensures Holds(Low(Shl(bsBuff, 8), 32), bsLive - 8, x')
    ensures BitsOf(x, bsLive) == BitsOf(Shr(bsBuff, 24), 8) + BitsOf(x', bsLive - 8)
  {
    hide BitsOf, Low, Shl, Shr;
    var n := bsLive - 8;
    var k := 32 - bsLive;
    x' := Low(x, n);
    var h := Shr(x, n);
    // the byte
    HoldsValue(bsBuff, bsLive, x);
    ShrTwice(bsBuff, k, n);
    assert Shr(bsBuff, 24) == h;
    ByteBelow(x, n);
    // what remains
    ShlShr(x, n);
    ShlTwice(x, k, 8);
    ShlAdd(Shl(h, n), x', k + 8);
    ShlTwice(h, n, k + 8);
    assert Shl(bsBuff, 8) == Shl(h, 32) + Shl(x', k + 8);
    assert Shl(x', k + 8) < Pow2(32) by {
      Pow2Positive(k + 8);
      ShlMonotone(x' + 1, Pow2(n), k + 8);
      ShlAdd(x', 1, k + 8);
      ShlTwice(1, n, k + 8);
    }
    ShrOfSum(h, Shl(x', k + 8), 32);
    BitsOfSplit(x, 8, n);
    BitsOfLow(x, n);
  }

  lemma ByteBelow(x: nat, n: nat)
    requires x < Pow2(n + 8)
    ensures Shr(x, n) < 256
  {
    ShrAtLeast(x, n, 256);
    ShlTwice(1, 8, n);
    Pow2Values();
  }

  /** Or-ing v in just below the live bits. */
  lemma Insert(bsBuff: nat, bsLive: nat, x: nat, n: nat, v: nat)
    requires Holds(bsBuff, bsLive, x) && v < Pow2(n) && bsLive + n <= 32
    ensures Holds(BitOr(bsBuff, Shl(v, 32 - bsLive - n)), bsLive + n, Shl(x, n) + v)
    ensures BitsOf(Shl(x, n) + v, bsLive + n) == BitsOf(x, bsLive) + BitsOf(v, n)
  {
    hide BitsOf, Shl, BitOr;
    var k := 32 - bsLive - n;
    // no carry
    Pow2Positive(k);
    ShlMonotone(v + 1, Pow2(n), k);
    ShlAdd(v, 1, k);
    ShlTwice(1, n, k);
    assert Shl(v, k) < Pow2(n + k);
    OrDisjoint(x, n + k, Shl(v, k));
    ShlTwice(x, n, k);
    ShlAdd(Shl(x, n), v, k);
    // size
    ShlMonotone(x + 1, Pow2(bsLive), n);
    ShlAdd(x, 1, n);
    ShlTwice(1, bsLive, n);
    // bits
    ShrOfSum(x, v, n);
    BitsOfSplit(Shl(x, n) + v, bsLive, n);
    BitsOfLow(Shl(x, n) + v, n);
  }

  class BitStream {
    /** zbits[..numZ] */
    var zbits: seq<Byte>
    var bsBuff: nat
    var bsLive: int

    ghost predicate Valid()
      reads this
    {
      0 <= bsLive <= 31 && Holds(bsBuff, bsLive, Pending())
    }

    ghost function Pending(): nat
      reads this
    {
      if 0 <= bsLive <= 32 then Shr(bsBuff, 32 - bsLive) else 0
    }

    /** Every bit written so far. */
    ghost function Written(): seq<bool>
      reads this
      requires Valid()
    {
      BytesToBits(zbits) + BitsOf(Pending(), bsLive)
    }

    /** BZ2_bsInitWrite on a fresh output area. */
    constructor ()
      ensures Valid() && Written() == [] && zbits == []
    {
      zbits, bsBuff, bsLive := [], 0, 0;
      new;
      ShlZero(32);
      Pow2Positive(32);
      ShrOfSum(0, 0, 32);
    }

    /** One turn of the draining loops. */
    method DrainByte()
      requires Valid() && bsLive >= 8
      modifies this
      ensures Valid() && bsLive == old(bsLive) - 8
      ensures Written() == old(Written())
      ensures zbits == old(zbits) + [zbits[|zbits| - 1]]
    {
      hide Shl, Shr, Low, BitsOf;
      HoldsValue(bsBuff, bsLive, Pending());
      ghost var x' := TopByte(bsBuff, bsLive, Pending());
      var b: Byte := Shr(bsBuff, 24);
      BytesToBitsConcat(zbits, [b]);
      assert BytesToBits([b]) == BitsOf(b, 8) by { OneByte(b); }
      zbits := zbits + [b];
      bsBuff := Low(Shl(bsBuff, 8), 32);
      bsLive := bsLive - 8;
      HoldsValue(bsBuff, bsLive, x');
    }

    /** bsNEEDW */
    method NeedW()
      requires Valid()
      modifies this
      ensures Valid() && bsLive <= 7 && bsLive == old(bsLive) % 8
      ensures Written() == old(Written())
      ensures old(zbits) <= zbits
    {
      hide Holds, BytesToBits, BitsOf, Shr;
      while bsLive >= 8
        invariant Valid() && Written() == old(Written()) && old(zbits) <= zbits
        invariant bsLive % 8 == old(bsLive) % 8
      {
        DrainByte();
      }
    }

    /** bsW: appends the n low bits of v. */
    method W(n: nat, v: nat)
      requires Valid() && n <= 24 && v < Pow2(n)
      modifies this
      ensures Valid() && Written() == old(Written()) + BitsOf(v, n)
      ensures old(zbits) <= zbits
    {
      hide Shl, Shr, BitOr, BitsOf;
      NeedW();
      label drained:
      ghost var x := Pending();
      Insert(bsBuff, bsLive, x, n, v);
      bsBuff := BitOr(bsBuff, Shl(v, 32 - bsLive - n));
      bsLive := bsLive + n;
      HoldsValue(bsBuff, bsLive, Shl(x, n) + v);
      assert BytesToBits(zbits) + (BitsOf(x, bsLive - n) + BitsOf(v, n)) ==
          BytesToBits(zbits) + BitsOf(x, bsLive - n) + BitsOf(v, n);
    }

    /** bsFinishWrite: the last bits go out in a byte padded with zeros; bsLive may end below zero. */
    method FinishWrite()
      requires Valid()
      modifies this
      ensures -8 < bsLive <= 0 && BytesToBits(zbits) == old(Written()) + Zeros(-bsLive)
      ensures old(zbits) <= zbits
    {
      hide Shl, Shr, Low, BitsOf;
      assert BytesToBits(zbits) + BitsOf(Pending(), bsLive) + Zeros(0) == Written();
      while bsLive > 0
        invariant bsLive >= 0 ==> Valid() && Written() == old(Written())
        invariant -8 < bsLive < 0 || bsLive >= 0
        invariant bsLive < 0 ==> BytesToBits(zbits) == old(Written()) + Zeros(-bsLive)
        invariant old(zbits) <= zbits
      {
        if bsLive >= 8 {
          DrainByte();
        } else {
          LastByte(bsBuff, bsLive, Pending());
          var b: Byte := Shr(bsBuff, 24);
          BytesToBitsConcat(zbits, [b]);
          OneByte(b);
          zbits := zbits + [b];
          bsBuff := Low(Shl(bsBuff, 8), 32);
          bsLive := bsLive - 8;
        }
      }
      assert bsLive == 0 ==> BitsOf(Pending(), 0) == [] && BytesToBits(zbits) + [] == BytesToBits(zbits) + Zeros(0);
    }
  }

  function Zeros(n: nat): (r: seq<bool>)
    ensures |r| == n
  {
    seq(n, _ => false)
  }

  lemma OneByte(b: Byte)
    ensures BytesToBits([b]) == BitsOf(b, 8)
  {
  }

  lemma {:induction false} BitsOfZero(n: nat)
    ensures BitsOf(0, n) == Zeros(n)
  {
    if n > 0 { BitsOfZero(n - 1); }
  }

  /** Fewer than eight live bits leave as a byte padded with zeros. */
  lemma LastByte(bsBuff: nat, bsLive: nat, x: nat)
    requires Holds(bsBuff, bsLive, x) && bsLive < 8
    ensures Shr(bsBuff, 24) < 256
    ensures BitsOf(Shr(bsBuff, 24), 8) == BitsOf(x, bsLive) + Zeros(8 - bsLive)
  {
    hide BitsOf, Shl, Shr;
    var k := 8 - bsLive;
    Pow2Positive(k);
    Pow2Positive(24);
    ShlTwice(x, k, 24);
    ShrOfSum(Shl(x, k), 0, 24);
    assert Shr(bsBuff, 24) == Shl(x, k);
    ShlMonotone(x + 1, Pow2(bsLive), k);
    ShlAdd(x, 1, k);
    ShlTwice(1, bsLive, k);
    Pow2Values();
    ShrOfSum(x, 0, k);
    BitsOfSplit(Shl(x, k), bsLive, k);
    BitsOfLow(Shl(x, k), k);
    BitsOfZero(k);
  }
}
