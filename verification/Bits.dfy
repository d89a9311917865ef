/** Shifts and masks on naturals, fixed-width big-endian fields, and the view of bytes as bits. */
module Bits {

  type Byte = b: nat | b < 256

  /** v shifted up by n bits, without a width limit. */
  function Shl(v: nat, n: nat): nat {
    if n == 0 then v else 2 * Shl(v, n - 1)
  }

  /** v without its n low bits. */
  function Shr(v: nat, n: nat): nat {
    if n == 0 then v else Shr(v / 2, n - 1)
  }

  /** The n low bits of v. */
  function Low(v: nat, n: nat): nat {
    if n == 0 then 0 else 2 * Low(v / 2, n - 1) + v % 2
  }

  /** Two to the n. */
  function Pow2(n: nat): nat {
    Shl(1, n)
  }

  /** v as n bits, most significant first. */
  function BitsOf(v: nat, n: nat): (bs: seq<bool>)
    ensures |bs| == n
  {
    if n == 0 then [] else BitsOf(v / 2, n - 1) + [v % 2 == 1]
  }

  /** The number a bit string denotes, most significant bit first. */
  function ValueOf(bs: seq<bool>): nat {
    if bs == [] then 0 else 2 * ValueOf(bs[..|bs| - 1]) + if bs[|bs| - 1] then 1 else 0
  }

  // ---- shifts ----

  lemma {:induction false} ShlShr(v: nat, n: nat)
    ensures v == Shl(Shr(v, n), n) + Low(v, n) && Low(v, n) < Pow2(n)
  {
    if n > 0 { ShlShr(v / 2, n - 1); }
  }

  lemma {:induction false} ShlAdd(v: nat, w: nat, n: nat)
    ensures Shl(v + w, n) == Shl(v, n) + Shl(w, n)
  {
    if n > 0 { ShlAdd(v, w, n - 1); }
  }

  lemma {:induction false} ShlMonotone(v: nat, w: nat, n: nat)
    requires v <= w
    ensures Shl(v, n) <= Shl(w, n)
  {
    if n > 0 { ShlMonotone(v, w, n - 1); }
  }

  lemma {:induction false} ShlTwice(v: nat, m: nat, n: nat)
    ensures Shl(Shl(v, m), n) == Shl(v, m + n)
  {
    if n > 0 { ShlTwice(v, m, n - 1); }
  }

  lemma {:induction false} ShrTwice(v: nat, m: nat, n: nat)
    ensures Shr(Shr(v, m), n) == Shr(v, m + n)
  {
    if m > 0 { ShrTwice(v / 2, m - 1, n); }
  }

  /** Shifting back out what was shifted in. */
  lemma {:induction false} ShrOfSum(v: nat, w: nat, n: nat)
    requires w < Pow2(n)
    ensures Shr(Shl(v, n) + w, n) == v && Low(Shl(v, n) + w, n) == w
  {
    if n > 0 {
      assert (Shl(v, n) + w) / 2 == Shl(v, n - 1) + w / 2;
      ShrOfSum(v, w / 2, n - 1);
    }
  }

  /** Shifting down compares with k as v does with k shifted up. */
  lemma ShrAtLeast(v: nat, n: nat, k: nat)
    ensures Shr(v, n) >= k <==> v >= Shl(k, n)
  {
  }

  lemma {:induction false} Pow2Monotone(m: nat, n: nat)
    requires m <= n
    ensures Pow2(m) <= Pow2(n)
  {
    if m < n { Pow2Monotone(m, n - 1); }
  }

  lemma {:induction false} Pow2Positive(n: nat)
    ensures Pow2(n) >= 1
  {
    if n > 0 { Pow2Positive(n - 1); }
  }

  lemma Pow2Values()
    ensures Pow2(1) == 2 && Pow2(2) == 4 && Pow2(3) == 8 && Pow2(4) == 16 && Pow2(5) == 32
    ensures Pow2(8) == 256 && Pow2(15) == 32768 && Pow2(16) == 65536 && Pow2(24) == 0x1000000 && Pow2(32) == 0x1_0000_0000
  {
  }

  lemma HalfWord()
    ensures Pow2(31) == 0x8000_0000
  {
    Pow2Values();
    NextPow2(31);
  }

  lemma NextPow2(n: nat)
    ensures Pow2(n + 1) == 2 * Pow2(n)
  {
  }

  lemma ShlEight(v: nat)
    ensures Shl(v, 8) == 256 * v
  {
    assert Shl(v, 1) == 2 * v;
    assert Shl(v, 2) == 4 * v;
    assert Shl(v, 3) == 8 * v;
    assert Shl(v, 4) == 16 * v;
    assert Shl(v, 5) == 32 * v;
    assert Shl(v, 6) == 64 * v;
    assert Shl(v, 7) == 128 * v;
  }

  // ---- and, or, exclusive or ----

  /** a | b on naturals. */
  function BitOr(a: nat, b: nat): nat {
    if a == 0 && b == 0 then 0
    else 2 * BitOr(a / 2, b / 2) + (if a % 2 == 1 || b % 2 == 1 then 1 else 0)
  }

  lemma {:induction false} OrZero(a: nat)
    ensures BitOr(a, 0) == a
  {
    if a > 0 { OrZero(a / 2); }
  }

  /** Or-ing into the empty low bits of a number adds. */
  lemma {:induction false} OrDisjoint(x: nat, k: nat, b: nat)
    requires b < Pow2(k)
    ensures BitOr(Shl(x, k), b) == Shl(x, k) + b
    decreases k
  {
    if k == 0 {
      OrZero(x);
    } else if x == 0 && b == 0 {
      ShlZero(k);
    } else {
      var a := Shl(x, k);
      assert a / 2 == Shl(x, k - 1) && a % 2 == 0;
      OrDisjoint(x, k - 1, b / 2);
    }
  }

  lemma {:induction false} ShlZero(k: nat)
    ensures Shl(0, k) == 0
  {
    if k > 0 { ShlZero(k - 1); }
  }

  /** The bits that both have. */
  function And(h: nat, m: nat): (r: nat)
    ensures r <= m
  {
    if h == 0 || m == 0 then 0 else 2 * And(h / 2, m / 2) + (if h % 2 == 1 && m % 2 == 1 then 1 else 0)
  }

  lemma {:induction false} AndMask(h: nat, k: nat)
    ensures Pow2(k) >= 1 && And(h, Pow2(k) - 1) == Low(h, k)
    decreases k
  {
    Pow2Positive(k);
    if k > 0 {
      Pow2Positive(k - 1);
      AndMask(h / 2, k - 1);
      assert (Pow2(k) - 1) / 2 == Pow2(k - 1) - 1 && (Pow2(k) - 1) % 2 == 1;
      if h == 0 { LowZero(k); }
    }
  }

  lemma {:induction false} LowZero(k: nat)
    ensures Low(0, k) == 0
  {
    if k > 0 { LowZero(k - 1); }
  }

  /** a ^ b on naturals. */
  function BitXor(a: nat, b: nat): nat {
    if a == 0 && b == 0 then 0 else 2 * BitXor(a / 2, b / 2) + (a + b) % 2
  }

  lemma {:induction false} XorBelow(a: nat, b: nat, n: nat)
    requires a < Pow2(n) && b < Pow2(n)
    ensures BitXor(a, b) < Pow2(n)
    decreases n
  {
    if n > 0 && !(a == 0 && b == 0) { XorBelow(a / 2, b / 2, n - 1); }
    if a == 0 && b == 0 { Pow2Positive(n); }
  }

  // ---- fields ----

  lemma {:induction false} ValueOfBitsOf(v: nat, n: nat)
    ensures ValueOf(BitsOf(v, n)) == Low(v, n)
  {
    if n > 0 {
      ValueOfBitsOf(v / 2, n - 1);
      assert BitsOf(v, n)[..n - 1] == BitsOf(v / 2, n - 1);
    }
  }

  lemma {:induction false} LowSmall(v: nat, n: nat)
    requires v < Pow2(n)
    ensures Low(v, n) == v
  {
    if n > 0 { LowSmall(v / 2, n - 1); }
  }

  lemma {:induction false} BitsOfValueOf(bs: seq<bool>)
    ensures ValueOf(bs) < Pow2(|bs|) && BitsOf(ValueOf(bs), |bs|) == bs
  {
    if bs != [] {
      BitsOfValueOf(bs[..|bs| - 1]);
      assert bs == bs[..|bs| - 1] + [bs[|bs| - 1]];
    }
  }

  /** A field splits into its high and low parts. */
  lemma {:induction false} ValueOfConcat(a: seq<bool>, b: seq<bool>)
    ensures ValueOf(a + b) == Shl(ValueOf(a), |b|) + ValueOf(b)
    decreases |b|
  {
    if b == [] {
      assert a + b == a;
    } else {
      assert (a + b)[..|a + b| - 1] == a + b[..|b| - 1];
      ValueOfConcat(a, b[..|b| - 1]);
    }
  }

  lemma {:induction false} BitsOfSplit(v: nat, m: nat, n: nat)
    ensures BitsOf(v, m + n) == BitsOf(Shr(v, n), m) + BitsOf(v, n)
  {
    if n > 0 {
      BitsOfSplit(v / 2, m, n - 1);
      assert m + n - 1 == m + (n - 1);
    } else {
      assert BitsOf(v, m) + [] == BitsOf(v, m);
    }
  }

  /** Bits at and above position n of the number do not show in its n-bit field. */
  lemma {:induction false} BitsOfLow(v: nat, n: nat)
    ensures BitsOf(Low(v, n), n) == BitsOf(v, n)
  {
    if n > 0 { BitsOfLow(v / 2, n - 1); }
  }

  /** The bits of a byte string, in the order the stream carries them. */
  function BytesToBits(bytes: seq<Byte>): (bs: seq<bool>)
    ensures |bs| == 8 * |bytes|
  {
    if bytes == [] then [] else BytesToBits(bytes[..|bytes| - 1]) + BitsOf(bytes[|bytes| - 1], 8)
  }

  lemma {:induction false} BytesToBitsConcat(a: seq<Byte>, b: seq<Byte>)
    ensures BytesToBits(a + b) == BytesToBits(a) + BytesToBits(b)
  {
    if b == [] {
      assert a + b == a;
    } else {
      BytesToBitsConcat(a, b[..|b| - 1]);
      assert (a + b)[..|a + b| - 1] == a + b[..|b| - 1];
    }
  }
}
