/** Words read backwards: rev of dict.c, and the order in which its scan cursor runs. */
module ReverseBits {
  import opened Bits
  import opened BitWriter
  import opened DictTables

  const WORD := 0x1_0000_0000_0000_0000

  function Mirror(bs: seq<bool>): (r: seq<bool>)
    ensures |r| == |bs| && forall i :: 0 <= i < |bs| ==> r[i] == bs[|bs| - 1 - i]
  {
    seq(|bs|, i requires 0 <= i < |bs| => bs[|bs| - 1 - i])
  }

  /** The n low bits of v, the lowest first. */
  function Rev(v: nat, n: nat): nat {
    ValueOf(Mirror(BitsOf(v, n)))
  }

  lemma RevBelow(v: nat, n: nat)
    ensures Rev(v, n) < Pow2(n)
  {
    BitsOfValueOf(Mirror(BitsOf(v, n)));
  }

  /** Reading backwards twice gives the low bits. */
  lemma RevTwice(v: nat, n: nat)
    ensures Rev(Rev(v, n), n) == Low(v, n)
  {
    var m := Mirror(BitsOf(v, n));
    BitsOfValueOf(m);
    assert Mirror(m) == BitsOf(v, n);
    ValueOfBitsOf(v, n);
  }

  lemma RevLow(v: nat, n: nat)
    ensures Rev(Low(v, n), n) == Rev(v, n)
  {
    BitsOfLow(v, n);
  }

  /** The low n bits come out on top. */
  lemma RevSplit(v: nat, m: nat, n: nat)
    ensures Rev(v, m + n) == Shl(Rev(v, n), m) + Rev(Shr(v, n), m)
  {
    hide ValueOf, BitsOf;
    BitsOfSplit(v, m, n);
    var a, b := BitsOf(Shr(v, n), m), BitsOf(v, n);
    assert Mirror(a + b) == Mirror(b) + Mirror(a);
    ValueOfConcat(Mirror(b), Mirror(a));
  }

  lemma {:induction false} AllOnes(n: nat)
    ensures Pow2(n) >= 1 && BitsOf(Pow2(n) - 1, n) == seq(n, _ => true) && ValueOf(seq(n, _ => true)) == Pow2(n) - 1
  {
    Pow2Positive(n);
    if n > 0 {
      AllOnes(n - 1);
      assert (Pow2(n) - 1) / 2 == Pow2(n - 1) - 1 && (Pow2(n) - 1) % 2 == 1;
      assert seq(n, _ => true) == seq(n - 1, _ => true) + [true];
      assert seq(n, _ => true)[..n - 1] == seq(n - 1, _ => true);
    }
  }

  lemma RevOnes(n: nat)
    ensures Pow2(n) >= 1 && Rev(Pow2(n) - 1, n) == Pow2(n) - 1
  {
    AllOnes(n);
    assert Mirror(seq(n, _ => true)) == seq(n, _ => true);
  }

  // ---- rev, by exchanging halves ----

  /** Bits are numbered from the lowest here. */
  function BitAt(v: seq<bool>, i: int): bool
    requires |v| == 64
  {
    0 <= i < 64 && v[63 - i]
  }

  function ShiftRight(v: seq<bool>, s: nat): (r: seq<bool>)
    requires |v| == 64
    ensures |r| == 64 && forall i :: 0 <= i < 64 ==> BitAt(r, i) == BitAt(v, i + s)
  {
    seq(64, j requires 0 <= j < 64 => BitAt(v, 63 - j + s))
  }

  function ShiftLeft(v: seq<bool>, s: nat): (r: seq<bool>)
    requires |v| == 64
    ensures |r| == 64 && forall i :: 0 <= i < 64 ==> BitAt(r, i) == BitAt(v, i - s)
  {
    seq(64, j requires 0 <= j < 64 => BitAt(v, 63 - j - s))
  }

  function Xor(a: seq<bool>, b: seq<bool>): (r: seq<bool>)
    requires |a| == |b| == 64
    ensures |r| == 64 && forall i :: 0 <= i < 64 ==> BitAt(r, i) == (BitAt(a, i) != BitAt(b, i))
  {
    seq(64, j requires 0 <= j < 64 => a[j] != b[j])
  }

  /** The bits of a under the mask and those of b outside it */
  function Choose(a: seq<bool>, b: seq<bool>, mask: seq<bool>): (r: seq<bool>)
    requires |a| == |b| == |mask| == 64
    ensures |r| == 64 && forall i :: 0 <= i < 64 ==> BitAt(r, i) == if BitAt(mask, i) then BitAt(a, i) else BitAt(b, i)
  {
    seq(64, j requires 0 <= j < 64 => if mask[j] then a[j] else b[j])
  }

  /** Where bit i comes from once blocks of s are in reversed order. */
  function Origin(s: nat, i: nat): int
    requires s > 0
  {
    64 - s - i + 2 * (i % s)
  }

  predicate Halved(v0: seq<bool>, v: seq<bool>, s: nat)
    requires |v0| == |v| == 64 && s > 0
  {
    forall i :: 0 <= i < 64 ==> BitAt(v, i) == BitAt(v0, Origin(s, i))
  }

  predicate MaskOf(mask: seq<bool>, s: nat)
    requires |mask| == 64 && s > 0
  {
    forall i :: 0 <= i < 64 ==> BitAt(mask, i) == ((i / s) % 2 == 0)
  }

  predicate IsHalf(s: nat) { s == 32 || s == 16 || s == 8 || s == 4 || s == 2 || s == 1 }

  predicate Flips(s: nat, i: int)
    requires s > 0
  {
    ((i / s) % 2 == 0) == (((i / (2 * s)) % 2 == 0) != (i >= s && ((i - s) / (2 * s)) % 2 == 0))
  }

  lemma Flips32(i: int)
    requires 0 <= i < 64
    ensures Flips(32, i)
  {
  }

  lemma Flips16(i: int)
    requires 0 <= i < 64
    ensures Flips(16, i)
  {
  }

  lemma Flips8(i: int)
    requires 0 <= i < 64
    ensures Flips(8, i)
  {
  }

  lemma Flips4(i: int)
    requires 0 <= i < 64
    ensures Flips(4, i)
  {
    var q, r := i / 8, i % 8;
    assert i == 8 * q + r && i / 4 == 2 * q + r / 4;
  }

  lemma Flips2(i: int)
    requires 0 <= i < 64
    ensures Flips(2, i)
  {
  }

  lemma Flips1(i: int)
    requires 0 <= i < 64
    ensures Flips(1, i)
  {
  }

  lemma MaskBit(s: nat, i: int)
    requires IsHalf(s) && 0 <= i < 64
    ensures Flips(s, i)
  {
    hide Flips;
    Flips32(i);
    Flips16(i);
    Flips8(i);
    Flips4(i);
    Flips2(i);
    Flips1(i);
  }

  lemma MaskStep(mask: seq<bool>, s: nat)
    requires |mask| == 64 && IsHalf(s) && MaskOf(mask, 2 * s)
    ensures MaskOf(Xor(mask, ShiftLeft(mask, s)), s)
  {
    forall i | 0 <= i < 64 ensures BitAt(Xor(mask, ShiftLeft(mask, s)), i) == ((i / s) % 2 == 0) {
      MaskBit(s, i);
    }
  }

  predicate Swaps(s: nat, i: int)
    requires s > 0
  {
    var j := if (i / s) % 2 == 0 then i + s else i - s;
    0 <= j < 64 && Origin(2 * s, j) == Origin(s, i)
  }

  lemma Swaps32(i: int)
    requires 0 <= i < 64
    ensures Swaps(32, i)
  {
  }

  lemma Swaps16(i: int)
    requires 0 <= i < 64
    ensures Swaps(16, i)
  {
    var r := i % 32;
    if r < 16 {
      assert (i / 16) % 2 == 0 && i % 16 == r;
      assert (i + 16) % 32 == r + 16;
    } else {
      assert (i / 16) % 2 == 1 && i % 16 == r - 16;
      assert (i - 16) % 32 == r - 16;
    }
  }

  lemma Swaps8(i: int)
    requires 0 <= i < 64
    ensures Swaps(8, i)
  {
    var r := i % 16;
    if r < 8 {
      assert (i / 8) % 2 == 0 && i % 8 == r;
      assert (i + 8) % 16 == r + 8;
    } else {
      assert (i / 8) % 2 == 1 && i % 8 == r - 8;
      assert (i - 8) % 16 == r - 8;
    }
  }

  lemma Swaps4(i: int)
    requires 0 <= i < 64
    ensures Swaps(4, i)
  {
  }

  lemma Swaps2(i: int)
    requires 0 <= i < 64
    ensures Swaps(2, i)
  {
  }

  lemma Swaps1(i: int)
    requires 0 <= i < 64
    ensures Swaps(1, i)
  {
  }

  lemma OriginStep(s: nat, i: int)
    requires IsHalf(s) && 0 <= i < 64
    ensures Swaps(s, i)
  {
    hide Swaps;
    Swaps32(i);
    Swaps16(i);
    Swaps8(i);
    Swaps4(i);
    Swaps2(i);
    Swaps1(i);
  }

  lemma HalveStep(v0: seq<bool>, v: seq<bool>, mask: seq<bool>, s: nat)
    requires |v0| == |v| == |mask| == 64 && IsHalf(s) && Halved(v0, v, 2 * s) && MaskOf(mask, s)
    ensures Halved(v0, Choose(ShiftRight(v, s), ShiftLeft(v, s), mask), s)
  {
    hide Origin;
    var r := Choose(ShiftRight(v, s), ShiftLeft(v, s), mask);
    forall i | 0 <= i < 64 ensures BitAt(r, i) == BitAt(v0, Origin(s, i)) {
      OriginStep(s, i);
      assert BitAt(mask, i) == ((i / s) % 2 == 0);
    }
  }

  /** rev: after the halves, quarters and so on of the word have changed places, it is read backwards. */
  method RevWord(w: seq<bool>) returns (v: seq<bool>)
    requires |w| == 64
    ensures v == Mirror(w)
  {
    hide Origin;
    v := w;
    var s: nat := 64;
    var mask := seq(64, _ => true);
    RevStart(w, mask);
    while s / 2 > 0
      invariant s == 64 || IsHalf(s)
      invariant |v| == |mask| == 64 && Halved(w, v, s) && MaskOf(mask, s)
      decreases s
    {
      s := s / 2;
      MaskStep(mask, s);
      mask := Xor(mask, ShiftLeft(mask, s));
      HalveStep(w, v, mask, s);
      v := Choose(ShiftRight(v, s), ShiftLeft(v, s), mask);
    }
    RevEnd(w, v);
  }

  lemma RevStart(w: seq<bool>, mask: seq<bool>)
    requires |w| == 64 && mask == seq(64, _ => true)
    ensures Halved(w, w, 64) && MaskOf(mask, 64)
  {
  }

  lemma RevEnd(w: seq<bool>, v: seq<bool>)
    requires |w| == |v| == 64 && Halved(w, v, 1)
    ensures v == Mirror(w)
  {
    forall j | 0 <= j < 64 ensures v[j] == Mirror(w)[j] {
      assert BitAt(v, 63 - j) == BitAt(w, Origin(1, 63 - j));
    }
  }

  method RevNat(v: nat) returns (r: nat)
    requires v < WORD
    ensures r == Rev(v, 64) && r < WORD
  {
    hide ValueOf, BitsOf;
    var bits := RevWord(BitsOf(v, 64));
    r := ValueOf(bits);
    RevBelow(v, 64);
    WordSize();
  }

  lemma WordSize()
    ensures Pow2(64) == WORD
  {
    hide Shl;
    ShlTwice(1, 32, 32);
    Pow2Values();
    ShlSixteen(0x1_0000_0000);
    ShlSixteen(0x1_0000_0000_0000);
    ShlTwice(0x1_0000_0000, 16, 16);
  }

  lemma ShlSixteen(v: nat)
    ensures Shl(v, 16) == 65536 * v
  {
    assert Shl(v, 1) == 2 * v && Shl(v, 2) == 4 * v && Shl(v, 3) == 8 * v && Shl(v, 4) == 16 * v;
    assert Shl(v, 5) == 32 * v && Shl(v, 6) == 64 * v && Shl(v, 7) == 128 * v && Shl(v, 8) == 256 * v;
    assert Shl(v, 9) == 512 * v && Shl(v, 10) == 1024 * v && Shl(v, 11) == 2048 * v && Shl(v, 12) == 4096 * v;
    assert Shl(v, 13) == 8192 * v && Shl(v, 14) == 16384 * v && Shl(v, 15) == 32768 * v;
  }

  // ---- masks ----

  /** v | m0 fills the low bits. */
  lemma {:induction false} OrMask(v: nat, k: nat)
    ensures Pow2(k) >= 1 && BitOr(v, Pow2(k) - 1) == Shl(Shr(v, k), k) + Pow2(k) - 1
    decreases k
  {
    Pow2Positive(k);
    if k == 0 {
      OrZero(v);
    } else {
      Pow2Positive(k - 1);
      OrMask(v / 2, k - 1);
      assert (Pow2(k) - 1) / 2 == Pow2(k - 1) - 1 && (Pow2(k) - 1) % 2 == 1;
    }
  }

  /** Masking with the complement clears them, in a word of n bits. */
  lemma {:induction false} AndNotMask(v: nat, k: nat, n: nat)
    requires k <= n && v < Pow2(n)
    ensures Pow2(k) <= Pow2(n) && And(v, Pow2(n) - Pow2(k)) == Shl(Shr(v, k), k)
    decreases k
  {
    Pow2Monotone(k, n);
    if k == 0 {
      Pow2Positive(n);
      AndMask(v, n);
      LowSmall(v, n);
    } else {
      AndNotMask(v / 2, k - 1, n - 1);
      assert (Pow2(n) - Pow2(k)) / 2 == Pow2(n - 1) - Pow2(k - 1) && (Pow2(n) - Pow2(k)) % 2 == 0;
      if v == 0 { ShlZero(k); ShrZero(k); }
      if Pow2(n) - Pow2(k) == 0 { NoHigh(v, k); ShlZero(k); }
    }
  }

  lemma {:induction false} ShrZero(k: nat)
    ensures Shr(0, k) == 0
  {
    if k > 0 { ShrZero(k - 1); }
  }

  lemma NoHigh(v: nat, k: nat)
    requires v < Pow2(k)
    ensures Shr(v, k) == 0
  {
  }

  /** The bits between the masks. */
  lemma {:induction false} AndBetween(v: nat, k0: nat, k1: nat)
    requires k0 <= k1
    ensures Pow2(k0) <= Pow2(k1) && And(v, Pow2(k1) - Pow2(k0)) == Shl(Low(Shr(v, k0), k1 - k0), k0)
    decreases k0
  {
    Pow2Monotone(k0, k1);
    if k0 == 0 {
      AndMask(v, k1);
    } else {
      AndBetween(v / 2, k0 - 1, k1 - 1);
      assert (Pow2(k1) - Pow2(k0)) / 2 == Pow2(k1 - 1) - Pow2(k0 - 1) && (Pow2(k1) - Pow2(k0)) % 2 == 0;
      if v == 0 {
        ShrZero(k0);
        LowZero(k1 - k0);
        ShlZero(k0);
      } else if Pow2(k1) == Pow2(k0) {
        SamePow(k0, k1);
        ShlZero(k0);
      }
    }
  }

  lemma {:induction false} SamePow(m: nat, n: nat)
    requires m <= n && Pow2(m) == Pow2(n)
    ensures m == n
  {
    if m < n {
      Pow2Monotone(m, n - 1);
      Pow2Positive(n - 1);
    }
  }
}
