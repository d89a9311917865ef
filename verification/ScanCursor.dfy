/** The arithmetic of dictScan's cursor. */
module ScanCursor {
  import opened Bits
  import opened BitWriter
  import opened DictTables
  import opened ReverseBits

  /** The k low bits of v, read backwards, go up by one. On the whole word: the bits above them are set, and the word
      is reversed, increased and reversed again, which rounds to zero. */
  function NextCursor(v: nat, k: nat): (v': nat)
    requires k < 64
    ensures v' < WORD
  {
    Pow2Monotone(k, 64);
    WordSize();
    var v2 := (Rev(BitOr(v, WORD - Pow2(k)), 64) + 1) % WORD;
    RevBelow(v2, 64);
    Rev(v2, 64)
  }

  /** The next expansion: the bits above the k low ones go up by one, and those stay. */
  function Above(v: nat, k: nat): nat
    requires k < 64
  {
    Pow2Monotone(k, 64);
    Pow2Positive(k);
    WordSize();
    BitOr(And((BitOr(v, Pow2(k) - 1) + 1) % WORD, WORD - Pow2(k)), And(v, Pow2(k) - 1))
  }

  /** Where a hash comes in the order of the scan. */
  function Key(h: nat): nat { Rev(h, 64) }

  // ---- the cursor's successor ----

  lemma {:induction false} OrHigh(v: nat, k: nat, n: nat)
    requires k <= n && v < Pow2(n)
    ensures Pow2(k) <= Pow2(n) && BitOr(v, Pow2(n) - Pow2(k)) == Low(v, k) + (Pow2(n) - Pow2(k))
    decreases k
  {
    Pow2Monotone(k, n);
    if k == 0 {
      OrFull(v, n);
    } else {
      OrHigh(v / 2, k - 1, n - 1);
      assert (Pow2(n) - Pow2(k)) / 2 == Pow2(n - 1) - Pow2(k - 1) && (Pow2(n) - Pow2(k)) % 2 == 0;
      if v == 0 { LowZero(k); }
    }
  }

  lemma {:induction false} OrFull(v: nat, n: nat)
    requires v < Pow2(n)
    ensures Pow2(n) >= 1 && BitOr(v, Pow2(n) - 1) == Pow2(n) - 1
    decreases n
  {
    Pow2Positive(n);
    if n > 0 {
      Pow2Positive(n - 1);
      OrFull(v / 2, n - 1);
      assert (Pow2(n) - 1) / 2 == Pow2(n - 1) - 1 && (Pow2(n) - 1) % 2 == 1;
    }
  }

  lemma Ones(k: nat, n: nat)
    requires k <= n
    ensures Pow2(k) <= Pow2(n) && Pow2(n - k) >= 1 && Pow2(n) - Pow2(k) == Shl(Pow2(n - k) - 1, k)
  {
    Pow2Monotone(k, n);
    Pow2Positive(n - k);
    ShlTwice(1, n - k, k);
    ShlAdd(Pow2(n - k) - 1, 1, k);
  }

  lemma RevSetHigh(v: nat, k: nat, v1: nat)
    requires k < 64 && v < WORD && Pow2(k) <= WORD && v1 == BitOr(v, WORD - Pow2(k))
    ensures Rev(v1, 64) + 1 == Shl(Rev(v, k) + 1, 64 - k)
  {
    hide Shl, Shr, Low, BitOr, Rev;
    var m := 64 - k;
    WordSize();
    OrHigh(v, k, 64);
    Ones(k, 64);
    ShlShr(v, k);
    ShrOfSum(Pow2(m) - 1, Low(v, k), k);
    RevSplit(v1, m, k);
    RevLow(v1, k);
    RevLow(v, k);
    RevOnes(m);
    ShlAdd(Rev(v, k), 1, m);
  }

  lemma {:induction false} ShlPositive(v: nat, n: nat)
    ensures Shl(v, n) == 0 <==> v == 0
  {
    if n > 0 { ShlPositive(v, n - 1); }
  }

  /** The successor comes right behind everything that shares the cursor's k low bits; 0 is behind the last. */
  lemma CursorStep(v: nat, k: nat)
    requires k < 64 && v < WORD
    ensures Rev(v, k) < Pow2(k)
    ensures Rev(v, k) + 1 == Pow2(k) <==> NextCursor(v, k) == 0
    ensures NextCursor(v, k) != 0 ==> Key(NextCursor(v, k)) == Shl(Rev(v, k) + 1, 64 - k)
    ensures NextCursor(v, k) < Pow2(k)
    ensures NextCursor(v, k) != 0 ==> NextCursor(v, k) == Rev(Rev(v, k) + 1, k)
  {
    hide Shl, Shr, Low, BitOr, Rev;
    var m := 64 - k;
    Pow2Monotone(k, 64);
    WordSize();
    RevBelow(v, k);
    RevSetHigh(v, k, BitOr(v, WORD - Pow2(k)));
    var r := Rev(v, k) + 1;
    ShlTwice(1, k, m);
    if r == Pow2(k) {
      RevNothing(64);
      Pow2Positive(k);
    } else {
      ShlMonotone(r + 1, Pow2(k), m);
      ShlAdd(r, 1, m);
      Pow2Positive(m);
      var v2 := Shl(r, m);
      assert NextCursor(v, k) == Rev(v2, 64);
      RevTwice(v2, 64);
      LowSmall(v2, 64);
      ShlPositive(r, m);
      RevNothing(64);
      // below 2^k
      RevSplit(v2, k, m);
      ShrOfSum(r, 0, m);
      RevLow(v2, m);
      RevNothing(m);
      ShlPositive(0, k);
      RevBelow(r, k);
    }
  }

  lemma {:induction false} RevNothing(n: nat)
    ensures Rev(0, n) == 0
  {
    hide ValueOf, BitsOf;
    BitsOfZero(n);
    assert Mirror(Zeros(n)) == Zeros(n);
    ZerosValue(n);
  }

  lemma {:induction false} ZerosValue(n: nat)
    ensures ValueOf(Zeros(n)) == 0
  {
    if n > 0 {
      ZerosValue(n - 1);
      assert Zeros(n)[..n - 1] == Zeros(n - 1);
    }
  }

  /** The successor depends on the k low bits only. */
  lemma NextCursorLow(v: nat, w: nat, k: nat)
    requires k < 64 && v < WORD && w < WORD && Low(v, k) == Low(w, k)
    ensures NextCursor(v, k) == NextCursor(w, k)
  {
    hide BitOr, Low, Shl, Rev;
    Pow2Monotone(k, 64);
    WordSize();
    OrHigh(v, k, 64);
    OrHigh(w, k, 64);
  }

  /** Between a cursor and its successor come only hashes that share the cursor's low bits. */
  lemma ClassOfKey(v: nat, h: nat, k: nat)
    requires k < 64 && v < WORD && h < WORD && Key(h) >= Key(v)
    requires NextCursor(v, k) != 0 ==> Key(h) < Key(NextCursor(v, k))
    ensures Low(h, k) == Low(v, k)
  {
    hide Shl, Shr, Low, BitOr, Rev, NextCursor;
    var m := 64 - k;
    CursorStep(v, k);
    RevSplit(v, m, k);
    RevSplit(h, m, k);
    RevBelow(Shr(v, k), m);
    RevBelow(Shr(h, k), m);
    RevBelow(h, k);
    ShrOfSum(Rev(v, k), Rev(Shr(v, k), m), m);
    ShrOfSum(Rev(h, k), Rev(Shr(h, k), m), m);
    ShrAtLeast(Key(h), m, Rev(v, k));
    ShrAtLeast(Key(h), m, Rev(v, k) + 1);
    assert Key(h) >= Shl(Rev(v, k), m);
    assert Rev(h, k) == Rev(v, k);
    RevTwice(h, k);
    RevTwice(v, k);
  }

  /** Nothing comes before the cursor 0. */
  lemma KeyStart()
    ensures Key(0) == 0
  {
    RevNothing(64);
  }

  // ---- expansions ----

  /** The bits above the k low ones go up by one, and round to zero past the word. */
  lemma AboveStep(v: nat, k: nat)
    requires k < 64 && v < WORD
    ensures var x := if Shr(v, k) + 1 == Pow2(64 - k) then 0 else Shr(v, k) + 1;
            Above(v, k) == Shl(x, k) + Low(v, k) && Shr(Above(v, k), k) == x && Low(Above(v, k), k) == Low(v, k) &&
                Above(v, k) < WORD
  {
    hide Shl, Shr, Low, BitOr, And;
    Pow2Monotone(k, 64);
    Pow2Positive(k);
    WordSize();
    var x := Shr(v, k);
    ShlShr(v, k);
    HighBelow(v, k);
    OrMask(v, k);
    AndMask(v, k);
    ShlAdd(x, 1, k);
    var y := if x + 1 == Pow2(64 - k) then 0 else x + 1;
    ShlTwice(1, 64 - k, k);
    assert (Shl(x + 1, k)) % WORD == Shl(y, k) && Shl(y, k) < WORD && Shl(y, k) + Pow2(k) <= WORD by { HighStep(x, k); ShlZero(k); }
    AndNotMask(Shl(y, k), k, 64);
    ShrOfSum(y, 0, k);
    OrDisjoint(y, k, Low(v, k));
    ShrOfSum(y, Low(v, k), k);
  }

  lemma HighBelow(v: nat, k: nat)
    requires k < 64 && v < WORD
    ensures Shr(v, k) < Pow2(64 - k)
  {
    hide Shl, Shr;
    WordSize();
    ShrAtLeast(v, k, Pow2(64 - k));
    ShlTwice(1, 64 - k, k);
  }

  lemma HighStep(x: nat, k: nat)
    requires k < 64 && x < Pow2(64 - k)
    ensures x + 1 == Pow2(64 - k) ==> Shl(x + 1, k) == WORD
    ensures x + 1 < Pow2(64 - k) ==> Shl(x + 1, k) + Pow2(k) <= WORD
  {
    hide Shl;
    WordSize();
    ShlTwice(1, 64 - k, k);
    if x + 1 < Pow2(64 - k) {
      ShlMonotone(x + 2, Pow2(64 - k), k);
      ShlAdd(x + 1, 1, k);
    }
  }

  lemma {:induction false} LowNext(x: nat, d: nat)
    ensures Low(x, d) < Pow2(d)
    ensures Low(x + 1, d) == if Low(x, d) + 1 == Pow2(d) then 0 else Low(x, d) + 1
  {
    ShlShr(x, d);
    if d > 0 {
      LowNext(x / 2, d - 1);
      if x % 2 == 1 { assert (x + 1) / 2 == x / 2 + 1; } else { assert (x + 1) / 2 == x / 2; }
    }
  }

  /** The loop goes on exactly while the bits between the masks have not come round to zero. */
  lemma AboveBetween(v: nat, k0: nat, k1: nat)
    requires k0 <= k1 < 64 && v < WORD
    ensures Low(Shr(v, k0), k1 - k0) < Pow2(k1 - k0)
    ensures var y := Low(Shr(v, k0), k1 - k0);
            Low(Shr(Above(v, k0), k0), k1 - k0) == (if y + 1 == Pow2(k1 - k0) then 0 else y + 1)
    ensures Pow2(k0) <= Pow2(k1) && forall w: nat :: And(w, Pow2(k1) - Pow2(k0)) == 0 <==> Low(Shr(w, k0), k1 - k0) == 0
  {
    hide Shl, Shr, Low, And, Above;
    var d, x := k1 - k0, Shr(v, k0);
    AboveStep(v, k0);
    LowNext(x, d);
    if x + 1 == Pow2(64 - k0) {
      LowOfPow(64 - k0, d);
      LowZero(d);
    }
    Pow2Monotone(k0, k1);
    forall w: nat ensures And(w, Pow2(k1) - Pow2(k0)) == 0 <==> Low(Shr(w, k0), d) == 0 {
      AndBetween(w, k0, k1);
      ShlPositive(Low(Shr(w, k0), d), k0);
    }
  }

  lemma {:induction false} LowOfPow(n: nat, d: nat)
    requires d <= n
    ensures Low(Pow2(n), d) == 0
    decreases d
  {
    if d > 0 { LowOfPow(n - 1, d - 1); }
  }

  /** The larger mask keeps the smaller one's bits and those between. */
  lemma {:induction false} LowTwo(v: nat, k0: nat, k1: nat)
    requires k0 <= k1
    ensures Low(v, k1) == Low(v, k0) + Shl(Low(Shr(v, k0), k1 - k0), k0)
    decreases k0
  {
    if k0 > 0 {
      LowTwo(v / 2, k0 - 1, k1 - 1);
    }
  }

  // ---- plain order and reversed order ----

  /** Counting upwards in d bits, whatever is below y also comes before y in reversed order. */
  ghost predicate InOrder(y: nat, d: nat) {
    forall z: nat :: z < y ==> Rev(z, d) < Rev(y, d)
  }

  /** The lowest bit comes out on top. */
  lemma RevHalf(y: nat, d: nat)
    requires d > 0
    ensures Rev(y, d) == (if y % 2 == 1 then Pow2(d - 1) else 0) + Rev(y / 2, d - 1) && Rev(y / 2, d - 1) < Pow2(d - 1)
  {
    hide Rev;
    RevSplit(y, d - 1, 1);
    RevBelow(y / 2, d - 1);
    RevOne(y);
    assert Shr(y, 1) == Shr(y / 2, 0) == y / 2;
    ShlZero(d - 1);
  }

  lemma RevOne(y: nat)
    ensures Rev(y, 1) == y % 2
  {
    hide Rev;
    RevLow(y, 1);
    assert Pow2(1) == 2 && Low(y, 1) == y % 2;
    RevNothing(1);
    RevOnes(1);
  }

  /** It is so exactly when y has no bit in common with y + 1, that is, when y is all ones up to its highest bit. */
  lemma {:induction false} InOrderIff(y: nat, d: nat)
    requires y < Pow2(d)
    ensures InOrder(y, d) <==> And(y, y + 1) == 0
    decreases d
  {
    hide Rev;
    if y > 0 && y % 2 == 0 {
      RevHalf(y, d);
      RevHalf(1, d);
      assert 1 < y && Rev(1, d) > Rev(y, d);
      AndEven(y);
    } else if y > 0 {
      var e := d - 1;
      InOrderIff(y / 2, e);
      RevHalf(y, d);
      assert (y + 1) / 2 == y / 2 + 1;
      forall z: nat | z < y
        ensures z % 2 == 0 || z / 2 < y / 2
        ensures Rev(z, d) < Rev(y, d) <==> z % 2 == 0 || Rev(z / 2, e) < Rev(y / 2, e)
      {
        RevHalf(z, d);
      }
      forall z: nat | z < y / 2 ensures InOrder(y, d) ==> Rev(z, e) < Rev(y / 2, e) {
        assert (2 * z + 1) / 2 == z && (2 * z + 1) % 2 == 1 && 2 * z + 1 < y;
      }
    }
  }

  lemma AndEven(y: nat)
    requires y % 2 == 0
    ensures And(y, y + 1) == y
  {
    assert (y + 1) / 2 == y / 2;
    AndSelf(y / 2);
  }

  lemma {:induction false} AndSelf(y: nat)
    ensures And(y, y) == y
  {
    if y > 0 { AndSelf(y / 2); }
  }

  /** Of two hashes with the same k0 low bits, the bits up to k1, read backwards, decide which comes first. */
  lemma KeyOrder(v: nat, h: nat, k0: nat, k1: nat)
    requires k0 <= k1 < 64 && v < WORD && h < WORD && Low(h, k0) == Low(v, k0)
    ensures var y, z := Low(Shr(v, k0), k1 - k0), Low(Shr(h, k0), k1 - k0);
            && (Key(h) >= Key(v) ==> Rev(z, k1 - k0) >= Rev(y, k1 - k0))
            && (Rev(z, k1 - k0) > Rev(y, k1 - k0) ==> Key(h) > Key(v) && Rev(h, k1) > Rev(v, k1))
  {
    hide Shl, Shr, Low, Rev;
    var d, m := k1 - k0, 64 - k1;
    RevLow(h, k0);
    RevLow(v, k0);
    RevLow(Shr(h, k0), d);
    RevLow(Shr(v, k0), d);
    RevSplit(h, d, k0);
    RevSplit(v, d, k0);
    RevSplit(h, m, k1);
    RevSplit(v, m, k1);
    RevBelow(Shr(h, k1), m);
    RevBelow(Shr(v, k1), m);
    ShrOfSum(Rev(h, k1), Rev(Shr(h, k1), m), m);
    ShrOfSum(Rev(v, k1), Rev(Shr(v, k1), m), m);
    ShrAtLeast(Key(h), m, Rev(v, k1));
    ShrAtLeast(Key(v), m, Rev(h, k1));
    ShrAtLeast(Key(v), m, Rev(v, k1) + 1);
    ShrAtLeast(Key(h), m, Rev(v, k1) + 1);
  }
}
