/** dictScan: a scan without state of its own, which finds every key that stays, while the dictionary
    changes, rehashes and grows between its calls. */
module DictScan {
  import opened Bits
  import opened Wrappers
  import opened DictTables
  import opened DictMap
  import opened ReverseBits
  import opened ScanCursor

  /** The exponent of a table's size. */
  function Lg(n: nat): nat {
    if n <= 1 then 0 else 1 + Lg(n / 2)
  }

  lemma {:induction false} LgOfPow(k: nat)
    ensures Lg(Pow2(k)) == k
  {
    if k > 0 {
      LgOfPow(k - 1);
      Pow2Positive(k - 1);
      assert Pow2(k) / 2 == Pow2(k - 1);
    }
  }

  /** A table a long can count: its size is a power of two below the word's range. */
  ghost predicate Sized<K, V>(t: Table<K, V>) {
    |t.buckets| > 0 && IsPow2(|t.buckets|) && |t.buckets| < WORD
  }

  lemma SizedLg<K, V>(t: Table<K, V>)
    requires Sized(t)
    ensures |t.buckets| == Pow2(Lg(|t.buckets|)) && Lg(|t.buckets|) < 64
  {
    hide Pow2;
    var k: nat :| SizeIs(|t.buckets|, k);
    LgOfPow(k);
    WordSize();
    if k >= 64 { Pow2Monotone(64, k); }
  }

  // ---- what a call does ----

  /** The table at the smaller mask, and the other one. */
  function Small<K, V>(t0: Table<K, V>, t1: Table<K, V>): Table<K, V> {
    if |t0.buckets| > |t1.buckets| then t1 else t0
  }

  function Large<K, V>(t0: Table<K, V>, t1: Table<K, V>): Table<K, V> {
    if |t0.buckets| > |t1.buckets| then t0 else t1
  }

  /** The buckets of the larger table from the cursor on, while the bits between the masks are not zero. */
  function Expansions<K, V>(t: Table<K, V>, v: nat, k0: nat, k1: nat): seq<Entry<K, V>>
    requires k0 <= k1 < 64 && v < WORD && |t.buckets| == Pow2(k1)
    decreases Pow2(k1 - k0) - Low(Shr(v, k0), k1 - k0)
  {
    AboveStep(v, k0);
    AboveBetween(v, k0, k1);
    Pow2Positive(k1);
    var v' := Above(v, k0);
    t.buckets[Home(t, v)] + if And(v', Pow2(k1) - Pow2(k0)) != 0 then Expansions(t, v', k0, k1) else []
  }

  ghost predicate ScanState<K, V>(t0: Table<K, V>, t1: Table<K, V>, r: int) {
    (t0.used + t1.used > 0 ==> Sized(t0) && (r != -1 ==> Sized(t1))) && (r == -1 ==> t1.used == 0)
  }

  /** The mask that the cursor runs under. */
  function ScanLg<K, V>(t0: Table<K, V>, t1: Table<K, V>, r: int): nat {
    Lg(if r == -1 then |t0.buckets| else |Small(t0, t1).buckets|)
  }

  /** The entries that a call hands to its callback. */
  ghost function ScanEmits<K, V>(t0: Table<K, V>, t1: Table<K, V>, r: int, v: nat): seq<Entry<K, V>>
    requires ScanState(t0, t1, r) && v < WORD
  {
    if t0.used + t1.used == 0 then []
    else if r == -1 then t0.buckets[Home(t0, v)]
    else
      var a, b := Small(t0, t1), Large(t0, t1);
      LgOrder(a, b);
      a.buckets[Home(a, v)] + Expansions(b, v, Lg(|a.buckets|), Lg(|b.buckets|))
  }

  /** The cursor it returns. */
  ghost function ScanNext<K, V>(t0: Table<K, V>, t1: Table<K, V>, r: int, v: nat): (v': nat)
    requires ScanState(t0, t1, r) && v < WORD
    ensures v' < WORD
  {
    if t0.used + t1.used == 0 then 0
    else
      SizedLg(t0);
      if r != -1 then SizedLg(t1); NextCursor(v, ScanLg(t0, t1, r)) else NextCursor(v, ScanLg(t0, t1, r))
  }

  lemma LgOrder<K, V>(a: Table<K, V>, b: Table<K, V>)
    requires Sized(a) && Sized(b) && |a.buckets| <= |b.buckets|
    ensures |a.buckets| == Pow2(Lg(|a.buckets|)) && |b.buckets| == Pow2(Lg(|b.buckets|)) &&
            Lg(|a.buckets|) <= Lg(|b.buckets|) < 64
  {
    hide Pow2;
    SizedLg(a);
    SizedLg(b);
    var k0, k1 := Lg(|a.buckets|), Lg(|b.buckets|);
    if k0 > k1 {
      Pow2Monotone(k1, k0);
      SamePow(k1, k0);
    }
  }

  /** The do-while loop over the expansions: the bits not covered by m0 are incremented each time. */
  method ExpansionLoop<K, V>(t: Table<K, V>, v0: nat, m0: nat, m1: nat, emits0: seq<Entry<K, V>>, ghost k0: nat,
                             ghost k1: nat)
    returns (v: nat, emits: seq<Entry<K, V>>)
    requires k0 <= k1 < 64 && v0 < WORD && |t.buckets| == Pow2(k1) == m1 + 1 && m0 + 1 == Pow2(k0)
    ensures emits == emits0 + Expansions(t, v0, k0, k1)
    ensures v < WORD && Low(v, k0) == Low(v0, k0)
  {
    hide Low, Shr, Above, And, Home, Shl, Expansions;
    v := v0;
    emits := emits0;
    ghost var d := k1 - k0;
    MaskOrder(k0, k1);
    while true
      invariant v < WORD && Low(v, k0) == Low(v0, k0)
      invariant emits + Expansions(t, v, k0, k1) == emits0 + Expansions(t, v0, k0, k1)
      decreases Pow2(d) - Low(Shr(v, k0), d)
    {
      ExpansionsStep(t, v, k0, k1);
      ghost var w := v;
      emits := emits + t.buckets[Home(t, v)];
      v := NextExpansion(v, m0, k0);
      if And(v, m1 - m0) == 0 { break; }
      assert emits + Expansions(t, v, k0, k1) == emits0 + Expansions(t, v0, k0, k1);
    }
  }

  lemma MaskOrder(k0: nat, k1: nat)
    requires k0 <= k1
    ensures 1 <= Pow2(k0) <= Pow2(k1)
  {
    Pow2Monotone(k0, k1);
    Pow2Positive(k0);
  }

  /** The bits above the smaller mask, as one number, go up by one; those below stay. */
  method NextExpansion(v: nat, m0: nat, ghost k0: nat) returns (v': nat)
    requires k0 < 64 && v < WORD && m0 + 1 == Pow2(k0)
    ensures v' == Above(v, k0)
  {
    hide BitOr, And;
    Pow2Monotone(k0, 64);
    WordSize();
    v' := BitOr(And((BitOr(v, m0) + 1) % WORD, WORD - 1 - m0), And(v, m0));
  }

  lemma ExpansionsStep<K, V>(t: Table<K, V>, v: nat, k0: nat, k1: nat)
    requires k0 <= k1 < 64 && v < WORD && |t.buckets| == Pow2(k1)
    ensures |t.buckets| > 0 && Above(v, k0) < WORD && Low(Above(v, k0), k0) == Low(v, k0) && Pow2(k0) <= Pow2(k1)
    ensures var more := And(Above(v, k0), Pow2(k1) - Pow2(k0)) != 0;
            Expansions(t, v, k0, k1) == t.buckets[Home(t, v)] + if more then Expansions(t, Above(v, k0), k0, k1) else []
    ensures And(Above(v, k0), Pow2(k1) - Pow2(k0)) != 0 ==>
            Low(Shr(Above(v, k0), k0), k1 - k0) == Low(Shr(v, k0), k1 - k0) + 1
    ensures Low(Shr(v, k0), k1 - k0) < Pow2(k1 - k0)
  {
    hide Low, Shr, Above, And, Home, Shl;
    MaskOrder(k0, k1);
    AboveStep(v, k0);
    AboveBetween(v, k0, k1);
  }

  /** The k low bits of the cursor, read backwards, go up by one. */
  method Advance(v0: nat, m0: nat, ghost k: nat) returns (v: nat)
    requires k < 64 && v0 < WORD && m0 + 1 == Pow2(k)
    ensures v == NextCursor(v0, k)
  {
    hide BitOr, Rev;
    Pow2Monotone(k, 64);
    WordSize();
    OrHigh(v0, k, 64);
    LowBelow(v0, k);
    v := BitOr(v0, WORD - 1 - m0);
    v := RevNat(v);
    v := (v + 1) % WORD;
    v := RevNat(v);
  }

  lemma LowBelow(v: nat, k: nat)
    ensures Low(v, k) < Pow2(k)
  {
  }

  /** dictScan, with the callback's entries collected. */
  method Scan<K(!new), V>(t0: Table<K, V>, t1: Table<K, V>, r: int, v0: nat) returns (emits: seq<Entry<K, V>>, v: nat)
    requires ScanState(t0, t1, r) && v0 < WORD
    ensures emits == ScanEmits(t0, t1, r, v0) && v == ScanNext(t0, t1, r, v0)
  {
    hide Low, Shr, Above, And, NextCursor, Home, Expansions, Lg;
    v := v0;
    emits := [];
    if t0.used + t1.used == 0 { return [], 0; }
    SizedLg(t0);
    var m0 := |t0.buckets| - 1;
    if r == -1 {
      emits := t0.buckets[Home(t0, v)];
    } else {
      var small, large := t0, t1;
      if |small.buckets| > |large.buckets| { small, large := t1, t0; }
      LgOrder(small, large);
      m0 := |small.buckets| - 1;
      var m1 := |large.buckets| - 1;
      emits := small.buckets[Home(small, v)];
      v, emits := ExpansionLoop(large, v, m0, m1, emits, Lg(|small.buckets|), Lg(|large.buckets|));
      NextCursorLow(v0, v, Lg(|small.buckets|));
    }
    v := Advance(v, m0, ScanLg(t0, t1, r));
  }

  // ---- what a call covers ----

  /** The bits that the cursor has between the two masks */
  function Between(v: nat, k0: nat, k1: nat): nat
    requires k0 <= k1
  {
    Low(Shr(v, k0), k1 - k0)
  }

  /** The cursor's bits between the two masks are all ones up to the highest: none is missing under another. It is so of
      no bits at all, and of a single one. */
  predicate NoGap(v: nat, k0: nat, k1: nat)
    requires k0 <= k1
  {
    var y := Between(v, k0, k1);
    And(y, y + 1) == 0
  }

  /** No rehash is going on, or the cursor has no gap between the masks. */
  ghost predicate Orderly<K, V>(t0: Table<K, V>, t1: Table<K, V>, r: int, v: nat) {
    r == -1 || var k0, k1 := Lg(|Small(t0, t1).buckets|), Lg(|Large(t0, t1).buckets|); (k0 <= k1 ==> NoGap(v, k0, k1))
  }

  lemma {:induction false} LookupIn<K, V>(chain: seq<Entry<K, V>>, key: K, val: V)
    requires Lookup(chain, key) == Some(val)
    ensures Entry(key, val) in chain
    decreases |chain|
  {
    if chain[0].key != key {
      LookupIn(chain[1..], key, val);
    } else {
      assert chain[0] == Entry(key, val);
    }
  }

  /** A bucket index is the low bits of the hash. */
  lemma HomeIs<K, V>(t: Table<K, V>, h: nat, k: nat)
    requires |t.buckets| == Pow2(k)
    ensures |t.buckets| > 0 && Home(t, h) == Low(h, k)
  {
    AndMask(h, k);
  }

  lemma SameBucket<K, V>(t: Table<K, V>, h: nat, v: nat, k: nat)
    requires |t.buckets| == Pow2(k) && Low(h, k) == Low(v, k)
    ensures |t.buckets| > 0 && Home(t, h) == Home(t, v)
  {
    HomeIs(t, h, k);
    HomeIs(t, v, k);
  }

  /** The loop visits every expansion whose high bits are not below those it starts at. */
  lemma {:induction false} ExpansionsCover<K, V>(t: Table<K, V>, v: nat, k0: nat, k1: nat, h: nat, e: Entry<K, V>)
    requires k0 <= k1 < 64 && v < WORD && |t.buckets| == Pow2(k1) && Low(h, k0) == Low(v, k0)
    requires Low(Shr(v, k0), k1 - k0) <= Low(Shr(h, k0), k1 - k0)
    requires |t.buckets| > 0 && e in t.buckets[Home(t, h)]
    ensures e in Expansions(t, v, k0, k1)
    decreases Pow2(k1 - k0) - Low(Shr(v, k0), k1 - k0)
  {
    hide Low, Shr, Above, And, Home, Shl, Expansions;
    ExpansionsStep(t, v, k0, k1);
    var y, z := Low(Shr(v, k0), k1 - k0), Low(Shr(h, k0), k1 - k0);
    if y == z {
      LowTwo(h, k0, k1);
      LowTwo(v, k0, k1);
      SameBucket(t, h, v, k1);
    } else {
      AboveBetween(v, k0, k1);
      LowBelow(Shr(h, k0), k1 - k0);
      ExpansionsCover(t, Above(v, k0), k0, k1, h, e);
    }
  }

  /** Where the cursor has no gap, a hash of its class that does not come before it lies on or above it. */
  lemma NotBelow(v: nat, h: nat, k0: nat, k1: nat)
    requires k0 <= k1 < 64 && v < WORD && h < WORD && Low(h, k0) == Low(v, k0) && Key(h) >= Key(v) && NoGap(v, k0, k1)
    ensures Between(v, k0, k1) <= Between(h, k0, k1)
  {
    hide Low, Shr, And, Key;
    AboveBetween(v, k0, k1);
    InOrderIff(Between(v, k0, k1), k1 - k0);
    KeyOrder(v, h, k0, k1);
  }

  /** A call with such a cursor emits every entry whose hash shares the cursor's low bits and does not come before it. */
  lemma ScanClass<K(!new), V>(hash: K -> Hash, t0: Table<K, V>, t1: Table<K, V>, r: int, contents: map<K, V>, v: nat, key: K)
    requires Represents(hash, t0, t1, r, contents) && ScanState(t0, t1, r) && v < WORD && Orderly(t0, t1, r, v)
    requires key in contents && Low(hash(key), ScanLg(t0, t1, r)) == Low(v, ScanLg(t0, t1, r)) && Key(hash(key)) >= Key(v)
    ensures Entry(key, contents[key]) in ScanEmits(t0, t1, r, v)
  {
    hide Low, Shr, Above, And, Home, Shl, Expansions, TableOk, Lookup, Lg, NoGap, Key;
    assert KeyOk(hash, t0, t1, contents, key);
    HasElements(hash, t0, t1, r, contents, key);
    SizedLg(t0);
    if r == -1 {
      SameBucket(t0, hash(key), v, Lg(|t0.buckets|));
      LookupIn(t0.buckets[Home(t0, hash(key))], key, contents[key]);
    } else {
      LgOrder(Small(t0, t1), Large(t0, t1));
      ScanClassBoth(hash, Small(t0, t1), Large(t0, t1), contents[key], v, key);
    }
  }

  lemma HasElements<K(!new), V>(hash: K -> Hash, t0: Table<K, V>, t1: Table<K, V>, r: int, contents: map<K, V>, key: K)
    requires Represents(hash, t0, t1, r, contents) && key in contents
    ensures t0.used + t1.used > 0
  {
  }

  lemma ScanClassBoth<K(!new), V>(hash: K -> Hash, a: Table<K, V>, b: Table<K, V>, val: V, v: nat, key: K)
    requires Sized(a) && Sized(b) && |a.buckets| <= |b.buckets| && v < WORD && Lg(|a.buckets|) <= Lg(|b.buckets|) < 64
    requires |b.buckets| == Pow2(Lg(|b.buckets|))
    requires NoGap(v, Lg(|a.buckets|), Lg(|b.buckets|)) && Key(hash(key)) >= Key(v)
    requires Low(hash(key), Lg(|a.buckets|)) == Low(v, Lg(|a.buckets|))
    requires At(a, hash, key) == Some(val) || At(b, hash, key) == Some(val)
    ensures Entry(key, val) in a.buckets[Home(a, v)] + Expansions(b, v, Lg(|a.buckets|), Lg(|b.buckets|))
  {
    hide Low, Shr, Above, And, Home, Shl, Expansions, Lookup, Lg, NoGap, Key;
    LgOrder(a, b);
    var k0, k1, h := Lg(|a.buckets|), Lg(|b.buckets|), hash(key);
    if At(a, hash, key) == Some(val) {
      SameBucket(a, h, v, k0);
      LookupIn(a.buckets[Home(a, h)], key, val);
    } else {
      LookupIn(b.buckets[Home(b, h)], key, val);
      NotBelow(v, h, k0, k1);
      ExpansionsCover(b, v, k0, k1, h, Entry(key, val));
    }
  }

  // ---- a whole scan ----

  /** One call: the state it found, the cursor it was given, what it emitted and the cursor it returned. */
  datatype Call<K, V> = Call(
    t0: Table<K, V>, t1: Table<K, V>, r: int, contents: map<K, V>, v: nat, emits: seq<Entry<K, V>>, next: nat)

  ghost predicate CallMade<K(!new), V>(hash: K -> Hash, c: Call<K, V>) {
    && Represents(hash, c.t0, c.t1, c.r, c.contents) && ScanState(c.t0, c.t1, c.r) && c.v < WORD
    && c.emits == ScanEmits(c.t0, c.t1, c.r, c.v) && c.next == ScanNext(c.t0, c.t1, c.r, c.v)
  }

  /** A scan from 0, each call given what the one before returned; in between the dictionary may have
      become any other, with any contents, tables and rehashing state. */
  ghost predicate ScanRun<K(!new), V>(hash: K -> Hash, calls: seq<Call<K, V>>) {
    && calls != [] && calls[0].v == 0
    && (forall i :: 0 <= i < |calls| ==> CallMade(hash, calls[i]))
    && (forall i :: 0 < i < |calls| ==> calls[i].v == calls[i - 1].next && calls[i].v != 0)
  }

  ghost predicate AllOrderly<K, V>(calls: seq<Call<K, V>>) {
    forall i :: 0 <= i < |calls| ==> Orderly(calls[i].t0, calls[i].t1, calls[i].r, calls[i].v)
  }

  predicate Emitted<K(==), V(==)>(calls: seq<Call<K, V>>, n: nat, key: K)
    requires n <= |calls|
  {
    exists i :: 0 <= i < n && EmittedBy(calls[i], key)
  }

  predicate EmittedBy<K(==), V(==)>(c: Call<K, V>, key: K) {
    exists j :: 0 <= j < |c.emits| && c.emits[j].key == key
  }

  predicate PresentThroughout<K(==), V>(calls: seq<Call<K, V>>, key: K) {
    forall i :: 0 <= i < |calls| ==> key in calls[i].contents
  }

  /** The invariant: after n calls every key that stays and comes before the cursor has been emitted. */
  lemma {:induction false} ScanCovers<K(!new), V>(hash: K -> Hash, calls: seq<Call<K, V>>, n: nat, key: K)
    requires ScanRun(hash, calls) && AllOrderly(calls) && 1 <= n <= |calls| && PresentThroughout(calls, key)
    requires calls[n - 1].next == 0 || Key(hash(key)) < Key(calls[n - 1].next)
    ensures Emitted(calls, n, key)
    decreases n
  {
    hide Key, NextCursor, Low, Lg, Represents, ScanState, Orderly, EmittedBy;
    var c := calls[n - 1];
    assert CallMade(hash, c) && Orderly(c.t0, c.t1, c.r, c.v) && key in c.contents;
    if n > 1 && Key(hash(key)) < Key(c.v) {
      assert c.v == calls[n - 2].next;
      ScanCovers(hash, calls, n - 1, key);
      var i :| 0 <= i < n - 1 && EmittedBy(calls[i], key);
    } else {
      if n == 1 { KeyStart(); }
      CallCovers(hash, c, key);
    }
  }

  lemma CallCovers<K(!new), V>(hash: K -> Hash, c: Call<K, V>, key: K)
    requires CallMade(hash, c) && Orderly(c.t0, c.t1, c.r, c.v) && key in c.contents && Key(hash(key)) >= Key(c.v)
    requires c.next == 0 || Key(hash(key)) < Key(c.next)
    ensures EmittedBy(c, key)
  {
    hide Key, NextCursor, Low, Lg, Represents, Orderly, ScanEmits;
    HasElements(hash, c.t0, c.t1, c.r, c.contents, key);
    SizedLg(c.t0);
    if c.r != -1 { SizedLg(c.t1); }
    ClassOfKey(c.v, hash(key), ScanLg(c.t0, c.t1, c.r));
    ScanClass(hash, c.t0, c.t1, c.r, c.contents, c.v, key);
    var e := Entry(key, c.contents[key]);
    var j :| 0 <= j < |c.emits| && c.emits[j] == e;
  }

  /** When the returned cursor is 0, every key present throughout has been emitted. */
  lemma ScanComplete<K(!new), V>(hash: K -> Hash, calls: seq<Call<K, V>>, key: K)
    requires ScanRun(hash, calls) && AllOrderly(calls) && calls[|calls| - 1].next == 0 && PresentThroughout(calls, key)
    ensures Emitted(calls, |calls|, key)
  {
    ScanCovers(hash, calls, |calls|, key);
  }

  // ---- which calls are orderly ----

  /** A cursor within the smaller mask is; the cursors that a call returns are within the mask it ran under, so they are
      orderly as long as the smaller table of a later call is no smaller. */
  lemma WithinSmaller<K, V>(t0: Table<K, V>, t1: Table<K, V>, r: int, v: nat)
    requires t0.used + t1.used > 0 && ScanState(t0, t1, r)
    requires v < if r == -1 then |t0.buckets| else |Small(t0, t1).buckets|
    ensures Orderly(t0, t1, r, v)
  {
    hide Low, Shr, And, Lg;
    if r != -1 {
      LgOrder(Small(t0, t1), Large(t0, t1));
      var k0, k1 := Lg(|Small(t0, t1).buckets|), Lg(|Large(t0, t1).buckets|);
      NoHigh(v, k0);
      LowZero(k1 - k0);
      AndZero(1);
    }
  }

  lemma AndZero(m: nat)
    ensures And(0, m) == 0
  {
  }

  lemma NextWithin<K, V>(t0: Table<K, V>, t1: Table<K, V>, r: int, v: nat)
    requires t0.used + t1.used > 0 && ScanState(t0, t1, r) && v < WORD
    ensures ScanNext(t0, t1, r, v) < if r == -1 then |t0.buckets| else |Small(t0, t1).buckets|
  {
    hide NextCursor, Lg;
    SizedLg(t0);
    if r != -1 { SizedLg(t1); }
    CursorStep(v, ScanLg(t0, t1, r));
  }

  /** While a table is halved, every cursor is: such a shrink never loses a key. */
  lemma HalvingKeeps<K, V>(t0: Table<K, V>, t1: Table<K, V>, r: int, v: nat)
    requires Sized(t0) && Sized(t1) && |Large(t0, t1).buckets| == 2 * |Small(t0, t1).buckets|
    ensures Orderly(t0, t1, r, v)
  {
    hide And, Lg, Pow2;
    LgOrder(Small(t0, t1), Large(t0, t1));
    var k0, k1 := Lg(|Small(t0, t1).buckets|), Lg(|Large(t0, t1).buckets|);
    Twice(k0);
    LgOfPow(k1);
    LgOfPow(k0 + 1);
    assert k1 == k0 + 1;
    OneBetween(Shr(v, k0));
  }

  lemma Twice(k: nat)
    ensures Pow2(k + 1) == 2 * Pow2(k)
  {
  }

  lemma OneBetween(x: nat)
    ensures Low(x, 1) < 2 && And(Low(x, 1), Low(x, 1) + 1) == 0
  {
    assert And(1, 2) == 2 * And(0, 1) == 0;
  }

  // ---- when a call keeps the promise ----

  /** All buckets but the home of h are empty. */
  predicate Lone<K, V>(t: Table<K, V>, h: nat) {
    |t.buckets| > 0 && forall i :: 0 <= i < |t.buckets| && i != Home(t, h) ==> t.buckets[i] == []
  }

  /** The loop does not come to a bucket of another class, nor to one below where it starts. */
  lemma {:induction false} ExpansionsSkip<K, V>(t: Table<K, V>, v: nat, k0: nat, k1: nat, h: nat)
    requires k0 <= k1 < 64 && v < WORD && |t.buckets| == Pow2(k1) && Lone(t, h)
    requires Low(h, k0) != Low(v, k0) || Low(Shr(h, k0), k1 - k0) < Low(Shr(v, k0), k1 - k0)
    ensures Expansions(t, v, k0, k1) == []
    decreases Pow2(k1 - k0) - Low(Shr(v, k0), k1 - k0)
  {
    hide Low, Shr, Above, And, Home, Shl, Expansions;
    ExpansionsStep(t, v, k0, k1);
    HomeIs(t, h, k1);
    HomeIs(t, v, k1);
    LowOf(h, v, k0, k1);
    if And(Above(v, k0), Pow2(k1) - Pow2(k0)) != 0 {
      ExpansionsSkip(t, Above(v, k0), k0, k1, h);
    }
  }

  /** The same bucket under the larger mask is the same class and the same bits between. */
  lemma LowOf(h: nat, v: nat, k0: nat, k1: nat)
    requires k0 <= k1
    ensures Low(h, k1) == Low(v, k1) ==> Low(h, k0) == Low(v, k0) && Low(Shr(h, k0), k1 - k0) == Low(Shr(v, k0), k1 - k0)
  {
    hide Low, Shr, Shl;
    LowTwo(h, k0, k1);
    LowTwo(v, k0, k1);
    LowBelow(h, k0);
    LowBelow(v, k0);
    ShrOfSum(Low(Shr(h, k0), k1 - k0), Low(h, k0), k0);
    ShrOfSum(Low(Shr(v, k0), k1 - k0), Low(v, k0), k0);
  }

  predicate InHome(t: Table<nat, nat>, h: nat, e: Entry<nat, nat>) {
    |t.buckets| > 0 && e in t.buckets[Home(t, h)]
  }

  /** Of the larger table, every entry whose hash shares the cursor's low bits is visited. */
  ghost predicate VisitsClass(k0: nat, k1: nat, v: nat)
    requires k0 <= k1 < 64 && v < WORD
  {
    forall t: Table<nat, nat>, h: nat, e ::
      |t.buckets| == Pow2(k1) && InHome(t, h, e) && Low(h, k0) == Low(v, k0) ==> e in Expansions(t, v, k0, k1)
  }

  /** Of these, every entry that does not come before the cursor is visited: what the scan needs of the call. */
  ghost predicate VisitsRest(k0: nat, k1: nat, v: nat)
    requires k0 <= k1 < 64 && v < WORD
  {
    forall t: Table<nat, nat>, h: nat, e ::
      |t.buckets| == Pow2(k1) && InHome(t, h, e) && h < WORD && Low(h, k0) == Low(v, k0) && Key(h) >= Key(v)
      ==> e in Expansions(t, v, k0, k1)
  }

  /** A call visits all expansions of its cursor, as the comment says, exactly when the cursor has no bits between the
      masks. */
  lemma VisitsClassIff(k0: nat, k1: nat, v: nat)
    requires k0 <= k1 < 64 && v < WORD
    ensures Pow2(k0) <= Pow2(k1)
    ensures VisitsClass(k0, k1, v) <==> And(v, Pow2(k1) - Pow2(k0)) == 0
  {
    hide Low, Shr, And, Home, Expansions, Above, Shl;
    AboveBetween(v, k0, k1);
    if And(v, Pow2(k1) - Pow2(k0)) == 0 {
      forall t: Table<nat, nat>, h: nat, e | |t.buckets| == Pow2(k1) && InHome(t, h, e) && Low(h, k0) == Low(v, k0)
        ensures e in Expansions(t, v, k0, k1) {
        ExpansionsCover(t, v, k0, k1, h, e);
      }
    } else {
      LowZero(k1 - k0);
      Pow2Positive(k1 - k0);
      var t, h, e := Unvisited(k0, k1, v, 0);
    }
  }

  /** It visits all that does not come before the cursor exactly when the cursor has no gap between the masks. */
  lemma VisitsRestIff(k0: nat, k1: nat, v: nat)
    requires k0 <= k1 < 64 && v < WORD
    ensures VisitsRest(k0, k1, v) <==> NoGap(v, k0, k1)
  {
    hide Low, Shr, And, Home, Expansions, Above, Shl, Key, Rev;
    var y, d := Between(v, k0, k1), k1 - k0;
    AboveBetween(v, k0, k1);
    InOrderIff(y, d);
    if NoGap(v, k0, k1) {
      forall t: Table<nat, nat>, h: nat, e |
        |t.buckets| == Pow2(k1) && InHome(t, h, e) && h < WORD && Low(h, k0) == Low(v, k0) && Key(h) >= Key(v)
        ensures e in Expansions(t, v, k0, k1)
      {
        NotBelow(v, h, k0, k1);
        ExpansionsCover(t, v, k0, k1, h, e);
      }
    } else {
      var z := SkippedBits(y, d);
      var t, h, e := Unvisited(k0, k1, v, z);
      KeyOrder(v, h, k0, k1);
    }
  }

  /** Where there is a gap, some bits are below in plain order and behind in reversed order. */
  lemma SkippedBits(y: nat, d: nat) returns (z: nat)
    requires y < Pow2(d) && And(y, y + 1) != 0
    ensures z < y && Rev(z, d) > Rev(y, d)
  {
    hide And, Rev;
    InOrderIff(y, d);
    z :| z < y && Rev(z, d) >= Rev(y, d);
    RevTwice(z, d);
    RevTwice(y, d);
    LowSmall(z, d);
    LowSmall(y, d);
  }

  /** The hash with the cursor's low bits and the given bits between */
  lemma Combined(k0: nat, k1: nat, v: nat, z: nat) returns (h: nat)
    requires k0 <= k1 < 64 && z < Pow2(k1 - k0)
    ensures h < Pow2(k1) && h < WORD && Low(h, k0) == Low(v, k0) && Between(h, k0, k1) == z
  {
    hide Low, Shr, Shl;
    LowBelow(v, k0);
    h := Shl(z, k0) + Low(v, k0);
    ShrOfSum(z, Low(v, k0), k0);
    LowSmall(z, k1 - k0);
    ShlMonotone(z + 1, Pow2(k1 - k0), k0);
    ShlAdd(z, 1, k0);
    ShlTwice(1, k1 - k0, k0);
    Pow2Monotone(k1, 64);
    WordSize();
  }

  /** A table with a single entry, which the call does not visit */
  lemma Unvisited(k0: nat, k1: nat, v: nat, z: nat) returns (t: Table<nat, nat>, h: nat, e: Entry<nat, nat>)
    requires k0 <= k1 < 64 && v < WORD && z < Between(v, k0, k1) && z < Pow2(k1 - k0)
    ensures |t.buckets| == Pow2(k1) && h < WORD && InHome(t, h, e) && Low(h, k0) == Low(v, k0)
    ensures Between(h, k0, k1) == z && e !in Expansions(t, v, k0, k1)
  {
    hide Low, Shr, And, Home, Expansions, Above, Shl, Pow2;
    h := Combined(k0, k1, v, z);
    Pow2Positive(k1);
    var none := EmptyTable<nat, nat>(Pow2(k1));
    e := Entry(0, 0);
    t := WithChain(none, Home(none, h), [e], 1);
    assert Home(t, h) == Home(none, h) by { SameSize(none, t, h); }
    assert Lone(t, h) && InHome(t, h, e);
    ExpansionsSkip(t, v, k0, k1, h);
  }

  lemma SameSize<K, V>(t: Table<K, V>, t': Table<K, V>, h: nat)
    requires |t.buckets| == |t'.buckets| > 0
    ensures Home(t, h) == Home(t', h)
  {
  }

  /** The tables of a valid dictionary of a size the words can count can be scanned. */
  lemma Scannable<K(!new), V>(hash: K -> Hash, t0: Table<K, V>, t1: Table<K, V>, r: int, contents: map<K, V>)
    requires Represents(hash, t0, t1, r, contents) && |t0.buckets| < WORD && |t1.buckets| < WORD
    ensures ScanState(t0, t1, r)
  {
  }

  // ---- a shrink met half-way through a scan ----

  function Identity(): nat -> Hash {
    (k: nat) => if k < 0x1_0000_0000 then k else 0
  }

  /** The size that the cursor of a call runs under: that of the only table, or of the smaller one */
  function Least<K, V>(c: Call<K, V>): nat {
    if c.r == -1 then |c.t0.buckets| else |Small(c.t0, c.t1).buckets|
  }

  /** A whole scan whose n-th call, at cursor v, is the first to meet a shrink from 2^k1 to 2^k0 buckets. Before it and
      after it the tables may grow between any two calls, and the shrink and every growth may be anywhere from its
      beginning to its end. */
  ghost predicate ShrinkScan(hash: nat -> Hash, calls: seq<Call<nat, nat>>, k0: nat, k1: nat, v: nat, n: nat) {
    && ScanRun(hash, calls) && calls[|calls| - 1].next == 0 && n < |calls| && calls[n].v == v
    && calls[n].r != -1 && |calls[n].t0.buckets| == Pow2(k1) && |calls[n].t1.buckets| == Pow2(k0)
    && (forall i :: 0 < i < |calls| && i != n ==> Least(calls[i - 1]) <= Least(calls[i]))
  }

  /** No key that stays is missed by such a scan. */
  ghost predicate ShrinkSafe(k0: nat, k1: nat, v: nat) {
    forall hash: nat -> Hash, calls: seq<Call<nat, nat>>, n: nat, key: nat ::
      ShrinkScan(hash, calls, k0, k1, v, n) && PresentThroughout(calls, key) ==> Emitted(calls, |calls|, key)
  }

  /** Whether such a scan can be trusted depends on the cursor alone, and its bits tell. Hashes have 32 bits, so a larger
      table would have no keys in the buckets that are passed over. */
  lemma ShrinkSafeIff(k0: nat, k1: nat, v: nat)
    requires k0 <= k1 <= 32 && v < Pow2(k1)
    ensures ShrinkSafe(k0, k1, v) <==> NoGap(v, k0, k1)
  {
    hide NoGap, ShrinkScan, Emitted, PresentThroughout, Pow2;
    if NoGap(v, k0, k1) {
      forall hash: nat -> Hash, calls: seq<Call<nat, nat>>, n: nat, key: nat |
        ShrinkScan(hash, calls, k0, k1, v, n) && PresentThroughout(calls, key)
        ensures Emitted(calls, |calls|, key)
      {
        ShrinkOrderly(hash, calls, k0, k1, v, n, key);
        ScanComplete(hash, calls, key);
      }
    } else {
      var calls, n, key := ShrinkMisses(k0, k1, v);
    }
  }

  /** But for the call that meets the shrink, the cursors are within the smaller mask. */
  lemma ShrinkOrderly(hash: nat -> Hash, calls: seq<Call<nat, nat>>, k0: nat, k1: nat, v: nat, n: nat, key: nat)
    requires k0 <= k1 <= 32 && ShrinkScan(hash, calls, k0, k1, v, n) && NoGap(v, k0, k1) && PresentThroughout(calls, key)
    ensures ScanRun(hash, calls) && AllOrderly(calls) && calls[|calls| - 1].next == 0
  {
    hide NoGap, Represents, ScanEmits, ScanNext, ScanState, Lg, Pow2;
    LgOfPow(k0);
    LgOfPow(k1);
    Pow2Monotone(k0, k1);
    forall i | 0 <= i < |calls| ensures Orderly(calls[i].t0, calls[i].t1, calls[i].r, calls[i].v) {
      var c := calls[i];
      assert CallMade(hash, c);
      if i == n {
        SmallLarge(c.t0, c.t1, k0, k1);
      } else if i == 0 {
        HasElements(hash, c.t0, c.t1, c.r, c.contents, key);
        SomeBucket(c);
        WithinSmaller(c.t0, c.t1, c.r, c.v);
      } else {
        var b := calls[i - 1];
        assert CallMade(hash, b) && b.next == c.v;
        HasElements(hash, b.t0, b.t1, b.r, b.contents, key);
        HasElements(hash, c.t0, c.t1, c.r, c.contents, key);
        NextWithin(b.t0, b.t1, b.r, b.v);
        WithinSmaller(c.t0, c.t1, c.r, c.v);
      }
    }
  }

  lemma SomeBucket<K, V>(c: Call<K, V>)
    requires ScanState(c.t0, c.t1, c.r) && c.t0.used + c.t1.used > 0
    ensures Least(c) > 0
  {
  }

  lemma SmallLarge<K, V>(t0: Table<K, V>, t1: Table<K, V>, k0: nat, k1: nat)
    requires k0 <= k1 && |t0.buckets| == Pow2(k1) && |t1.buckets| == Pow2(k0)
    ensures |Small(t0, t1).buckets| == Pow2(k0) && |Large(t0, t1).buckets| == Pow2(k1)
    ensures k0 < k1 ==> Small(t0, t1) == t1 && Large(t0, t1) == t0
  {
    Pow2Monotone(k0, k1);
    if k0 < k1 { Pow2Monotone(k0 + 1, k1); Pow2Positive(k0); }
  }

  /** With a gap, a scan of a dictionary with one key misses it. */
  lemma ShrinkMisses(k0: nat, k1: nat, v: nat) returns (calls: seq<Call<nat, nat>>, n: nat, key: nat)
    requires k0 <= k1 <= 32 && v < Pow2(k1) && !NoGap(v, k0, k1)
    ensures ShrinkScan(Identity(), calls, k0, k1, v, n) && PresentThroughout(calls, key) && !Emitted(calls, |calls|, key)
  {
    hide Low, Shr, Rev, Key, And, Pow2, Represents, Lone, CallMade, Shl;
    var d := k1 - k0;
    LowBelow(Shr(v, k0), d);
    var z := SkippedBits(Between(v, k0, k1), d);
    key := Combined(k0, k1, v, z);
    WordSize();
    Pow2Monotone(k1, 64);
    KeyOrder(v, key, k0, k1);
    var t, m := OneKey(k1, key);
    n := Rev(v, k1);
    assert v > 0 && k0 < k1 by { GapFacts(v, k0, k1); }
    var before := BeforeShrink(t, m, k1, v, key);
    var after := AfterShrink(t, m, k0, k1, v, key);
    calls := before + after;
    InTwoParts(before, after, t, m, k0, k1, v, key);
  }

  predicate Silent(c: Call<nat, nat>, t: Table<nat, nat>, m: map<nat, nat>) {
    c.t0 == t && c.contents == m && c.emits == []
  }

  lemma InTwoParts(before: seq<Call<nat, nat>>, after: seq<Call<nat, nat>>, t: Table<nat, nat>, m: map<nat, nat>,
                   k0: nat, k1: nat, v: nat, key: nat)
    requires before != [] && after != [] && v != 0 && k0 <= k1 && |t.buckets| == Pow2(k1) && key in m
    requires before[0].v == 0 && before[|before| - 1].next == v == after[0].v && after[|after| - 1].next == 0
    requires forall i :: 0 <= i < |before| ==>
               CallMade(Identity(), before[i]) && Silent(before[i], t, m) && before[i].r == -1
    requires forall i :: 0 < i < |before| ==> before[i].v == before[i - 1].next && before[i].v != 0
    requires forall i :: 0 <= i < |after| ==>
               CallMade(Identity(), after[i]) && Silent(after[i], t, m) && after[i].r == 0 &&
                   |after[i].t1.buckets| == Pow2(k0)
    requires forall i :: 0 < i < |after| ==> after[i].v == after[i - 1].next && after[i].v != 0
    ensures ShrinkScan(Identity(), before + after, k0, k1, v, |before|)
    ensures PresentThroughout(before + after, key) && !Emitted(before + after, |before| + |after|, key)
  {
    hide CallMade, Pow2;
    var calls, n := before + after, |before|;
    forall i | 0 <= i < |calls|
      ensures CallMade(Identity(), calls[i]) && Silent(calls[i], t, m) && !EmittedBy(calls[i], key)
      ensures if i < n then calls[i].r == -1 else calls[i].r == 0 && |calls[i].t1.buckets| == Pow2(k0)
      ensures Least(calls[i]) == if i < n then Pow2(k1) else Pow2(k0)
    {
      assert calls[i] == if i < n then before[i] else after[i - n];
      if i >= n { SmallLarge(t, calls[i].t1, k0, k1); }
    }
    forall i | 0 < i < |calls| ensures calls[i].v == calls[i - 1].next && calls[i].v != 0 {
      if i < n { assert calls[i] == before[i] && calls[i - 1] == before[i - 1]; }
      else if i > n { assert calls[i] == after[i - n] && calls[i - 1] == after[i - n - 1]; }
    }
  }

  lemma GapFacts(v: nat, k0: nat, k1: nat)
    requires k0 <= k1 && !NoGap(v, k0, k1)
    ensures v > 0 && k0 < k1
  {
    hide Shr;
    Pow2Positive(k0);
    if v == 0 { NoHigh(0, k0); LowZero(k1 - k0); }
    AndZero(1);
  }

  /** A dictionary of 2^k buckets with one key, of which it makes no difference whether a shrink has begun */
  lemma OneKey(k: nat, key: nat) returns (t: Table<nat, nat>, m: map<nat, nat>)
    requires k <= 32 && key < Pow2(k)
    ensures key in m && Represents(Identity(), t, Reset(), -1, m) && |t.buckets| == Pow2(k) && Lone(t, key) && t.used == 1
    ensures Identity()(key) == key
  {
    hide Represents, Home, Pow2;
    Pow2Monotone(k, 32);
    Pow2Values();
    Pow2Positive(k);
    assert SizeIs(Pow2(k), k);
    var e := EmptyTable<nat, nat>(Pow2(k));
    Empties<nat, nat>(Identity());
    Begun(Identity(), Reset<nat, nat>(), Reset<nat, nat>(), map[], Pow2(k));
    Added(Identity(), e, Reset(), -1, map[], key, 0);
    var i := Home(e, key);
    t := WithChain(e, i, [Entry(key, 0)] + e.buckets[i], 1);
    m := map[][key := 0];
    SameSize(e, t, key);
  }

  /** Counting in reversed order */
  lemma NextOf(v: nat, k: nat)
    requires k < 64 && v < WORD
    ensures Rev(v, k) < Pow2(k) && NextCursor(v, k) == if Rev(v, k) + 1 == Pow2(k) then 0 else Rev(Rev(v, k) + 1, k)
  {
    hide NextCursor, Rev;
    CursorStep(v, k);
  }

  lemma CursorOf(i: nat, k: nat)
    requires k <= 32 && i < Pow2(k)
    ensures Rev(i, k) < Pow2(k) && Rev(i, k) < WORD && Rev(Rev(i, k), k) == i && Low(Rev(i, k), k) == Rev(i, k)
    ensures Rev(i, k) == 0 <==> i == 0
  {
    hide Rev, Pow2;
    RevBelow(i, k);
    RevTwice(i, k);
    LowSmall(i, k);
    LowSmall(Rev(i, k), k);
    RevNothing(k);
    Pow2Monotone(k, 64);
    WordSize();
  }

  /** The call for the i-th cursor before the shrink */
  lemma CallBefore(t: Table<nat, nat>, m: map<nat, nat>, k: nat, key: nat, i: nat)
    requires k <= 32 && Represents(Identity(), t, Reset(), -1, m) && |t.buckets| == Pow2(k) && Lone(t, key) && t.used == 1
    requires key < Pow2(k) && i < Rev(key, k) && i + 1 < Pow2(k)
    ensures CallMade(Identity(), Call(t, Reset(), -1, m, Rev(i, k), [], Rev(i + 1, k)))
  {
    hide Represents, Rev, Pow2, NextCursor, Low, Home;
    Pow2Positive(k);
    Pow2Monotone(k, 64);
    WordSize();
    Pow2Monotone(k, 32);
    Pow2Values();
    Scannable(Identity(), t, Reset(), -1, m);
    LgOfPow(k);
    CursorOf(i, k);
    NextOf(Rev(i, k), k);
    HomeIs(t, Rev(i, k), k);
    HomeIs(t, key, k);
    LowSmall(key, k);
    assert Rev(i, k) != key;
  }

  /** The calls up to cursor v: the hash comes behind it, so nothing is emitted. */
  lemma BeforeShrink(t: Table<nat, nat>, m: map<nat, nat>, k: nat, v: nat, key: nat) returns (calls: seq<Call<nat, nat>>)
    requires k <= 32 && Represents(Identity(), t, Reset(), -1, m) && |t.buckets| == Pow2(k) && Lone(t, key) && t.used == 1
    requires 0 < v < Pow2(k) && key < Pow2(k) && Rev(key, k) > Rev(v, k)
    ensures |calls| == Rev(v, k) > 0 && calls[0].v == 0 && calls[|calls| - 1].next == v
    ensures forall i :: 0 <= i < |calls| ==> CallMade(Identity(), calls[i]) && Silent(calls[i], t, m) && calls[i].r == -1
    ensures forall i :: 0 < i < |calls| ==> calls[i].v == calls[i - 1].next && calls[i].v != 0
  {
    hide Represents, Rev, Pow2, CallMade, Lone;
    RevBelow(key, k);
    CursorOf(v, k);
    RevNothing(k);
    calls := seq(Rev(v, k), i requires 0 <= i < Rev(v, k) => Call(t, Reset(), -1, m, Rev(i, k), [], Rev(i + 1, k)));
    forall i | 0 <= i < |calls| ensures CallMade(Identity(), calls[i]) {
      CallBefore(t, m, k, key, i);
    }
    forall i | 0 < i < |calls| ensures calls[i].v == calls[i - 1].next && calls[i].v != 0 {
      CursorOf(i, k);
    }
  }

  /** A call during the shrink: the expansions of its cursor do not reach the key's bucket. */
  lemma CallAfter(t: Table<nat, nat>, m: map<nat, nat>, k0: nat, k1: nat, key: nat, v: nat)
    requires k0 < k1 <= 32 && Represents(Identity(), t, Reset(), -1, m) && |t.buckets| == Pow2(k1) && Lone(t, key) &&
             t.used == 1
    requires key < Pow2(k1) && v < WORD
    requires Low(key, k0) != Low(v, k0) || Between(key, k0, k1) < Between(v, k0, k1)
    ensures CallMade(Identity(), Call(t, EmptyTable(Pow2(k0)), 0, m, v, [], NextCursor(v, k0)))
  {
    hide Represents, Rev, Shr, Low, Pow2, NextCursor, Expansions, Home, Lone;
    Pow2Positive(k0);
    var n := EmptyTable<nat, nat>(Pow2(k0));
    assert SizeIs(Pow2(k0), k0);
    Pow2Positive(k1);
    Begun(Identity(), t, Reset(), m, Pow2(k0));
    Pow2Monotone(k1, 32);
    Pow2Monotone(k0, k1);
    Pow2Values();
    Scannable(Identity(), t, n, 0, m);
    LgOfPow(k0);
    LgOfPow(k1);
    SmallLarge(t, n, k0, k1);
    ExpansionsSkip(t, v, k0, k1, key);
  }

  /** The calls from cursor v on, with the shrink under way: the class of v is passed by, and then left behind. */
  lemma AfterShrink(t: Table<nat, nat>, m: map<nat, nat>, k0: nat, k1: nat, v: nat, key: nat)
    returns (calls: seq<Call<nat, nat>>)
    requires k0 < k1 <= 32 && Represents(Identity(), t, Reset(), -1, m) && |t.buckets| == Pow2(k1) && Lone(t, key) &&
             t.used == 1
    requires v < Pow2(k1) && key < Pow2(k1) && Low(key, k0) == Low(v, k0) && Between(key, k0, k1) < Between(v, k0, k1)
    ensures calls != [] && calls[0].v == v && calls[|calls| - 1].next == 0
    ensures forall i :: 0 <= i < |calls| ==>
              CallMade(Identity(), calls[i]) && Silent(calls[i], t, m) && calls[i].r == 0 &&
                  |calls[i].t1.buckets| == Pow2(k0)
    ensures forall i :: 0 < i < |calls| ==> calls[i].v == calls[i - 1].next && calls[i].v != 0
  {
    hide Represents, Rev, Pow2, CallMade, Lone, Low, Shr, NextCursor;
    var n := EmptyTable<nat, nat>(Pow2(k0));
    Pow2Monotone(k1, 64);
    WordSize();
    RevBelow(v, k0);
    var first := Rev(v, k0);
    calls := seq(Pow2(k0) - first, j requires 0 <= j < Pow2(k0) - first =>
      var c := if j == 0 then v else Rev(first + j, k0); Call(t, n, 0, m, c, [], NextCursor(c, k0)));
    RevLow(key, k0);
    RevLow(v, k0);
    forall j | 0 <= j < |calls|
      ensures CallMade(Identity(), calls[j])
      ensures calls[j].v < WORD && Rev(calls[j].v, k0) == first + j && (j > 0 ==> calls[j].v == Rev(first + j, k0) != 0)
    {
      if j > 0 {
        CursorOf(first + j, k0);
        RevLow(calls[j].v, k0);
      }
      CallAfter(t, m, k0, k1, key, calls[j].v);
    }
    forall j | 0 <= j < |calls| ensures calls[j].next == if j + 1 == |calls| then 0 else Rev(first + j + 1, k0) {
      NextOf(calls[j].v, k0);
    }
  }

  /** Such a scan, from sixteen buckets to four: at cursor 8 the buckets 8 and 12 are visited as expansions of 0, bucket
      4 never is. */
  lemma ShrinkMissesKey() returns (calls: seq<Call<nat, nat>>, n: nat, key: nat)
    ensures ShrinkScan(Identity(), calls, 2, 4, 8, n) && PresentThroughout(calls, key) && !Emitted(calls, |calls|, key)
  {
    hide ShrinkScan;
    EightBetween();
    calls, n, key := ShrinkMisses(2, 4, 8);
  }

  lemma EightBetween()
    ensures 8 < Pow2(4) && Between(8, 2, 4) == 2 && And(2, 3) != 0
  {
    Pow2Values();
    assert Shr(8, 2) == Shr(4, 1) == Shr(2, 0) == 2;
    assert Low(2, 2) == 2;
    assert And(2, 3) == 2 * And(1, 1);
    assert And(1, 1) == 1;
  }
}
