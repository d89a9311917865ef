/** What dictScan hands out and nothing more: a call the entries of its class, each once, and a whole scan of a dictionary
    that does not change every entry exactly once. */
module ScanOnce {
  import opened Bits
  import opened Wrappers
  import opened DictTables
  import opened DictMap
  import opened ReverseBits
  import opened ScanCursor
  import opened DictScan

  // ---- one call ----

  /** No key is in both. */
  ghost predicate NoneShared<K(!new), V>(a: seq<Entry<K, V>>, b: seq<Entry<K, V>>) {
    forall e, f :: e in a && f in b ==> e.key != f.key
  }

  lemma DistinctJoin<K(!new), V>(a: seq<Entry<K, V>>, b: seq<Entry<K, V>>)
    requires Distinct(a) && Distinct(b) && NoneShared(a, b)
    ensures Distinct(a + b)
  {
    var s := a + b;
    forall i, j | 0 <= i < j < |s| ensures s[i].key != s[j].key {
      if i < |a| <= j { assert s[i] in a && s[j] in b; }
    }
  }

  /** An entry in a bucket of a sound table is at home there, and the table finds it. */
  lemma InBucket<K, V>(hash: K -> Hash, t: Table<K, V>, k: nat, v: nat, e: Entry<K, V>)
    requires TableOk(t, hash) && |t.buckets| == Pow2(k)
    requires |t.buckets| > 0 && e in t.buckets[Home(t, v)]
    ensures Low(hash(e.key), k) == Low(v, k) && At(t, hash, e.key) == Some(e.val)
  {
    hide Low, Pow2, Lookup, IsPow2;
    var i := Home(t, v);
    var j :| 0 <= j < |t.buckets[i]| && t.buckets[i][j] == e;
    assert ChainOk(t, hash, i);
    HomeIs(t, hash(e.key), k);
    HomeIs(t, v, k);
    AtEntry(t, hash, i, j);
  }

  /** The entries of the expansions: of the cursor's class, not below it, in the table, and each once. */
  lemma {:induction false} ExpansionsExact<K(!new), V>(hash: K -> Hash, t: Table<K, V>, v: nat, k0: nat, k1: nat)
    requires k0 <= k1 < 64 && v < WORD && |t.buckets| == Pow2(k1) && TableOk(t, hash)
    ensures Distinct(Expansions(t, v, k0, k1))
    ensures forall e :: e in Expansions(t, v, k0, k1) ==>
              && Low(hash(e.key), k0) == Low(v, k0) && Between(v, k0, k1) <= Between(hash(e.key), k0, k1)
              && At(t, hash, e.key) == Some(e.val)
    decreases Pow2(k1 - k0) - Between(v, k0, k1)
  {
    hide Low, Shr, Above, And, Home, Shl, Expansions, At, TableOk, Pow2;
    ExpansionsStep(t, v, k0, k1);
    var here := t.buckets[Home(t, v)];
    var more := And(Above(v, k0), Pow2(k1) - Pow2(k0)) != 0;
    var rest := if more then Expansions(t, Above(v, k0), k0, k1) else [];
    assert Distinct(here) by { ChainDistinct(hash, t, Home(t, v)); }
    forall e | e in here
      ensures Low(hash(e.key), k0) == Low(v, k0) && Between(v, k0, k1) == Between(hash(e.key), k0, k1)
      ensures At(t, hash, e.key) == Some(e.val)
    {
      InBucket(hash, t, k1, v, e);
      LowOf(hash(e.key), v, k0, k1);
    }
    if more { ExpansionsExact(hash, t, Above(v, k0), k0, k1); }
    DistinctJoin(here, rest);
    assert Expansions(t, v, k0, k1) == here + rest;
  }

  lemma ChainDistinct<K, V>(hash: K -> Hash, t: Table<K, V>, i: nat)
    requires TableOk(t, hash) && i < |t.buckets|
    ensures Distinct(t.buckets[i])
  {
    assert ChainOk(t, hash, i);
  }

  /** Whatever the state, a call hands out no key twice, nothing but entries of the dictionary, with their values, and
      of these only such as share the cursor's low bits. */
  lemma CallExact<K(!new), V>(hash: K -> Hash, t0: Table<K, V>, t1: Table<K, V>, r: int, contents: map<K, V>, v: nat)
    requires Represents(hash, t0, t1, r, contents) && ScanState(t0, t1, r) && v < WORD
    ensures Distinct(ScanEmits(t0, t1, r, v))
    ensures forall e :: e in ScanEmits(t0, t1, r, v) ==>
              && e.key in contents && contents[e.key] == e.val
              && Low(hash(e.key), ScanLg(t0, t1, r)) == Low(v, ScanLg(t0, t1, r))
  {
    hide Low, Shr, Home, Expansions, At, TableOk, Lg, Pow2;
    if t0.used + t1.used == 0 {
    } else if r == -1 {
      SizedLg(t0);
      ChainDistinct(hash, t0, Home(t0, v));
      forall e | e in t0.buckets[Home(t0, v)]
        ensures e.key in contents && contents[e.key] == e.val
        ensures Low(hash(e.key), Lg(|t0.buckets|)) == Low(v, Lg(|t0.buckets|))
      {
        InBucket(hash, t0, Lg(|t0.buckets|), v, e);
        assert KeyOk(hash, t0, t1, contents, e.key);
      }
    } else {
      LgOrder(Small(t0, t1), Large(t0, t1));
      BothExact(hash, t0, t1, r, contents, Small(t0, t1), Large(t0, t1), v);
    }
  }

  lemma BothExact<K(!new), V>(hash: K -> Hash, t0: Table<K, V>, t1: Table<K, V>, r: int, contents: map<K, V>,
                              a: Table<K, V>, b: Table<K, V>, v: nat)
    requires Represents(hash, t0, t1, r, contents) && v < WORD && Sized(a) && Sized(b) && |a.buckets| <= |b.buckets|
    requires (a == t0 && b == t1) || (a == t1 && b == t0)
    requires |b.buckets| == Pow2(Lg(|b.buckets|)) && Lg(|a.buckets|) <= Lg(|b.buckets|) < 64
    ensures var emits := a.buckets[Home(a, v)] + Expansions(b, v, Lg(|a.buckets|), Lg(|b.buckets|));
            && Distinct(emits)
            && forall e :: e in emits ==> e.key in contents && contents[e.key] == e.val &&
                                          Low(hash(e.key), Lg(|a.buckets|)) == Low(v, Lg(|a.buckets|))
  {
    hide Low, Shr, Home, Expansions, At, TableOk, Lg, Pow2;
    var k0, k1 := Lg(|a.buckets|), Lg(|b.buckets|);
    SizedLg(a);
    ChainDistinct(hash, a, Home(a, v));
    ExpansionsExact(hash, b, v, k0, k1);
    forall e | e in a.buckets[Home(a, v)]
      ensures At(a, hash, e.key) == Some(e.val) && Low(hash(e.key), k0) == Low(v, k0)
      ensures e.key in contents && contents[e.key] == e.val && At(b, hash, e.key) == None
    {
      InBucket(hash, a, k0, v, e);
      assert KeyOk(hash, t0, t1, contents, e.key);
    }
    forall e | e in Expansions(b, v, k0, k1) ensures e.key in contents && contents[e.key] == e.val {
      assert KeyOk(hash, t0, t1, contents, e.key);
    }
    DistinctJoin(a.buckets[Home(a, v)], Expansions(b, v, k0, k1));
  }

  // ---- a whole scan of a dictionary that does not change ----

  /** All calls find the same state, and the last returns 0. */
  ghost predicate SteadyScan<K(!new), V>(hash: K -> Hash, calls: seq<Call<K, V>>) {
    && ScanRun(hash, calls) && calls[|calls| - 1].next == 0
    && forall i :: 0 <= i < |calls| ==> SameState(calls[0], calls[i])
  }

  predicate SameState<K(==), V(==)>(c: Call<K, V>, d: Call<K, V>) {
    d.t0 == c.t0 && d.t1 == c.t1 && d.r == c.r && d.contents == c.contents
  }

  /** Everything the first n calls handed out */
  function Handed<K, V>(calls: seq<Call<K, V>>, n: nat): seq<Entry<K, V>>
    requires n <= |calls|
  {
    if n == 0 then [] else Handed(calls, n - 1) + calls[n - 1].emits
  }

  lemma {:induction false} InHanded<K, V>(calls: seq<Call<K, V>>, n: nat, e: Entry<K, V>)
    requires n <= |calls|
    ensures e in Handed(calls, n) <==> exists i :: 0 <= i < n && e in calls[i].emits
  {
    if n > 0 { InHanded(calls, n - 1, e); }
  }

  /** The i-th cursor of a steady scan is i read backwards. */
  lemma {:induction false} SteadyCursor<K(!new), V>(hash: K -> Hash, calls: seq<Call<K, V>>, i: nat, k: nat)
    requires SteadyScan(hash, calls) && i < |calls| && calls[0].t0.used + calls[0].t1.used > 0
    requires k == ScanLg(calls[0].t0, calls[0].t1, calls[0].r)
    ensures k < 64 && i < Pow2(k) && Rev(calls[i].v, k) == i && Low(calls[i].v, k) == calls[i].v
    decreases i
  {
    hide Rev, Low, Lg, Pow2, NextCursor, Represents, ScanEmits;
    var c := calls[if i == 0 then 0 else i - 1];
    assert CallMade(hash, c) && SameState(calls[0], c);
    SizedLg(c.t0);
    if c.r != -1 { SizedLg(c.t1); }
    if i == 0 {
      RevNothing(k);
      Pow2Positive(k);
      LowSmall(0, k);
    } else {
      SteadyCursor(hash, calls, i - 1, k);
      assert calls[i].v == c.next == NextCursor(c.v, k);
      CursorStep(c.v, k);
      RevTwice(i, k);
      LowSmall(i, k);
      LowSmall(calls[i].v, k);
    }
  }

  /** Different calls hand out different classes. */
  lemma {:induction false} HandedDistinct<K(!new), V>(hash: K -> Hash, calls: seq<Call<K, V>>, n: nat)
    requires SteadyScan(hash, calls) && n <= |calls|
    ensures Distinct(Handed(calls, n))
    decreases n
  {
    hide Rev, Low, Lg, Pow2, NextCursor, Represents, ScanEmits, ScanNext;
    if n > 0 {
      var c := calls[n - 1];
      var k := ScanLg(calls[0].t0, calls[0].t1, calls[0].r);
      HandedDistinct(hash, calls, n - 1);
      assert CallMade(hash, c) && SameState(calls[0], c);
      CallExact(hash, c.t0, c.t1, c.r, c.contents, c.v);
      forall e, f | e in Handed(calls, n - 1) && f in c.emits ensures e.key != f.key {
        InHanded(calls, n - 1, e);
        var i :| 0 <= i < n - 1 && e in calls[i].emits;
        var d := calls[i];
        assert CallMade(hash, d) && SameState(calls[0], d);
        CallExact(hash, d.t0, d.t1, d.r, d.contents, d.v);
        assert c.t0.used + c.t1.used > 0 by { NoEmits(c.t0, c.t1, c.r, c.v); }
        SteadyCursor(hash, calls, i, k);
        SteadyCursor(hash, calls, n - 1, k);
      }
      DistinctJoin(Handed(calls, n - 1), c.emits);
    }
  }

  lemma NoEmits<K, V>(t0: Table<K, V>, t1: Table<K, V>, r: int, v: nat)
    requires ScanState(t0, t1, r) && v < WORD
    ensures t0.used + t1.used == 0 ==> ScanEmits(t0, t1, r, v) == []
  {
  }

  /** A scan of a dictionary that does not change hands out its entries, every one of them once, and nothing else,
      rehashing or not. */
  lemma SteadyScanOnce<K(!new), V>(hash: K -> Hash, calls: seq<Call<K, V>>)
    requires SteadyScan(hash, calls)
    ensures var all, m := Handed(calls, |calls|), calls[0].contents;
            Distinct(all) && forall e :: e in all <==> e.key in m && m[e.key] == e.val
  {
    hide Distinct, CallMade;
    HandedDistinct(hash, calls, |calls|);
    var all, m := Handed(calls, |calls|), calls[0].contents;
    forall e ensures e in all <==> e.key in m && m[e.key] == e.val {
      InHanded(calls, |calls|, e);
      if e in all { OnlyEntries(hash, calls, e); }
      if e.key in m && m[e.key] == e.val { EntryHanded(hash, calls, e); }
    }
  }

  lemma OnlyEntries<K(!new), V>(hash: K -> Hash, calls: seq<Call<K, V>>, e: Entry<K, V>)
    requires SteadyScan(hash, calls) && exists i :: 0 <= i < |calls| && e in calls[i].emits
    ensures e.key in calls[0].contents && calls[0].contents[e.key] == e.val
  {
    hide Represents, ScanEmits, ScanNext, Low;
    var i :| 0 <= i < |calls| && e in calls[i].emits;
    var c := calls[i];
    assert CallMade(hash, c) && SameState(calls[0], c);
    CallExact(hash, c.t0, c.t1, c.r, c.contents, c.v);
  }

  lemma EntryHanded<K(!new), V>(hash: K -> Hash, calls: seq<Call<K, V>>, e: Entry<K, V>)
    requires SteadyScan(hash, calls) && e.key in calls[0].contents && calls[0].contents[e.key] == e.val
    ensures exists i :: 0 <= i < |calls| && e in calls[i].emits
  {
    hide Represents, ScanEmits, ScanNext, Low, Lg, ScanState, Orderly, Rev, Pow2;
    SteadyOrderly(hash, calls, e.key);
    forall i | 0 <= i < |calls| ensures e.key in calls[i].contents { assert SameState(calls[0], calls[i]); }
    ScanComplete(hash, calls, e.key);
    var i :| 0 <= i < |calls| && EmittedBy(calls[i], e.key);
    var j :| 0 <= j < |calls[i].emits| && calls[i].emits[j].key == e.key;
    var f := calls[i].emits[j];
    OnlyEntries(hash, calls, f);
    assert f == e;
  }

  lemma SteadyOrderly<K(!new), V>(hash: K -> Hash, calls: seq<Call<K, V>>, key: K)
    requires SteadyScan(hash, calls) && key in calls[0].contents
    ensures AllOrderly(calls)
  {
    hide Represents, ScanEmits, ScanNext, Low, Lg, Orderly, Rev, Pow2;
    var z := calls[0];
    assert CallMade(hash, z);
    HasElements(hash, z.t0, z.t1, z.r, z.contents, key);
    forall i | 0 <= i < |calls| ensures Orderly(calls[i].t0, calls[i].t1, calls[i].r, calls[i].v) {
      var c := calls[i];
      assert CallMade(hash, c) && SameState(z, c);
      if i == 0 {
        SomeBucket(c);
      } else {
        var b := calls[i - 1];
        assert CallMade(hash, b) && SameState(z, b);
        NextWithin(b.t0, b.t1, b.r, b.v);
      }
      WithinSmaller(c.t0, c.t1, c.r, c.v);
    }
  }
}
