/** The incremental-rehash dictionary: two tables, half moved, that together are one finite map. */
module DictMap {
  import opened Bits
  import opened Wrappers
  import opened DictTables

  const INITIAL_SIZE := 4
  const FORCE_RESIZE_RATIO := 5

  /** A key is in at most one table, and the map has it exactly when one of them has. */
  predicate KeyOk<K(==), V(==)>(hash: K -> Hash, t0: Table<K, V>, t1: Table<K, V>, contents: map<K, V>, k: K) {
    && (At(t0, hash, k) == None || At(t1, hash, k) == None)
    && (k in contents <==> At(t0, hash, k) != None || At(t1, hash, k) != None)
    && (k in contents ==> At(t0, hash, k) == Some(contents[k]) || At(t1, hash, k) == Some(contents[k]))
  }

  /** The tables represent the map. While rehashing, the buckets below rehashidx have been moved. */
  ghost predicate Represents<K(!new), V>(hash: K -> Hash, t0: Table<K, V>, t1: Table<K, V>, rehashidx: int, contents: map<K, V>) {
    && TableOk(t0, hash) && TableOk(t1, hash) && -1 <= rehashidx <= |t0.buckets|
    && (rehashidx == -1 ==> t1 == Reset())
    && (rehashidx != -1 ==> |t0.buckets| > 0 && |t1.buckets| > 0 && forall i :: 0 <= i < rehashidx ==> t0.buckets[i] == [])
    && (forall k :: KeyOk(hash, t0, t1, contents, k))
    && |contents| == t0.used + t1.used
  }

  // ---- a table changed for one key ----

  ghost predicate Changed<K(!new), V>(hash: K -> Hash, t: Table<K, V>, t': Table<K, V>, key: K, val: Option<V>) {
    && TableOk(t', hash) && |t'.buckets| == |t.buckets|
    && (forall k :: At(t', hash, k) == if k == key then val else At(t, hash, k))
  }

  lemma Pushed<K(!new), V>(hash: K -> Hash, t: Table<K, V>, key: K, val: V)
    requires TableOk(t, hash) && |t.buckets| > 0 && At(t, hash, key) == None
    ensures var i := Home(t, hash(key));
            Changed(hash, t, WithChain(t, i, [Entry(key, val)] + t.buckets[i], t.used + 1), key, Some(val))
  {
    hide Home, IsPow2;
    var i := Home(t, hash(key));
    var chain := [Entry(key, val)] + t.buckets[i];
    assert ChainOk(t, hash, i);
    LookupNone(t.buckets[i], key);
    assert Distinct(chain);
    WithChainOk(t, hash, i, chain, t.used + 1);
    var t' := WithChain(t, i, chain, t.used + 1);
    forall k ensures At(t', hash, k) == if k == key then Some(val) else At(t, hash, k) {
      AtOther(t, hash, i, chain, t.used + 1, k);
      assert chain[1..] == t.buckets[i];
    }
  }

  lemma Removed<K(!new), V>(hash: K -> Hash, t: Table<K, V>, i: nat, j: nat)
    requires TableOk(t, hash) && i < |t.buckets| && j < |t.buckets[i]|
    ensures t.used > 0
    ensures var c := t.buckets[i]; Changed(hash, t, WithChain(t, i, c[..j] + c[j + 1..], t.used - 1), c[j].key, None)
  {
    hide Home, IsPow2, Distinct;
    var c := t.buckets[i];
    var chain := c[..j] + c[j + 1..];
    assert ChainOk(t, hash, i);
    TotalUpdate(t.buckets, i, chain);
    DistinctWithout(c, j);
    forall a | 0 <= a < |chain| ensures Home(t, hash(chain[a].key)) == i { assert chain[a] == c[if a < j then a else a + 1]; }
    WithChainOk(t, hash, i, chain, t.used - 1);
    var t' := WithChain(t, i, chain, t.used - 1);
    forall k ensures At(t', hash, k) == if k == c[j].key then None else At(t, hash, k) {
      AtOther(t, hash, i, chain, t.used - 1, k);
      LookupWithout(c, j, k);
    }
  }

  lemma Revalued<K(!new), V>(hash: K -> Hash, t: Table<K, V>, i: nat, j: nat, val: V)
    requires TableOk(t, hash) && i < |t.buckets| && j < |t.buckets[i]|
    ensures var c := t.buckets[i]; Changed(hash, t, WithChain(t, i, c[j := c[j].(val := val)], t.used), c[j].key, Some(val))
  {
    hide Home, IsPow2, Distinct;
    var c := t.buckets[i];
    var chain := c[j := c[j].(val := val)];
    assert ChainOk(t, hash, i);
    LookupSet(c, j, val, c[j].key);
    WithChainOk(t, hash, i, chain, t.used);
    var t' := WithChain(t, i, chain, t.used);
    forall k ensures At(t', hash, k) == if k == c[j].key then Some(val) else At(t, hash, k) {
      AtOther(t, hash, i, chain, t.used, k);
      LookupSet(c, j, val, k);
    }
  }

  // ---- the representation, step by step ----

  lemma Empties<K(!new), V>(hash: K -> Hash)
    ensures Represents(hash, Reset<K, V>(), Reset<K, V>(), -1, map[])
  {
  }

  function EmptyTable<K, V>(size: nat): (t: Table<K, V>)
    ensures |t.buckets| == size
  {
    Table(seq(size, _ => []), 0)
  }

  lemma EmptyOk<K(!new), V>(hash: K -> Hash, size: nat)
    requires IsPow2(size)
    ensures TableOk(EmptyTable<K, V>(size), hash) && forall k :: At(EmptyTable<K, V>(size), hash, k) == None
  {
    hide Home, IsPow2;
    var t := EmptyTable<K, V>(size);
    TotalZero(t.buckets);
  }

  /** A new second table: rehashing begins. */
  lemma Begun<K(!new), V>(hash: K -> Hash, t0: Table<K, V>, t1: Table<K, V>, contents: map<K, V>, size: nat)
    requires Represents(hash, t0, t1, -1, contents) && IsPow2(size) && size > 0
    ensures |t0.buckets| > 0 ==> Represents(hash, t0, EmptyTable(size), 0, contents)
    ensures |t0.buckets| == 0 ==> Represents(hash, EmptyTable(size), Reset(), -1, contents)
  {
    hide TableOk, At;
    EmptyOk<K, V>(hash, size);
    NoTable<K, V>(hash);
    var n := EmptyTable<K, V>(size);
    if |t0.buckets| > 0 {
      forall k ensures KeyOk(hash, t0, n, contents, k) { assert KeyOk(hash, t0, t1, contents, k); }
    } else {
      NoBuckets(hash, t0);
      forall k ensures KeyOk(hash, n, Reset(), contents, k) { assert KeyOk(hash, t0, t1, contents, k); }
    }
  }

  lemma NoTable<K(!new), V>(hash: K -> Hash)
    ensures TableOk(Reset<K, V>(), hash) && forall k :: At(Reset<K, V>(), hash, k) == None
  {
  }

  lemma NoBuckets<K(!new), V>(hash: K -> Hash, t: Table<K, V>)
    requires TableOk(t, hash) && |t.buckets| == 0
    ensures t == Reset() && forall k :: At(t, hash, k) == None
  {
  }

  lemma EmptyUsed<K(!new), V>(hash: K -> Hash, t: Table<K, V>)
    requires TableOk(t, hash) && t.used == 0
    ensures forall k :: At(t, hash, k) == None
  {
    hide Home;
    TotalZero(t.buckets);
    forall k ensures At(t, hash, k) == None {
      if |t.buckets| > 0 { assert t.buckets[Home(t, hash(k))] == []; }
    }
  }

  /** The first table is empty: the second takes its place. */
  lemma Rehashed<K(!new), V>(hash: K -> Hash, t0: Table<K, V>, t1: Table<K, V>, r: int, contents: map<K, V>)
    requires Represents(hash, t0, t1, r, contents) && r != -1 && t0.used == 0
    ensures Represents(hash, t1, Reset(), -1, contents)
  {
    hide TableOk, At;
    EmptyUsed(hash, t0);
    NoTable<K, V>(hash);
    forall k ensures KeyOk(hash, t1, Reset(), contents, k) { assert KeyOk(hash, t0, t1, contents, k); }
  }

  /** Elements are left, so some bucket from rehashidx on is not empty. */
  lemma MoreBuckets<K(!new), V>(hash: K -> Hash, t0: Table<K, V>, t1: Table<K, V>, r: int, contents: map<K, V>) returns (i: nat)
    requires Represents(hash, t0, t1, r, contents) && r != -1 && t0.used > 0
    ensures r <= i < |t0.buckets| && t0.buckets[i] != []
  {
    i := TotalPositive(t0.buckets);
  }

  /** One entry goes from the front of a chain of the first table to the front of its chain in the second. */
  lemma MoveOne<K(!new), V>(hash: K -> Hash, t0: Table<K, V>, t1: Table<K, V>, r: nat, contents: map<K, V>)
    requires Represents(hash, t0, t1, r, contents) && r < |t0.buckets| && t0.buckets[r] != []
    ensures t0.used > 0 && Home(t1, hash(t0.buckets[r][0].key)) < |t1.buckets|
    ensures var e := t0.buckets[r][0]; var h := Home(t1, hash(e.key));
            Represents(hash, WithChain(t0, r, t0.buckets[r][1..], t0.used - 1),
                WithChain(t1, h, [e] + t1.buckets[h], t1.used + 1), r, contents)
  {
    hide TableOk, At, Home;
    var e := t0.buckets[r][0];
    Removed(hash, t0, r, 0);
    assert t0.buckets[r][..0] + t0.buckets[r][1..] == t0.buckets[r][1..];
    AtEntry(t0, hash, r, 0);
    assert KeyOk(hash, t0, t1, contents, e.key);
    Pushed(hash, t1, e.key, e.val);
    var h := Home(t1, hash(e.key));
    var u0, u1 := WithChain(t0, r, t0.buckets[r][1..], t0.used - 1), WithChain(t1, h, [e] + t1.buckets[h], t1.used + 1);
    assert e == Entry(e.key, e.val);
    forall k ensures KeyOk(hash, u0, u1, contents, k) { assert KeyOk(hash, t0, t1, contents, k); }
  }

  /** Past an empty bucket. */
  lemma MovePast<K(!new), V>(hash: K -> Hash, t0: Table<K, V>, t1: Table<K, V>, r: nat, contents: map<K, V>)
    requires Represents(hash, t0, t1, r, contents) && r < |t0.buckets| && t0.buckets[r] == []
    ensures Represents(hash, t0, t1, r + 1, contents)
  {
    hide TableOk, At, KeyOk;
  }

  /** A new key in the second table when there is one, else in the first. */
  lemma Added<K(!new), V>(hash: K -> Hash, t0: Table<K, V>, t1: Table<K, V>, r: int, contents: map<K, V>, key: K, val: V)
    requires Represents(hash, t0, t1, r, contents) && key !in contents && |t0.buckets| > 0
    ensures var t := if r != -1 then t1 else t0; |t.buckets| > 0 && var i := Home(t, hash(key));
            var t' := WithChain(t, i, [Entry(key, val)] + t.buckets[i], t.used + 1);
            if r != -1 then Represents(hash, t0, t', r, contents[key := val])
                else Represents(hash, t', t1, r, contents[key := val])
  {
    hide TableOk, At, Home;
    assert KeyOk(hash, t0, t1, contents, key);
    var t := if r != -1 then t1 else t0;
    Pushed(hash, t, key, val);
    var t' := WithChain(t, Home(t, hash(key)), [Entry(key, val)] + t.buckets[Home(t, hash(key))], t.used + 1);
    var u0, u1 := if r != -1 then t0 else t', if r != -1 then t' else t1;
    var m := contents[key := val];
    forall k ensures KeyOk(hash, u0, u1, m, k) { assert KeyOk(hash, t0, t1, contents, k); }
  }

  function Pick<K, V>(t0: Table<K, V>, t1: Table<K, V>, which: nat): Table<K, V> {
    if which == 0 then t0 else t1
  }

  /** Below rehashidx there is nothing to change in the first table. */
  lemma EntryAbove<K(!new), V>(hash: K -> Hash, t0: Table<K, V>, t1: Table<K, V>, r: int, contents: map<K, V>, which: nat, i: nat, j: nat)
    requires Represents(hash, t0, t1, r, contents) && which <= 1
    requires i < |Pick(t0, t1, which).buckets| && j < |Pick(t0, t1, which).buckets[i]|
    ensures which == 0 ==> i >= r
    ensures which == 1 ==> r != -1
    ensures var e := Pick(t0, t1, which).buckets[i][j]; e.key in contents && contents[e.key] == e.val
  {
    hide TableOk, At, Home;
    var t := Pick(t0, t1, which);
    AtEntry(t, hash, i, j);
    assert KeyOk(hash, t0, t1, contents, t.buckets[i][j].key);
  }

  lemma Taken<K(!new), V>(hash: K -> Hash, t0: Table<K, V>, t1: Table<K, V>, r: int, contents: map<K, V>, which: nat, i: nat, j: nat)
    requires Represents(hash, t0, t1, r, contents) && which <= 1
    requires i < |Pick(t0, t1, which).buckets| && j < |Pick(t0, t1, which).buckets[i]|
    ensures Pick(t0, t1, which).used > 0
    ensures var t := Pick(t0, t1, which); var c := t.buckets[i]; var t' := WithChain(t, i, c[..j] + c[j + 1..], t.used - 1);
            if which == 0 then Represents(hash, t', t1, r, contents - {c[j].key})
                else Represents(hash, t0, t', r, contents - {c[j].key})
  {
    hide TableOk, At, Home;
    var t := Pick(t0, t1, which);
    var c := t.buckets[i];
    EntryAbove(hash, t0, t1, r, contents, which, i, j);
    Removed(hash, t, i, j);
    AtEntry(t, hash, i, j);
    var t' := WithChain(t, i, c[..j] + c[j + 1..], t.used - 1);
    var u0, u1 := if which == 0 then t' else t0, if which == 0 then t1 else t';
    var key := c[j].key;
    assert KeyOk(hash, t0, t1, contents, key);
    RemovedSize(contents, key);
    forall k ensures KeyOk(hash, u0, u1, contents - {key}, k) { assert KeyOk(hash, t0, t1, contents, k); }
  }

  lemma RemovedSize<K, V>(m: map<K, V>, key: K)
    requires key in m
    ensures |m - {key}| == |m| - 1
  {
  }

  lemma Assigned<K(!new), V>(hash: K -> Hash, t0: Table<K, V>, t1: Table<K, V>, r: int, contents: map<K, V>, which: nat, i: nat, j: nat, val: V)
    requires Represents(hash, t0, t1, r, contents) && which <= 1
    requires i < |Pick(t0, t1, which).buckets| && j < |Pick(t0, t1, which).buckets[i]|
    ensures var t := Pick(t0, t1, which); var c := t.buckets[i]; var t' := WithChain(t, i, c[j := c[j].(val := val)],
            t.used);
            if which == 0 then Represents(hash, t', t1, r, contents[c[j].key := val])
                else Represents(hash, t0, t', r, contents[c[j].key := val])
  {
    hide TableOk, At, Home;
    var t := Pick(t0, t1, which);
    var c := t.buckets[i];
    EntryAbove(hash, t0, t1, r, contents, which, i, j);
    Revalued(hash, t, i, j, val);
    AtEntry(t, hash, i, j);
    var t' := WithChain(t, i, c[j := c[j].(val := val)], t.used);
    var u0, u1 := if which == 0 then t' else t0, if which == 0 then t1 else t';
    var key := c[j].key;
    assert KeyOk(hash, t0, t1, contents, key);
    assert contents[key := val].Keys == contents.Keys;
    var m := contents[key := val];
    forall k ensures KeyOk(hash, u0, u1, m, k) { assert KeyOk(hash, t0, t1, contents, k); }
  }

  lemma RepresentsFacts<K(!new), V>(hash: K -> Hash, t0: Table<K, V>, t1: Table<K, V>, r: int, contents: map<K, V>)
    requires Represents(hash, t0, t1, r, contents)
    ensures TableOk(t0, hash) && TableOk(t1, hash) && -1 <= r <= |t0.buckets| && |contents| == t0.used + t1.used
    ensures r == -1 ==> t1 == Reset()
    ensures r != -1 ==> |t0.buckets| > 0 && |t1.buckets| > 0
  {
  }

  // ---- what a step of rehashing passes ----

  /** How many of these buckets have entries */
  function Filled<K, V>(b: seq<seq<Entry<K, V>>>, from: nat, end: nat): nat
    requires end <= |b|
    decreases end
  {
    if end <= from then 0 else Filled(b, from, end - 1) + if b[end - 1] == [] then 0 else 1
  }

  /** Exactly n filled buckets lie there, and the last of them at the end. */
  predicate Steps<K, V>(b: seq<seq<Entry<K, V>>>, from: int, end: int, n: nat) {
    0 <= from <= end <= |b| && Filled(b, from, end) == n && (n > 0 ==> b[end - 1] != [])
  }

  /** Of the buckets b, n filled ones were passed, and from there on c is the same. */
  ghost predicate Passed<K, V>(b: seq<seq<Entry<K, V>>>, c: seq<seq<Entry<K, V>>>, from: int, end: int, n: nat) {
    Steps(b, from, end, n) && |c| == |b| && c[end..] == b[end..]
  }

  lemma {:induction false} FilledNone<K, V>(b: seq<seq<Entry<K, V>>>, from: nat, end: nat)
    requires end <= |b| && forall i :: from <= i < end ==> b[i] == []
    ensures Filled(b, from, end) == 0
    decreases end
  {
    if end > from { FilledNone(b, from, end - 1); }
  }

  lemma {:induction false} FilledParts<K, V>(b: seq<seq<Entry<K, V>>>, from: nat, mid: nat, end: nat)
    requires from <= mid <= end <= |b|
    ensures Filled(b, from, end) == Filled(b, from, mid) + Filled(b, mid, end)
    decreases end
  {
    if end > mid { FilledParts(b, from, mid, end - 1); }
  }

  lemma PassedOne<K, V>(b: seq<seq<Entry<K, V>>>, c: seq<seq<Entry<K, V>>>, from: int, at: int, i: nat, n: nat)
    requires Passed(b, c, from, at, n) && at <= i < |c| && c[i] != [] && forall j :: at <= j < i ==> c[j] == []
    ensures Passed(b, c[i := []], from, i + 1, n + 1)
  {
    forall j | at <= j < |b| ensures b[j] == c[j] { assert b[at..][j - at] == c[at..][j - at]; }
    FilledNone(b, at, i);
    FilledParts(b, from, at, i);
    assert c[i := []][i + 1..] == c[i + 1..];
  }

  /** Nothing is left: no more filled buckets were ahead. */
  lemma PassedAll<K, V>(b: seq<seq<Entry<K, V>>>, c: seq<seq<Entry<K, V>>>, from: int, at: int, n: nat)
    requires Passed(b, c, from, at, n)
    ensures Filled(b, from, |b|) >= n
    ensures (forall j :: 0 <= j < |c| ==> c[j] == []) ==> Filled(b, from, |b|) == n
  {
    FilledParts(b, from, at, |b|);
    if forall j :: 0 <= j < |c| ==> c[j] == [] {
      forall j | at <= j < |b| ensures b[j] == [] { assert b[at..][j - at] == c[at..][j - at]; }
      FilledNone(b, at, |b|);
    }
  }

  lemma PassedMore<K, V>(b: seq<seq<Entry<K, V>>>, c: seq<seq<Entry<K, V>>>, from: int, at: int)
    requires Passed(b, c, from, at, 1) && Filled(b, from, |b|) >= 2
    ensures 0 <= at <= |c| && Filled(c, at, |c|) >= 1
  {
    forall j | at <= j < |b| ensures b[j] == c[j] { assert b[at..][j - at] == c[at..][j - at]; }
    FilledSame(b, c, at, |b|);
    FilledParts(b, from, at, |b|);
  }

  lemma PassedTwice<K, V>(b: seq<seq<Entry<K, V>>>, c: seq<seq<Entry<K, V>>>, d: seq<seq<Entry<K, V>>>,
                          from: int, at: int, end: int)
    requires Passed(b, c, from, at, 1) && Passed(c, d, at, end, 1)
    ensures Passed(b, d, from, end, 2)
  {
    forall j | at <= j < |b| ensures b[j] == c[j] { assert b[at..][j - at] == c[at..][j - at]; }
    FilledSame(b, c, at, end);
    FilledParts(b, from, at, end);
  }

  lemma {:induction false} FilledSame<K, V>(b: seq<seq<Entry<K, V>>>, c: seq<seq<Entry<K, V>>>, from: nat, end: nat)
    requires end <= |b| == |c| && forall i :: from <= i < end ==> b[i] == c[i]
    ensures Filled(b, from, end) == Filled(c, from, end)
    decreases end
  {
    if end > from { FilledSame(b, c, from, end - 1); }
  }

  // ---- the dictionary ----

  /** The least power of two, from the initial size on, that is no less than size */
  ghost predicate Fitting(n: nat, size: nat) {
    IsPow2(n) && n >= size && if size <= INITIAL_SIZE then n == INITIAL_SIZE else n < 2 * size
  }

  /** _dictNextPower */
  method NextPower(size: nat) returns (i: nat)
    ensures Fitting(i, size)
  {
    i := INITIAL_SIZE;
    assert SizeIs(4, 2);
    while i < size
      invariant i >= INITIAL_SIZE && IsPow2(i) && (i == INITIAL_SIZE || (INITIAL_SIZE < size && i < 2 * size))
      decreases size - i
    {
      ghost var k: nat :| SizeIs(i, k);
      assert SizeIs(2 * i, k + 1);
      i := i * 2;
    }
  }

  /** The chain walk of the lookups. */
  method FindIn<K(==), V>(chain: seq<Entry<K, V>>, key: K) returns (pos: int)
    ensures -1 <= pos < |chain| && (pos == -1 <==> Lookup(chain, key) == None)
    ensures pos != -1 ==> chain[pos].key == key && Lookup(chain, key) == Some(chain[pos].val)
  {
    pos := 0;
    assert chain[0..] == chain;
    while pos < |chain|
      invariant 0 <= pos <= |chain| && Lookup(chain[pos..], key) == Lookup(chain, key)
    {
      assert chain[pos..][0] == chain[pos] && chain[pos..][1..] == chain[pos + 1..];
      if chain[pos].key == key { return; }
      pos := pos + 1;
    }
    assert chain[|chain|..] == [];
    pos := -1;
  }

  /** Where an entry is: table, bucket, place in the chain. */
  datatype Place = Nowhere | Found(table: nat, idx: nat, pos: nat)

  class Dict<K(==, !new), V(==)> {
    const hash: K -> Hash
    var ht0: Table<K, V>
    var ht1: Table<K, V>
    var rehashidx: int
    var iterators: nat
    var canResize: bool
    /** The map that the tables represent. */
    ghost var contents: map<K, V>

    ghost predicate Valid()
      reads this
    {
      Represents(hash, ht0, ht1, rehashidx, contents)
    }

    /** _dictInit */
    constructor (hash: K -> Hash)
      ensures Valid() && contents == map[] && this.hash == hash && rehashidx == -1 && iterators == 0 && canResize
    {
      hide Represents;
      Empties<K, V>(hash);
      this.hash, ht0, ht1, rehashidx, iterators, canResize := hash, Reset(), Reset(), -1, 0, true;
      contents := map[];
    }

    /** dictExpand */
    method Expand(size: nat) returns (ok: bool)
      requires Valid()
      modifies `ht0, `ht1, `rehashidx
      ensures Valid() && ok == (old(rehashidx) == -1 && old(ht0.used) <= size)
      ensures !ok ==> ht0 == old(ht0) && ht1 == old(ht1) && rehashidx == old(rehashidx)
      ensures ok && |old(ht0).buckets| == 0 ==> rehashidx == -1 && Fitting(|ht0.buckets|, size)
      ensures ok && |old(ht0).buckets| > 0 ==> rehashidx == 0 && ht0 == old(ht0) && Fitting(|ht1.buckets|, size)
    {
      hide Represents, IsPow2;
      var realsize := NextPower(size);
      if rehashidx != -1 || ht0.used > size { return false; }
      RepresentsFacts(hash, ht0, ht1, rehashidx, contents);
      Begun(hash, ht0, ht1, contents, realsize);
      var n := EmptyTable<K, V>(realsize);
      if |ht0.buckets| == 0 {
        ht0 := n;
        return true;
      }
      ht1 := n;
      rehashidx := 0;
      ok := true;
    }

    /** dictResize */
    method Resize() returns (ok: bool)
      requires Valid()
      modifies `ht0, `ht1, `rehashidx
      ensures Valid() && ok == (canResize && old(rehashidx) == -1)
      ensures !ok ==> ht0 == old(ht0) && ht1 == old(ht1) && rehashidx == old(rehashidx)
      ensures ok ==>
                var minimal := if old(ht0).used < INITIAL_SIZE then INITIAL_SIZE else old(ht0).used;
                if |old(ht0).buckets| == 0 then rehashidx == -1 && Fitting(|ht0.buckets|, minimal)
                else rehashidx == 0 && ht0 == old(ht0) && Fitting(|ht1.buckets|, minimal)
    {
      if !canResize || rehashidx != -1 { return false; }
      var minimal := ht0.used;
      if minimal < INITIAL_SIZE { minimal := INITIAL_SIZE; }
      ok := Expand(minimal);
    }

    /** The skip loop of dictRehash, which has no bound of its own: it stops because elements are left. */
    method SkipEmpty()
      requires Valid() && rehashidx != -1 && ht0.used > 0
      modifies `rehashidx
      ensures Valid() && old(rehashidx) <= rehashidx < |ht0.buckets| && ht0.buckets[rehashidx] != []
      ensures forall j :: old(rehashidx) <= j < rehashidx ==> ht0.buckets[j] == []
    {
      hide Represents;
      RepresentsFacts(hash, ht0, ht1, rehashidx, contents);
      ghost var i := MoreBuckets(hash, ht0, ht1, rehashidx, contents);
      while ht0.buckets[rehashidx] == []
        invariant Valid() && old(rehashidx) <= rehashidx <= i
        invariant forall j :: old(rehashidx) <= j < rehashidx ==> ht0.buckets[j] == []
        decreases i - rehashidx
      {
        MovePast(hash, ht0, ht1, rehashidx, contents);
        rehashidx := rehashidx + 1;
      }
    }

    /** All entries of one bucket go to their buckets in the new table. */
    method MoveBucket()
      requires Valid() && 0 <= rehashidx < |ht0.buckets|
      modifies `ht0, `ht1, `rehashidx
      ensures Valid() && rehashidx == old(rehashidx) + 1 && ht0.buckets == old(ht0).buckets[old(rehashidx) := []]
    {
      hide Represents, Home;
      ghost var t0 := ht0;
      var de := ht0.buckets[rehashidx];
      assert WithChain(ht0, rehashidx, de, ht0.used) == ht0;
      while de != []
        invariant rehashidx == old(rehashidx) < |ht0.buckets| && ht0.buckets == t0.buckets
        invariant Represents(hash, WithChain(ht0, rehashidx, de, ht0.used), ht1, rehashidx, contents)
        decreases |de|
      {
        var nextde := de[1..];
        ghost var u0 := WithChain(ht0, rehashidx, de, ht0.used);
        RepresentsFacts(hash, u0, ht1, rehashidx, contents);
        MoveOne(hash, u0, ht1, rehashidx, contents);
        var h := Home(ht1, hash(de[0].key));
        ht1 := WithChain(ht1, h, [de[0]] + ht1.buckets[h], ht1.used + 1);
        ht0 := ht0.(used := ht0.used - 1);
        assert WithChain(u0, rehashidx, nextde, ht0.used) == WithChain(ht0, rehashidx, nextde, ht0.used);
        de := nextde;
      }
      ht0 := ht0.(buckets := ht0.buckets[rehashidx := []]);
      MovePast(hash, ht0, ht1, rehashidx, contents);
      rehashidx := rehashidx + 1;
    }

    /** dictRehash: n steps, each of which passes one filled bucket. The map is the same; when fewer than n filled buckets
        are left, all are moved and the second table takes the place of the first. */
    method Rehash(n: nat) returns (more: bool)
      requires Valid()
      modifies `ht0, `ht1, `rehashidx
      ensures Valid() && (!more ==> rehashidx == -1)
      ensures more ==> Passed(old(ht0).buckets, ht0.buckets, old(rehashidx), rehashidx, n)
      ensures old(rehashidx) != -1 ==>
                0 <= old(rehashidx) <= |old(ht0).buckets| &&
                (more <==> Filled(old(ht0).buckets, old(rehashidx), |old(ht0).buckets|) >= n)
      ensures |old(ht0).buckets| > 0 ==> |ht0.buckets| > 0
      ensures old(rehashidx) == -1 ==> !more && ht0 == old(ht0) && ht1 == old(ht1)
    {
      hide Represents, Filled;
      RepresentsFacts(hash, ht0, ht1, rehashidx, contents);
      if rehashidx == -1 { return false; }
      FilledNone(ht0.buckets, rehashidx, rehashidx);
      var left := n;
      while left > 0
        invariant Valid() && rehashidx != -1 && 0 <= left <= n
        invariant Passed(old(ht0).buckets, ht0.buckets, old(rehashidx), rehashidx, n - left)
      {
        left := left - 1;
        if ht0.used == 0 {
          TotalZero(ht0.buckets);
          PassedAll(old(ht0).buckets, ht0.buckets, old(rehashidx), rehashidx, n - left - 1);
          RepresentsFacts(hash, ht0, ht1, rehashidx, contents);
          Rehashed(hash, ht0, ht1, rehashidx, contents);
          ht0 := ht1;
          ht1 := Reset();
          rehashidx := -1;
          return false;
        }
        ghost var at := rehashidx;
        SkipEmpty();
        PassedOne(old(ht0).buckets, ht0.buckets, old(rehashidx), at, rehashidx, n - left - 1);
        MoveBucket();
      }
      PassedAll(old(ht0).buckets, ht0.buckets, old(rehashidx), rehashidx, n);
      RepresentsFacts(hash, ht0, ht1, rehashidx, contents);
      more := true;
    }

    /** Entries are on the move, and no iterator holds them back. */
    predicate Moving()
      reads this
    {
      rehashidx != -1 && iterators == 0
    }

    /** No filled bucket is left to pass. */
    predicate LastStep()
      reads this
    {
      0 <= rehashidx <= |ht0.buckets| && Filled(ht0.buckets, rehashidx, |ht0.buckets|) == 0
    }

    /** _dictRehashStep */
    method RehashStep()
      requires Valid()
      modifies `ht0, `ht1, `rehashidx
      ensures Valid() && (|old(ht0).buckets| > 0 ==> |ht0.buckets| > 0)
      ensures iterators > 0 || old(rehashidx) == -1 ==> ht0 == old(ht0) && ht1 == old(ht1) && rehashidx == old(rehashidx)
      ensures old(Moving()) ==> if old(LastStep()) then rehashidx == -1
                                else Passed(old(ht0).buckets, ht0.buckets, old(rehashidx), rehashidx, 1)
    {
      if iterators == 0 { var more := Rehash(1); }
    }

    /** The search of dictFind, from the first table on. */
    method Search(key: K) returns (p: Place)
      requires Valid() && |ht0.buckets| > 0
      ensures p == Nowhere <==> key !in contents
      ensures p != Nowhere ==>
              p.table <= 1 && p.idx < |Pick(ht0, ht1, p.table).buckets| &&
              p.pos < |Pick(ht0, ht1, p.table).buckets[p.idx]|
      ensures p != Nowhere ==> Pick(ht0, ht1, p.table).buckets[p.idx][p.pos] == Entry(key, contents[key])
    {
      hide Home, TableOk;
      var h := hash(key);
      assert KeyOk(hash, ht0, ht1, contents, key);
      var idx := Home(ht0, h);
      var pos := FindIn(ht0.buckets[idx], key);
      if pos != -1 { return Found(0, idx, pos); }
      if rehashidx == -1 { return Nowhere; }
      idx := Home(ht1, h);
      pos := FindIn(ht1.buckets[idx], key);
      if pos != -1 { return Found(1, idx, pos); }
      p := Nowhere;
    }

    /** dictFind, and dictFetchValue */
    method Find(key: K) returns (r: Option<V>)
      requires Valid()
      modifies `ht0, `ht1, `rehashidx
      ensures Valid() && r == if key in contents then Some(contents[key]) else None
      ensures old(Moving()) ==> if old(LastStep()) then rehashidx == -1
                                else Passed(old(ht0).buckets, ht0.buckets, old(rehashidx), rehashidx, 1)
    {
      hide Represents, Passed, Filled;
      if |ht0.buckets| == 0 {
        NothingYet(hash, ht0, ht1, rehashidx, contents, key);
        return None;
      }
      if rehashidx != -1 { RehashStep(); }
      var p := Search(key);
      if p == Nowhere { return None; }
      r := Some(Pick(ht0, ht1, p.table).buckets[p.idx][p.pos].val);
    }

    /** _dictExpandIfNeeded */
    method ExpandIfNeeded() returns (ok: bool)
      requires Valid()
      modifies `ht0, `ht1, `rehashidx
      ensures Valid() && ok && |ht0.buckets| > 0
      ensures old(rehashidx) != -1 ==> ht0 == old(ht0) && ht1 == old(ht1) && rehashidx == old(rehashidx)
      ensures old(rehashidx) == -1 ==>
                var n, used := |old(ht0).buckets|, old(ht0).used;
                if n == 0 then rehashidx == -1 && |ht0.buckets| == 4
                else if used >= n && (canResize || used / n > 5)
                then rehashidx == 0 && ht0 == old(ht0) && Fitting(|ht1.buckets|, used * 2)
                else rehashidx == -1 && ht0 == old(ht0) && ht1 == old(ht1)
    {
      hide Represents, IsPow2;
      RepresentsFacts(hash, ht0, ht1, rehashidx, contents);
      if rehashidx != -1 { return true; }
      if |ht0.buckets| == 0 {
        EmptyCount(hash, ht0);
        ok := Expand(INITIAL_SIZE);
        return;
      }
      if ht0.used >= |ht0.buckets| && (canResize || ht0.used / |ht0.buckets| > FORCE_RESIZE_RATIO) {
        ok := Expand(ht0.used * 2);
        return;
      }
      ok := true;
    }

    /** dictAddRaw and dictAdd: false when the key is there already. Unless entries are on the move already, a table as full
        as it may get is left as it is for a second one twice as large, and a new key goes there. */
    method Add(key: K, val: V) returns (ok: bool)
      requires Valid()
      modifies `ht0, `ht1, `rehashidx, `contents
      ensures Valid() && ok == (key !in old(contents))
      ensures contents == if ok then old(contents)[key := val] else old(contents)
      ensures old(rehashidx) == -1 ==>
                var n, used := |old(ht0).buckets|, old(ht0).used;
                if n == 0 then rehashidx == -1 && |ht0.buckets| == 4
                else if used >= n && (canResize || used / n > 5)
                then rehashidx == 0 && ht0 == old(ht0) && Fitting(|ht1.buckets|, used * 2)
                else rehashidx == -1 && |ht0.buckets| == n
      ensures old(Moving()) ==> if old(LastStep()) then rehashidx == -1 || rehashidx == 0
                                else Passed(old(ht0).buckets, ht0.buckets, old(rehashidx), rehashidx, 1)
    {
      hide Represents, Home;
      if rehashidx != -1 { RehashStep(); }
      var able := ExpandIfNeeded();
      var p := Search(key);
      if p != Nowhere { return false; }
      Added(hash, ht0, ht1, rehashidx, contents, key, val);
      var h := hash(key);
      if rehashidx != -1 {
        var index := Home(ht1, h);
        ht1 := WithChain(ht1, index, [Entry(key, val)] + ht1.buckets[index], ht1.used + 1);
      } else {
        var index := Home(ht0, h);
        ht0 := WithChain(ht0, index, [Entry(key, val)] + ht0.buckets[index], ht0.used + 1);
      }
      contents := contents[key := val];
      ok := true;
    }

    /** dictReplace: true when the key is new. */
    method Replace(key: K, val: V) returns (added: bool)
      requires Valid()
      modifies `ht0, `ht1, `rehashidx, `contents
      ensures Valid() && added == (key !in old(contents)) && contents == old(contents)[key := val]
      ensures old(Moving()) && 0 <= old(rehashidx) <= |old(ht0).buckets| &&
              Filled(old(ht0).buckets, old(rehashidx), |old(ht0).buckets|) >= 2 ==>
                Steps(old(ht0).buckets, old(rehashidx), rehashidx, if added then 1 else 2)
    {
      hide Represents, Steps, Filled;
      ghost var two := Moving() && 0 <= rehashidx <= |ht0.buckets| && Filled(ht0.buckets, rehashidx, |ht0.buckets|) >= 2;
      added := Add(key, val);
      if added { return; }
      NotEmpty(hash, ht0, ht1, rehashidx, contents, key);
      ghost var mid, at := ht0.buckets, rehashidx;
      if two { PassedMore(old(ht0).buckets, mid, old(rehashidx), at); }
      if rehashidx != -1 { RehashStep(); }
      if two { PassedTwice(old(ht0).buckets, mid, ht0.buckets, old(rehashidx), at, rehashidx); }
      var p := Search(key);
      Assigned(hash, ht0, ht1, rehashidx, contents, p.table, p.idx, p.pos, val);
      var t := Pick(ht0, ht1, p.table);
      var c := t.buckets[p.idx];
      t := WithChain(t, p.idx, c[p.pos := c[p.pos].(val := val)], t.used);
      if p.table == 0 { ht0 := t; } else { ht1 := t; }
      contents := contents[key := val];
    }

    /** dictDelete: false when the key is not there. */
    method Delete(key: K) returns (ok: bool)
      requires Valid()
      modifies `ht0, `ht1, `rehashidx, `contents
      ensures Valid() && ok == (key in old(contents)) && contents == old(contents) - {key}
      ensures old(Moving()) ==> if old(LastStep()) then rehashidx == -1
                                else Steps(old(ht0).buckets, old(rehashidx), rehashidx, 1)
    {
      hide Represents, Steps, Filled;
      if |ht0.buckets| == 0 {
        NothingYet(hash, ht0, ht1, rehashidx, contents, key);
        return false;
      }
      if rehashidx != -1 { RehashStep(); }
      var p := Search(key);
      if p == Nowhere { return false; }
      Taken(hash, ht0, ht1, rehashidx, contents, p.table, p.idx, p.pos);
      var t := Pick(ht0, ht1, p.table);
      var c := t.buckets[p.idx];
      t := WithChain(t, p.idx, c[..p.pos] + c[p.pos + 1..], t.used - 1);
      if p.table == 0 { ht0 := t; } else { ht1 := t; }
      contents := contents - {key};
      ok := true;
    }

    /** dictSize */
    function Size(): (n: nat)
      requires Valid()
      reads this
      ensures n == |contents|
    {
      ht0.used + ht1.used
    }
  }

  lemma NothingYet<K(!new), V>(hash: K -> Hash, t0: Table<K, V>, t1: Table<K, V>, r: int, contents: map<K, V>, key: K)
    requires Represents(hash, t0, t1, r, contents) && |t0.buckets| == 0
    ensures key !in contents && contents - {key} == contents && r == -1
  {
  }

  lemma NotEmpty<K(!new), V>(hash: K -> Hash, t0: Table<K, V>, t1: Table<K, V>, r: int, contents: map<K, V>, key: K)
    requires Represents(hash, t0, t1, r, contents) && key in contents
    ensures |t0.buckets| > 0
  {
  }

  lemma EmptyCount<K(!new), V>(hash: K -> Hash, t: Table<K, V>)
    requires TableOk(t, hash) && |t.buckets| == 0
    ensures t.used == 0
  {
  }

  // ---- the index as a signed word ----

  /** An unsigned 32-bit value kept in a signed word */
  function AsInt(i: nat): (r: int)
    requires i < 0x1_0000_0000
  {
    if i < 0x8000_0000 then i else i - 0x1_0000_0000
  }

  lemma HomeSmall<K, V>(t: Table<K, V>, h: nat, k: nat)
    requires |t.buckets| == Pow2(k) && h < 0x1_0000_0000
    ensures |t.buckets| > 0 && Home(t, h) < 0x1_0000_0000
    ensures h < |t.buckets| ==> Home(t, h) == h
    ensures |t.buckets| > 0x8000_0000 ==> 0x1_0000_0000 <= |t.buckets|
  {
    hide Low, And, Pow2;
    Pow2Positive(k);
    Pow2Values();
    HalfWord();
    AndMask(h, k);
    if h < Pow2(k) { LowSmall(h, k); }
    if k >= 32 {
      Pow2Monotone(32, k);
    } else {
      Pow2Monotone(k, 31);
    }
  }

  /** The source returns the index of a new key through an int, and -1 for a key that is there. For tables of up to 2^31
      buckets every index survives; in a larger one some turn negative, and one of them is read as a key that is there. */
  lemma IndexSurvives<K, V>(t: Table<K, V>, k: nat)
    requires |t.buckets| == Pow2(k) > 0
    ensures forall h: Hash :: Home(t, h) < 0x1_0000_0000
    ensures (forall h: Hash :: AsInt(Home(t, h)) == Home(t, h)) <==> |t.buckets| <= 0x8000_0000
    ensures (exists h: Hash :: AsInt(Home(t, h)) == -1) <==> |t.buckets| > 0x8000_0000
  {
    hide Home, Pow2;
    forall h: Hash ensures Home(t, h) < 0x1_0000_0000 { HomeSmall(t, h, k); }
    var last: Hash := 0xffff_ffff;
    HomeSmall(t, last, k);
  }
}
