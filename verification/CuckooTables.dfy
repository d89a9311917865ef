/** The cells of a cuckoo table: where items may stand, and what one change of a cell does. */
module CuckooTables {
  import opened Bits
  import opened DictTables

  datatype Cell<K, V> = Free | Item(key: K, data: V)

  /** The two hashes of a key. */
  datatype Hashes = Hashes(h0: nat, h1: nat)

  /** The bucket of a hash: its lg low bits */
  function Bucket(h: nat, lg: nat): (b: nat)
    ensures b < Pow2(lg)
  {
    Pow2Positive(lg);
    And(h, Pow2(lg) - 1)
  }

  lemma BucketLow(h: nat, lg: nat)
    ensures Bucket(h, lg) == Low(h, lg)
  {
    AndMask(h, lg);
  }

  /** One of the two buckets that a key may be in. */
  predicate Either(hs: Hashes, lg: nat, b: nat) {
    b == Bucket(hs.h0, lg) || b == Bucket(hs.h1, lg)
  }

  /** Cell i of bucket b. */
  function CellAt(b: nat, i: nat, lgCells: nat): nat { Shl(b, lgCells) + i }

  lemma CellBucket(b: nat, i: nat, lgCells: nat, lg: nat)
    requires i < Pow2(lgCells) && b < Pow2(lg)
    ensures CellAt(b, i, lgCells) < Pow2(lg + lgCells) && Shr(CellAt(b, i, lgCells), lgCells) == b &&
            Low(CellAt(b, i, lgCells), lgCells) == i
  {
    hide Shl, Shr, Low;
    ShrOfSum(b, i, lgCells);
    ShlMonotone(b + 1, Pow2(lg), lgCells);
    ShlAdd(b, 1, lgCells);
    ShlTwice(1, lg, lgCells);
  }

  lemma CellOf(p: nat, lgCells: nat, lg: nat)
    requires p < Pow2(lg + lgCells)
    ensures p == CellAt(Shr(p, lgCells), Low(p, lgCells), lgCells) && Low(p, lgCells) < Pow2(lgCells) &&
            Shr(p, lgCells) < Pow2(lg)
  {
  }

  /** The cell at p agrees with the map, and stands in a bucket of its key's. */
  predicate CellOk<K(==), V(==)>(hash: K -> Hashes, tab: seq<Cell<K, V>>, lg: nat, lgCells: nat, m: map<K, V>, p: nat)
    requires p < |tab|
  {
    tab[p].Item? ==> tab[p].key in m && m[tab[p].key] == tab[p].data && Either(hash(tab[p].key), lg, Shr(p, lgCells))
  }

  predicate Somewhere<K(==), V(==)>(tab: seq<Cell<K, V>>, c: Cell<K, V>) {
    exists p :: 0 <= p < |tab| && tab[p] == c
  }

  predicate Once<K(==), V>(tab: seq<Cell<K, V>>) {
    forall p, q :: 0 <= p < q < |tab| && tab[p].Item? && tab[q].Item? ==> tab[p].key != tab[q].key
  }

  function Occupied<K, V>(tab: seq<Cell<K, V>>): nat {
    if tab == [] then 0 else Occupied(tab[..|tab| - 1]) + if tab[|tab| - 1].Item? then 1 else 0
  }

  /** The table holds exactly the map, each key once and at home. */
  ghost predicate Holds<K(!new), V>(hash: K -> Hashes, tab: seq<Cell<K, V>>, lg: nat, lgCells: nat, m: map<K, V>) {
    && |tab| == Pow2(lg + lgCells)
    && (forall p :: 0 <= p < |tab| ==> CellOk(hash, tab, lg, lgCells, m, p))
    && (forall k :: k in m ==> Somewhere(tab, Item(k, m[k])))
    && Once(tab) && Occupied(tab) == |m|
  }

  lemma {:induction false} OccupiedSet<K, V>(tab: seq<Cell<K, V>>, p: nat, c: Cell<K, V>)
    requires p < |tab|
    ensures Occupied(tab[p := c]) == Occupied(tab) - (if tab[p].Item? then 1 else 0) + (if c.Item? then 1 else 0)
    decreases |tab|
  {
    var n := |tab| - 1;
    if p < n {
      assert tab[p := c][..n] == tab[..n][p := c];
      OccupiedSet(tab[..n], p, c);
    } else {
      assert tab[p := c][..n] == tab[..n];
    }
  }

  lemma {:induction false} OccupiedFits<K, V>(tab: seq<Cell<K, V>>)
    ensures Occupied(tab) <= |tab|
  {
    if tab != [] { OccupiedFits(tab[..|tab| - 1]); }
  }

  lemma {:induction false} OccupiedStretch<K, V>(tab: seq<Cell<K, V>>, at: nat, n: nat)
    requires at + n <= |tab| && forall p :: at <= p < at + n ==> tab[p].Item?
    ensures Occupied(tab) >= n
    decreases |tab|
  {
    if n > 0 {
      var less := tab[..|tab| - 1];
      if at + n < |tab| { OccupiedStretch(less, at, n); } else { OccupiedStretch(less, at, n - 1); }
    }
  }

  lemma ItemHeld<K(!new), V>(hash: K -> Hashes, tab: seq<Cell<K, V>>, lg: nat, lgCells: nat, m: map<K, V>, p: nat)
    requires Holds(hash, tab, lg, lgCells, m)
    ensures p < |tab| && tab[p].Item? ==> tab[p].key in m
  {
    if p < |tab| { assert CellOk(hash, tab, lg, lgCells, m, p); }
  }

  lemma HoldsFits<K(!new), V>(hash: K -> Hashes, tab: seq<Cell<K, V>>, lg: nat, lgCells: nat, m: map<K, V>)
    requires Holds(hash, tab, lg, lgCells, m)
    ensures |m| <= Pow2(lg + lgCells)
  {
    OccupiedFits(tab);
  }

  // ---- one cell changed ----

  /** An item goes into a free cell. */
  lemma Stored<K(!new), V>(hash: K -> Hashes, tab: seq<Cell<K, V>>, lg: nat, lgCells: nat, m: map<K, V>, p: nat, k: K, d: V)
    requires Holds(hash, tab, lg, lgCells, m) && p < |tab| && tab[p] == Free && k !in m &&
             Either(hash(k), lg, Shr(p, lgCells))
    ensures Holds(hash, tab[p := Item(k, d)], lg, lgCells, m[k := d])
  {
    hide Either, Shr, Occupied;
    var t, m' := tab[p := Item(k, d)], m[k := d];
    OccupiedSet(tab, p, Item(k, d));
    forall q | 0 <= q < |t| ensures CellOk(hash, t, lg, lgCells, m', q) { assert CellOk(hash, tab, lg, lgCells, m, q); }
    forall x | x in m' ensures Somewhere(t, Item(x, m'[x])) {
      if x == k {
        assert t[p] == Item(x, m'[x]);
      } else {
        assert Somewhere(tab, Item(x, m[x]));
        var q :| 0 <= q < |tab| && tab[q] == Item(x, m[x]);
        assert t[q] == Item(x, m'[x]);
      }
    }
    forall q | 0 <= q < |tab| && tab[q].Item? ensures tab[q].key != k { assert CellOk(hash, tab, lg, lgCells, m, q); }
  }

  /** An item is taken out of its cell. */
  lemma Freed<K(!new), V>(hash: K -> Hashes, tab: seq<Cell<K, V>>, lg: nat, lgCells: nat, m: map<K, V>, p: nat)
    requires Holds(hash, tab, lg, lgCells, m) && p < |tab| && tab[p].Item?
    ensures tab[p].key in m && m[tab[p].key] == tab[p].data
    ensures Holds(hash, tab[p := Free], lg, lgCells, m - {tab[p].key})
  {
    hide Either, Shr, Occupied;
    var k := tab[p].key;
    var t, m' := tab[p := Free], m - {k};
    assert CellOk(hash, tab, lg, lgCells, m, p);
    OccupiedSet(tab, p, Free);
    assert m == m'[k := m[k]];
    forall q | 0 <= q < |t| ensures CellOk(hash, t, lg, lgCells, m', q) {
      assert CellOk(hash, tab, lg, lgCells, m, q);
      if q != p && tab[q].Item? { assert tab[q].key != k by { if q < p { } else { } } }
    }
    forall x | x in m' ensures Somewhere(t, Item(x, m'[x])) {
      assert Somewhere(tab, Item(x, m[x]));
      var q :| 0 <= q < |tab| && tab[q] == Item(x, m[x]);
      assert t[q] == Item(x, m'[x]);
    }
  }

  /** Evicting: the new item takes the cell, and the old one is in hand. */
  lemma Evicted<K(!new), V>(hash: K -> Hashes, tab: seq<Cell<K, V>>, lg: nat, lgCells: nat, m: map<K, V>, p: nat, k: K, d: V)
    requires Holds(hash, tab, lg, lgCells, m) && p < |tab| && tab[p].Item? && k !in m && Either(hash(k), lg, Shr(p, lgCells))
    ensures var k', d' := tab[p].key, tab[p].data; var m' := (m - {k'})[k := d];
            Holds(hash, tab[p := Item(k, d)], lg, lgCells, m') && k' !in m' && m'[k' := d'] == m[k := d]
  {
    hide Holds, Either, Shr;
    HoldsSize(hash, tab, lg, lgCells, m);
    Freed(hash, tab, lg, lgCells, m, p);
    Stored(hash, tab[p := Free], lg, lgCells, m - {tab[p].key}, p, k, d);
    assert tab[p := Free][p := Item(k, d)] == tab[p := Item(k, d)];
    assert tab[p].key != k;
    assert (m - {tab[p].key})[k := d][tab[p].key := tab[p].data] == m[k := d];
  }

  lemma HoldsSize<K(!new), V>(hash: K -> Hashes, tab: seq<Cell<K, V>>, lg: nat, lgCells: nat, m: map<K, V>)
    requires Holds(hash, tab, lg, lgCells, m)
    ensures |tab| == Pow2(lg + lgCells) && Occupied(tab) == |m|
  {
  }

  lemma {:induction false} OccupiedNone<K, V>(tab: seq<Cell<K, V>>)
    requires forall p :: 0 <= p < |tab| ==> tab[p] == Free
    ensures Occupied(tab) == 0
    decreases |tab|
  {
    if tab != [] { OccupiedNone(tab[..|tab| - 1]); }
  }

  lemma HoldsNothing<K(!new), V>(hash: K -> Hashes, tab: seq<Cell<K, V>>, lg: nat, lgCells: nat)
    requires |tab| == Pow2(lg + lgCells) && forall p :: 0 <= p < |tab| ==> tab[p] == Free
    ensures Holds(hash, tab, lg, lgCells, map[])
  {
    OccupiedNone(tab);
  }

  // ---- looking a key up ----

  predicate InBucket<K(==), V>(tab: seq<Cell<K, V>>, lgCells: nat, b: nat, k: K) {
    exists i :: 0 <= i < Pow2(lgCells) && HasKey(tab, CellAt(b, i, lgCells), k)
  }

  predicate HasKey<K(==), V>(tab: seq<Cell<K, V>>, p: nat, k: K) {
    p < |tab| && tab[p].Item? && tab[p].key == k
  }

  /** A key of the map is in one of its two buckets, the low bits of its two hashes. */
  lemma KeyAtHome<K(!new), V>(hash: K -> Hashes, tab: seq<Cell<K, V>>, lg: nat, lgCells: nat, m: map<K, V>, k: K)
    requires Holds(hash, tab, lg, lgCells, m) && k in m
    ensures InBucket(tab, lgCells, Low(hash(k).h0, lg), k) || InBucket(tab, lgCells, Low(hash(k).h1, lg), k)
    ensures Bucket(hash(k).h0, lg) == Low(hash(k).h0, lg) && Bucket(hash(k).h1, lg) == Low(hash(k).h1, lg)
  {
    BucketLow(hash(k).h0, lg);
    BucketLow(hash(k).h1, lg);
    hide Shr, Low, Shl, Bucket, Occupied;
    assert Somewhere(tab, Item(k, m[k]));
    var p :| 0 <= p < |tab| && tab[p] == Item(k, m[k]);
    assert CellOk(hash, tab, lg, lgCells, m, p);
    CellOf(p, lgCells, lg);
    assert HasKey(tab, CellAt(Shr(p, lgCells), Low(p, lgCells), lgCells), k);
  }

  // ---- a full table ----

  /** A poor hash function, which sends every key to the first bucket */
  function FirstOnly(k: nat): Hashes { Hashes(0, 0) }

  /** One bucket of four cells, the first n of them taken */
  function FilledTo(n: nat): (tab: seq<Cell<nat, nat>>)
    requires n <= 4
    ensures |tab| == 4 && forall i :: n <= i < 4 ==> tab[i] == Free
  {
    if n == 0 then [Free, Free, Free, Free] else FilledTo(n - 1)[n - 1 := Item(n - 1, 9 + n)]
  }

  function Tens(n: nat): (m: map<nat, nat>)
    ensures |m| == n && forall k :: k in m ==> k < n
  {
    if n == 0 then map[] else Tens(n - 1)[n - 1 := 9 + n]
  }

  lemma FirstBucket(k: nat)
    requires k < 4
    ensures Pow2(2) == 4 && Either(FirstOnly(k), 0, Shr(k, 2))
  {
    assert k / 2 / 2 == 0;
    assert Pow2(0) == 1;
  }

  /** With n == 4 the table is one full bucket: an insertion that cannot make it grow loses an item that was there. */
  lemma {:induction false} OneBucketHolds(n: nat)
    requires n <= 4
    ensures Holds(FirstOnly, FilledTo(n), 0, 2, Tens(n)) && |Tens(n)| == n
  {
    hide Occupied, Holds, Either, Shr;
    if n == 0 {
      FirstBucket(0);
      HoldsNothing(FirstOnly, FilledTo(0), 0, 2);
    } else {
      OneBucketHolds(n - 1);
      FirstBucket(n - 1);
      Stored(FirstOnly, FilledTo(n - 1), 0, 2, Tens(n - 1), n - 1, n - 1, 9 + n);
    }
  }
}
