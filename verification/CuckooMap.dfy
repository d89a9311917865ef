/** ckh.c: the cuckoo table as a map, through eviction chains, growing, shrinking and failed attempts. */
module CuckooMap {
  import opened Bits
  import opened Wrappers
  import opened DictTables
  import opened CuckooTables
  import Permutations

  const CKH_A := 1103515241
  const CKH_C := 12347

  /** How an attempt to place an item ended: HandedBack is the item that found no place. Unfinished means that
      the bound on the length of an eviction chain was reached, with an item in hand. */
  datatype Attempt<K, V> = Placed | HandedBack(key: K, data: V) | Unfinished(key: K, data: V)

  datatype Outcome = Done | OutOfMemory | GaveUp

  /** After an attempt the cells hold cur, and cur with the item that found no place is what there was to hold. */
  ghost predicate Ends<K(!new), V>(a: Attempt<K, V>, cur: map<K, V>, total: map<K, V>) {
    if a.Placed? then cur == total else a.key !in cur && cur[a.key := a.data] == total
  }

  class Ckh<K(==, !new), V(==)> {
    const hash: K -> Hashes
    const lgCells: nat
    const lgMinBuckets: nat
    /** The largest table, in cells, whose size does not overflow. */
    const lgMaxCells: nat
    var tab: seq<Cell<K, V>>
    var lgCurBuckets: nat
    var count: nat
    var prngState: nat
    /** Whether the table could be allocated. */
    const ok: bool
    ghost var contents: map<K, V>
    /** Whether a chain of evictions has ever been cut short. */
    ghost var cut: bool

    ghost predicate Sizes()
      reads this
    {
      2 <= lgCells <= 32 && prngState < 0x1_0000_0000
    }

    ghost predicate Valid()
      reads this
    {
      && Sizes() && lgMinBuckets <= lgCurBuckets && lgCurBuckets + lgCells <= lgMaxCells
      && Holds(hash, tab, lgCurBuckets, lgCells, contents) && count == |contents|
    }

    /** ckh_new: the smallest table of one bucket or more with room for minitems at a load of three quarters. lgMax stands
        for the size at which 2^lg cells overflow, memory for whether an allocation of so many succeeds; ok tells whether
        the table could be allocated. */
    constructor (minitems: nat, hash: K -> Hashes, lgCells: nat, lgMax: nat, memory: nat -> bool)
      requires minitems > 0 && 2 <= lgCells <= 32
      ensures ok ==> Valid() && contents == map[] && count == 0 && !cut && lgCurBuckets == lgMinBuckets
      ensures ok <==> lgMinBuckets + lgCells <= lgMax && memory(lgMinBuckets + lgCells)
      ensures var cells := Pow2(lgMinBuckets + lgCells);
              3 * cells > 4 * minitems && (lgMinBuckets > 0 ==> cells < 8 * (minitems / 3 + 1))
      ensures this.hash == hash && this.lgCells == lgCells && this.lgMaxCells == lgMax && prngState == 42
    {
      var mincells := (minitems + (3 - minitems % 3)) / 3 * 4;
      var lgMincells := lgCells;
      var cells := Pow2(lgCells);
      Pow2Positive(lgCells);
      while cells < mincells
        invariant lgMincells >= lgCells && cells == Pow2(lgMincells) >= 1
        invariant lgMincells > lgCells ==> cells < 2 * mincells
        decreases mincells - cells
      {
        lgMincells := lgMincells + 1;
        cells := 2 * cells;
      }
      var able := lgMincells <= lgMax && memory(lgMincells);
      this.hash, this.lgCells, lgMinBuckets, lgMaxCells := hash, lgCells, lgMincells - lgCells, lgMax;
      lgCurBuckets, count, prngState, contents := lgMincells - lgCells, 0, 42, map[];
      ok := able;
      tab := if able then seq(cells, _ => Free) else [];
      cut := false;
      new;
      if ok { HoldsNothing(hash, tab, lgCurBuckets, lgCells); }
    }

    /** prng32 with a range of lgCells bits */
    method Prng() returns (r: nat)
      requires Sizes()
      modifies `prngState
      ensures Sizes() && r < Pow2(lgCells)
      ensures prngState == (old(prngState) * CKH_A + CKH_C) % 0x1_0000_0000 && r == Shr(prngState, 32 - lgCells)
    {
      r := (prngState * CKH_A + CKH_C) % 0x1_0000_0000;
      prngState := r;
      TopBits(r, lgCells);
      r := Shr(r, 32 - lgCells);
    }

    /** ckh_bucket_search */
    method BucketSearch(bucket: nat, key: K) returns (cell: int)
      requires |tab| == Pow2(lgCurBuckets + lgCells) && bucket < Pow2(lgCurBuckets)
      ensures cell == -1 ==> !InBucket(tab, lgCells, bucket, key)
      ensures cell != -1 ==> 0 <= cell && HasKey(tab, cell, key)
    {
      hide CellAt;
      var i := 0;
      while i < Pow2(lgCells)
        invariant forall j :: 0 <= j < i ==> !HasKey(tab, CellAt(bucket, j, lgCells), key)
      {
        CellBucket(bucket, i, lgCells, lgCurBuckets);
        var p := CellAt(bucket, i, lgCells);
        if tab[p].Item? && tab[p].key == key { return p; }
        i := i + 1;
      }
      cell := -1;
    }

    /** ckh_isearch */
    method ISearch(key: K) returns (cell: int)
      requires Valid()
      ensures cell == -1 <==> key !in contents
      ensures cell != -1 ==> 0 <= cell < |tab| && tab[cell] == Item(key, contents[key])
    {
      hide Bucket, InBucket, Shr, Either, Occupied;
      var hashes := hash(key);
      if key in contents { KeyAtHome(hash, tab, lgCurBuckets, lgCells, contents, key); }
      cell := BucketSearch(Bucket(hashes.h0, lgCurBuckets), key);
      if cell == -1 { cell := BucketSearch(Bucket(hashes.h1, lgCurBuckets), key); }
      if cell != -1 { assert CellOk(hash, tab, lgCurBuckets, lgCells, contents, cell); }
    }

    /** ckh_search */
    method Search(key: K) returns (r: Option<V>)
      requires Valid()
      ensures r == if key in contents then Some(contents[key]) else None
    {
      hide Holds;
      var cell := ISearch(key);
      r := if cell == -1 then None else Some(tab[cell].data);
    }

    /** Every cell of the bucket is taken. */
    ghost predicate Full(b: nat)
      reads `tab
    {
      forall i :: 0 <= i < Pow2(lgCells) ==> FullAt(b, i)
    }

    /** Neither bucket of the key has a free cell. */
    ghost predicate NoCell(key: K)
      reads `tab, `lgCurBuckets
    {
      Full(Bucket(hash(key).h0, lgCurBuckets)) && Full(Bucket(hash(key).h1, lgCurBuckets))
    }

    ghost predicate FullAt(b: nat, i: nat)
      reads `tab
    {
      CellAt(b, i, lgCells) < |tab| && tab[CellAt(b, i, lgCells)].Item?
    }

    /** ckh_try_bucket_insert: a free cell of the bucket, looked for from a random one on. True when there is none. */
    method TryBucketInsert(bucket: nat, key: K, data: V, ghost cur: map<K, V>) returns (failed: bool)
      requires Sizes() && Holds(hash, tab, lgCurBuckets, lgCells, cur) && key !in cur
      requires bucket < Pow2(lgCurBuckets) && Either(hash(key), lgCurBuckets, bucket)
      modifies `tab, `count, `prngState
      ensures Sizes() && |tab| == |old(tab)|
      ensures failed ==> tab == old(tab) && count == old(count) && Full(bucket)
      ensures !failed ==> Holds(hash, tab, lgCurBuckets, lgCells, cur[key := data]) && count == old(count) + 1
    {
      hide Bucket, Shr, Occupied, Holds, CellAt, And;
      HoldsSize(hash, tab, lgCurBuckets, lgCells, cur);
      var offset := Prng();
      var i := 0;
      while i < Pow2(lgCells)
        invariant i <= Pow2(lgCells) && Sizes() && tab == old(tab) && count == old(count)
        invariant forall j :: 0 <= j < i ==> FullAt(bucket, Turned(j, offset, lgCells))
      {
        Cycled(i, offset, lgCells);
        var c := And(i + offset, Pow2(lgCells) - 1);
        CellBucket(bucket, c, lgCells, lgCurBuckets);
        var p := CellAt(bucket, c, lgCells);
        if tab[p] == Free {
          Stored(hash, tab, lgCurBuckets, lgCells, cur, p, key, data);
          tab := tab[p := Item(key, data)];
          count := count + 1;
          return false;
        }
        i := i + 1;
      }
      forall j | 0 <= j < Pow2(lgCells) ensures FullAt(bucket, j) {
        var k := if j >= offset then j - offset else j - offset + Pow2(lgCells);
        assert Turned(k, offset, lgCells) == j;
      }
      failed := true;
    }

    /** One turn of ckh_evict_reloc_insert: the item in hand takes the place of one at random, which comes into hand,
        and tbucket is where else that one may be. */
    method EvictOne(bucket: nat, key: K, data: V, ghost cur: map<K, V>)
      returns (tkey: K, tdata: V, tbucket: nat, ghost next: map<K, V>, ghost at: nat)
      requires Sizes() && Holds(hash, tab, lgCurBuckets, lgCells, cur) && key !in cur
      requires bucket < Pow2(lgCurBuckets) && Either(hash(key), lgCurBuckets, bucket) && Full(bucket)
      modifies `tab, `prngState
      ensures Sizes() && Holds(hash, tab, lgCurBuckets, lgCells, next)
      ensures tkey in cur && tkey !in next && next[tkey := tdata] == cur[key := data]
      ensures at < |old(tab)| && Shr(at, lgCells) == bucket && old(tab[at]) == Item(tkey, tdata)
      ensures tab == old(tab)[at := Item(key, data)]
      ensures tbucket < Pow2(lgCurBuckets) && Either(hash(tkey), lgCurBuckets, tbucket)
      ensures var first, second := Low(hash(tkey).h0, lgCurBuckets), Low(hash(tkey).h1, lgCurBuckets);
              tbucket == if second != bucket then second else first
      ensures prngState == (old(prngState) * 1103515241 + 12347) % 0x1_0000_0000
      ensures at == CellAt(bucket, Shr(prngState, 32 - lgCells), lgCells)
    {
      hide Bucket, Shr, Occupied, Holds, CellAt, And, Either, Ckh.FullAt;
      var i := Prng();
      var cell := CellAt(bucket, i, lgCells);
      at := cell;
      FullCell(bucket, i);
      CellIn(bucket, i);
      tkey, tdata := tab[cell].key, tab[cell].data;
      Evicted(hash, tab, lgCurBuckets, lgCells, cur, cell, key, data);
      next := (cur - {tkey})[key := data];
      assert tkey in next[tkey := tdata];
      tab := tab[cell := Item(key, data)];
      var hashes := hash(tkey);
      EitherOne(hashes, lgCurBuckets);
      BucketLow(hashes.h0, lgCurBuckets);
      BucketLow(hashes.h1, lgCurBuckets);
      tbucket := Bucket(hashes.h1, lgCurBuckets);
      if tbucket == bucket { tbucket := Bucket(hashes.h0, lgCurBuckets); }
    }

    /** ckh_evict_reloc_insert: an item is evicted at random and another place is sought for it, and so on, until
        one is found or the chain comes back to the first bucket. The new item stays where it was put, for the chain ends
        before anything is evicted from the first bucket again, so an item that is left over is an older one. */
    method EvictRelocInsert(argbucket: nat, argkey: K, argdata: V, fuel: nat, ghost cur0: map<K, V>)
      returns (a: Attempt<K, V>, ghost cur: map<K, V>)
      requires Sizes() && Holds(hash, tab, lgCurBuckets, lgCells, cur0) && argkey !in cur0
      requires argbucket < Pow2(lgCurBuckets) && Either(hash(argkey), lgCurBuckets, argbucket) && Full(argbucket)
      modifies `tab, `count, `prngState, `cut
      ensures Sizes() && Holds(hash, tab, lgCurBuckets, lgCells, cur) && cut == (old(cut) || a.Unfinished?)
      ensures Ends(a, cur, cur0[argkey := argdata])
      ensures count == old(count) + if a.Placed? then 1 else 0
      ensures fuel > 0 && !a.Placed? ==> a.key in cur0
      ensures fuel > 0 && lgCurBuckets == 0 ==> a.HandedBack?
    {
      hide Holds, Either, Ckh.Full, Shr;
      assert Pow2(0) == 1;
      ghost var home := 0;
      ghost var total := cur0[argkey := argdata];
      var bucket: nat, key, data := argbucket, argkey, argdata;
      var left := fuel;
      cur := cur0;
      while left > 0
        invariant Sizes() && Holds(hash, tab, lgCurBuckets, lgCells, cur) && key !in cur && cur[key := data] == total
        invariant bucket < Pow2(lgCurBuckets) && Either(hash(key), lgCurBuckets, bucket) && Full(bucket) &&
                  count == old(count) && cut == old(cut)
        invariant left == fuel ==> bucket == argbucket && key == argkey && data == argdata && cur == cur0
        invariant lgCurBuckets == 0 ==> left == fuel
        invariant left < fuel ==> key in cur0 && bucket != argbucket && StandsAt(home, argbucket, argkey)
      {
        ghost var first := left == fuel;
        left := left - 1;
        var tbucket;
        ghost var at;
        key, data, tbucket, cur, at := EvictOne(bucket, key, data, cur);
        if first { home := at; }
        ItemHeld(hash, tab, lgCurBuckets, lgCells, cur, home);
        assert key in cur0 by { assert key in total; }
        if tbucket == argbucket { return HandedBack(key, data), cur; }
        bucket := tbucket;
        var failed := TryBucketInsert(bucket, key, data, cur);
        if !failed { return Placed, cur[key := data]; }
      }
      cut := true;
      a := Unfinished(key, data);
    }

    /** The item of the key is in a cell of the bucket. */
    ghost predicate StandsAt(p: nat, bucket: nat, key: K)
      reads `tab
    {
      p < |tab| && Shr(p, lgCells) == bucket && tab[p].Item? && tab[p].key == key
    }

    lemma FullCell(b: nat, i: nat)
      requires Full(b) && i < Pow2(lgCells)
      ensures CellAt(b, i, lgCells) < |tab| && tab[CellAt(b, i, lgCells)].Item?
    {
      assert FullAt(b, i);
    }

    /** A full bucket takes as many items as it has cells. */
    lemma FullCount(b: nat, cur: map<K, V>)
      requires Full(b) && Holds(hash, tab, lgCurBuckets, lgCells, cur)
      ensures |cur| >= Pow2(lgCells)
    {
      hide Holds, Shl;
      HoldsSize(hash, tab, lgCurBuckets, lgCells, cur);
      var at, n := Shl(b, lgCells), Pow2(lgCells);
      Pow2Positive(lgCells);
      assert FullAt(b, n - 1);
      forall p | at <= p < at + n ensures tab[p].Item? { assert FullAt(b, p - at); }
      OccupiedStretch(tab, at, n);
    }

    lemma CellIn(b: nat, i: nat)
      requires i < Pow2(lgCells) && b < Pow2(lgCurBuckets)
      ensures Shr(CellAt(b, i, lgCells), lgCells) == b
    {
      CellBucket(b, i, lgCells, lgCurBuckets);
    }

    /** ckh_try_insert */
    method TryInsert(key: K, data: V, fuel: nat, ghost cur0: map<K, V>) returns (a: Attempt<K, V>, ghost cur: map<K, V>)
      requires Sizes() && Holds(hash, tab, lgCurBuckets, lgCells, cur0) && key !in cur0
      modifies `tab, `count, `prngState, `cut
      ensures Sizes() && Holds(hash, tab, lgCurBuckets, lgCells, cur) && cut == (old(cut) || a.Unfinished?)
      ensures Ends(a, cur, cur0[key := data])
      ensures count == old(count) + if a.Placed? then 1 else 0
      ensures !a.Placed? ==> old(NoCell(key))
      ensures fuel > 0 && !a.Placed? ==> a.key in cur0
      ensures |cur0| == Pow2(lgCurBuckets + lgCells) ==> !a.Placed?
      ensures fuel > 0 && lgCurBuckets == 0 && |cur0| == Pow2(lgCells) ==> a.HandedBack?
      ensures |cur0| < Pow2(lgCells) ==> a.Placed?
    {
      hide Bucket, Holds, Either, Ckh.Full, Pow2;
      var hashes := hash(key);
      EitherOne(hashes, lgCurBuckets);
      var bucket := Bucket(hashes.h0, lgCurBuckets);
      var failed := TryBucketInsert(bucket, key, data, cur0);
      if !failed {
        HoldsFits(hash, tab, lgCurBuckets, lgCells, cur0[key := data]);
        return Placed, cur0[key := data];
      }
      bucket := Bucket(hashes.h1, lgCurBuckets);
      failed := TryBucketInsert(bucket, key, data, cur0);
      if !failed {
        HoldsFits(hash, tab, lgCurBuckets, lgCells, cur0[key := data]);
        return Placed, cur0[key := data];
      }
      FullCount(bucket, cur0);
      a, cur := EvictRelocInsert(bucket, key, data, fuel, cur0);
      HoldsFits(hash, tab, lgCurBuckets, lgCells, cur);
    }

    /** ckh_rebuild: the items of the old table, one by one, into the empty new one. */
    method Rebuild(aTab: seq<Cell<K, V>>, fuel: nat, ghost lgOld: nat) returns (r: Rebuilt)
      requires Sizes() && Holds(hash, aTab, lgOld, lgCells, contents) && count == |contents|
      requires |tab| == Pow2(lgCurBuckets + lgCells) && forall p :: 0 <= p < |tab| ==> tab[p] == Free
      modifies `tab, `count, `prngState, `cut
      ensures Sizes() && cut == (old(cut) || r.TooLong?)
      ensures r.Moved? ==> Holds(hash, tab, lgCurBuckets, lgCells, contents)
      ensures |contents| <= Pow2(lgCells) ==> r.Moved?
      ensures count == old(count)
    {
      hide Bucket, Holds, Either, Carried, Occupied;
      ghost var cur: map<K, V> := map[];
      HoldsNothing(hash, tab, lgCurBuckets, lgCells);
      CarryStart(aTab, contents);
      HoldsSize(hash, aTab, lgOld, lgCells, contents);
      var total := count;
      count := 0;
      var i, nins := 0, 0;
      while nins < total
        invariant 0 <= i <= |aTab| && 0 <= nins <= total && Sizes() && count == nins == |cur| == Occupied(aTab[..i])
        invariant Holds(hash, tab, lgCurBuckets, lgCells, cur) && Carried(aTab, contents, cur, i) && cut == old(cut)
        decreases |aTab| - i
      {
        CarryBounds(aTab, i, total);
        if aTab[i].Item? {
          var key, data := aTab[i].key, aTab[i].data;
          CarryStep(hash, aTab, lgOld, lgCells, contents, cur, i);
          var a;
          ghost var next;
          a, next := TryInsert(key, data, fuel, cur);
          if !a.Placed? {
            count := total;
            return if a.HandedBack? then NoRoom else TooLong;
          }
          cur := next;
          nins := nins + 1;
        } else {
          CarrySkip(aTab, contents, cur, i);
        }
        i := i + 1;
      }
      CarryEnd(aTab, contents, cur, i);
      r := Moved;
    }

    /** An allocation of 2^lg cells: it fails when the size overflows, or when there is no memory. */
    method Allocate(lg: nat, able: bool) returns (t: Option<seq<Cell<K, V>>>)
      ensures t.Some? <==> lg <= lgMaxCells && able
      ensures t.Some? ==> |t.value| == Pow2(lg) && forall p :: 0 <= p < |t.value| ==> t.value[p] == Free
    {
      if lg > lgMaxCells || !able { return None; }
      t := Some(seq(Pow2(lg), _ => Free));
    }

    /** A larger table is too large, or there is no memory for it. */
    ghost predicate Refused(lg: nat, memory: nat -> bool) {
      exists next: nat :: next > lg + lgCells && Fails(next, memory)
    }

    predicate Fails(next: nat, memory: nat -> bool) {
      next > lgMaxCells || !memory(next)
    }

    /** ckh_grow: doubles, more than once if it must, as long as there is memory; a rebuilding that fails is backed out. */
    method Grow(fuel: nat, memory: nat -> bool) returns (r: Outcome)
      requires Valid()
      modifies `tab, `lgCurBuckets, `count, `prngState, `cut
      ensures Valid() && cut == (old(cut) || r.GaveUp?)
      ensures r.Done? ==> lgCurBuckets > old(lgCurBuckets) && lgCurBuckets + lgCells <= lgMaxCells
      ensures !r.Done? ==> tab == old(tab) && lgCurBuckets == old(lgCurBuckets)
      ensures r.OutOfMemory? ==> Refused(old(lgCurBuckets), memory)
      ensures var next := old(lgCurBuckets) + lgCells + 1;
              && (next > lgMaxCells || !memory(next) ==> r.OutOfMemory?)
              && (next <= lgMaxCells && memory(next) && |contents| <= Pow2(lgCells) ==>
                    r.Done? && lgCurBuckets == old(lgCurBuckets) + 1)
    {
      hide Holds;
      var lgPrevBuckets := lgCurBuckets;
      var lgCurCells := lgCurBuckets + lgCells;
      while true
        invariant Valid() && tab == old(tab) && lgCurBuckets == lgPrevBuckets && lgCurCells >= lgPrevBuckets + lgCells
        invariant cut == old(cut)
        invariant lgCurCells > lgPrevBuckets + lgCells ==>
                    |contents| > Pow2(lgCells) && lgPrevBuckets + lgCells + 1 <= lgMaxCells &&
                    memory(lgPrevBuckets + lgCells + 1)
        decreases lgMaxCells - lgCurCells
      {
        lgCurCells := lgCurCells + 1;
        var t := Allocate(lgCurCells, memory(lgCurCells));
        if t == None {
          assert Fails(lgCurCells, memory);
          return OutOfMemory;
        }
        var ttab := tab;
        tab := t.value;
        lgCurBuckets := lgCurCells - lgCells;
        var rebuilt := Rebuild(ttab, fuel, lgPrevBuckets);
        if rebuilt == Moved { return Done; }
        tab := ttab;
        lgCurBuckets := lgPrevBuckets;
        if rebuilt == TooLong { return GaveUp; }
      }
    }

    /** ckh_shrink: halves when there is memory and the items fit, as they do when they are no more than one bucket holds;
        otherwise all is as before. */
    method Shrink(fuel: nat, able: bool) returns (r: Outcome)
      requires Valid() && lgCurBuckets > lgMinBuckets
      modifies `tab, `lgCurBuckets, `count, `prngState, `cut
      ensures Valid() && cut == (old(cut) || r.GaveUp?) && (r.OutOfMemory? <==> !able)
      ensures lgCurBuckets == old(lgCurBuckets) - 1 || (tab == old(tab) && lgCurBuckets == old(lgCurBuckets))
      ensures !r.Done? ==> tab == old(tab) && lgCurBuckets == old(lgCurBuckets)
      ensures !able ==> tab == old(tab) && lgCurBuckets == old(lgCurBuckets)
      ensures able && |contents| <= Pow2(lgCells) ==> lgCurBuckets == old(lgCurBuckets) - 1
    {
      hide Holds;
      var lgPrevBuckets := lgCurBuckets;
      var lgCurCells := lgCurBuckets + lgCells - 1;
      var t := Allocate(lgCurCells, able);
      if t == None { return OutOfMemory; }
      var ttab := tab;
      tab := t.value;
      lgCurBuckets := lgCurCells - lgCells;
      var rebuilt := Rebuild(ttab, fuel, lgPrevBuckets);
      if rebuilt == Moved { return Done; }
      tab := ttab;
      lgCurBuckets := lgPrevBuckets;
      r := if rebuilt == TooLong then GaveUp else Done;
    }

    lemma RefusedBelow(lg: nat, lg': nat, memory: nat -> bool)
      requires lg <= lg'
      ensures Refused(lg', memory) ==> Refused(lg, memory)
    {
    }

    /** ckh_insert of a key that is not there. It can fail only when both buckets of the key are full, and then some
        item is lost: if the table has not grown meanwhile, one that was there before. */
    method Insert(key0: K, data0: V, fuel: nat, memory: nat -> bool) returns (r: Outcome, ghost lostKey: K, ghost lostData: V)
      requires Valid() && key0 !in contents
      modifies this
      ensures Valid() && cut == (old(cut) || r.GaveUp?)
      ensures r.OutOfMemory? ==> Refused(old(lgCurBuckets), memory)
      ensures r.Done? ==> contents == old(contents)[key0 := data0]
      ensures !r.Done? ==> old(NoCell(key0)) && Lost(contents, lostKey, lostData, old(contents)[key0 := data0])
      ensures fuel > 0 && !r.Done? && lgCurBuckets == old(lgCurBuckets) ==> lostKey in old(contents)
      ensures old(lgCurBuckets) + lgCells >= lgMaxCells ==> lgCurBuckets == old(lgCurBuckets)
      ensures lgCurBuckets == old(lgCurBuckets) && old(count) == Pow2(lgCurBuckets + lgCells) ==> !r.Done?
    {
      hide Holds, Ckh.NoCell;
      var key, data := key0, data0;
      lostKey, lostData := key, data;
      ghost var total := contents[key := data];
      while true
        invariant Valid() && key !in contents && contents[key := data] == total && cut == old(cut)
        invariant old(NoCell(key0)) || (key == key0 && tab == old(tab) && lgCurBuckets == old(lgCurBuckets))
        invariant old(lgCurBuckets) + lgCells >= lgMaxCells ==> lgCurBuckets == old(lgCurBuckets)
        invariant lgCurBuckets > old(lgCurBuckets) || (lgCurBuckets == old(lgCurBuckets) && contents == old(contents))
        decreases lgMaxCells - lgCurBuckets
      {
        var a;
        ghost var cur;
        a, cur := TryInsert(key, data, fuel, contents);
        contents := cur;
        if a.Placed? {
          CountedAll(hash, tab, lgCurBuckets, lgCells, contents);
          assert |total| == |old(contents)| + 1;
          r := Done;
          return;
        }
        key, data := a.key, a.data;
        lostKey, lostData := key, data;
        assert |cur[key := data]| == |cur| + 1;
        if a.Unfinished? {
          r := GaveUp;
          return;
        }
        ghost var lg := lgCurBuckets;
        r := Grow(fuel, memory);
        if r != Done {
          RefusedBelow(old(lgCurBuckets), lg, memory);
          return;
        }
      }
    }

    /** ckh_remove: the item is out. A table less than a quarter full is halved, unless it is as small as it may be, there
        is no memory or the items do not fit. */
    method Remove(searchkey: K, fuel: nat, able: bool) returns (found: Option<V>, r: Outcome)
      requires Valid()
      modifies this
      ensures found == if searchkey in old(contents) then Some(old(contents)[searchkey]) else None
      ensures Valid() && contents == old(contents) - {searchkey} && cut == (old(cut) || r.GaveUp?)
      ensures lgCurBuckets == old(lgCurBuckets) || lgCurBuckets == old(lgCurBuckets) - 1
      ensures var sparse := 4 * count < Pow2(old(lgCurBuckets) + lgCells) && old(lgCurBuckets) > lgMinBuckets;
              && (found.None? || !sparse || !able ==> lgCurBuckets == old(lgCurBuckets))
              && (found.Some? && sparse && able && count <= Pow2(lgCells) ==> lgCurBuckets == old(lgCurBuckets) - 1)
    {
      hide Holds;
      r := Done;
      var cell := ISearch(searchkey);
      if cell == -1 {
        assert contents - {searchkey} == contents;
        return None, Done;
      }
      found := Some(tab[cell].data);
      Freed(hash, tab, lgCurBuckets, lgCells, contents, cell);
      assert contents == (contents - {searchkey})[searchkey := contents[searchkey]];
      tab := tab[cell := Free];
      contents := contents - {searchkey};
      count := count - 1;
      ghost var k: nat := lgCurBuckets + lgCells;
      assert Pow2(k) == 2 * Pow2(k - 1) == 4 * Pow2(k - 2);
      if count < Pow2(lgCurBuckets + lgCells - 2) && lgCurBuckets > lgMinBuckets {
        r := Shrink(fuel, able);
      }
    }
  }

  datatype Rebuilt = Moved | NoRoom | TooLong

  /** m with the item lost is what there was to hold. */
  ghost predicate Lost<K(!new), V>(m: map<K, V>, k: K, d: V, total: map<K, V>) {
    k !in m && m[k := d] == total
  }

  lemma CountedAll<K(!new), V>(hash: K -> Hashes, tab: seq<Cell<K, V>>, lg: nat, lgCells: nat, m: map<K, V>)
    requires Holds(hash, tab, lg, lgCells, m)
    ensures Occupied(tab) == |m|
  {
  }

  // ---- rebuilding, item by item ----

  /** cur is the part of m that stood in the first i cells. */
  ghost predicate Carried<K(!new), V>(src: seq<Cell<K, V>>, m: map<K, V>, cur: map<K, V>, i: nat) {
    i <= |src| && forall k :: k in cur ==> k in m && cur[k] == m[k] && Before(src, i, k)
  }

  ghost predicate Before<K, V>(src: seq<Cell<K, V>>, i: nat, k: K) {
    exists q :: 0 <= q < i && q < |src| && src[q].Item? && src[q].key == k
  }

  lemma CarryStart<K(!new), V>(src: seq<Cell<K, V>>, m: map<K, V>)
    ensures Carried(src, m, map[], 0) && Occupied(src[..0]) == 0
  {
  }

  lemma CarryBounds<K, V>(src: seq<Cell<K, V>>, i: nat, total: nat)
    requires i <= |src| && Occupied(src[..i]) < total == Occupied(src)
    ensures i < |src|
  {
    assert src[..|src|] == src;
  }

  lemma NextOccupied<K, V>(src: seq<Cell<K, V>>, i: nat)
    requires i < |src|
    ensures Occupied(src[..i + 1]) == Occupied(src[..i]) + if src[i].Item? then 1 else 0
  {
    assert src[..i + 1][..i] == src[..i];
  }

  lemma CarrySkip<K(!new), V>(src: seq<Cell<K, V>>, m: map<K, V>, cur: map<K, V>, i: nat)
    requires Carried(src, m, cur, i) && i < |src| && src[i] == Free
    ensures Carried(src, m, cur, i + 1) && Occupied(src[..i + 1]) == Occupied(src[..i])
  {
    hide Occupied;
    NextOccupied(src, i);
    forall k | k in cur ensures Before(src, i + 1, k) {
      var q :| 0 <= q < i && q < |src| && src[q].Item? && src[q].key == k;
      assert 0 <= q < i + 1;
    }
  }

  lemma CarryStep<K(!new), V>(hash: K -> Hashes, src: seq<Cell<K, V>>, lg: nat, lgCells: nat, m: map<K, V>, cur: map<K, V>, i: nat)
    requires Holds(hash, src, lg, lgCells, m) && Carried(src, m, cur, i) && i < |src| && src[i].Item?
    ensures var k, d := src[i].key, src[i].data;
            k !in cur && Carried(src, m, cur[k := d], i + 1) &&
            |cur[k := d]| == |cur| + 1
    ensures Occupied(src[..i + 1]) == Occupied(src[..i]) + 1
  {
    hide Occupied, Either;
    NextOccupied(src, i);
    var k, d := src[i].key, src[i].data;
    assert CellOk(hash, src, lg, lgCells, m, i);
    assert !Before(src, i, k);
    var next := cur[k := d];
    forall x | x in next ensures x in m && next[x] == m[x] && Before(src, i + 1, x) {
      if x != k {
        assert x in cur;
        var q :| 0 <= q < i && q < |src| && src[q].Item? && src[q].key == x;
        assert 0 <= q < i + 1;
      } else {
        assert 0 <= i < i + 1;
      }
    }
  }

  lemma CarryEnd<K(!new), V>(src: seq<Cell<K, V>>, m: map<K, V>, cur: map<K, V>, i: nat)
    requires Carried(src, m, cur, i) && |cur| == |m|
    ensures cur == m
  {
    assert cur.Keys <= m.Keys;
    assert |cur.Keys| == |m.Keys|;
    Permutations.SubsetSameCount(cur.Keys, m.Keys);
  }

  lemma EitherOne(hs: Hashes, lg: nat)
    ensures Either(hs, lg, Bucket(hs.h0, lg)) && Either(hs, lg, Bucket(hs.h1, lg))
  {
  }

  /** The i-th cell from offset on, going round the bucket. */
  function Turned(i: nat, offset: nat, lgCells: nat): int {
    if i + offset < Pow2(lgCells) then i + offset else i + offset - Pow2(lgCells)
  }

  lemma TopBits(r: nat, k: nat)
    requires r < 0x1_0000_0000 && k <= 32
    ensures Shr(r, 32 - k) < Pow2(k)
  {
    hide Shl, Shr;
    Pow2Values();
    ShrAtLeast(r, 32 - k, Pow2(k));
    ShlTwice(1, k, 32 - k);
  }

  /** Masking the sum goes round the bucket. */
  lemma Cycled(i: nat, offset: nat, lgCells: nat)
    requires i < Pow2(lgCells) && offset < Pow2(lgCells)
    ensures Pow2(lgCells) >= 1
    ensures And(i + offset, Pow2(lgCells) - 1) == if i + offset < Pow2(lgCells) then i + offset
            else i + offset - Pow2(lgCells)
  {
    hide Shl, Low;
    AndMask(i + offset, lgCells);
    if i + offset < Pow2(lgCells) {
      LowSmall(i + offset, lgCells);
    } else {
      ShrOfSum(1, i + offset - Pow2(lgCells), lgCells);
    }
  }
}
