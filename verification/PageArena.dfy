/** arena.c: the arena's page runs, found, split, released, joined, trimmed and purged */
module PageArena {
  import opened Bits
  import opened Wrappers
  import opened PageRuns
  import opened ArenaState
  import opened ArenaSteps
  import opened ArenaPages
  import ExtentTrees

  class Arena {
    const g: Geometry
    const lgDirtyMult: int
    var chunks: seq<Chunk>
    var runsAvail: set<AvailKey>
    var chunksDirty: set<DirtyKey>
    var spare: Option<nat>
    var ndirty: nat
    var nactive: nat
    var npurgatory: int

    ghost function Now(): State
      reads this`chunks, this`runsAvail, this`chunksDirty, this`spare, this`ndirty, this`nactive
    {
      State(chunks, runsAvail, chunksDirty, spare, ndirty, nactive)
    }

    /** arena_new: no chunks yet */
    constructor (geometry: Geometry, optLgDirtyMult: int)
      requires Usable(geometry)
      ensures g == geometry && lgDirtyMult == optLgDirtyMult && Valid(g, Now()) && chunks == [] && npurgatory == 0
    {
      g, lgDirtyMult := geometry, optLgDirtyMult;
      chunks, runsAvail, chunksDirty, spare, ndirty, nactive, npurgatory := [], {}, {}, None, 0, 0, 0;
    }

    /** arena_avail_insert */
    method AvailInsert(c: nat, pageind: nat, npages: nat, pred: bool, succ: bool,
                       ghost a: seq<Run>, ghost xs: seq<Run>, ghost x: Run, ghost b: seq<Run>)
      requires c < |chunks| && |chunks[c].pageMap| == g.pages && Usable(g)
      requires Kept(Now(), c, a + xs + b) && xs != [] && NoneFree(xs)
      requires Tiles(a + [x] + b, g.bias, g.pages) && NoTwins(a + [x] + b)
      requires x.use.Free? && x.start == pageind && x.pages == npages
      requires Announces(chunks[c].pageMap, x) && Flanked(chunks[c].pageMap, pred, succ, a, x, b)
      modifies this`chunks, this`runsAvail, this`chunksDirty, this`ndirty
      ensures |chunks| == old(|chunks|) && Moved(old(Now()), Now(), c)
      ensures chunks[c].pageMap == old(chunks[c].pageMap)
      ensures Kept(Now(), c, a + [x] + b)
    {
      hide Kept, Moved, Flanked, Tiles, NoTwins, NoneFree, Joint, Announces, AdjacPred, AdjacSucc, QueueKey;
      ghost var s := Now();
      InsertFacts(s, c, a, xs, x, b, chunks[c].pageMap, g.bias, pred, succ);
      var ch := chunks[c];
      chunksDirty := chunksDirty - QueueKey(c, ch);
      if pred && AdjacPred(ch.pageMap, g.bias, pageind) {
        assert ch.pageMap[pageind - 1].dirty != ch.pageMap[pageind].dirty;
        ch := ch.(nrunsAdjac := ch.nrunsAdjac + 1);
      }
      if succ && AdjacSucc(ch.pageMap, pageind, npages) {
        assert ch.pageMap[pageind].dirty != ch.pageMap[pageind + npages].dirty;
        ch := ch.(nrunsAdjac := ch.nrunsAdjac + 1);
      }
      ch := ch.(nrunsAvail := ch.nrunsAvail + 1);
      assert ch.nrunsAvail > ch.nrunsAdjac;
      if ch.pageMap[pageind].dirty {
        ndirty := ndirty + npages;
        ch := ch.(ndirty := ch.ndirty + npages);
      }
      chunksDirty := chunksDirty + QueueKey(c, ch);
      chunks := chunks[c := ch];
      runsAvail := runsAvail + {AvailKey(ch.pageMap[pageind].size, c, pageind)};
      Inserted(s, Now(), c, a, xs, x, b);
    }

    /** arena_avail_remove */
    method AvailRemove(c: nat, pageind: nat, npages: nat, pred: bool, succ: bool,
                       ghost a: seq<Run>, ghost x: Run, ghost b: seq<Run>)
      requires c < |chunks| && |chunks[c].pageMap| == g.pages && Usable(g)
      requires Kept(Now(), c, a + [x] + b) && chunks[c].ndirty <= ndirty
      requires Tiles(a + [x] + b, g.bias, g.pages) && NoTwins(a + [x] + b)
      requires x.use.Free? && x.start == pageind && x.pages == npages
      requires Announces(chunks[c].pageMap, x) && Flanked(chunks[c].pageMap, pred, succ, a, x, b)
      modifies this`chunks, this`runsAvail, this`chunksDirty, this`ndirty
      ensures |chunks| == old(|chunks|) && Moved(old(Now()), Now(), c)
      ensures chunks[c].pageMap == old(chunks[c].pageMap)
      ensures Kept(Now(), c, a + [Taken(x)] + b)
    {
      hide Kept, Moved, Flanked, Tiles, NoTwins, NoneFree, Joint, Announces, AdjacPred, AdjacSucc, QueueKey;
      ghost var s := Now();
      RemoveFacts(s, c, a, x, b, chunks[c].pageMap, g.bias, pred, succ);
      var ch := chunks[c];
      chunksDirty := chunksDirty - QueueKey(c, ch);
      if pred && AdjacPred(ch.pageMap, g.bias, pageind) {
        assert ch.pageMap[pageind - 1].dirty != ch.pageMap[pageind].dirty;
        ch := ch.(nrunsAdjac := ch.nrunsAdjac - 1);
      }
      if succ && AdjacSucc(ch.pageMap, pageind, npages) {
        assert ch.pageMap[pageind].dirty != ch.pageMap[pageind + npages].dirty;
        ch := ch.(nrunsAdjac := ch.nrunsAdjac - 1);
      }
      ch := ch.(nrunsAvail := ch.nrunsAvail - 1);
      assert ch.nrunsAvail > ch.nrunsAdjac || (ch.nrunsAvail == 0 && ch.nrunsAdjac == 0);
      if ch.pageMap[pageind].dirty {
        ndirty := ndirty - npages;
        ch := ch.(ndirty := ch.ndirty - npages);
      }
      chunksDirty := chunksDirty + QueueKey(c, ch);
      chunks := chunks[c := ch];
      runsAvail := runsAvail - {AvailKey(ch.pageMap[pageind].size, c, pageind)};
      Removed(s, Now(), c, a, x, b, g.bias, g.pages);
    }

    /** arena_run_split_remove: x is no longer available, what need leaves of it is */
    method SplitRemove(c: nat, runInd: nat, flagDirty: bool, need: nat, ghost a: seq<Run>, ghost x: Run, ghost b: seq<Run>)
      requires Valid(g, Now()) && Playing(Now(), c) && Runs(g, chunks[c]) == a + [x] + b
      requires x.use.Free? && x.start == runInd && x.dirty == flagDirty && 1 <= need <= x.pages
      modifies this`chunks, this`runsAvail, this`chunksDirty, this`ndirty, this`nactive
      ensures nactive == old(nactive) + need && |chunks| == old(|chunks|) && Moved(old(Now()), Now(), c)
      ensures LeftoverMarked(old(chunks[c].pageMap), chunks[c].pageMap, g.bins, x, need)
      ensures Kept(Now(), c, Carved(a, x, b, need, Large))
    {
      hide Valid, Kept, Moved, Flanked, Tiles, NoTwins, NoneFree, Announces, Runs, AllMarked, Marks, LeftoverMarked,
           Carved, Leftover;
      ghost var s := Now();
      FreeRunFacts(g, s, c, a, x, b);
      var total := chunks[c].pageMap[runInd].size;
      assert chunks[c].pageMap[runInd + total - 1].dirty == flagDirty;
      var rem := total - need;
      AvailRemove(c, runInd, total, true, true, a, x, b);
      ActiveOnly(s, Now(), c, a + [Taken(x)] + b, nactive + need);
      nactive := nactive + need;
      ghost var t := Now();
      var m := chunks[c].pageMap;
      ghost var n := m;
      if rem > 0 {
        if flagDirty {
          m := m[runInd + need := UnallocatedSet(rem, true, false)];
          m := m[runInd + total - 1 := UnallocatedSet(rem, true, false)];
        } else {
          m := m[runInd + need := UnallocatedSet(rem, false, m[runInd + need].unzeroed)];
          m := m[runInd + total - 1 := UnallocatedSet(rem, false, m[runInd + total - 1].unzeroed)];
        }
        chunks := chunks[c := chunks[c].(pageMap := m)];
        LeftoverFacts(g, s, t, c, a, x, b, n, m, need);
        assert Now() == WithMap(t, c, m);
        ghost var y := Run(runInd, need, Large, x.dirty);
        ghost var rest := Run(runInd + need, rem, Free, x.dirty);
        AvailInsert(c, runInd + need, rem, false, true, a + [y], [Taken(rest)], rest, b);
        MovedTwice(s, t, WithMap(t, c, m), c);
        MovedTwice(s, WithMap(t, c, m), Now(), c);
      } else {
        NothingLeft(m, g.bins, a, x, b, need);
        MovedTwice(s, t, Now(), c);
      }
    }

    /** arena_run_split_large: the first size pages of the free run x become a large run. */
    method SplitLarge(c: nat, runInd: nat, size: nat, ghost a: seq<Run>, ghost x: Run, ghost b: seq<Run>)
      requires Valid(g, Now()) && Playing(Now(), c) && Runs(g, chunks[c]) == a + [x] + b
      requires x.use.Free? && x.start == runInd && 1 <= size <= x.pages
      modifies this`chunks, this`runsAvail, this`chunksDirty, this`ndirty, this`nactive
      ensures Valid(g, Now()) && Playing(Now(), c) && Moved(old(Now()), Now(), c)
      ensures Runs(g, chunks[c]) == Carved(a, x, b, size, Large) && nactive == old(nactive) + size
      ensures ndirty + (if x.dirty then size else 0) == old(ndirty)
      ensures Exchanged(g, old(Now()), Now(), c, {}, {Run(runInd, size, Large, x.dirty)})
      ensures !old(Owned(g, Now(), c, Run(runInd, size, Large, x.dirty)))
      ensures PagesBecome(g, old(Now()), Now(), c, runInd, runInd + size, None)
      ensures FreeThroughout(g, old(Now()), c, Run(runInd, size, Large, x.dirty))
    {
      hide Valid, Kept, Moved, Flanked, Tiles, NoTwins, NoneFree, Announces, Runs, AllMarked, Marks, LeftoverMarked,
           Carved, Exchanged, Usable, PagesBecome, FreeThroughout;
      ghost var s := Now();
      FreeRunFacts(g, s, c, a, x, b);
      var flagDirty := chunks[c].pageMap[runInd].dirty;
      SplitRemove(c, runInd, flagDirty, size, a, x, b);
      ghost var t := Now();
      ghost var m := chunks[c].pageMap;
      MovedLength(s, t, c);
      MarkLarge(c, runInd, size, flagDirty);
      LargeMarks(m, g.bins, runInd, size, flagDirty);
      SplitSettled(g, s, t, c, LargeMarked(m, runInd, size, flagDirty), a, x, b, size, Large);
      SplitPages(g, s, Now(), c, a, x, b, size, Large);
    }

    /** The first and last entries of a large run are written, the last first. */
    method MarkLarge(c: nat, runInd: nat, size: nat, flagDirty: bool)
      requires c < |chunks| && 1 <= size && runInd + size <= |chunks[c].pageMap|
      modifies this`chunks
      ensures Now() == WithMap(old(Now()), c, LargeMarked(old(chunks[c].pageMap), runInd, size, flagDirty))
    {
      var m := chunks[c].pageMap;
      m := m[runInd + size - 1 := LargeSet(m[runInd + size - 1], 0, flagDirty)];
      m := m[runInd := LargeSet(m[runInd], size, flagDirty)];
      chunks := chunks[c := chunks[c].(pageMap := m)];
    }

    /** arena_run_init_large: a run that is already marked as allocated is marked as a large run. */
    method InitLarge(c: nat, runInd: nat, size: nat, ghost a: seq<Run>, ghost x: Run, ghost b: seq<Run>)
      requires Valid(g, Now()) && Playing(Now(), c) && Runs(g, chunks[c]) == a + [x] + b
      requires x.use.Large? && x.start == runInd && x.pages == size
      modifies this`chunks
      ensures Valid(g, Now()) && Playing(Now(), c) && Moved(old(Now()), Now(), c)
      ensures Runs(g, chunks[c]) == a + [x] + b
      ensures Exchanged(g, old(Now()), Now(), c, {}, {}) && SamePages(g, old(Now()), Now())
    {
      hide Valid, Kept, Moved, Tiles, NoTwins, Runs, Marks, Exchanged, LargeMarked, SamePages;
      ghost var s := Now();
      UsedRunFacts(g, s, c, a, x, b);
      var flagDirty := chunks[c].pageMap[runInd].dirty;
      ghost var m := chunks[c].pageMap;
      MarkLarge(c, runInd, size, flagDirty);
      LargeMarks(m, g.bins, runInd, size, flagDirty);
      Around(a, x, b, g.bias, g.pages);
      RemarkedUsed(g, s, c, LargeMarked(m, runInd, size, flagDirty), a, [x], [x], b);
      RemarkedPages(g, s, Now(), c, a, [x], [x], b);
      MovedExchanged(g, s, Now(), c, {}, {});
    }

    /** arena_run_split_small: the first pages of the free run x become a small run for bin, every page of it saying how
        far into the run it lies. */
    method SplitSmall(c: nat, runInd: nat, size: nat, bin: nat, ghost a: seq<Run>, ghost x: Run, ghost b: seq<Run>)
      requires Valid(g, Now()) && Playing(Now(), c) && Runs(g, chunks[c]) == a + [x] + b
      requires x.use.Free? && x.start == runInd && bin < |g.bins| && size == g.bins[bin] <= x.pages
      modifies this`chunks, this`runsAvail, this`chunksDirty, this`ndirty, this`nactive
      ensures Valid(g, Now()) && Playing(Now(), c) && Moved(old(Now()), Now(), c)
      ensures Runs(g, chunks[c]) == Carved(a, x, b, size, Small(bin)) && nactive == old(nactive) + size
      ensures ndirty + (if x.dirty then size else 0) == old(ndirty)
      ensures Exchanged(g, old(Now()), Now(), c, {}, {Run(runInd, size, Small(bin), x.dirty)})
      ensures !old(Owned(g, Now(), c, Run(runInd, size, Small(bin), x.dirty)))
      ensures PagesBecome(g, old(Now()), Now(), c, runInd, runInd + size, None)
      ensures FreeThroughout(g, old(Now()), c, Run(runInd, size, Small(bin), x.dirty))
    {
      hide Valid, Kept, Moved, Flanked, Tiles, NoTwins, NoneFree, Announces, Runs, AllMarked, Marks, LeftoverMarked,
           Carved, Exchanged, PagesBecome, FreeThroughout;
      ghost var s := Now();
      FreeRunFacts(g, s, c, a, x, b);
      var flagDirty := chunks[c].pageMap[runInd].dirty;
      SplitRemove(c, runInd, flagDirty, size, a, x, b);
      ghost var t := Now();
      ghost var m := chunks[c].pageMap;
      MovedLength(s, t, c);
      var n := chunks[c].pageMap;
      n := n[runInd := SmallSet(n[runInd], 0, bin, flagDirty)];
      for i := 1 to if size > 1 then size - 1 else 1
        invariant |n| == |m| && n[runInd] == SmallSet(m[runInd], 0, bin, flagDirty)
        invariant forall k :: runInd < k < runInd + i ==> n[k] == SmallSet(m[k], k - runInd, bin, false)
        invariant forall k :: 0 <= k < |m| && !(runInd <= k < runInd + i) ==> n[k] == m[k]
      {
        n := n[runInd + i := SmallSet(n[runInd + i], i, bin, false)];
      }
      n := n[runInd + size - 1 := SmallSet(n[runInd + size - 1], size - 1, bin, flagDirty)];
      chunks := chunks[c := chunks[c].(pageMap := n)];
      assert Now() == WithMap(t, c, n);
      SmallMarks(n, g.bins, runInd, size, bin, flagDirty);
      SplitSettled(g, s, t, c, n, a, x, b, size, Small(bin));
      SplitPages(g, s, Now(), c, a, x, b, size, Small(bin));
    }

    /** arena_chunk_init_hard: a new chunk, all of it one untouched free run */
    method ChunkInitHard(grant: Grant) returns (c: nat)
      requires Valid(g, Now()) && spare.None? && |grant.content| == g.pages
      modifies this`chunks
      ensures c == |old(chunks)| && |chunks| == c + 1 && chunks[..c] == old(chunks) && chunks[c].base == grant.base
      ensures ValidBut(g, Now(), c)
      ensures Runs(g, chunks[c]) == [Run(g.bias, g.pages - g.bias, Free, false)]
      ensures |chunks[c].pageMap| == g.pages
      ensures forall k :: g.bias <= k < g.pages ==>
                chunks[c].pageMap[k].unzeroed ==
                if grant.zero && g.bias < k < g.pages - 1 then grant.content[k].unzeroed else !grant.zero
    {
      hide Valid, ValidBut, Tiles, NoTwins, RunsFrom, Marks;
      ghost var s := Now();
      assert Usable(g) by { ValidGeometry(g, s); }
      var m := grant.content;
      m := m[g.bias := UnallocatedSet(g.pages - g.bias, false, !grant.zero)];
      if !grant.zero {
        var i := g.bias + 1;
        while i < g.pages - 1
          invariant |m| == g.pages && m[g.bias] == UnallocatedSet(g.pages - g.bias, false, !grant.zero)
          invariant g.bias < i && forall k :: g.bias <= k < i && k < g.pages ==> m[k].unzeroed
        {
          m := m[i := m[i].(unzeroed := true)];
          i := i + 1;
        }
      }
      m := m[g.pages - 1 := UnallocatedSet(g.pages - g.bias, false, !grant.zero)];
      c := |chunks|;
      var ch := Chunk(grant.base, true, m, 0, 0, 0);
      chunks := chunks + [ch];
      WholeRun(m, g.bins, g.bias);
      assert Runs(g, ch) == [Run(g.bias, g.pages - g.bias, Free, false)];
      Mapped(g, s, ch);
      assert Now() == s.(chunks := s.chunks + [ch]);
    }

    /** arena_chunk_alloc: the spare, or else a chunk from the system, comes into play as one free run. */
    method ChunkAlloc(grant: Option<Grant>) returns (r: Option<nat>)
      requires Valid(g, Now()) && (grant.Some? ==> |grant.value.content| == g.pages)
      modifies this`chunks, this`runsAvail, this`chunksDirty, this`spare, this`ndirty
      ensures Valid(g, Now()) && (r.None? <==> old(spare).None? && grant.None?)
      ensures r.None? ==> Now() == old(Now())
      ensures r.Some? ==>
                var c := r.value;
                && Playing(Now(), c) && spare.None?
                && c == (if old(spare).Some? then old(spare).value else |old(chunks)|)
                && exists d :: Runs(g, chunks[c]) == [Whole(g, d)]
      ensures (forall c :: Exchanged(g, old(Now()), Now(), c, {}, {})) && SamePages(g, old(Now()), Now())
    {
      hide Valid, ValidBut, Kept, Moved, Flanked, Tiles, NoTwins, NoneFree, Announces, Runs, Marks, Exchanged, RunsFrom,
           SamePages;
      ghost var s := Now();
      var c: nat;
      if spare.Some? {
        c := spare.value;
        Respared(g, s);
        spare := None;
        MapsSamePages(g, s, Now());
      } else if grant.Some? {
        assert Usable(g) by { ValidGeometry(g, s); }
        c := ChunkInitHard(grant.value);
        WholePages(g, s, Now());
      } else {
        MapsSamePages(g, s, Now());
        forall o: nat ensures Exchanged(g, s, Now(), o, {}, {}) { SameHoldings(g, s, Now(), o); }
        return None;
      }
      ghost var t := Now();
      ghost var x := IdleFacts(g, t, c);
      AvailInsert(c, g.bias, g.pages - g.bias, false, false, [], [Taken(x)], x, []);
      MovedLength(t, Now(), c);
      SameMap(g, t.chunks[c], chunks[c]);
      assert Runs(g, chunks[c]) == [] + [x] + [];
      Recorded(g, t, Now(), c);
      MovedMaps(t, Now(), c);
      MapsSamePages(g, t, Now());
      SameTwice(g, s, t, Now());
      forall o: nat ensures Exchanged(g, s, Now(), o, {}, {}) {
        MovedMaps(t, Now(), c);
        SameHoldings(g, s, Now(), o);
      }
      r := Some(c);
    }

    /** arena_chunk_dealloc: a chunk that is one free run leaves the tree and becomes the spare. */
    method ChunkDealloc(c: nat)
      requires Valid(g, Now()) && Playing(Now(), c)
      requires |Runs(g, chunks[c])| == 1 && Runs(g, chunks[c])[0].use.Free?
      modifies this`chunks, this`runsAvail, this`chunksDirty, this`spare, this`ndirty
      ensures Valid(g, Now()) && spare == Some(c) && |chunks| == |old(chunks)|
      ensures forall o :: 0 <= o < |chunks| ==>
                chunks[o].base == old(chunks)[o].base && chunks[o].pageMap == old(chunks)[o].pageMap
      ensures forall o :: 0 <= o < |chunks| && old(spare) != Some(o) ==> chunks[o].mapped == old(chunks)[o].mapped
      ensures ndirty + DirtyPages(old(Runs(g, chunks[c]))) == old(ndirty) && OthersKept(old(Now()), Now(), c)
    {
      hide Valid, ValidBut, Kept, Moved, Flanked, Tiles, NoTwins, NoneFree, Announces, Runs, Marks, RunsFrom, DirtyPages;
      ghost var s := Now();
      ghost var x := Runs(g, chunks[c])[0];
      assert Runs(g, chunks[c]) == [] + [x] + [];
      FreeRunFacts(g, s, c, [], x, []);
      Around([], x, [], g.bias, g.pages);
      assert Flanked(chunks[c].pageMap, false, false, [], x, []) by { Alone(chunks[c].pageMap, x); }
      AvailRemove(c, g.bias, g.pages - g.bias, false, false, [], x, []);
      ghost var t := Now();
      MovedLength(s, t, c);
      MovedMaps(s, t, c);
      NothingKept(t, c, x);
      Unrecorded(g, s, t, c);
      assert t.spare.Some? ==> t.spare.value < |t.chunks| by { SpareInRange(g, t, c); }
      NothingDirty(s, t, c, [] + [x] + []);
      if spare.Some? {
        var before := spare.value;
        spare := Some(c);
        chunks := chunks[before := chunks[before].(mapped := false)];
      } else {
        spare := Some(c);
      }
      Retired(g, t, c);
    }

    /** arena_avail_tree_nsearch */
    method FirstFit(size: nat) returns (r: Option<AvailKey>)
      requires KeysInRange(Now())
      ensures r.None? <==> forall k :: k in runsAvail ==> k.pages < size
      ensures r.Some? ==> BestFit(chunks, runsAvail, size, r.value)
      ensures r.Some? ==> r.value in runsAvail && size <= r.value.pages && forall j :: j in runsAvail && size <= j.pages ==>
                var best := r.value;
                best.pages < j.pages ||
                (best.pages == j.pages && chunks[best.chunk].base + best.page <= chunks[j.chunk].base + j.page)
    {
      if k :| k in runsAvail && size <= k.pages {
        BestFitExists(chunks, runsAvail, size, k);
        ghost var best :| BestFit(chunks, runsAvail, size, best);
        var j :| j in runsAvail && BestFit(chunks, runsAvail, size, j);
        r := Some(j);
      } else {
        r := None;
      }
    }

    /** arena_run_alloc_large_helper */
    method RunAllocLargeHelper(size: nat) returns (r: Option<(nat, nat)>, ghost y: Run)
      requires Valid(g, Now()) && 1 <= size
      modifies this`chunks, this`runsAvail, this`chunksDirty, this`ndirty, this`nactive
      ensures Valid(g, Now()) && (r.None? ==> Now() == old(Now()))
      ensures r.None? <==> forall k :: k in old(runsAvail) ==> k.pages < size
      ensures r.Some? ==>
                var (c, p) := r.value;
                && y == Run(p, size, Large, y.dirty) && nactive == old(nactive) + size && spare == old(spare)
                && Exchanged(g, old(Now()), Now(), c, {}, {y}) && !old(Owned(g, Now(), c, y))
                && PagesBecome(g, old(Now()), Now(), c, p, p + size, None) && FreeThroughout(g, old(Now()), c, y)
                && old(KeysInRange(Now())) && exists n :: old(BestFit(chunks, runsAvail, size, AvailKey(n, c, p)))
    {
      hide Moved, Runs, Exchanged, Carved, BestFit, DirtySum, ActiveSum, ChunkOk, PagesBecome, FreeThroughout;
      y := Run(0, 0, Free, false);
      var best := FirstFit(size);
      match best {
        case None =>
          r := None;
        case Some(k) =>
          assert k in runsAvail && size <= k.pages by { BestFitIn(chunks, runsAvail, size, k); }
          ghost var a, x, b := KeyRun(g, Now(), k);
          assert BestFit(chunks, runsAvail, size, AvailKey(k.pages, k.chunk, k.page));
          y := Run(k.page, size, Large, x.dirty);
          SplitLarge(k.chunk, k.page, size, a, x, b);
          r := Some((k.chunk, k.page));
      }
    }

    /** arena_run_alloc_large: the lowest best fit, or else the front of another chunk */
    method RunAllocLarge(size: nat, grant: Option<Grant>) returns (r: Option<(nat, nat)>, ghost y: Run)
      requires Valid(g, Now()) && 1 <= size <= g.pages - g.bias && (grant.Some? ==> |grant.value.content| == g.pages)
      modifies this`chunks, this`runsAvail, this`chunksDirty, this`spare, this`ndirty, this`nactive
      ensures Valid(g, Now())
      ensures r.None? ==> Now() == old(Now())
      ensures r.None? <==> grant.None? && old(spare).None? && forall k :: k in old(runsAvail) ==> k.pages < size
      ensures r.Some? ==>
                var (c, p) := r.value;
                && y == Run(p, size, Large, y.dirty) && nactive == old(nactive) + size
                && Exchanged(g, old(Now()), Now(), c, {}, {y}) && !old(Owned(g, Now(), c, y))
                && PagesBecome(g, old(Now()), Now(), c, p, p + size, None) && FreeThroughout(g, old(Now()), c, y)
                && old(KeysInRange(Now()))
                && ((exists k :: k in old(runsAvail) && size <= k.pages) ==>
                      exists n :: old(BestFit(chunks, runsAvail, size, AvailKey(n, c, p))))
    {
      hide Valid, Moved, Runs, Exchanged, Carved, BestFit, PagesBecome, FreeThroughout, SamePages;
      ghost var s := Now();
      assert KeysInRange(s) by { ValidGeometry(g, s); }
      r, y := RunAllocLargeHelper(size);
      if r.Some? { return; }
      var added := ChunkAlloc(grant);
      if added.Some? {
        var c := added.value;
        ghost var d :| Runs(g, chunks[c]) == [Whole(g, d)];
        ghost var x := Whole(g, d);
        assert Runs(g, chunks[c]) == [] + [x] + [];
        ghost var t := Now();
        y := Run(g.bias, size, Large, d);
        SplitLarge(c, g.bias, size, [], x, []);
        SameThenBecome(g, s, t, Now(), c, y, size);
        ExchangedTwice(g, s, t, Now(), c, {}, {}, {}, {y});
        assert !Owned(g, s, c, y) by { NotBefore(g, s, t, c, y); }
        assert var none: set<Run> := {}; none + none == none && none - none + {y} == {y};
        return Some((c, g.bias)), y;
      }
      r, y := RunAllocLargeHelper(size);
    }

    /** arena_run_alloc_small_helper */
    method RunAllocSmallHelper(size: nat, bin: nat) returns (r: Option<(nat, nat)>, ghost y: Run)
      requires Valid(g, Now()) && bin < |g.bins| && size == g.bins[bin] >= 1
      modifies this`chunks, this`runsAvail, this`chunksDirty, this`ndirty, this`nactive
      ensures Valid(g, Now()) && (r.None? ==> Now() == old(Now()))
      ensures r.None? <==> forall k :: k in old(runsAvail) ==> k.pages < size
      ensures r.Some? ==>
                var (c, p) := r.value;
                && y == Run(p, size, Small(bin), y.dirty) && nactive == old(nactive) + size && spare == old(spare)
                && Exchanged(g, old(Now()), Now(), c, {}, {y}) && !old(Owned(g, Now(), c, y))
                && PagesBecome(g, old(Now()), Now(), c, p, p + size, None) && FreeThroughout(g, old(Now()), c, y)
                && old(KeysInRange(Now())) && exists n :: old(BestFit(chunks, runsAvail, size, AvailKey(n, c, p)))
    {
      hide Moved, Runs, Exchanged, Carved, BestFit, DirtySum, ActiveSum, ChunkOk, PagesBecome, FreeThroughout;
      y := Run(0, 0, Free, false);
      var best := FirstFit(size);
      match best {
        case None =>
          r := None;
        case Some(k) =>
          assert k in runsAvail && size <= k.pages by { BestFitIn(chunks, runsAvail, size, k); }
          ghost var a, x, b := KeyRun(g, Now(), k);
          assert BestFit(chunks, runsAvail, size, AvailKey(k.pages, k.chunk, k.page));
          y := Run(k.page, size, Small(bin), x.dirty);
          SplitSmall(k.chunk, k.page, size, bin, a, x, b);
          r := Some((k.chunk, k.page));
      }
    }

    /** arena_run_alloc_small: the lowest best fit, or else the front of another chunk */
    method RunAllocSmall(size: nat, bin: nat, grant: Option<Grant>) returns (r: Option<(nat, nat)>, ghost y: Run)
      requires Valid(g, Now()) && bin < |g.bins| && 1 <= size == g.bins[bin] <= g.pages - g.bias
      requires (grant.Some? ==> |grant.value.content| == g.pages)
      modifies this`chunks, this`runsAvail, this`chunksDirty, this`spare, this`ndirty, this`nactive
      ensures Valid(g, Now())
      ensures r.None? ==> Now() == old(Now())
      ensures r.None? <==> grant.None? && old(spare).None? && forall k :: k in old(runsAvail) ==> k.pages < size
      ensures r.Some? ==>
                var (c, p) := r.value;
                && y == Run(p, size, Small(bin), y.dirty) && nactive == old(nactive) + size
                && Exchanged(g, old(Now()), Now(), c, {}, {y}) && !old(Owned(g, Now(), c, y))
                && PagesBecome(g, old(Now()), Now(), c, p, p + size, None) && FreeThroughout(g, old(Now()), c, y)
                && old(KeysInRange(Now()))
                && ((exists k :: k in old(runsAvail) && size <= k.pages) ==>
                      exists n :: old(BestFit(chunks, runsAvail, size, AvailKey(n, c, p))))
    {
      hide Valid, Moved, Runs, Exchanged, Carved, BestFit, PagesBecome, FreeThroughout, SamePages;
      ghost var s := Now();
      assert KeysInRange(s) by { ValidGeometry(g, s); }
      r, y := RunAllocSmallHelper(size, bin);
      if r.Some? { return; }
      var added := ChunkAlloc(grant);
      if added.Some? {
        var c := added.value;
        ghost var d :| Runs(g, chunks[c]) == [Whole(g, d)];
        ghost var x := Whole(g, d);
        assert Runs(g, chunks[c]) == [] + [x] + [];
        ghost var t := Now();
        y := Run(g.bias, size, Small(bin), d);
        SplitSmall(c, g.bias, size, bin, [], x, []);
        SameThenBecome(g, s, t, Now(), c, y, size);
        ExchangedTwice(g, s, t, Now(), c, {}, {}, {}, {y});
        assert !Owned(g, s, c, y) by { NotBefore(g, s, t, c, y); }
        assert var none: set<Run> := {}; none + none == none && none - none + {y} == {y};
        return Some((c, g.bias)), y;
      }
      r, y := RunAllocSmallHelper(size, bin);
    }

    /** arena_run_coalesce, towards higher addresses */
    method CoalesceForward(c: nat, runInd: nat, runPages: nat, flagDirty: bool,
                           ghost a: seq<Run>, ghost f: Run, ghost b: seq<Run>) returns (n: nat)
      requires Pending(g, Now(), c, a, f, b) && f == Run(runInd, runPages, Free, flagDirty)
      modifies this`chunks, this`runsAvail, this`chunksDirty, this`ndirty
      ensures |chunks| == |old(chunks)| && Moved(old(Now()), Now(), c) && n == JoinedForward(f, b).0.pages
      ensures Pending(g, Now(), c, a, JoinedForward(f, b).0, JoinedForward(f, b).1)
    {
      hide Pending, Kept, Moved, Flanked, Tiles, NoTwins, Announces, AllMarked, Marks;
      ghost var s := Now();
      PendingFacts(g, s, c, a, f, b);
      n := runPages;
      var m := chunks[c].pageMap;
      if runInd + runPages < g.pages && !m[runInd + runPages].alloc && m[runInd + runPages].dirty == flagDirty {
        var nrunPages := m[runInd + runPages].size;
        FollowerFacts(g, s, c, a, f, b);
        assert m[runInd + runPages + nrunPages - 1].size == nrunPages;
        assert m[runInd + runPages + nrunPages - 1].dirty == flagDirty;
        AvailRemove(c, runInd + runPages, nrunPages, false, true, a + [Taken(f)], b[0], b[1..]);
        ghost var t := Now();
        n := runPages + nrunPages;
        m := m[runInd := m[runInd].(size := n)];
        m := m[runInd + n - 1 := m[runInd + n - 1].(size := n)];
        chunks := chunks[c := chunks[c].(pageMap := m)];
        assert Now() == WithMap(t, c, m);
        ForwardDone(g, s, t, c, m, a, f, b);
      } else {
        MovedNowhere(s, c);
      }
    }

    /** arena_run_coalesce, towards lower addresses */
    method CoalesceBackward(c: nat, runInd: nat, runPages: nat, flagDirty: bool,
                            ghost a: seq<Run>, ghost f: Run, ghost b: seq<Run>) returns (start: nat, n: nat)
      requires Pending(g, Now(), c, a, f, b) && f == Run(runInd, runPages, Free, flagDirty)
      modifies this`chunks, this`runsAvail, this`chunksDirty, this`ndirty
      ensures |chunks| == |old(chunks)| && Moved(old(Now()), Now(), c)
      ensures JoinedBackward(a, f).1 == Run(start, n, Free, flagDirty)
      ensures Pending(g, Now(), c, JoinedBackward(a, f).0, JoinedBackward(a, f).1, b)
    {
      hide Pending, Kept, Moved, Flanked, Tiles, NoTwins, Announces, AllMarked, Marks;
      ghost var s := Now();
      PendingFacts(g, s, c, a, f, b);
      start, n := runInd, runPages;
      var m := chunks[c].pageMap;
      if runInd > g.bias && !m[runInd - 1].alloc && m[runInd - 1].dirty == flagDirty {
        var prunPages := m[runInd - 1].size;
        LeaderFacts(g, s, c, a, f, b);
        start := runInd - prunPages;
        assert m[start].size == prunPages && m[start].dirty == flagDirty;
        AvailRemove(c, start, prunPages, true, false, a[..|a| - 1], Last(a), [Taken(f)] + b);
        ghost var t := Now();
        n := runPages + prunPages;
        m := m[start := m[start].(size := n)];
        m := m[start + n - 1 := m[start + n - 1].(size := n)];
        chunks := chunks[c := chunks[c].(pageMap := m)];
        assert Now() == WithMap(t, c, m);
        BackwardDone(g, s, t, c, m, a, f, b);
      } else {
        MovedNowhere(s, c);
      }
    }

    /** The allocated run x is marked as free, joins its neighbours and is put on record. */
    method MakeAvailable(c: nat, runInd: nat, runPages: nat, flagDirty: bool,
                         ghost a: seq<Run>, ghost x: Run, ghost b: seq<Run>, ghost s: State) returns (n: nat)
      requires Valid(g, s) && Playing(s, c) && Runs(g, s.chunks[c]) == a + [x] + b && !x.use.Free?
      requires x == Run(runInd, runPages, x.use, x.dirty) && Now() == s.(nactive := nactive) &&
               nactive + x.pages == s.nactive
      modifies this`chunks, this`runsAvail, this`chunksDirty, this`ndirty
      ensures Valid(g, Now()) && Playing(Now(), c) && Moved(s, Now(), c)
      ensures Runs(g, chunks[c]) == Joined(a, x, b, flagDirty) && Exchanged(g, s, Now(), c, {x}, {})
      ensures ndirty == s.ndirty + (if flagDirty then x.pages else 0)
      ensures if n == g.pages - g.bias then Runs(g, chunks[c]) == [Whole(g, flagDirty)] else |Runs(g, chunks[c])| > 1
    {
      hide Valid, Pending, Kept, Moved, Flanked, Tiles, NoTwins, NoneFree, Announces, Runs, AllMarked, Marks, Exchanged,
           JoinedForward, JoinedBackward, Usable, DirtyPages, ActivePages;
      UsedRunFacts(g, s, c, a, x, b);
      var m := chunks[c].pageMap;
      if flagDirty {
        m := m[runInd := UnallocatedSet(runPages, true, false)];
        m := m[runInd + runPages - 1 := UnallocatedSet(runPages, true, false)];
      } else {
        m := m[runInd := UnallocatedSet(runPages, false, m[runInd].unzeroed)];
        m := m[runInd + runPages - 1 := UnallocatedSet(runPages, false, m[runInd + runPages - 1].unzeroed)];
      }
      chunks := chunks[c := chunks[c].(pageMap := m)];
      ghost var f := Run(runInd, runPages, Free, flagDirty);
      ghost var t := Now();
      ReleaseStarts(g, s, t, c, m, a, x, b, f);
      n := CoalesceForward(c, runInd, runPages, flagDirty, a, f, b);
      ghost var (h, rest) := JoinedForward(f, b);
      ghost var u := Now();
      JoinedFields(f, b, runInd, n, flagDirty);
      var start: nat;
      start, n := CoalesceBackward(c, runInd, n, flagDirty, a, h, rest);
      ghost var (front, k) := JoinedBackward(a, h);
      ghost var v := Now();
      PendingDone(g, v, c, a, f, b);
      AvailInsert(c, start, n, true, true, front, [Taken(k)], k, rest);
      ghost var w := Now();
      ReleaseSettled(g, s, t, u, v, w, c, a, x, b, f);
      assert Joined(a, x, b, flagDirty) == front + [k] + rest;
      ChunkFilled(front, k, rest, g.bias, g.pages);
    }

    /** arena_run_dalloc, up to the purging at its end: the allocated run x becomes available, together with the free
        neighbours as dirty as it; a chunk left entirely free becomes the spare. */
    method Release(c: nat, runInd: nat, dirty: bool, cleaned: bool, ghost a: seq<Run>, ghost x: Run, ghost b: seq<Run>)
      returns (flagDirty: bool)
      requires Valid(g, Now()) && Playing(Now(), c) && Runs(g, chunks[c]) == a + [x] + b
      requires !x.use.Free? && x.start == runInd
      modifies this`chunks, this`runsAvail, this`chunksDirty, this`spare, this`ndirty, this`nactive
      ensures Valid(g, Now()) && |chunks| == |old(chunks)| && flagDirty == (dirty || (!cleaned && x.dirty))
      ensures Runs(g, chunks[c]) == Joined(a, x, b, flagDirty) && nactive + x.pages == old(nactive)
      ensures spare == if |Joined(a, x, b, flagDirty)| == 1 then Some(c) else old(spare)
      ensures Exchanged(g, old(Now()), Now(), c, {x}, {})
      ensures Freed(g, old(Now()), Now(), c, runInd, runInd + x.pages, flagDirty) && OthersKept(old(Now()), Now(), c)
    {
      hide Valid, Kept, Moved, Tiles, NoTwins, Runs, AllMarked, Exchanged, DirtyPages, Joined, ValidBut, PagesBecome;
      ghost var s := Now();
      UsedRunFacts(g, s, c, a, x, b);
      var m := chunks[c].pageMap;
      var runPages := if m[runInd].large then m[runInd].size else g.bins[m[runInd].bin];
      nactive := nactive - runPages;
      flagDirty := dirty;
      if !cleaned && m[runInd].dirty { flagDirty := true; }
      var n := MakeAvailable(c, runInd, runPages, flagDirty, a, x, b, s);
      ghost var w := Now();
      MovedLength(s, w, c);
      MovedMaps(s, w, c);
      if n == g.pages - g.bias {
        ChunkDealloc(c);
        SameMap(g, w.chunks[c], chunks[c]);
        CleanWhole(Whole(g, flagDirty));
        SameHoldings(g, w, Now(), c);
        ExchangedTwice(g, s, w, Now(), c, {x}, {}, {}, {});
        assert var none: set<Run> := {}; {x} + none == {x} && none - none + none == none;
      }
      ReleasePages(g, s, Now(), c, a, x, b, flagDirty);
    }

    // ---- purging ----

    /** arena_chunk_stash_dirty: the dirty free runs, or only those beside a clean free run, become allocated. */
    method StashDirty(c: nat, all: bool) returns (stash: seq<nat>, ghost taken: seq<Run>)
      requires Valid(g, Now()) && Playing(Now(), c)
      modifies this`chunks, this`runsAvail, this`chunksDirty, this`ndirty, this`nactive
      ensures Valid(g, Now()) && Playing(Now(), c) && Moved(old(Now()), Now(), c)
      ensures var rs := old(Runs(g, chunks[c]));
              taken == PickedRuns(rs, |rs|, all) && Runs(g, chunks[c]) == AfterStash(rs, |rs|, all)
      ensures Starts(stash, taken)
      ensures Exchanged(g, old(Now()), Now(), c, {}, Members(taken))
      ensures nactive == old(nactive) + Pages(taken) && ndirty + Pages(taken) == old(ndirty)
      ensures chunks[c].nrunsAdjac == 0 && (all ==> chunks[c].ndirty == 0)
      ensures taken == [] ==> old(chunks[c].nrunsAdjac) == 0 && (all ==> old(chunks[c].ndirty) == 0)
      ensures chunks[c].ndirty + Pages(taken) == old(chunks[c].ndirty)
      ensures PagesTaken(g, old(Now()), Now(), c, taken)
    {
      hide Valid, Kept, Moved, Tiles, NoTwins, Runs, Marks, AllMarked, Exchanged, Carved, Members, PickedRuns, AfterStash,
           AdjacPred, AdjacSucc, Picked, Pages, PagesTaken, PagesBecome, FreeThroughout;
      ghost var s := Now();
      ghost var rs := Runs(g, chunks[c]);
      ghost var i := 0;
      InPlayFacts(g, s, c);
      stash, taken := [], [];
      var pageind := g.bias;
      StashStarts(g, s, c, rs, all);
      NothingTaken(g, s, c);
      while pageind < g.pages
        invariant i <= |rs| && pageind == StartOf(rs, i, g.pages)
        invariant Valid(g, Now()) && Playing(Now(), c) && |chunks| == |s.chunks| && Moved(s, Now(), c)
        invariant Runs(g, chunks[c]) == AfterStash(rs, i, all)
        invariant taken == PickedRuns(rs, i, all) && Starts(stash, taken)
        invariant Exchanged(g, s, Now(), c, {}, Members(taken))
        invariant nactive == s.nactive + Pages(taken) && ndirty + Pages(taken) == s.ndirty
        invariant PagesTaken(g, s, Now(), c, taken)
        decreases |rs| - i
      {
        ghost var t := Now();
        ghost var now := Runs(g, chunks[c]);
        WalkFacts(g, t, c, rs, i, all);
        ghost var x := rs[i];
        var m := chunks[c].pageMap;
        var npages: nat;
        if !m[pageind].alloc {
          npages := m[pageind].size;
          assert pageind + npages <= g.pages && m[pageind].dirty == m[pageind + npages - 1].dirty;
          if m[pageind].dirty && (all || AdjacPred(m, g.bias, pageind) || AdjacSucc(m, pageind, npages)) {
            SplitLarge(c, pageind, npages, now[..i], x, now[i + 1..]);
            StashStep(g, s, t, Now(), c, rs, i, all, now, taken);
            TakenStep(g, s, t, Now(), c, taken, x);
            MovedLength(t, Now(), c);
            stash := stash + [pageind];
            taken := taken + [Taken(x)];
          } else {
            NotPicked(rs, i, all);
          }
        } else if m[pageind].large {
          npages := m[pageind].size;
          NotPicked(rs, i, all);
        } else {
          npages := g.bins[m[pageind].bin];
          NotPicked(rs, i, all);
        }
        pageind := pageind + npages;
        i := i + 1;
      }
      StashEnds(g, s, Now(), c, rs, i, all, taken);
    }

    /** Another thread holds the lock for a while. */
    method Elsewhere(c: nat, ghost taken: seq<Run>, others: Others, n: nat)
      requires Valid(g, Now()) && Holding(g, Now(), c, taken) && Spares(g, c, taken, others)
      modifies this`chunks, this`runsAvail, this`chunksDirty, this`spare, this`ndirty, this`nactive
      ensures Now() == others(n, old(Now())) && Valid(g, Now()) && Holding(g, Now(), c, taken)
      ensures |old(chunks)| <= |chunks|
    {
      hide Valid, Holding, Spares;
      SparesOnce(g, Now(), c, taken, others, n);
      var s := others(n, State(chunks, runsAvail, chunksDirty, spare, ndirty, nactive));
      chunks, runsAvail, chunksDirty, spare, ndirty, nactive :=
        s.chunks, s.runsAvail, s.chunksDirty, s.spare, s.ndirty, s.nactive;
    }

    /** arena_mapbits_unzeroed_set, for a page of a run that this thread has taken */
    method UnzeroedSet(c: nat, page: nat, unzeroed: bool, ghost taken: seq<Run>, ghost k: nat)
      requires Valid(g, Now()) && Holding(g, Now(), c, taken) && k < |taken|
      requires taken[k].start <= page < taken[k].start + taken[k].pages <= |chunks[c].pageMap|
      modifies this`chunks
      ensures Flagged(old(Now()), Now(), c, taken) && Valid(g, Now()) && Holding(g, Now(), c, taken)
      ensures |chunks| == |old(chunks)|
    {
      hide Valid, Owned;
      ghost var s := Now();
      var m := chunks[c].pageMap;
      FlagStep(g, s, c, taken, k, page, unzeroed);
      chunks := chunks[c := chunks[c].(pageMap := m[page := m[page].(unzeroed := unzeroed)])];
      assert Now() == WithMap(s, c, m[page := m[page].(unzeroed := unzeroed)]);
    }

    /** arena_chunk_purge_stashed: the stashed pages go back to the system, which says whether they come back zeroed. The
        lock is not held: others act before and after every flag that is written. As long as they leave the stashed runs
        allocated the arena stays right, and this thread writes nothing but unzeroed flags of those runs. */
    method PurgeStashed(c: nat, stash: seq<nat>, ghost taken: seq<Run>, others: Others)
      returns (npurged: nat, ghost trace: seq<State>)
      requires Valid(g, Now()) && Holding(g, Now(), c, taken) && Starts(stash, taken)
      requires forall k :: 0 <= k < |taken| ==> taken[k].use.Large?
      requires Spares(g, c, taken, others)
      modifies this`chunks, this`runsAvail, this`chunksDirty, this`spare, this`ndirty, this`nactive
      ensures npurged == Pages(taken) && |old(chunks)| <= |chunks|
      ensures Valid(g, Now()) && Holding(g, Now(), c, taken)
      ensures Interleaved(others, trace, c, taken) && trace[0] == old(Now()) && Final(trace) == Now()
    {
      hide Valid, Holding, Spares, Pages, Interleaved, Flagged, Owned;
      npurged := 0;
      trace := [Now()];
      TraceStarts(others, Now(), c, taken);
      var n := 1;
      PagesStep(taken, 0);
      for k := 0 to |stash|
        invariant Valid(g, Now()) && Holding(g, Now(), c, taken) && |old(chunks)| <= |chunks|
        invariant n == |trace| && trace[0] == old(Now()) && Final(trace) == Now() && Interleaved(others, trace, c, taken)
        invariant npurged == Pages(taken[..k])
      {
        Elsewhere(c, taken, others, n);
        OneTurn(others, trace, Now(), c, taken);
        trace := trace + [Now()];
        n := n + 1;
        var pageind := stash[k];
        HoldingMarks(g, Now(), c, taken, k);
        var npages := chunks[c].pageMap[pageind].size;
        assert pageind + npages <= g.pages;
        var unzeroed: bool := *;
        for i := 0 to npages
          invariant Valid(g, Now()) && Holding(g, Now(), c, taken) && |old(chunks)| <= |chunks|
          invariant n == |trace| && trace[0] == old(Now()) && Final(trace) == Now() && Interleaved(others, trace, c, taken)
        {
          Elsewhere(c, taken, others, n);
          OneTurn(others, trace, Now(), c, taken);
          trace := trace + [Now()];
          HoldingMarks(g, Now(), c, taken, k);
          UnzeroedSet(c, pageind + i, unzeroed, taken, k);
          OneTurn(others, trace, Now(), c, taken);
          trace := trace + [Now()];
          n := n + 2;
        }
        npurged := npurged + npages;
        PagesStep(taken, k);
      }
      Elsewhere(c, taken, others, n);
      OneTurn(others, trace, Now(), c, taken);
      trace := trace + [Now()];
      assert taken[..|taken|] == taken;
    }

    /** arena_chunk_unstash_purged: the stashed runs become free and clean. */
    method UnstashPurged(c: nat, stash: seq<nat>, ghost taken: seq<Run>)
      requires Valid(g, Now()) && c < |chunks| && Starts(stash, taken)
      requires forall k :: 0 <= k < |taken| ==> Owned(g, Now(), c, taken[k])
      requires forall j, k :: 0 <= j < k < |taken| ==> taken[j] != taken[k]
      modifies this`chunks, this`runsAvail, this`chunksDirty, this`spare, this`ndirty, this`nactive
      ensures Valid(g, Now()) && |chunks| == |old(chunks)| && ndirty == old(ndirty)
      ensures nactive + Pages(taken) == old(nactive)
      ensures Exchanged(g, old(Now()), Now(), c, Members(taken), {}) && PagesGiven(g, old(Now()), Now(), c, taken)
      ensures OthersKept(old(Now()), Now(), c)
    {
      hide Valid, Kept, Moved, Tiles, Runs, Exchanged, Pages, Joined, Members, PagesGiven, PagesBecome;
      ghost var s := Now();
      PagesStep(taken, 0);
      UnstashStarts(g, s, c, taken);
      NothingTaken(g, s, c);
      assert taken[..0] == [];
      for k := 0 to |stash|
        invariant Valid(g, Now()) && |chunks| == |s.chunks| && ndirty == s.ndirty
        invariant nactive + Pages(taken[..k]) == s.nactive
        invariant Exchanged(g, s, Now(), c, Members(taken[..k]), {}) && PagesGiven(g, s, Now(), c, taken[..k])
        invariant OthersKept(s, Now(), c)
      {
        var pageind := stash[k];
        ghost var t := Now();
        StillOwned(g, s, t, c, taken, k);
        ghost var a, b := OwnedPlace(g, t, c, taken[k]);
        var _ := Release(c, pageind, false, true, a, taken[k], b);
        UnstashStep(g, s, t, Now(), c, taken, k);
        GivenStep(g, s, t, Now(), c, taken, k);
        PagesStep(taken, k);
      }
      assert taken[..|taken|] == taken;
    }

    /** arena_chunk_purge: dirty runs of the chunk become clean; at least one page does. Whatever other threads do while
        the lock is dropped, the runs purged are taken off the state this thread found and given back to the one they left,
        and nobody else's run is touched. */
    method ChunkPurge(c: nat, all: bool, others: Others)
      returns (npurged: nat, ghost taken: seq<Run>, ghost trace: seq<State>)
      requires Valid(g, Now()) && Playing(Now(), c) && chunks[c].ndirty > 0
      requires Spares(g, c, ToStash(g, chunks[c], all), others)
      modifies this`chunks, this`runsAvail, this`chunksDirty, this`spare, this`ndirty, this`nactive
      ensures Valid(g, Now()) && |old(chunks)| <= |chunks|
      ensures taken == old(ToStash(g, chunks[c], all)) && 1 <= npurged == Pages(taken) <= old(chunks[c].ndirty)
      ensures all || old(chunks[c].nrunsAdjac) == 0 ==> npurged == old(chunks[c].ndirty)
      ensures npurged == old(GivenUp(Runs(g, chunks[c]), all || chunks[c].nrunsAdjac == 0))
      ensures Interleaved(others, trace, c, taken)
      ensures Exchanged(g, old(Now()), trace[0], c, {}, Members(taken)) && trace[0].ndirty + npurged == old(ndirty)
      ensures Exchanged(g, Final(trace), Now(), c, Members(taken), {}) && ndirty == Final(trace).ndirty
      ensures trace[0].nactive == old(nactive) + npurged && nactive + npurged == Final(trace).nactive
      ensures Quiet(others) ==> nactive == old(nactive) && |chunks| == |old(chunks)| && ndirty + npurged == old(ndirty)
      ensures Quiet(others) ==> Exchanged(g, old(Now()), Now(), c, {}, {})
      ensures PagesTaken(g, old(Now()), trace[0], c, taken) && PagesGiven(g, Final(trace), Now(), c, taken)
      ensures Quiet(others) ==>
                PagesGiven(g, old(Now()), Now(), c, taken) && Cleaned(g, old(Now()), Now()) &&
                OthersKept(old(Now()), Now(), c)
    {
      hide Valid, Kept, Moved, Runs, Exchanged, Members, PickedRuns, AfterStash, Spares, Interleaved, Quiet, UnzeroedOnly,
           PagesTaken, PagesGiven, Cleaned, SamePages;
      ghost var s := Now();
      var really := all;
      if chunks[c].nrunsAdjac == 0 { really := true; }
      ghost var rs := Runs(g, chunks[c]);
      assert Tiles(rs, g.bias, g.pages) by { InPlayFacts(g, s, c); }
      var stash;
      stash, taken := StashDirty(c, really);
      ghost var t := Now();
      MovedLength(s, t, c);
      TakenFacts(g, s, t, c, rs, really, taken);
      npurged, trace := PurgeStashed(c, stash, taken, others);
      ghost var u := Now();
      UnstashPurged(c, stash, taken);
      if Quiet(others) {
        QuietTrace(g, others, trace, c, taken);
        UnzeroedKeeps(g, t, c, u.chunks[c].pageMap);
        PurgeExchanged(g, s, t, u, Now(), c, taken);
        FlagPages(g, t, c, u.chunks[c].pageMap);
        PurgePages(g, s, t, u, Now(), c, taken);
        MovedMaps(s, t, c);
      }
      PagesPositive(taken);
    }

    /** arena_chunk_purge without other threads */
    method PurgeAlone(c: nat, all: bool) returns (npurged: nat)
      requires Valid(g, Now()) && Playing(Now(), c) && chunks[c].ndirty > 0
      modifies this`chunks, this`runsAvail, this`chunksDirty, this`spare, this`ndirty, this`nactive
      ensures Valid(g, Now()) && nactive == old(nactive) && |chunks| == |old(chunks)| && ndirty + npurged == old(ndirty)
      ensures 1 <= npurged <= old(chunks[c].ndirty)
      ensures npurged == old(GivenUp(Runs(g, chunks[c]), all || chunks[c].nrunsAdjac == 0))
      ensures all || old(chunks[c].nrunsAdjac) == 0 ==> npurged == old(chunks[c].ndirty)
      ensures Exchanged(g, old(Now()), Now(), c, {}, {}) && Cleaned(g, old(Now()), Now())
      ensures Unfragmented(old(Now())) && old(chunks[c].nrunsAdjac) == 0 ==> Unfragmented(Now())
    {
      hide Valid, Kept, Moved, Runs, Exchanged, GivenUp, ToStash, Interleaved, Spares, Cleaned, PagesTaken, PagesGiven,
           OthersKept, Unfragmented, Holding, Final;
      ghost var t := Now();
      NobodySpares(g, c, ToStash(g, chunks[c], all));
      ghost var taken, trace;
      npurged, taken, trace := ChunkPurge(c, all, Nobody);
      if Unfragmented(t) && t.chunks[c].nrunsAdjac == 0 { StillUnfragmented(g, t, Now(), c, npurged); }
    }

    /** arena_purge. npurgatory is unsigned in the original: a negative value here is a value wrapped around there. */
    method Purge(all: bool)
      requires Valid(g, Now()) && 0 <= npurgatory <= ndirty
      requires all || (lgDirtyMult >= 0 && Shr(nactive, lgDirtyMult) < ndirty - npurgatory)
      modifies this`chunks, this`runsAvail, this`chunksDirty, this`spare, this`ndirty, this`nactive, this`npurgatory
      ensures Valid(g, Now()) && nactive == old(nactive) && npurgatory == old(npurgatory) && |chunks| == |old(chunks)|
      ensures forall c: nat :: Exchanged(g, old(Now()), Now(), c, {}, {})
      ensures ndirty == 0 || ndirty + old(ToPurge(all)) <= old(ndirty)
      ensures ndirty == 0 || old(ndirty) < ndirty + old(ToPurge(all)) + g.pages
      ensures old(ToPurge(all)) > 0 && Overshoots(g, old(Now()), all, old(ToPurge(all))) ==> ndirty == 0
      ensures Cleaned(g, old(Now()), Now())
      ensures Unfragmented(old(Now())) ==> old(ndirty) < ndirty + old(ToPurge(all)) + g.pages
    {
      hide Valid, Kept, Moved, Runs, Exchanged, GivenUp, Cleaned, Unfragmented, Playing, Shr;
      ghost var s := Now();
      ghost var before := npurgatory;
      var n: int := ToPurge(all);
      ghost var asked := n;
      ghost var bump := 0;
      ValidGeometry(g, s);
      npurgatory := npurgatory + n;
      assert forall c: nat :: Exchanged(g, s, s, c, {}, {}) by { NothingExchanged(g, s); }
      NothingCleaned(g, s);
      while n != 0
        invariant Cleaned(g, s, Now()) && (Unfragmented(s) ==> Unfragmented(Now()) && n >= 0)
        invariant Valid(g, Now()) && nactive == s.nactive && npurgatory - n == before && |chunks| == |s.chunks|
        invariant forall c: nat :: Exchanged(g, s, Now(), c, {}, {})
        invariant asked > 0 && Overshoots(g, s, all, asked) ==> n < 0 || (n == asked && Now() == s)
        invariant ndirty + asked + bump - n == s.ndirty && 0 <= bump < g.pages && (n > 0 ==> bump == 0)
        decreases ndirty
      {
        if !(exists k :: k in chunksDirty) {
          npurgatory := npurgatory - n;
          AllClean(g, Now());
          return;
        }
        var k :| k in chunksDirty;
        var c := k.chunk;
        DirtyPlaying(g, Now(), k);
        if Unfragmented(Now()) { NotFragmented(Now(), k); }
        assert chunks[c].ndirty <= ndirty && chunks[c].ndirty < g.pages by { DirtyBelow(g, Now(), c); }
        var npurgeable := chunks[c].ndirty;
        if 0 <= n < npurgeable && chunks[c].nrunsAdjac == 0 {
          npurgatory := npurgatory + npurgeable - n;
          bump := npurgeable - n;
          n := npurgeable;
        }
        npurgatory := npurgatory - npurgeable;
        n := n - npurgeable;
        ghost var t := Now();
        var npurged := PurgeAlone(c, all);
        PurgedMore(g, s, t, Now(), c);
        CleanedTwice(g, s, t, Now());
        var nunpurged := npurgeable - npurged;
        npurgatory := npurgatory + nunpurged;
        n := n + nunpurged;
      }
    }

    /** arena_compute_npurgatory */
    function ToPurge(all: bool): int
      requires all || lgDirtyMult >= 0
      reads this`ndirty, this`npurgatory, this`nactive
    {
      ndirty - npurgatory - if all then 0 else Shr(nactive, lgDirtyMult)
    }

    /** arena_maybe_purge */
    method MaybePurge()
      requires Valid(g, Now()) && 0 <= npurgatory
      modifies this`chunks, this`runsAvail, this`chunksDirty, this`spare, this`ndirty, this`nactive, this`npurgatory
      ensures Valid(g, Now()) && nactive == old(nactive) && npurgatory == old(npurgatory) && |chunks| == |old(chunks)|
      ensures forall c: nat :: Exchanged(g, old(Now()), Now(), c, {}, {})
      ensures Tidied(g, lgDirtyMult, npurgatory, old(Now()), Now())
    {
      hide Valid, Exchanged, Shr, Cleaned;
      NothingCleaned(g, Now());
      assert forall c: nat :: Exchanged(g, Now(), Now(), c, {}, {}) by { NothingExchanged(g, Now()); }
      if lgDirtyMult < 0 { return; }
      if ndirty <= npurgatory { return; }
      var npurgeable := ndirty - npurgatory;
      var threshold := Shr(nactive, lgDirtyMult);
      if npurgeable <= threshold { return; }
      Purge(false);
    }

    /** arena_purge_all */
    method PurgeAll()
      requires Valid(g, Now()) && 0 <= npurgatory <= ndirty
      modifies this`chunks, this`runsAvail, this`chunksDirty, this`spare, this`ndirty, this`nactive, this`npurgatory
      ensures Valid(g, Now()) && nactive == old(nactive) && npurgatory == old(npurgatory) && ndirty <= npurgatory
      ensures npurgatory == 0 ==> ndirty == 0 && chunksDirty == {}
      ensures (forall c: nat :: Exchanged(g, old(Now()), Now(), c, {}, {})) && Cleaned(g, old(Now()), Now())
    {
      hide Valid, Exchanged, Shr, Cleaned;
      Purge(true);
      if npurgatory == 0 { NoDirtyChunk(g, Now()); }
    }

    /** arena_run_dalloc: the allocated run x becomes available, dirty if the caller says so or it was dirty and nobody
        has cleaned it; then too many dirty pages are purged. released is the state between. */
    method RunDalloc(c: nat, runInd: nat, dirty: bool, cleaned: bool, ghost x: Run) returns (ghost released: State)
      requires Valid(g, Now()) && Owned(g, Now(), c, x) && x.start == runInd && 0 <= npurgatory
      modifies this`chunks, this`runsAvail, this`chunksDirty, this`spare, this`ndirty, this`nactive, this`npurgatory
      ensures Valid(g, Now()) && nactive + x.pages == old(nactive) && npurgatory == old(npurgatory)
      ensures |chunks| == |old(chunks)| && Exchanged(g, old(Now()), Now(), c, {x}, {})
      ensures Dalloced(g, lgDirtyMult, npurgatory, old(Now()), released, Now(), c, runInd, runInd + x.pages,
                       dirty || (!cleaned && x.dirty))
    {
      hide Valid, Exchanged, Runs, Joined, Freed, Tidied;
      ghost var s := Now();
      ghost var a, b := OwnedPlace(g, s, c, x);
      var flagDirty := Release(c, runInd, dirty, cleaned, a, x, b);
      released := Now();
      if flagDirty {
        MaybePurge();
        ExchangedTwice(g, s, released, Now(), c, {x}, {}, {}, {});
        assert var none: set<Run> := {}; {x} + none == {x} && none - none + none == none;
      }
    }

    // ---- trimming and resizing ----

    /** The large run y, marked as two: head pages, and the rest. The last entry of the first comes first. */
    method MarkTwo(c: nat, y: Run, head: nat)
      requires c < |chunks| && y.start + y.pages <= |chunks[c].pageMap| && 0 < head < y.pages
      modifies this`chunks
      ensures Now() == WithMap(old(Now()), c, TwoMarked(old(chunks[c].pageMap), y, head))
    {
      var m := chunks[c].pageMap;
      var flagDirty := m[y.start].dirty;
      m := m[y.start + head - 1 := LargeSet(m[y.start + head - 1], 0, flagDirty)];
      m := m[y.start := LargeSet(m[y.start], head, flagDirty)];
      m := m[y.start + head := LargeSet(m[y.start + head], y.pages - head, flagDirty)];
      chunks := chunks[c := chunks[c].(pageMap := m)];
    }

    /** The large run y becomes two large runs. */
    method Divide(c: nat, y: Run, head: nat)
      requires Valid(g, Now()) && Owned(g, Now(), c, y) && y.use.Large? && 0 < head < y.pages
      modifies this`chunks
      ensures Valid(g, Now()) && |chunks| == |old(chunks)|
      ensures Exchanged(g, old(Now()), Now(), c, {y}, {Head(y, head), Tail(y, head)}) && SamePages(g, old(Now()), Now())
    {
      hide Valid, Exchanged, Runs, Marks, Tiles, Kept, Moved, TwoMarked, SamePages;
      ghost var s := Now();
      ghost var a, b := OwnedPlace(g, s, c, y);
      UsedRunFacts(g, s, c, a, y, b);
      ghost var m := chunks[c].pageMap;
      MarkTwo(c, y, head);
      TwoMarks(m, g.bins, y, head);
      TwoTile(y, head);
      RemarkedUsed(g, s, c, TwoMarked(m, y, head), a, [y], [Head(y, head), Tail(y, head)], b);
      RemarkedPages(g, s, Now(), c, a, [y], [Head(y, head), Tail(y, head)], b);
      MovedLength(s, Now(), c);
      Replaced(g, s, Now(), c, y, head);
    }

    /** arena_run_trim_head: all but the last newPages of the large run are released, as dirty as the run is. */
    method TrimHead(c: nat, pageind: nat, oldPages: nat, newPages: nat, ghost y: Run) returns (ghost released: State)
      requires Valid(g, Now()) && Owned(g, Now(), c, y) && y == Run(pageind, oldPages, Large, y.dirty)
      requires 0 < newPages < oldPages && 0 <= npurgatory
      modifies this`chunks, this`runsAvail, this`chunksDirty, this`spare, this`ndirty, this`nactive, this`npurgatory
      ensures Valid(g, Now()) && nactive + (oldPages - newPages) == old(nactive) && npurgatory == old(npurgatory)
      ensures Exchanged(g, old(Now()), Now(), c, {y}, {Run(pageind + (oldPages - newPages), newPages, Large, y.dirty)})
      ensures Dalloced(g, lgDirtyMult, npurgatory, old(Now()), released, Now(), c, pageind,
                       pageind + (oldPages - newPages), y.dirty)
    {
      hide Valid, Exchanged, Runs, SamePages, Freed, Tidied;
      ghost var s := Now();
      var headPages := oldPages - newPages;
      assert y.dirty == chunks[c].pageMap[pageind].dirty by { OwnedDirty(g, s, c, y); }
      Divide(c, Run(pageind, oldPages, Large, chunks[c].pageMap[pageind].dirty), headPages);
      ghost var t := Now();
      ghost var h, r := Head(y, headPages), Tail(y, headPages);
      NowOwned(g, s, t, c, {y}, {h, r}, h);
      released := RunDalloc(c, pageind, false, false, h);
      SameThenFreed(g, s, t, released, c, pageind, pageind + headPages, y.dirty);
      ExchangedTwice(g, s, t, Now(), c, {y}, {h, r}, {h}, {});
      HeadGone(g, s, Now(), c, y, headPages);
    }

    /** arena_run_trim_tail: all but the first newPages of the large run are released, dirty if the caller says so or the
        run is. */
    method TrimTail(c: nat, pageind: nat, oldPages: nat, newPages: nat, dirty: bool, ghost y: Run)
      returns (ghost released: State)
      requires Valid(g, Now()) && Owned(g, Now(), c, y) && y == Run(pageind, oldPages, Large, y.dirty)
      requires 0 < newPages < oldPages && 0 <= npurgatory
      modifies this`chunks, this`runsAvail, this`chunksDirty, this`spare, this`ndirty, this`nactive, this`npurgatory
      ensures Valid(g, Now()) && nactive + (oldPages - newPages) == old(nactive) && npurgatory == old(npurgatory)
      ensures Exchanged(g, old(Now()), Now(), c, {y}, {Run(pageind, newPages, Large, y.dirty)})
      ensures Dalloced(g, lgDirtyMult, npurgatory, old(Now()), released, Now(), c, pageind + newPages, pageind + oldPages,
                       dirty || y.dirty)
    {
      hide Valid, Exchanged, Runs, SamePages, Freed, Tidied;
      ghost var s := Now();
      assert y.dirty == chunks[c].pageMap[pageind].dirty by { OwnedDirty(g, s, c, y); }
      Divide(c, Run(pageind, oldPages, Large, chunks[c].pageMap[pageind].dirty), newPages);
      ghost var t := Now();
      ghost var h, r := Head(y, newPages), Tail(y, newPages);
      NowOwned(g, s, t, c, {y}, {h, r}, r);
      released := RunDalloc(c, pageind + newPages, dirty, false, r);
      SameThenFreed(g, s, t, released, c, pageind + newPages, pageind + oldPages, dirty || y.dirty);
      ExchangedTwice(g, s, t, Now(), c, {y}, {h, r}, {r}, {});
      TailGone(g, s, Now(), c, y, newPages);
    }

    /** arena_palloc: size pages at an address that is a multiple of 2^lg pages, cut out of the longer run z, which was
        free. What is trimmed off it is as dirty again as it was, but for what is purged. */
    method Palloc(size: nat, lg: nat, grant: Option<Grant>) returns (r: Option<(nat, nat)>, ghost y: Run, ghost z: Run)
      requires Valid(g, Now()) && 1 <= size && size + Pow2(lg) - 1 <= g.pages - g.bias && 0 <= npurgatory
      requires grant.Some? ==> |grant.value.content| == g.pages
      modifies this`chunks, this`runsAvail, this`chunksDirty, this`spare, this`ndirty, this`nactive, this`npurgatory
      ensures Valid(g, Now()) && npurgatory == old(npurgatory)
      ensures r.None? ==> Now() == old(Now())
      ensures r.None? <==> grant.None? && old(spare).None? &&
                           forall k :: k in old(runsAvail) ==> k.pages < size + Pow2(lg) - 1
      ensures r.Some? ==>
                var (c, p) := r.value;
                && c < |chunks| && Low(chunks[c].base + p, lg) == 0
                && y == Run(p, size, Large, z.dirty) && nactive == old(nactive) + size
                && Exchanged(g, old(Now()), Now(), c, {}, {y})
                && z.pages == size + Pow2(lg) - 1 && z.start <= p && p + size <= z.start + z.pages
                && FreeThroughout(g, old(Now()), c, z)
                && OnlyTaken(g, old(Now()), Now(), c, p, p + size, !z.dirty || lgDirtyMult < 0)
                && (z.dirty && z.pages > size && lgDirtyMult >= 0 ==> ndirty - npurgatory <= Shr(nactive, lgDirtyMult))
    {
      hide Valid, Exchanged, Runs, Low, BestFit, PagesBecome, FreeThroughout, OnlyTaken, Dalloced, SamePages, Owned, Shr,
           KeysInRange, Pow2, Playing, ExtentTrees.Ceiling;
      Pow2Positive(lg);
      ghost var s := Now();
      var allocSize := size + Pow2(lg) - 1;
      r, z := RunAllocLarge(allocSize, grant);
      y := z;
      if r.None? { return; }
      var (c, runInd) := r.value;
      ghost var exact := !z.dirty || lgDirtyMult < 0;
      ghost var t := Now();
      JustTaken(g, s, t, c, z, exact);
      NowOwned(g, s, t, c, {}, {z}, z);
      ghost var base := chunks[c].base;
      ExtentTrees.CeilingClose(chunks[c].base + runInd, lg);
      var leadsize := ExtentTrees.Ceiling(chunks[c].base + runInd, lg) - (chunks[c].base + runInd);
      var trailsize := allocSize - leadsize - size;
      var p := runInd + leadsize;
      if leadsize != 0 {
        ghost var released := TrimHead(c, runInd, allocSize, allocSize - leadsize, z);
        y := Run(p, size + trailsize, Large, z.dirty);
        PassedOn(g, s, t, Now(), c, z, y);
        Trimmed(g, lgDirtyMult, npurgatory, s, t, released, Now(), c, z, runInd, p, p, runInd + allocSize, exact);
      }
      ghost var u, yu := Now(), y;
      NowOwned(g, s, u, c, {}, {y}, y);
      assert y == z || !Owned(g, s, c, y) by { if y != z { PartBefore(g, s, t, c, z, y); } }
      if trailsize != 0 {
        ghost var released := TrimTail(c, p, size + trailsize, size, false, y);
        y := Run(p, size, Large, z.dirty);
        PassedOn(g, s, u, Now(), c, yu, y);
        Trimmed(g, lgDirtyMult, npurgatory, s, u, released, Now(), c, z, p + size, runInd + allocSize, p, p + size, exact);
      }
      ghost var v := Now();
      NowOwned(g, s, v, c, {}, {y}, y);
      ghost var a, b := OwnedPlace(g, v, c, y);
      InitLarge(c, p, size, a, y, b);
      NothingNew(g, s, v, Now(), c, y);
      StillTakenOnly(g, s, v, Now(), c, p, p + size, exact);
      r := Some((c, p));
    }

    /** arena_ralloc_large_shrink: what is given up is dirty, since it was in use. */
    method RallocShrink(c: nat, pageind: nat, oldsize: nat, size: nat, ghost y: Run) returns (ghost released: State)
      requires Valid(g, Now()) && Owned(g, Now(), c, y) && y == Run(pageind, oldsize, Large, y.dirty)
      requires 0 < size < oldsize && 0 <= npurgatory
      modifies this`chunks, this`runsAvail, this`chunksDirty, this`spare, this`ndirty, this`nactive, this`npurgatory
      ensures Valid(g, Now()) && nactive + (oldsize - size) == old(nactive) && npurgatory == old(npurgatory)
      ensures Exchanged(g, old(Now()), Now(), c, {y}, {Run(pageind, size, Large, y.dirty)})
      ensures Dalloced(g, lgDirtyMult, npurgatory, old(Now()), released, Now(), c, pageind + size, pageind + oldsize, true)
    {
      hide Valid, Exchanged, Freed, Tidied;
      released := TrimTail(c, pageind, oldsize, size, true, y);
    }

    /** The entries of the extended run; it is dirty if either part was. */
    method MarkGrown(c: nat, pageind: nat, newsize: nat) returns (z: Run)
      requires c < |chunks| && newsize >= 2 && pageind + newsize <= |chunks[c].pageMap|
      modifies this`chunks
      ensures |chunks| == |old(chunks)| && |chunks[c].pageMap| == |old(chunks[c].pageMap)|
      ensures Now() == WithMap(old(Now()), c, chunks[c].pageMap)
      ensures z == Run(pageind, newsize, Large, z.dirty) && Marks(chunks[c].pageMap, g.bins, z)
      ensures z.dirty == old(chunks[c].pageMap[pageind].dirty || chunks[c].pageMap[pageind + newsize - 1].dirty)
      ensures forall k :: 0 <= k < |chunks[c].pageMap| && !(pageind <= k < pageind + newsize) ==>
                chunks[c].pageMap[k] == old(chunks[c].pageMap)[k]
    {
      var m := chunks[c].pageMap;
      var flagDirty := m[pageind].dirty || m[pageind + newsize - 1].dirty;
      m := m[pageind := LargeSet(m[pageind], newsize, flagDirty)];
      m := m[pageind + newsize - 1 := LargeSet(m[pageind + newsize - 1], 0, flagDirty)];
      chunks := chunks[c := chunks[c].(pageMap := m)];
      z := Run(pageind, newsize, Large, flagDirty);
    }

    /** arena_ralloc_large_grow: the run takes over what it needs of the free run behind it, up to size + extra pages; it
        fails when there is no such run or it is too short. When size is below oldsize the unsigned difference is huge. */
    method RallocGrow(c: nat, pageind: nat, oldsize: nat, size: nat, extra: nat, ghost y: Run)
      returns (failed: bool, ghost z: Run, ghost more: Run)
      requires Valid(g, Now()) && Owned(g, Now(), c, y) && y == Run(pageind, oldsize, Large, y.dirty)
      requires size + extra > oldsize
      modifies this`chunks, this`runsAvail, this`chunksDirty, this`ndirty, this`nactive
      ensures Valid(g, Now()) && (failed ==> Now() == old(Now()))
      ensures failed <==> size < oldsize || forall k: nat :: old(FreeBehind(g, Now(), c, y, k)) ==> k < size - oldsize
      ensures !failed ==>
                && z == Run(pageind, z.pages, Large, z.dirty) && nactive + oldsize == old(nactive) + z.pages
                && size <= z.pages <= size + extra && z.pages > oldsize
                && (z.pages < size + extra ==> old(FreeBehind(g, Now(), c, y, z.pages - oldsize)))
                && Exchanged(g, old(Now()), Now(), c, {y}, {z})
                && more == Run(pageind + oldsize, z.pages - oldsize, Large, more.dirty)
                && FreeThroughout(g, old(Now()), c, more) && z.dirty == (y.dirty || more.dirty)
                && PagesBecome(g, old(Now()), Now(), c, pageind + oldsize, pageind + z.pages, None)
    {
      hide Valid, Exchanged, Runs, Marks, Tiles, Kept, Moved, Carved, FreeBehind, Owned, NoTwins, Usable, Leftover, Members,
           PagesBecome, FreeThroughout, SamePages;
      ghost var s := Now();
      ghost var a, b := OwnedPlace(g, s, c, y);
      UsedRunFacts(g, s, c, a, y, b);
      BehindFacts(g, s, c, a, y, b);
      z, more := y, y;
      var m := chunks[c].pageMap;
      if pageind + oldsize < g.pages && !m[pageind + oldsize].alloc && size >= oldsize &&
         m[pageind + oldsize].size >= size - oldsize
      {
        var followsize := m[pageind + oldsize].size;
        assert FreeBehind(g, s, c, y, followsize);
        var splitsize := if oldsize + followsize <= size + extra then followsize else size + extra - oldsize;
        ghost var x := b[0];
        SplitLarge(c, pageind + oldsize, splitsize, a + [y], x, b[1..]);
        ghost var t := Now();
        MovedLength(s, t, c);
        var newsize := oldsize + splitsize;
        ghost var y2 := Run(pageind + oldsize, splitsize, Large, x.dirty);
        ghost var rest := Leftover(x, splitsize) + b[1..];
        GrowFacts(g, t, c, a, y, x, b[1..], splitsize);
        z := MarkGrown(c, pageind, newsize);
        OneTiles(z);
        RemarkedUsed(g, t, c, chunks[c].pageMap, a, [y, y2], [z], rest);
        GrowExchanged(g, s, t, Now(), c, y, y2, z);
        RemarkedPages(g, t, Now(), c, a, [y, y2], [z], rest);
        BecomeThenSame(g, s, t, Now(), c, pageind + oldsize, pageind + newsize, None);
        return false, z, y2;
      }
      failed := true;
    }

    /** arena_dalloc_bin_run: a small run is given back; if it was clean when it was taken, its pages from past on, never
        touched, stay clean. */
    method DallocBinRun(c: nat, runInd: nat, past: nat, ghost y: Run) returns (ghost trimmed: State, ghost released: State)
      requires Valid(g, Now()) && Owned(g, Now(), c, y) && y.use.Small? && y.start == runInd
      requires runInd < past && 0 <= npurgatory
      modifies this`chunks, this`runsAvail, this`chunksDirty, this`spare, this`ndirty, this`nactive, this`npurgatory
      ensures Valid(g, Now()) && nactive + y.pages == old(nactive) && npurgatory == old(npurgatory)
      ensures Exchanged(g, old(Now()), Now(), c, {y}, {})
      ensures if !y.dirty && past - runInd < y.pages
              then Freed(g, old(Now()), trimmed, c, past, runInd + y.pages, false) &&
                   Dalloced(g, lgDirtyMult, npurgatory, trimmed, released, Now(), c, runInd, past, true)
              else Dalloced(g, lgDirtyMult, npurgatory, old(Now()), released, Now(), c, runInd, runInd + y.pages, true)
    {
      hide Valid, Exchanged, Runs, Marks, Tiles, Kept, Moved, LargeMarked, Freed, Tidied, SamePages;
      ghost var s := Now();
      ghost var a, b := OwnedPlace(g, s, c, y);
      UsedRunFacts(g, s, c, a, y, b);
      var m := chunks[c].pageMap;
      assert m[runInd].bin < |g.bins| && g.bins[m[runInd].bin] == y.pages by { SmallFacts(m, g.bins, y); }
      var npages := g.bins[m[runInd].bin];
      if !m[runInd].dirty && past - runInd < npages {
        m := m[runInd := LargeSet(m[runInd], npages, false)];
        m := m[runInd + npages - 1 := LargeSet(m[runInd + npages - 1], 0, false)];
        chunks := chunks[c := chunks[c].(pageMap := m)];
        ghost var z := Taken(y);
        assert Now() == WithMap(s, c, m);
        OneTiles(z);
        assert Marks(m, g.bins, z) by { Grown(s.chunks[c].pageMap, m, g.bins, z); }
        RemarkedUsed(g, s, c, m, a, [y], [z], b);
        ghost var t := Now();
        assert Members([y]) - Members([z]) == {y} && Members([z]) == {z};
        NowOwned(g, s, t, c, {y}, {z}, z);
        RemarkedPages(g, s, t, c, a, [y], [z], b);
        trimmed := TrimTail(c, runInd, npages, past - runInd, false, z);
        SameThenFreed(g, s, t, trimmed, c, past, runInd + npages, false);
        ghost var u, w := Now(), Run(runInd, past - runInd, Large, z.dirty);
        ExchangedTwice(g, s, t, u, c, {y}, {z}, {z}, {w});
        NowOwned(g, t, u, c, {z}, {w}, w);
        released := RunDalloc(c, runInd, true, false, w);
        ExchangedTwice(g, s, u, Now(), c, {y} + {z}, {z} - {z} + {w}, {w}, {});
        BinRunGone(g, s, Now(), c, y, past - runInd);
      } else {
        trimmed := s;
        released := RunDalloc(c, runInd, true, false, y);
      }
    }
  }
}
