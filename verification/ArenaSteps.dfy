/** arena.c: what the operations on page runs rely on, step by step */
module ArenaSteps {
  import opened Wrappers
  import opened PageRuns
  import opened ArenaState

  /** The run, no longer available */
  function Taken(x: Run): Run {
    x.(use := Large)
  }

  /** The entry tells whether the run it belongs to is free, and if so how dirty. */
  predicate Shows(p: Page, r: Run) {
    p.alloc == !r.use.Free? && (r.use.Free? ==> p.dirty == r.dirty)
  }

  /** Where a neighbour is to be looked at, its nearest page shows it; where it is not, the neighbours do not count as
      adjacent. */
  predicate Flanked(m: seq<Page>, pred: bool, succ: bool, a: seq<Run>, x: Run, b: seq<Run>) {
    && (if pred then a != [] ==> 1 <= x.start <= |m| && Shows(m[x.start - 1], Last(a)) else Joint(a, [x]) == 0)
    && (if succ then b != [] ==> x.start + x.pages < |m| && Shows(m[x.start + x.pages], b[0]) else Joint([x], b) == 0)
  }

  /** The first entry announces the free run. */
  predicate Announces(m: seq<Page>, x: Run) {
    x.start < |m| && !m[x.start].alloc && m[x.start].size == x.pages && m[x.start].dirty == x.dirty
  }

  /** Neighbours in a properly marked list show themselves. */
  lemma MarkedFlanks(m: seq<Page>, bins: seq<nat>, lo: nat, a: seq<Run>, x: Run, b: seq<Run>)
    requires Tiles(a + [x] + b, lo, |m|) && AllMarked(m, bins, a) && AllMarked(m, bins, b)
    ensures a != [] ==> 1 <= x.start <= |m| && Shows(m[x.start - 1], Last(a))
    ensures b != [] ==> x.start + x.pages < |m| && Shows(m[x.start + x.pages], b[0])
  {
    hide Tiles;
    Around(a, x, b, lo, |m|);
    if a != [] { assert Last(a) in a && Marks(m, bins, Last(a)); }
    if b != [] { assert b[0] in b && Marks(m, bins, b[0]); }
  }

  /** arena_avail_adjac_pred */
  predicate AdjacPred(m: seq<Page>, bias: nat, pageind: nat)
    requires 1 <= pageind <= |m|
  {
    if pageind - 1 < bias then false else !m[pageind - 1].alloc
  }

  /** arena_avail_adjac_succ */
  predicate AdjacSucc(m: seq<Page>, pageind: nat, npages: nat)
    requires pageind + npages <= |m|
  {
    if pageind + npages == |m| then false else !m[pageind + npages].alloc
  }

  /** What chunks_dirty holds for a chunk: nothing unless it has dirty pages */
  function QueueKey(c: nat, ch: Chunk): set<DirtyKey> {
    if ch.ndirty != 0 then {DirtyKey(c, ch.nrunsAvail, ch.nrunsAdjac)} else {}
  }

  /** What chunk_alloc hands out: an address, in pages, whether the memory is zeroed, and what stands where the page map
      goes */
  datatype Grant = Grant(base: nat, zero: bool, content: seq<Page>)

  /** All pages behind the header as one free run */
  function Whole(g: Geometry, dirty: bool): Run
    requires g.bias < g.pages
  {
    Run(g.bias, g.pages - g.bias, Free, dirty)
  }

  // ---- the bookkeeping of arena_avail_insert and arena_avail_remove ----

  /** What the two adjacency tests find */
  lemma FlankFacts(m: seq<Page>, bias: nat, pred: bool, succ: bool, a: seq<Run>, x: Run, b: seq<Run>)
    requires 1 <= bias && Tiles(a + [x] + b, bias, |m|) && NoTwins(a + [x] + b) && x.use.Free?
    requires Announces(m, x) && Flanked(m, pred, succ, a, x, b)
    ensures 1 <= x.start && x.pages >= 1 && x.start + x.pages <= |m|
    ensures m[x.start].dirty == x.dirty && m[x.start].size == x.pages
    ensures (if pred && AdjacPred(m, bias, x.start) then 1 else 0) == Joint(a, [x])
    ensures (if succ && AdjacSucc(m, x.start, x.pages) then 1 else 0) == Joint([x], b)
    ensures pred && AdjacPred(m, bias, x.start) ==> m[x.start - 1].dirty != m[x.start].dirty
    ensures succ && AdjacSucc(m, x.start, x.pages) ==>
              x.start + x.pages < |m| && m[x.start].dirty != m[x.start + x.pages].dirty
  {
    hide Tiles, NoTwins;
    Around(a, x, b, bias, |m|);
    Middle(a, x, b);
    assert Last([x]) == x;
  }

  lemma InsertFacts(s: State, c: nat, a: seq<Run>, xs: seq<Run>, x: Run, b: seq<Run>, m: seq<Page>, bias: nat,
                    pred: bool, succ: bool)
    requires c < |s.chunks| && Kept(s, c, a + xs + b) && xs != [] && NoneFree(xs)
    requires 1 <= bias && Tiles(a + [x] + b, bias, |m|) && NoTwins(a + [x] + b) && x.use.Free?
    requires Announces(m, x) && Flanked(m, pred, succ, a, x, b)
    ensures var ch := s.chunks[c];
            && 1 <= x.start && x.pages >= 1 && x.start + x.pages <= |m|
            && m[x.start].dirty == x.dirty && m[x.start].size == x.pages
            && (if pred && AdjacPred(m, bias, x.start) then 1 else 0) == Joint(a, [x])
            && (if succ && AdjacSucc(m, x.start, x.pages) then 1 else 0) == Joint([x], b)
            && (pred && AdjacPred(m, bias, x.start) ==> m[x.start - 1].dirty != m[x.start].dirty)
            && (succ && AdjacSucc(m, x.start, x.pages) ==>
                  x.start + x.pages < |m| && m[x.start].dirty != m[x.start + x.pages].dirty)
            && ch.nrunsAvail >= ch.nrunsAdjac + Joint(a, [x]) + Joint([x], b)
  {
    hide FreeCount, Adjacent, DirtyPages, FreeAt, Tiles, NoTwins, Joint, Announces, Flanked, AdjacPred, AdjacSucc,
         Listed, Queued;
    FlankFacts(m, bias, pred, succ, a, x, b);
    Hole(a, xs, b);
    Middle(a, x, b);
    FewerAdjacent(a + [x] + b);
  }

  lemma RemoveFacts(s: State, c: nat, a: seq<Run>, x: Run, b: seq<Run>, m: seq<Page>, bias: nat, pred: bool, succ: bool)
    requires c < |s.chunks| && Kept(s, c, a + [x] + b)
    requires 1 <= bias && Tiles(a + [x] + b, bias, |m|) && NoTwins(a + [x] + b) && x.use.Free?
    requires Announces(m, x) && Flanked(m, pred, succ, a, x, b)
    ensures var ch := s.chunks[c];
            && 1 <= x.start && x.pages >= 1 && x.start + x.pages <= |m|
            && m[x.start].dirty == x.dirty && m[x.start].size == x.pages
            && (if pred && AdjacPred(m, bias, x.start) then 1 else 0) == Joint(a, [x])
            && (if succ && AdjacSucc(m, x.start, x.pages) then 1 else 0) == Joint([x], b)
            && (pred && AdjacPred(m, bias, x.start) ==> m[x.start - 1].dirty != m[x.start].dirty)
            && (succ && AdjacSucc(m, x.start, x.pages) ==>
                  x.start + x.pages < |m| && m[x.start].dirty != m[x.start + x.pages].dirty)
            && Joint(a, [x]) + Joint([x], b) <= ch.nrunsAdjac && 1 <= ch.nrunsAvail
            && (x.dirty ==> x.pages <= ch.ndirty)
            && var adjac := ch.nrunsAdjac - Joint(a, [x]) - Joint([x], b);
               (ch.nrunsAvail - 1 > adjac || (ch.nrunsAvail == 1 && adjac == 0))
  {
    hide FreeCount, Adjacent, DirtyPages, FreeAt, Tiles, NoTwins, Joint, Announces, Flanked, AdjacPred, AdjacSucc,
         Listed, Queued;
    FlankFacts(m, bias, pred, succ, a, x, b);
    Middle(a, x, b);
    FewerAdjacent(a);
    FewerAdjacent(b);
    Hole(a, [Taken(x)], b);
    FewerAdjacent(a + [Taken(x)] + b);
  }

  /** What one insertion does to the records of chunk c */
  ghost predicate Rerecorded(s: State, t: State, c: nat, key: AvailKey, adding: bool)
    requires c < |s.chunks| == |t.chunks|
  {
    && key.chunk == c
    && t.chunks == s.chunks[c := t.chunks[c]]
    && t.runsAvail == (if adding then s.runsAvail + {key} else s.runsAvail - {key})
    && var ch, dh := s.chunks[c], t.chunks[c];
    && t.chunksDirty == s.chunksDirty - QueueKey(c, ch) + QueueKey(c, dh)
    && dh.base == ch.base && dh.mapped == ch.mapped && dh.pageMap == ch.pageMap && t.spare == s.spare
  }

  lemma Inserted(s: State, t: State, c: nat, a: seq<Run>, xs: seq<Run>, x: Run, b: seq<Run>)
    requires c < |s.chunks| == |t.chunks| && Kept(s, c, a + xs + b) && xs != [] && NoneFree(xs) && x.use.Free?
    requires Rerecorded(s, t, c, AvailKey(x.pages, c, x.start), true)
    requires var ch, dh := s.chunks[c], t.chunks[c];
             && dh.nrunsAdjac == ch.nrunsAdjac + Joint(a, [x]) + Joint([x], b) && dh.nrunsAvail == ch.nrunsAvail + 1
             && dh.ndirty == ch.ndirty + (if x.dirty then x.pages else 0) && t.ndirty == s.ndirty + dh.ndirty - ch.ndirty
    ensures Moved(s, t, c) && Kept(t, c, a + [x] + b)
  {
    hide FreeCount, Adjacent, DirtyPages, FreeAt, NoTwins, Joint;
    Hole(a, xs, b);
    Middle(a, x, b);
  }

  lemma Removed(s: State, t: State, c: nat, a: seq<Run>, x: Run, b: seq<Run>, lo: nat, hi: nat)
    requires c < |s.chunks| == |t.chunks| && Kept(s, c, a + [x] + b) && x.use.Free?
    requires Tiles(a + [x] + b, lo, hi)
    requires Rerecorded(s, t, c, AvailKey(x.pages, c, x.start), false)
    requires var ch, dh := s.chunks[c], t.chunks[c];
             && dh.nrunsAdjac == ch.nrunsAdjac - Joint(a, [x]) - Joint([x], b) && dh.nrunsAvail == ch.nrunsAvail - 1
             && dh.ndirty == ch.ndirty - (if x.dirty then x.pages else 0) && t.ndirty == s.ndirty + dh.ndirty - ch.ndirty
    ensures Moved(s, t, c) && Kept(t, c, a + [Taken(x)] + b)
  {
    hide FreeCount, Adjacent, DirtyPages, NoTwins, Joint, Tiles;
    Around(a, x, b, lo, hi);
    assert !FreeAt(a, x.pages, x.start) && !FreeAt(b, x.pages, x.start);
    hide FreeAt;
    Middle(a, x, b);
    Hole(a, [Taken(x)], b);
  }

  // ---- what arena_run_split_remove relies on ----

  /** n is m with the leftover of x marked as a free run. */
  predicate LeftoverMarked(m: seq<Page>, n: seq<Page>, bins: seq<nat>, x: Run, need: nat)
    requires 1 <= need <= x.pages
  {
    && |n| == |m| && AllMarked(n, bins, Leftover(x, need))
    && forall k :: 0 <= k < |m| && !(x.start + need <= k < x.start + x.pages) ==> n[k] == m[k]
  }

  /** A free run of a chunk in play can be made unavailable. */
  lemma FreeRunFacts(g: Geometry, s: State, c: nat, a: seq<Run>, x: Run, b: seq<Run>)
    requires Valid(g, s) && Playing(s, c) && Runs(g, s.chunks[c]) == a + [x] + b && x.use.Free?
    ensures var m := s.chunks[c].pageMap;
            && |m| == g.pages && Usable(g) && Kept(s, c, a + [x] + b) && NoTwins(a + [x] + b)
            && Tiles(a + [x] + b, g.bias, |m|) && AllMarked(m, g.bins, a + [x] + b) && s.chunks[c].ndirty <= s.ndirty
            && x.pages >= 1 && x.start + x.pages <= |m| && m[x.start].size == x.pages
            && m[x.start].dirty == m[x.start + x.pages - 1].dirty == x.dirty
            && Announces(m, x) && Flanked(m, true, true, a, x, b)
  {
    hide Tiles, NoTwins, Kept, DirtySum, ActiveSum;
    assert ChunkOk(g, s, c);
    DirtySumUpdate(s.chunks, c, s.chunks[c]);
    var m := s.chunks[c].pageMap;
    assert x in a + [x] + b && Marks(m, g.bins, x);
    MarkedFlanks(m, g.bins, g.bias, a, x, b);
  }

  lemma LeftoverFacts(g: Geometry, s: State, t: State, c: nat, a: seq<Run>, x: Run, b: seq<Run>,
                      m: seq<Page>, n: seq<Page>, need: nat)
    requires Usable(g) && c < |t.chunks| && t.chunks[c].pageMap == m && |m| == |n| == g.pages
    requires Kept(t, c, a + [Taken(x)] + b) && x.use.Free? && 1 <= need < x.pages
    requires NoTwins(a + [x] + b) && Tiles(a + [x] + b, g.bias, |m|) && AllMarked(m, g.bins, a + [x] + b)
    requires var first, last := x.start + need, x.start + x.pages - 1;
             && last < |m| && !n[first].alloc && !n[first].large && !n[last].alloc && !n[last].large
             && n[first].size == n[last].size == x.pages - need && n[first].dirty == n[last].dirty == x.dirty
             && forall k :: 0 <= k < |m| && k != first && k != last ==> n[k] == m[k]
    ensures var y, rest := Run(x.start, need, Large, x.dirty), Run(x.start + need, x.pages - need, Free, x.dirty);
            && Kept(WithMap(t, c, n), c, (a + [y]) + [Taken(rest)] + b) && Moved(t, WithMap(t, c, n), c)
            && Tiles((a + [y]) + [rest] + b, g.bias, g.pages) && NoTwins((a + [y]) + [rest] + b)
            && Announces(n, rest) && Flanked(n, false, true, a + [y], rest, b) && NoneFree([Taken(rest)])
            && LeftoverMarked(m, n, g.bins, x, need)
            && Carved(a, x, b, need, Large) == (a + [y]) + [rest] + b
  {
    hide Tiles, NoTwins, Kept, Carved, Moved, FreeCount, DirtyPages, ActivePages, Adjacent, FreeAt, Usable;
    var y, rest := Run(x.start, need, Large, x.dirty), Run(x.start + need, x.pages - need, Free, x.dirty);
    HoleSame(t, c, a, [Taken(x)], [y, Taken(rest)], b);
    assert (a + [y]) + [Taken(rest)] + b == a + [y, Taken(rest)] + b;
    MapOnly(t, c, n, (a + [y]) + [Taken(rest)] + b);
    CarvedFits(a, x, b, need, Large, g.bias, g.pages);
    CarvedAs(a, x, b, need, Large);
    Around(a, x, b, g.bias, |m|);
    MarkedFlanks(m, g.bins, g.bias, a, x, b);
    assert Last(a + [y]) == y;
  }

  lemma NothingLeft(m: seq<Page>, bins: seq<nat>, a: seq<Run>, x: Run, b: seq<Run>, need: nat)
    requires need == x.pages >= 1
    ensures LeftoverMarked(m, m, bins, x, need) && Carved(a, x, b, need, Large) == a + [Taken(x)] + b
  {
    assert Leftover(x, need) + b == b;
  }

  // ---- what marking relies on ----

  lemma MovedLength(s: State, t: State, c: nat)
    requires c < |s.chunks| && Moved(s, t, c)
    ensures |t.chunks| == |s.chunks| && |t.chunks[c].pageMap| == |s.chunks[c].pageMap| && t.spare == s.spare
  {
  }

  function LargeMarked(m: seq<Page>, p: nat, size: nat, dirty: bool): seq<Page>
    requires 1 <= size && p + size <= |m|
  {
    var n := m[p + size - 1 := LargeSet(m[p + size - 1], 0, dirty)];
    n[p := LargeSet(n[p], size, dirty)]
  }

  lemma LargeMarks(m: seq<Page>, bins: seq<nat>, p: nat, size: nat, dirty: bool)
    requires 1 <= size && p + size <= |m|
    ensures var n := LargeMarked(m, p, size, dirty);
            && Marks(n, bins, Run(p, size, Large, dirty)) && |n| == |m|
            && forall k :: 0 <= k < |m| && !(p <= k < p + size) ==> n[k] == m[k]
  {
  }

  lemma SmallMarks(n: seq<Page>, bins: seq<nat>, p: nat, size: nat, bin: nat, dirty: bool)
    requires 1 <= size && p + size <= |n| && bin < |bins| && bins[bin] == size
    requires n[p].dirty == n[p + size - 1].dirty == dirty
    requires forall k :: p <= k < p + size ==> n[k].alloc && !n[k].large && n[k].bin == bin && n[k].size == k - p
    ensures Marks(n, bins, Run(p, size, Small(bin), dirty))
  {
  }

  /** After a split, with the new run marked, all is right again. */
  lemma SplitSettled(g: Geometry, s: State, t: State, c: nat, n: seq<Page>,
                     a: seq<Run>, x: Run, b: seq<Run>, need: nat, use: Use)
    requires Valid(g, s) && Playing(s, c) && Runs(g, s.chunks[c]) == a + [x] + b
    requires x.use.Free? && !use.Free? && 1 <= need <= x.pages && Moved(s, t, c) && t.nactive == s.nactive + need
    requires LeftoverMarked(s.chunks[c].pageMap, t.chunks[c].pageMap, g.bins, x, need)
    requires Kept(t, c, Carved(a, x, b, need, Large))
    requires var m, y := t.chunks[c].pageMap, Run(x.start, need, use, x.dirty);
             && |n| == |m| && Marks(n, g.bins, y)
             && forall k :: 0 <= k < |m| && !(x.start <= k < x.start + need) ==> n[k] == m[k]
    ensures var u := WithMap(t, c, n);
            && Valid(g, u) && Playing(u, c) && Moved(s, u, c) && Runs(g, u.chunks[c]) == Carved(a, x, b, need, use)
            && Exchanged(g, s, u, c, {}, {Run(x.start, need, use, x.dirty)})
            && !Owned(g, s, c, Run(x.start, need, use, x.dirty))
            && u.ndirty + (if x.dirty then need else 0) == s.ndirty
  {
    hide Valid, Kept, Moved, Tiles, NoTwins, Marks, Announces, Flanked, Carved, Usable, ActivePages, DirtyPages,
         Exchanged, RunsFrom,
         Sound;
    MovedLength(s, t, c);
    var u := WithMap(t, c, n);
    var y, rest := Run(x.start, need, use, x.dirty), Leftover(x, need);
    FreeRunFacts(g, s, c, a, x, b);
    CarvedFits(a, x, b, need, use, g.bias, g.pages);
    CarvedAs(a, x, b, need, use);
    var m := s.chunks[c].pageMap;
    Around(a, x, b, g.bias, |m|);
    forall r | r in [y] + rest ensures Marks(n, g.bins, r) {
      if r != y { MarksFrame(t.chunks[c].pageMap, n, g.bins, r); }
    }
    Remarked(m, n, g.bins, g.bias, a, [x], [y] + rest, b, x.start, x.start + x.pages);
    assert Kept(u, c, Carved(a, x, b, need, use)) by {
      CarvedUnfold(a, x, b, need, use);
      CarvedUnfold(a, x, b, need, Large);
      HoleSame(t, c, a, [Run(x.start, need, Large, x.dirty)], [y], rest + b);
      MapOnly(t, c, n, Carved(a, x, b, need, use));
    }
    MapMoved(s, t, c, n);
    Settled(g, s, u, c);
    DirtyKnown(s, u, c, a + [x] + b, Carved(a, x, b, need, use));
    assert forall r :: Owned(g, u, c, r) <==> Owned(g, s, c, r) || r == y;
    MovedExchanged(g, s, u, c, {}, {y});
  }

  lemma CarvedUnfold(a: seq<Run>, x: Run, b: seq<Run>, need: nat, use: Use)
    requires 1 <= need <= x.pages
    ensures Carved(a, x, b, need, use) == a + [Run(x.start, need, use, x.dirty)] + (Leftover(x, need) + b)
  {
  }

  lemma MapMoved(s: State, t: State, c: nat, n: seq<Page>)
    requires c < |s.chunks| && Moved(s, t, c) && |n| == |t.chunks[c].pageMap|
    ensures Moved(s, WithMap(t, c, n), c)
  {
  }

  /** An allocated run of a chunk in play */
  lemma UsedRunFacts(g: Geometry, s: State, c: nat, a: seq<Run>, x: Run, b: seq<Run>)
    requires Valid(g, s) && Playing(s, c) && Runs(g, s.chunks[c]) == a + [x] + b && !x.use.Free?
    ensures var m := s.chunks[c].pageMap;
            && |m| == g.pages && Usable(g) && Kept(s, c, a + [x] + b) && NoTwins(a + [x] + b)
            && Tiles(a + [x] + b, g.bias, |m|) && AllMarked(m, g.bins, a + [x] + b) && s.chunks[c].ndirty <= s.ndirty
            && x.pages >= 1 && x.start + x.pages <= |m| && Marks(m, g.bins, x)
            && m[x.start].dirty == m[x.start + x.pages - 1].dirty == x.dirty
            && x.pages <= s.nactive
  {
    hide Tiles, NoTwins, Kept, DirtySum, ActiveSum, RunsFrom, ActivePages;
    assert ChunkOk(g, s, c);
    DirtySumUpdate(s.chunks, c, s.chunks[c]);
    ActiveSumUpdate(g, s.chunks, c, s.chunks[c]);
    ActiveThree(a, [x], b);
    OneActive(x);
    assert x in a + [x] + b && Marks(s.chunks[c].pageMap, g.bins, x);
  }

  lemma OneActive(x: Run)
    ensures ActivePages([x]) == if x.use.Free? then 0 else x.pages
  {
    assert [x][1..] == [];
  }

  /** Allocated runs marked as other allocated runs over the same pages */
  lemma RemarkedUsed(g: Geometry, s: State, c: nat, n: seq<Page>, a: seq<Run>, xs: seq<Run>, ys: seq<Run>, b: seq<Run>)
    requires Valid(g, s) && Playing(s, c) && Runs(g, s.chunks[c]) == a + xs + b
    requires xs != [] && NoneFree(xs) && ys != [] && NoneFree(ys)
    requires Tiles(ys, xs[0].start, End(xs, 0)) && AllMarked(n, g.bins, ys)
    requires var m := s.chunks[c].pageMap;
             |n| == |m| && forall k :: 0 <= k < |m| && !(xs[0].start <= k < End(xs, 0)) ==> n[k] == m[k]
    ensures var u := WithMap(s, c, n);
            && Valid(g, u) && Playing(u, c) && Moved(s, u, c) && Runs(g, u.chunks[c]) == a + ys + b
            && Exchanged(g, s, u, c, Members(xs) - Members(ys), Members(ys))
  {
    hide Valid, Kept, Moved, Tiles, NoTwins, Marks, Usable, ActivePages, Exchanged, RunsFrom, Sound;
    var u := WithMap(s, c, n);
    var m := s.chunks[c].pageMap;
    InPlayFacts(g, s, c);
    var from, to := xs[0].start, End(xs, 0);
    TilesThree(a, xs, b, g.bias, |m|);
    Remarked(m, n, g.bins, g.bias, a, xs, ys, b, from, to);
    HoleSame(s, c, a, xs, ys, b);
    MapOnly(s, c, n, a + ys + b);
    Hole(a, xs, b);
    Hole(a, ys, b);
    ActiveThree(a, xs, b);
    ActiveThree(a, ys, b);
    UsedActive(xs, from, to);
    UsedActive(ys, from, to);
    Settled(g, s, u, c);
    UsedExchanged(g, s, u, c, a, xs, ys, b);
  }

  ghost function Members(rs: seq<Run>): set<Run> {
    set r | r in rs
  }

  lemma UsedExchanged(g: Geometry, s: State, u: State, c: nat, a: seq<Run>, xs: seq<Run>, ys: seq<Run>, b: seq<Run>)
    requires c < |s.chunks| && Moved(s, u, c) && Runs(g, s.chunks[c]) == a + xs + b && Runs(g, u.chunks[c]) == a + ys + b
    requires NoneFree(xs) && NoneFree(ys)
    requires Tiles(a + xs + b, g.bias, g.pages) && Tiles(a + ys + b, g.bias, g.pages)
    ensures Exchanged(g, s, u, c, Members(xs) - Members(ys), Members(ys))
  {
    hide Runs, Exchanged, Tiles, Moved;
    MovedLength(s, u, c);
    Disjoint(a, xs, b, g.bias, g.pages);
    MovedExchanged(g, s, u, c, Members(xs) - Members(ys), Members(ys));
  }

  /** A tiling has no run twice. */
  lemma Disjoint(a: seq<Run>, xs: seq<Run>, b: seq<Run>, lo: nat, hi: nat)
    requires Tiles(a + xs + b, lo, hi)
    ensures forall r :: r in xs ==> r !in a && r !in b
  {
    TilesSplit(a + xs, b, lo, hi);
    TilesSplit(a, xs, lo, End(a + xs, lo));
    TilesWithin(a, lo, End(a, lo));
    TilesWithin(xs, End(a, lo), End(a + xs, lo));
    TilesWithin(b, End(a + xs, lo), hi);
  }

  lemma TilesThree(a: seq<Run>, xs: seq<Run>, b: seq<Run>, lo: nat, hi: nat)
    requires Tiles(a + xs + b, lo, hi) && xs != []
    ensures Tiles(a, lo, xs[0].start) && Tiles(xs, xs[0].start, End(xs, 0)) && Tiles(b, End(xs, 0), hi)
  {
    TilesSplit(a + xs, b, lo, hi);
    TilesSplit(a, xs, lo, End(a + xs, lo));
    assert Last(a + xs) == Last(xs);
  }

  lemma {:induction false} UsedActive(rs: seq<Run>, lo: nat, hi: nat)
    requires Tiles(rs, lo, hi) && NoneFree(rs)
    ensures lo <= hi && ActivePages(rs) == hi - lo
    decreases |rs|
  {
    if rs != [] {
      assert rs[0] in rs;
      forall r | r in rs[1..] ensures !r.use.Free? { assert r in rs; }
      UsedActive(rs[1..], lo + rs[0].pages, hi);
    }
  }

  lemma InPlayFacts(g: Geometry, s: State, c: nat)
    requires Valid(g, s) && Playing(s, c)
    ensures var ch := s.chunks[c]; var rs := Runs(g, ch);
            && |ch.pageMap| == g.pages && Usable(g) && Kept(s, c, rs) && NoTwins(rs)
            && Tiles(rs, g.bias, g.pages) && AllMarked(ch.pageMap, g.bins, rs) && ch.ndirty <= s.ndirty
  {
    hide Tiles, NoTwins, Kept, DirtySum, ActiveSum;
    assert ChunkOk(g, s, c);
    DirtySumUpdate(s.chunks, c, s.chunks[c]);
  }

  // ---- what taking chunks in and out of play relies on ----

  lemma ValidGeometry(g: Geometry, s: State)
    requires Valid(g, s)
    ensures Usable(g) && KeysInRange(s)
  {
  }

  lemma BestFitIn(chunks: seq<Chunk>, among: set<AvailKey>, size: nat, k: AvailKey)
    requires forall j :: j in among ==> j.chunk < |chunks|
    requires BestFit(chunks, among, size, k)
    ensures k in among && size <= k.pages
  {
  }

  /** A map whose first and last entries tell of one free run throughout */
  lemma WholeRun(m: seq<Page>, bins: seq<nat>, lo: nat)
    requires lo < |m| && m[|m| - 1] == UnallocatedSet(|m| - lo, false, m[|m| - 1].unzeroed)
    requires m[lo] == UnallocatedSet(|m| - lo, false, m[lo].unzeroed)
    ensures RunsFrom(m, bins, lo) == [Run(lo, |m| - lo, Free, false)] && Sound(m, bins, lo)
    ensures NoTwins(RunsFrom(m, bins, lo))
  {
    var rs := [Run(lo, |m| - lo, Free, false)];
    assert rs[1..] == [];
    RunsUnique(m, bins, lo, rs);
  }

  lemma MovedMaps(s: State, t: State, c: nat)
    requires c < |s.chunks| && Moved(s, t, c)
    ensures |t.chunks| == |s.chunks|
    ensures forall o :: 0 <= o < |s.chunks| ==>
            t.chunks[o].base == s.chunks[o].base && t.chunks[o].mapped == s.chunks[o].mapped
    ensures forall o :: 0 <= o < |s.chunks| && o != c ==> t.chunks[o] == s.chunks[o]
  {
  }

  lemma IdleFacts(g: Geometry, s: State, c: nat) returns (x: Run)
    requires ValidBut(g, s, c)
    ensures Playing(s, c) && Usable(g) && |s.chunks[c].pageMap| == g.pages
    ensures Runs(g, s.chunks[c]) == [x] && x == Whole(g, x.dirty)
    ensures Kept(s, c, [] + [Taken(x)] + []) && NoneFree([Taken(x)])
    ensures Tiles([] + [x] + [], g.bias, g.pages) && NoTwins([] + [x] + [])
    ensures Announces(s.chunks[c].pageMap, x) && Flanked(s.chunks[c].pageMap, false, false, [], x, [])
  {
    hide RunsFrom, NoTwins, DirtySum, ActiveSum;
    var rs := Runs(g, s.chunks[c]);
    x := rs[0];
    assert rs == [x] == [] + [x] + [] && [x][1..] == [];
    assert x in rs && Marks(s.chunks[c].pageMap, g.bins, x);
    assert Tiles(rs, g.bias, g.pages) && Tiles(rs[1..], g.bias + x.pages, g.pages);
    assert NoTwins(rs);
    Hole([], [Taken(x)], []);
    NothingFree();
  }

  lemma Alone(m: seq<Page>, x: Run)
    ensures Flanked(m, false, false, [], x, [])
  {
  }

  lemma NothingKept(t: State, c: nat, x: Run)
    requires c < |t.chunks| && Kept(t, c, [] + [Taken(x)] + [])
    ensures Kept(t, c, [])
  {
    Hole([], [Taken(x)], []);
    NothingFree();
  }

  lemma SpareInRange(g: Geometry, s: State, c: nat)
    requires ValidBut(g, s, c)
    ensures s.spare.Some? ==> s.spare.value < |s.chunks|
  {
  }

  lemma NothingDirty(s: State, t: State, c: nat, rs: seq<Run>)
    requires c < |s.chunks| && Kept(s, c, rs) && Moved(s, t, c) && Kept(t, c, [])
    ensures t.ndirty + DirtyPages(rs) == s.ndirty
  {
  }

  // ---- what releasing relies on ----

  /** Chunk c's runs are a, f and b according to its page map; f is not on record as available. */
  ghost predicate Pending(g: Geometry, s: State, c: nat, a: seq<Run>, f: Run, b: seq<Run>) {
    && c < |s.chunks| && |s.chunks[c].pageMap| == g.pages && Usable(g) && f.use.Free?
    && Tiles(a + [f] + b, g.bias, g.pages) && AllMarked(s.chunks[c].pageMap, g.bins, a + [f] + b)
    && Kept(s, c, a + [Taken(f)] + b) && NoTwins(a) && NoTwins(b) && s.chunks[c].ndirty <= s.ndirty
  }

  lemma MovedNowhere(s: State, c: nat)
    requires c < |s.chunks|
    ensures Moved(s, s, c)
  {
  }

  lemma PendingFacts(g: Geometry, s: State, c: nat, a: seq<Run>, f: Run, b: seq<Run>)
    requires Pending(g, s, c, a, f, b)
    ensures c < |s.chunks| && |s.chunks[c].pageMap| == g.pages && g.bias >= 1
    ensures g.bias <= f.start && f.pages >= 1 && f.start + f.pages <= g.pages
    ensures var m := s.chunks[c].pageMap;
            && (b == [] <==> f.start + f.pages == g.pages) && (a == [] <==> f.start == g.bias)
            && (b != [] ==> Shows(m[f.start + f.pages], b[0])) && (a != [] ==> Shows(m[f.start - 1], Last(a)))
  {
    hide Tiles, NoTwins, Kept;
    Around(a, f, b, g.bias, g.pages);
    MarkedFlanks(s.chunks[c].pageMap, g.bins, g.bias, a, f, b);
  }

  /** The free run behind f can be made unavailable. */
  lemma FollowerFacts(g: Geometry, s: State, c: nat, a: seq<Run>, f: Run, b: seq<Run>)
    requires Pending(g, s, c, a, f, b) && b != [] && Twins(f, b[0])
    ensures c < |s.chunks| && |s.chunks[c].pageMap| == g.pages && Usable(g) && s.chunks[c].ndirty <= s.ndirty
    ensures var m, x := s.chunks[c].pageMap, b[0];
            && Kept(s, c, (a + [Taken(f)]) + [x] + b[1..])
            && Tiles((a + [Taken(f)]) + [x] + b[1..], g.bias, g.pages) && NoTwins((a + [Taken(f)]) + [x] + b[1..])
            && x.start == f.start + f.pages && x.pages >= 1 && x.start + x.pages <= g.pages
            && m[x.start].size == x.pages && m[x.start + x.pages - 1].size == x.pages
            && m[x.start + x.pages - 1].dirty == x.dirty
            && Announces(m, x) && Flanked(m, false, true, a + [Taken(f)], x, b[1..])
  {
    hide Tiles, NoTwins, Kept, FreeCount, DirtyPages, Adjacent, FreeAt;
    var m, x := s.chunks[c].pageMap, b[0];
    assert (a + [Taken(f)]) + [x] + b[1..] == a + [Taken(f)] + b;
    assert (a + [f]) + [x] + b[1..] == a + [f] + b;
    Retile(a, f, Taken(f), b, g.bias, g.pages);
    Hole(a, [Taken(f)], b);
    Around(a, f, b, g.bias, g.pages);
    Around(a + [f], x, b[1..], g.bias, g.pages);
    assert x in a + [f] + b && Marks(m, g.bins, x);
    MarkedFlanks(m, g.bins, g.bias, a + [f], x, b[1..]);
    assert Last(a + [Taken(f)]) == Taken(f);
  }

  lemma Retile(a: seq<Run>, f: Run, f': Run, b: seq<Run>, lo: nat, hi: nat)
    requires Tiles(a + [f] + b, lo, hi) && f'.start == f.start && f'.pages == f.pages
    ensures Tiles(a + [f'] + b, lo, hi)
  {
    Around(a, f, b, lo, hi);
    assert [f'][1..] == [];
    TilesJoin(a, [f'], lo, f.start, f.start + f.pages);
    TilesJoin(a + [f'], b, lo, f.start + f.pages, hi);
  }

  /** The run behind f is part of it now. */
  lemma ForwardDone(g: Geometry, s: State, t: State, c: nat, n: seq<Page>, a: seq<Run>, f: Run, b: seq<Run>)
    requires Pending(g, s, c, a, f, b) && b != [] && Twins(f, b[0]) && Moved(s, t, c)
    requires t.chunks[c].pageMap == s.chunks[c].pageMap && Kept(t, c, (a + [Taken(f)]) + [Taken(b[0])] + b[1..])
    requires var m, p, q := s.chunks[c].pageMap, f.start, f.start + f.pages + b[0].pages - 1;
             && q < |m| && p < q && n == m[p := m[p].(size := q - p + 1)][q := m[q].(size := q - p + 1)]
    ensures var h := f.(pages := f.pages + b[0].pages);
            JoinedForward(f, b) == (h, b[1..]) && Moved(s, WithMap(t, c, n), c) &&
                Pending(g, WithMap(t, c, n), c, a, h, b[1..])
  {
    hide Tiles, NoTwins, Kept, Moved, Marks, Usable;
    var m, x, h := s.chunks[c].pageMap, b[0], f.(pages := f.pages + b[0].pages);
    MovedLength(s, t, c);
    assert (a + [f]) + [x] + b[1..] == a + [f] + b == a + [f, x] + b[1..];
    assert Marks(n, g.bins, h) by {
      assert Marks(m, g.bins, f) && Marks(m, g.bins, x);
      Around(a, f, b, g.bias, g.pages);
      JoinedMarks(m, n, g.bins, f, x);
    }
    JoinedTiles(a, f, x, b[1..], g.bias, g.pages);
    JoinedElsewhere(m, n, g.bins, a, f, x, b[1..], g.bias, h);
    assert NoTwins(b[1..]) by { TailApart(b); }
    assert (a + [Taken(f)]) + [Taken(x)] + b[1..] == a + [Taken(f), Taken(x)] + b[1..];
    HoleSame(t, c, a, [Taken(f), Taken(x)], [Taken(h)], b[1..]);
    MapOnly(t, c, n, a + [Taken(h)] + b[1..]);
    MapMoved(s, t, c, n);
    assert t.chunks[c].ndirty <= t.ndirty by { MovedDirty(s, t, c); }
  }

  lemma MovedDirty(s: State, t: State, c: nat)
    requires c < |s.chunks| && Moved(s, t, c) && s.chunks[c].ndirty <= s.ndirty
    ensures t.chunks[c].ndirty <= t.ndirty
  {
  }

  lemma TailApart(b: seq<Run>)
    requires b != [] && NoTwins(b)
    ensures NoTwins(b[1..])
  {
  }

  lemma FrontApart(a: seq<Run>)
    requires a != [] && NoTwins(a)
    ensures NoTwins(a[..|a| - 1])
  {
    assert a == a[..|a| - 1] + [Last(a)];
    Concat(a[..|a| - 1], [Last(a)]);
  }

  lemma JoinedTiles(a: seq<Run>, f: Run, x: Run, b: seq<Run>, lo: nat, hi: nat)
    requires Tiles(a + [f, x] + b, lo, hi)
    ensures Tiles(a + [Run(f.start, f.pages + x.pages, Free, f.dirty)] + b, lo, hi) && x.start == f.start + f.pages
    ensures Tiles(a, lo, f.start) && Tiles(b, x.start + x.pages, hi)
  {
    assert (a + [f]) + [x] + b == a + [f, x] + b;
    Around(a + [f], x, b, lo, hi);
    assert a + [f] == a + [f] + [];
    Around(a, f, [], lo, x.start);
    var h := Run(f.start, f.pages + x.pages, Free, f.dirty);
    assert [h][1..] == [];
    TilesJoin(a, [h], lo, f.start, x.start + x.pages);
    TilesJoin(a + [h], b, lo, x.start + x.pages, hi);
  }

  lemma JoinedMarks(m: seq<Page>, n: seq<Page>, bins: seq<nat>, f: Run, x: Run)
    requires Marks(m, bins, f) && Marks(m, bins, x) && Twins(f, x) && x.start == f.start + f.pages
    requires var p, q := f.start, x.start + x.pages - 1;
             n == m[p := m[p].(size := q - p + 1)][q := m[q].(size := q - p + 1)]
    ensures Marks(n, bins, Run(f.start, f.pages + x.pages, Free, f.dirty))
  {
  }

  lemma JoinedElsewhere(m: seq<Page>, n: seq<Page>, bins: seq<nat>, a: seq<Run>, f: Run, x: Run, b: seq<Run>, lo: nat,
                        h: Run)
    requires |n| == |m| && f.start <= |m| && Tiles(a, lo, f.start) && Tiles(b, x.start + x.pages, |m|)
    requires AllMarked(m, bins, a + [f, x] + b) && Marks(n, bins, h)
    requires forall k :: 0 <= k < |m| && !(f.start <= k < x.start + x.pages) ==> n[k] == m[k]
    ensures AllMarked(n, bins, a + [h] + b)
  {
    hide Tiles, Marks;
    TilesWithin(a, lo, f.start);
    TilesWithin(b, x.start + x.pages, |m|);
    forall r | r in a + [h] + b ensures Marks(n, bins, r) {
      if r in a || r in b {
        assert r in a + [f, x] + b;
        assert r.start + r.pages <= f.start || x.start + x.pages <= r.start;
        MarksFrame(m, n, bins, r);
      }
    }
  }

  /** The free run before f can be made unavailable. */
  lemma LeaderFacts(g: Geometry, s: State, c: nat, a: seq<Run>, f: Run, b: seq<Run>)
    requires Pending(g, s, c, a, f, b) && a != [] && Twins(Last(a), f)
    ensures c < |s.chunks| && |s.chunks[c].pageMap| == g.pages && Usable(g) && s.chunks[c].ndirty <= s.ndirty
    ensures var m, x, front := s.chunks[c].pageMap, Last(a), a[..|a| - 1];
            && Kept(s, c, front + [x] + ([Taken(f)] + b))
            && Tiles(front + [x] + ([Taken(f)] + b), g.bias, g.pages) && NoTwins(front + [x] + ([Taken(f)] + b))
            && x.start + x.pages == f.start && x.pages >= 1 && f.start <= g.pages
            && m[x.start].size == x.pages && m[f.start - 1].size == x.pages && m[x.start].dirty == x.dirty
            && Announces(m, x) && Flanked(m, true, false, front, x, [Taken(f)] + b)
  {
    hide Tiles, NoTwins, Kept, FreeCount, DirtyPages, Adjacent, FreeAt;
    var m, x, front := s.chunks[c].pageMap, Last(a), a[..|a| - 1];
    assert front + [x] + ([Taken(f)] + b) == a + [Taken(f)] + b;
    assert front + [x] + ([f] + b) == a + [f] + b;
    Retile(a, f, Taken(f), b, g.bias, g.pages);
    Hole(a, [Taken(f)], b);
    Around(a, f, b, g.bias, g.pages);
    Around(front, x, [f] + b, g.bias, g.pages);
    assert x in a + [f] + b && Marks(m, g.bins, x);
    MarkedFlanks(m, g.bins, g.bias, front, x, [f] + b);
    assert Last([x]) == x;
  }

  lemma BackwardDone(g: Geometry, s: State, t: State, c: nat, n: seq<Page>, a: seq<Run>, f: Run, b: seq<Run>)
    requires Pending(g, s, c, a, f, b) && a != [] && Twins(Last(a), f) && Moved(s, t, c)
    requires t.chunks[c].pageMap == s.chunks[c].pageMap
    requires Kept(t, c, a[..|a| - 1] + [Taken(Last(a))] + ([Taken(f)] + b))
    requires var m, p, q := s.chunks[c].pageMap, Last(a).start, f.start + f.pages - 1;
             && q < |m| && p < q && n == m[p := m[p].(size := q - p + 1)][q := m[q].(size := q - p + 1)]
    ensures var h := Run(Last(a).start, Last(a).pages + f.pages, Free, f.dirty);
            && JoinedBackward(a, f) == (a[..|a| - 1], h)
            && Moved(s, WithMap(t, c, n), c) && Pending(g, WithMap(t, c, n), c, a[..|a| - 1], h, b)
  {
    hide Tiles, NoTwins, Kept, Moved, Marks, Usable;
    var m, x, front := s.chunks[c].pageMap, Last(a), a[..|a| - 1];
    var h := Run(x.start, x.pages + f.pages, Free, f.dirty);
    MovedLength(s, t, c);
    assert a + [f] + b == front + [x, f] + b;
    JoinedTiles(front, x, f, b, g.bias, g.pages);
    assert Marks(n, g.bins, h) by {
      assert x in a + [f] + b && f in a + [f] + b;
      assert Marks(m, g.bins, f) && Marks(m, g.bins, x);
      JoinedMarks(m, n, g.bins, x, f);
    }
    JoinedElsewhere(m, n, g.bins, front, x, f, b, g.bias, h);
    FrontApart(a);
    assert front + [Taken(x)] + ([Taken(f)] + b) == front + [Taken(x), Taken(f)] + b;
    HoleSame(t, c, front, [Taken(x), Taken(f)], [Taken(h)], b);
    MapOnly(t, c, n, front + [Taken(h)] + b);
    MapMoved(s, t, c, n);
    assert t.chunks[c].ndirty <= t.ndirty by { MovedDirty(s, t, c); }
  }

  /** With the entries of x rewritten, x is a free run not yet on record. */
  lemma ReleaseStarts(g: Geometry, s: State, t: State, c: nat, n: seq<Page>, a: seq<Run>, x: Run, b: seq<Run>, f: Run)
    requires Valid(g, s) && Playing(s, c) && Runs(g, s.chunks[c]) == a + [x] + b && !x.use.Free?
    requires f.use.Free? && f.start == x.start && f.pages == x.pages && t == WithMap(s.(nactive := t.nactive), c, n)
    requires var m, p, q := s.chunks[c].pageMap, x.start, x.start + x.pages - 1;
             && |n| == |m| && q < |m| && x.pages >= 1
             && !n[p].alloc && !n[p].large && n[p].size == x.pages && n[p].dirty == f.dirty
             && !n[q].alloc && !n[q].large && n[q].size == x.pages && n[q].dirty == f.dirty
             && forall k :: 0 <= k < |m| && k != p && k != q ==> n[k] == m[k]
    ensures Moved(s, t, c) && Pending(g, t, c, a, f, b) && NoTwins(a) && NoTwins(b)
  {
    hide Tiles, NoTwins, Kept, Valid, Usable, FreeCount, DirtyPages, Adjacent, FreeAt;
    UsedRunFacts(g, s, c, a, x, b);
    MovedNowhere(s, c);
    HoleSame(s, c, a, [x], [Taken(f)], b);
    Hole(a, [x], b);
    ActiveOnly(s, s, c, a + [Taken(f)] + b, t.nactive);
    var s' := s.(nactive := t.nactive);
    MapOnly(s', c, n, a + [Taken(f)] + b);
    MovedTwice(s, s', t, c);
    Retile(a, x, f, b, g.bias, g.pages);
    Around(a, x, b, g.bias, g.pages);
    var m := s.chunks[c].pageMap;
    forall r | r in a + [f] + b ensures Marks(n, g.bins, r) {
      if r in a || r in b {
        assert r in a + [x] + b;
        MarksFrame(m, n, g.bins, r);
      }
    }
  }

  lemma JoinedFields(f: Run, b: seq<Run>, start: nat, n: nat, dirty: bool)
    requires f.use.Free? && f.start == start && f.dirty == dirty && n == JoinedForward(f, b).0.pages
    ensures JoinedForward(f, b).0 == Run(start, n, Free, dirty)
  {
  }

  /** Joined on both sides, the run can be put on record. */
  lemma PendingDone(g: Geometry, v: State, c: nat, a: seq<Run>, f: Run, b: seq<Run>)
    requires f.use.Free? && NoTwins(a) && NoTwins(b)
    requires var (h, rest) := JoinedForward(f, b); var (front, k) := JoinedBackward(a, h);
             Pending(g, v, c, front, k, rest)
    ensures var (h, rest) := JoinedForward(f, b); var (front, k) := JoinedBackward(a, h);
            && c < |v.chunks| && |v.chunks[c].pageMap| == g.pages && Usable(g)
            && Kept(v, c, front + [Taken(k)] + rest) && NoneFree([Taken(k)])
            && Tiles(front + [k] + rest, g.bias, g.pages) && NoTwins(front + [k] + rest) && k.use.Free?
            && Announces(v.chunks[c].pageMap, k) && Flanked(v.chunks[c].pageMap, true, true, front, k, rest)
            && Runs(g, v.chunks[c]) == front + [k] + rest && Sound(v.chunks[c].pageMap, g.bins, g.bias)
  {
    hide Tiles, NoTwins, Kept, JoinedForward, JoinedBackward, RunsFrom, Sound;
    var (h, rest) := JoinedForward(f, b);
    var (front, k) := JoinedBackward(a, h);
    JoinedForwardApart(f, b);
    JoinedBackwardApart(a, h, rest);
    var m := v.chunks[c].pageMap;
    RunsUnique(m, g.bins, g.bias, front + [k] + rest);
    assert k in front + [k] + rest && Marks(m, g.bins, k);
    MarkedFlanks(m, g.bins, g.bias, front, k, rest);
  }

  lemma ReleaseSettled(g: Geometry, s: State, t: State, u: State, v: State, w: State, c: nat,
                       a: seq<Run>, x: Run, b: seq<Run>, f: Run)
    requires Valid(g, s) && Playing(s, c) && Runs(g, s.chunks[c]) == a + [x] + b && !x.use.Free?
    requires f.use.Free? && f.pages == x.pages
    requires Moved(s, t, c) && Moved(t, u, c) && Moved(u, v, c) && Moved(v, w, c)
    requires var (h, rest) := JoinedForward(f, b); var (front, k) := JoinedBackward(a, h);
             && Runs(g, v.chunks[c]) == front + [k] + rest && Kept(w, c, front + [k] + rest)
             && NoTwins(front + [k] + rest) && Sound(v.chunks[c].pageMap, g.bins, g.bias) && k.use.Free?
    requires w.chunks[c].pageMap == v.chunks[c].pageMap && w.nactive + x.pages == s.nactive
    ensures Valid(g, w) && Playing(w, c) && Moved(s, w, c)
    ensures Runs(g, w.chunks[c]) == Runs(g, v.chunks[c])
    ensures Exchanged(g, s, w, c, {x}, {})
    ensures w.ndirty == s.ndirty + (if f.dirty then f.pages else 0)
  {
    hide Valid, Tiles, NoTwins, Kept, JoinedForward, JoinedBackward, RunsFrom, Sound, Moved, Exchanged, ActivePages,
         DirtyPages;
    MovedTwice(s, t, u, c);
    MovedTwice(s, u, v, c);
    MovedTwice(s, v, w, c);
    var (h, rest) := JoinedForward(f, b);
    var (front, k) := JoinedBackward(a, h);
    UsedRunFacts(g, s, c, a, x, b);
    JoinedCounts(a, f, b);
    ActiveThree(a, [x], b);
    OneActive(x);
    Settled(g, s, w, c);
    MovedLength(s, w, c);
    DirtyKnown(s, w, c, a + [x] + b, front + [k] + rest);
    Hole(a, [x], b);
    JoinedUsed(a, f, b);
    Disjoint(a, [x], b, g.bias, g.pages);
    assert forall r :: Owned(g, w, c, r) <==> Owned(g, s, c, r) && r !in {x};
    MovedExchanged(g, s, w, c, {x}, {});
  }

  lemma DirtyKnown(s: State, t: State, c: nat, rs: seq<Run>, rs': seq<Run>)
    requires c < |s.chunks| && Moved(s, t, c) && Kept(s, c, rs) && Kept(t, c, rs')
    ensures t.ndirty + DirtyPages(rs) == s.ndirty + DirtyPages(rs')
  {
  }

  /** Joining keeps exactly the allocated runs. */
  lemma JoinedUsed(a: seq<Run>, f: Run, b: seq<Run>)
    requires f.use.Free?
    ensures var (h, rest) := JoinedForward(f, b); var (front, k) := JoinedBackward(a, h);
            forall r :: r in front + [k] + rest && !r.use.Free? <==> (r in a || r in b) && !r.use.Free?
  {
    var (h, rest) := JoinedForward(f, b);
    var (front, k) := JoinedBackward(a, h);
    if rest != b { assert b == [b[0]] + rest; }
    if front != a { assert a == front + [Last(a)]; }
  }

  lemma ChunkFilled(a: seq<Run>, k: Run, b: seq<Run>, lo: nat, hi: nat)
    requires Tiles(a + [k] + b, lo, hi)
    ensures if k.pages + lo == hi then a + [k] + b == [k] && k.start == lo else |a + [k] + b| > 1
  {
    Around(a, k, b, lo, hi);
  }

  lemma CleanWhole(k: Run)
    ensures DirtyPages([k]) == if k.use.Free? && k.dirty then k.pages else 0
  {
    assert [k][1..] == [];
  }

  // ---- what purging relies on ----

  /** n is m but for the unzeroed flags. */
  predicate UnzeroedOnly(m: seq<Page>, n: seq<Page>) {
    |n| == |m| && forall k :: 0 <= k < |m| ==> n[k] == m[k].(unzeroed := n[k].unzeroed)
  }

  lemma UnzeroedKeeps(g: Geometry, s: State, c: nat, n: seq<Page>)
    requires Valid(g, s) && Playing(s, c) && UnzeroedOnly(s.chunks[c].pageMap, n)
    ensures var t := WithMap(s, c, n);
            Valid(g, t) && Runs(g, t.chunks[c]) == Runs(g, s.chunks[c]) && Exchanged(g, s, t, c, {}, {})
  {
    hide Valid, Kept, Moved, Tiles, NoTwins, RunsFrom, Exchanged;
    var m, t := s.chunks[c].pageMap, WithMap(s, c, n);
    var rs := Runs(g, s.chunks[c]);
    InPlayFacts(g, s, c);
    forall r | r in rs ensures Marks(n, g.bins, r) { assert Marks(m, g.bins, r); }
    RunsUnique(n, g.bins, g.bias, rs);
    MapOnly(s, c, n, rs);
    Settled(g, s, t, c);
    MovedLength(s, t, c);
    MovedExchanged(g, s, t, c, {}, {});
  }

  lemma PagesStep(rs: seq<Run>, k: nat)
    ensures Pages(rs[..0]) == 0
    ensures k < |rs| ==> Pages(rs[..k + 1]) == Pages(rs[..k]) + rs[k].pages
  {
    if k < |rs| { assert rs[..k + 1][..k] == rs[..k]; }
  }

  lemma PagesPositive(rs: seq<Run>)
    requires forall r :: r in rs ==> r.pages >= 1
    ensures rs != [] ==> Pages(rs) >= 1
  {
  }

  /** An allocated large run is marked with its size. */
  lemma OwnedMarks(g: Geometry, s: State, c: nat, r: Run)
    requires Valid(g, s) && Owned(g, s, c, r)
    ensures |s.chunks[c].pageMap| == g.pages && Marks(s.chunks[c].pageMap, g.bins, r)
  {
    assert ChunkOk(g, s, c);
  }

  lemma OwnedPlace(g: Geometry, s: State, c: nat, r: Run) returns (a: seq<Run>, b: seq<Run>)
    requires Valid(g, s) && Owned(g, s, c, r)
    ensures Playing(s, c) && Runs(g, s.chunks[c]) == a + [r] + b && !r.use.Free?
  {
    hide Runs, Valid;
    OwnedPlaying(g, s, c, r);
    var rs := Runs(g, s.chunks[c]);
    var i :| 0 <= i < |rs| && rs[i] == r;
    a, b := rs[..i], rs[i + 1..];
  }

  lemma UnstashStarts(g: Geometry, s: State, c: nat, taken: seq<Run>)
    ensures Exchanged(g, s, s, c, Members(taken[..0]), {})
  {
  }

  lemma StillOwned(g: Geometry, s: State, t: State, c: nat, taken: seq<Run>, k: nat)
    requires k < |taken| && Owned(g, s, c, taken[k]) && Exchanged(g, s, t, c, Members(taken[..k]), {})
    requires forall j, k :: 0 <= j < k < |taken| ==> taken[j] != taken[k]
    ensures Owned(g, t, c, taken[k])
  {
    hide Owned;
    assert taken[k] !in taken[..k];
  }

  lemma UnstashStep(g: Geometry, s: State, t: State, u: State, c: nat, taken: seq<Run>, k: nat)
    requires k < |taken| && Exchanged(g, s, t, c, Members(taken[..k]), {}) && Exchanged(g, t, u, c, {taken[k]}, {})
    ensures Exchanged(g, s, u, c, Members(taken[..k + 1]), {})
  {
    hide Exchanged;
    ExchangedTwice(g, s, t, u, c, Members(taken[..k]), {}, {taken[k]}, {});
    assert taken[..k + 1] == taken[..k] + [taken[k]];
    assert Members(taken[..k]) + {taken[k]} == Members(taken[..k + 1]);
    assert var none: set<Run> := {}; none - {taken[k]} + none == none;
  }

  lemma {:induction false} PickedApart(rs: seq<Run>, i: nat, all: bool, lo: nat, hi: nat)
    requires i <= |rs| && Tiles(rs, lo, hi)
    ensures var taken := PickedRuns(rs, i, all);
            && (forall j, k :: 0 <= j < k < |taken| ==> taken[j] != taken[k])
            && (forall r :: r in taken ==> r.use.Large? && r.pages >= 1 && r.start < StartOf(rs, i, hi))
  {
    hide Picked;
    if i > 0 {
      PickedApart(rs, i - 1, all, lo, hi);
      RunPlace(rs, i - 1, lo, hi);
    }
  }

  lemma RunPlace(rs: seq<Run>, j: nat, lo: nat, hi: nat)
    requires j < |rs| && Tiles(rs, lo, hi)
    ensures rs[j].pages >= 1 && rs[j].start < StartOf(rs, j + 1, hi)
    ensures forall r :: r in rs ==> r == rs[j] || r.start != rs[j].start
  {
    assert rs == rs[..j] + [rs[j]] + rs[j + 1..];
    Around(rs[..j], rs[j], rs[j + 1..], lo, hi);
    hide Tiles;
    forall r | r in rs ensures r == rs[j] || r.start != rs[j].start {
      assert r in rs[..j] || r == rs[j] || r in rs[j + 1..];
    }
  }

  lemma {:induction false} PickedNew(rs: seq<Run>, i: nat, all: bool, lo: nat, hi: nat)
    requires i <= |rs| && Tiles(rs, lo, hi)
    ensures forall r :: r in PickedRuns(rs, i, all) ==> r !in rs
  {
    if i > 0 {
      PickedNew(rs, i - 1, all, lo, hi);
      RunPlace(rs, i - 1, lo, hi);
    }
  }

  /** The stashed runs are allocated, and no two are the same. */
  lemma TakenFacts(g: Geometry, s: State, t: State, c: nat, rs: seq<Run>, all: bool, taken: seq<Run>)
    requires Tiles(rs, g.bias, g.pages) && taken == PickedRuns(rs, |rs|, all)
    requires c < |s.chunks| && rs == Runs(g, s.chunks[c])
    requires Exchanged(g, s, t, c, {}, Members(taken))
    ensures forall j, k :: 0 <= j < k < |taken| ==> taken[j] != taken[k]
    ensures forall r :: r in taken ==> r.pages >= 1 && !Owned(g, s, c, r)
    ensures forall k :: 0 <= k < |taken| ==> taken[k].use.Large? && Owned(g, t, c, taken[k])
  {
    hide Runs, PickedRuns;
    PickedApart(rs, |rs|, all, g.bias, g.pages);
    PickedNew(rs, |rs|, all, g.bias, g.pages);
    forall k | 0 <= k < |taken| ensures taken[k].use.Large? && Owned(g, t, c, taken[k]) {
      assert taken[k] in Members(taken);
    }
  }

  lemma StillTaken(g: Geometry, t: State, u: State, c: nat, taken: seq<Run>)
    requires Exchanged(g, t, u, c, {}, {}) && forall k :: 0 <= k < |taken| ==> Owned(g, t, c, taken[k])
    ensures forall k :: 0 <= k < |taken| ==> Owned(g, u, c, taken[k])
  {
    hide Owned;
  }

  lemma PurgeExchanged(g: Geometry, s: State, t: State, u: State, v: State, c: nat, taken: seq<Run>)
    requires Exchanged(g, s, t, c, {}, Members(taken)) && Exchanged(g, t, u, c, {}, {})
    requires Exchanged(g, u, v, c, Members(taken), {})
    requires forall r :: r in taken ==> !Owned(g, s, c, r)
    ensures Exchanged(g, s, v, c, {}, {})
  {
    hide Owned;
  }

  // ---- other threads, while the lock is dropped ----

  /** What other threads make of the arena, as a function of the time and of the state they find */
  type Others = (nat, State) -> State

  /** No other thread acts. */
  function Nobody(n: nat, s: State): State { s }

  ghost predicate Quiet(others: Others) {
    forall n: nat, s: State :: others(n, s) == s
  }

  /** The runs of taken are allocated in chunk c. */
  ghost predicate Holding(g: Geometry, s: State, c: nat, taken: seq<Run>) {
    c < |s.chunks| && forall k :: 0 <= k < |taken| ==> Owned(g, s, c, taken[k])
  }

  /** Whatever else the other threads do, they leave the arena right and these runs allocated. */
  ghost predicate Spares(g: Geometry, c: nat, taken: seq<Run>, others: Others) {
    forall n: nat, s: State :: Valid(g, s) && Holding(g, s, c, taken) ==>
      && Valid(g, others(n, s)) && Holding(g, others(n, s), c, taken)
      && |s.chunks| <= |others(n, s).chunks|
  }

  predicate Within(taken: seq<Run>, page: nat) {
    exists k :: 0 <= k < |taken| && taken[k].start <= page < taken[k].start + taken[k].pages
  }

  /** From s to t only unzeroed flags of pages of taken changed. */
  ghost predicate Flagged(s: State, t: State, c: nat, taken: seq<Run>) {
    && c < |s.chunks| == |t.chunks| && t == WithMap(s, c, t.chunks[c].pageMap)
    && UnzeroedOnly(s.chunks[c].pageMap, t.chunks[c].pageMap)
    && forall k :: 0 <= k < |s.chunks[c].pageMap| && t.chunks[c].pageMap[k] != s.chunks[c].pageMap[k] ==> Within(taken, k)
  }

  /** Other threads act, or this one writes unzeroed flags of the pages it has taken. */
  ghost predicate Turn(others: Others, n: nat, s: State, t: State, c: nat, taken: seq<Run>) {
    t == others(n, s) || Flagged(s, t, c, taken)
  }

  /** The states gone through while the lock is dropped */
  ghost predicate Interleaved(others: Others, trace: seq<State>, c: nat, taken: seq<Run>) {
    trace != [] && forall i :: 0 < i < |trace| ==> Turn(others, i, trace[i - 1], trace[i], c, taken)
  }

  function Final(trace: seq<State>): State
    requires trace != []
  {
    trace[|trace| - 1]
  }

  lemma OneTurn(others: Others, trace: seq<State>, t: State, c: nat, taken: seq<Run>)
    requires Interleaved(others, trace, c, taken) && Turn(others, |trace|, Final(trace), t, c, taken)
    ensures Interleaved(others, trace + [t], c, taken)
  {
    hide Turn;
    var more := trace + [t];
    forall i | 0 < i < |more| ensures Turn(others, i, more[i - 1], more[i], c, taken) {
      if i < |trace| { assert more[i - 1] == trace[i - 1] && more[i] == trace[i]; }
    }
  }

  /** Without other threads only unzeroed flags change. */
  lemma {:induction false} QuietTrace(g: Geometry, others: Others, trace: seq<State>, c: nat, taken: seq<Run>)
    requires Quiet(others) && Interleaved(others, trace, c, taken) && c < |trace[0].chunks|
    ensures c < |Final(trace).chunks| && Final(trace) == WithMap(trace[0], c, Final(trace).chunks[c].pageMap)
    ensures UnzeroedOnly(trace[0].chunks[c].pageMap, Final(trace).chunks[c].pageMap)
    decreases |trace|
  {
    if |trace| > 1 {
      var less := trace[..|trace| - 1];
      QuietTrace(g, others, less, c, taken);
      assert Turn(others, |less|, Final(less), Final(trace), c, taken);
    }
  }

  lemma TraceStarts(others: Others, s: State, c: nat, taken: seq<Run>)
    ensures Interleaved(others, [s], c, taken)
  {
  }

  lemma HoldingMarks(g: Geometry, s: State, c: nat, taken: seq<Run>, k: nat)
    requires Valid(g, s) && Holding(g, s, c, taken) && k < |taken| && taken[k].use.Large?
    ensures c < |s.chunks| && taken[k].start < |s.chunks[c].pageMap| == g.pages
    ensures s.chunks[c].pageMap[taken[k].start].size == taken[k].pages && taken[k].start + taken[k].pages <= g.pages
  {
    hide Valid;
    OwnedMarks(g, s, c, taken[k]);
  }

  lemma SparesOnce(g: Geometry, s: State, c: nat, taken: seq<Run>, others: Others, n: nat)
    requires Spares(g, c, taken, others) && Valid(g, s) && Holding(g, s, c, taken)
    ensures var t := others(n, s); Valid(g, t) && Holding(g, t, c, taken) && |s.chunks| <= |t.chunks|
  {
  }

  lemma NobodySpares(g: Geometry, c: nat, taken: seq<Run>)
    ensures Quiet(Nobody) && Spares(g, c, taken, Nobody)
  {
  }

  /** One flag of a taken run is written. */
  lemma FlagStep(g: Geometry, s: State, c: nat, taken: seq<Run>, k: nat, page: nat, unzeroed: bool)
    requires Valid(g, s) && Holding(g, s, c, taken) && k < |taken|
    requires taken[k].start <= page < taken[k].start + taken[k].pages <= |s.chunks[c].pageMap|
    ensures var m := s.chunks[c].pageMap; var t := WithMap(s, c, m[page := m[page].(unzeroed := unzeroed)]);
            Valid(g, t) && Holding(g, t, c, taken) && Flagged(s, t, c, taken)
  {
    hide Valid, Owned, Exchanged;
    var m := s.chunks[c].pageMap;
    var n := m[page := m[page].(unzeroed := unzeroed)];
    OwnedPlaying(g, s, c, taken[k]);
    UnzeroedKeeps(g, s, c, n);
    StillTaken(g, s, WithMap(s, c, n), c, taken);
    assert Within(taken, page);
  }

  lemma NothingExchanged(g: Geometry, s: State)
    ensures forall c: nat :: Exchanged(g, s, s, c, {}, {})
  {
  }

  lemma AllClean(g: Geometry, s: State)
    requires Valid(g, s) && forall k :: k in s.chunksDirty ==> false
    ensures s.ndirty == 0
  {
    assert s.chunksDirty == {};
    NoneDirty(g, s, |s.chunks|);
    assert s.chunks[..|s.chunks|] == s.chunks;
  }

  lemma NoDirtyChunk(g: Geometry, s: State)
    requires Valid(g, s) && s.ndirty == 0
    ensures s.chunksDirty == {}
  {
    if k :| k in s.chunksDirty {
      DirtyPlaying(g, s, k);
      DirtySumUpdate(s.chunks, k.chunk, s.chunks[k.chunk]);
      assert false;
    }
  }

  lemma {:induction false} DirtyWithin(rs: seq<Run>, lo: nat, hi: nat)
    requires Tiles(rs, lo, hi)
    ensures lo <= hi && DirtyPages(rs) <= hi - lo
    decreases |rs|
  {
    if rs != [] { DirtyWithin(rs[1..], lo + rs[0].pages, hi); }
  }

  lemma DirtyBelow(g: Geometry, s: State, c: nat)
    requires Valid(g, s) && Playing(s, c)
    ensures s.chunks[c].ndirty <= s.ndirty && s.chunks[c].ndirty < g.pages
  {
    InPlayFacts(g, s, c);
    DirtyWithin(Runs(g, s.chunks[c]), g.bias, g.pages);
  }

  lemma PurgedMore(g: Geometry, s: State, t: State, u: State, c: nat)
    requires (forall o: nat :: Exchanged(g, s, t, o, {}, {})) && Exchanged(g, t, u, c, {}, {})
    ensures forall o: nat :: Exchanged(g, s, u, o, {}, {})
  {
    hide Owned;
    assert Exchanged(g, s, t, c, {}, {});
  }


  /** The run is to be stashed. */
  predicate Picked(rs: seq<Run>, j: nat, all: bool)
    requires j < |rs|
  {
    && rs[j].use.Free? && rs[j].dirty
    && (all || (j > 0 && rs[j - 1].use.Free?) || (j + 1 < |rs| && rs[j + 1].use.Free?))
  }

  /** The picked runs among the first i */
  function PickedRuns(rs: seq<Run>, i: nat, all: bool): seq<Run>
    requires i <= |rs|
  {
    if i == 0 then [] else PickedRuns(rs, i - 1, all) + if Picked(rs, i - 1, all) then [Taken(rs[i - 1])] else []
  }

  /** The list with the picked runs among the first i allocated */
  function AfterStash(rs: seq<Run>, i: nat, all: bool): (r: seq<Run>)
    requires i <= |rs|
    ensures |r| == |rs| && forall j :: i <= j < |rs| ==> r[j] == rs[j]
  {
    if i == 0 then rs
    else
      var r := AfterStash(rs, i - 1, all);
      if Picked(rs, i - 1, all) then r[i - 1 := Taken(rs[i - 1])] else r
  }

  lemma {:induction false} AfterStashAt(rs: seq<Run>, i: nat, all: bool, j: nat)
    requires i <= |rs| && j < i
    ensures AfterStash(rs, i, all)[j] == if Picked(rs, j, all) then Taken(rs[j]) else rs[j]
  {
    hide Picked;
    if j < i - 1 { AfterStashAt(rs, i - 1, all, j); }
  }

  function StartOf(rs: seq<Run>, i: nat, hi: nat): nat {
    if i < |rs| then rs[i].start else hi
  }

  function Pages(rs: seq<Run>): nat {
    if rs == [] then 0 else Pages(rs[..|rs| - 1]) + Last(rs).pages
  }

  /** The pages that purging the chunk with the runs rs gives up */
  function GivenUp(rs: seq<Run>, all: bool): nat {
    Pages(PickedRuns(rs, |rs|, all))
  }

  /** The runs that purging the chunk takes out: all dirty ones if none is beside a clean one */
  function ToStash(g: Geometry, ch: Chunk, all: bool): seq<Run> {
    PickedRuns(Runs(g, ch), |Runs(g, ch)|, all || ch.nrunsAdjac == 0)
  }

  /** Whichever dirty chunk is purged first, it is fragmented and gives up more pages than are wanted. */
  ghost predicate Overshoots(g: Geometry, s: State, all: bool, wanted: int) {
    forall k :: k in s.chunksDirty ==>
      && k.chunk < |s.chunks| && s.chunks[k.chunk].nrunsAdjac > 0
      && GivenUp(Runs(g, s.chunks[k.chunk]), all) > wanted
  }

  const LargeTail := Page(true, true, false, true, BININD_INVALID, 0)

  /** A chunk of a header page, three dirty pages, a clean one and a large run of two */
  function Fragmented(base: nat): Chunk {
    Chunk(base, true,
          [LargeTail, UnallocatedSet(3, true, true), LargeTail, UnallocatedSet(3, true, true),
           UnallocatedSet(1, false, false), LargeSet(LargeTail, 2, false), LargeTail], 3, 2, 1)
  }

  function TwoFragmented(): State {
    State([Fragmented(0), Fragmented(7)],
          {AvailKey(3, 0, 1), AvailKey(1, 0, 4), AvailKey(3, 1, 1), AvailKey(1, 1, 4)},
          {DirtyKey(0, 2, 1), DirtyKey(1, 2, 1)}, None, 6, 4)
  }

  lemma FragmentedRuns(base: nat)
    ensures var ch, rs := Fragmented(base), [Run(1, 3, Free, true), Run(4, 1, Free, false), Run(5, 2, Large, false)];
            && Runs(Geometry(1, 7, []), ch) == rs && Sound(ch.pageMap, [], 1) && NoTwins(rs) && Counted(ch, rs)
            && ActivePages(rs) == 2
  {
    hide PickedRuns, Pages, AfterStash;
    var m, rs := Fragmented(base).pageMap, [Run(1, 3, Free, true), Run(4, 1, Free, false), Run(5, 2, Large, false)];
    assert rs[1..] == [rs[1], rs[2]] && rs[1..][1..] == [rs[2]] && rs[1..][1..][1..] == [];
    assert Tiles([rs[2]], 5, 7) && Tiles([rs[1], rs[2]], 4, 7);
    RunsUnique(m, [], 1, rs);
  }

  lemma FragmentedGives()
    ensures GivenUp([Run(1, 3, Free, true), Run(4, 1, Free, false), Run(5, 2, Large, false)], false) == 3
  {
    var rs := [Run(1, 3, Free, true), Run(4, 1, Free, false), Run(5, 2, Large, false)];
    assert PickedRuns(rs, 3, false) == [Taken(rs[0])];
    assert Pages([Taken(rs[0])]) == 3 by { assert [Taken(rs[0])][..0] == []; }
  }

  lemma FragmentedOk(c: nat)
    requires c < 2
    ensures ChunkOk(Geometry(1, 7, []), TwoFragmented(), c)
  {
    FragmentedRuns(7 * c);
    hide Sound, NoTwins, Counted, RunsFrom;
    assert TwoFragmented().chunks[c] == Fragmented(7 * c);
  }

  /** Two fragmented chunks with six dirty pages and four active ones: with a threshold of one dirty page for an
      active one, two pages are to be purged, and either chunk gives up three. */
  lemma PurgeMayOvershoot()
    ensures var g, s := Geometry(1, 7, []), TwoFragmented(); Valid(g, s) && Overshoots(g, s, false, s.ndirty - s.nactive)
    ensures 0 < TwoFragmented().ndirty - TwoFragmented().nactive < 3
  {
    var g, s := Geometry(1, 7, []), TwoFragmented();
    FragmentedRuns(0);
    FragmentedRuns(7);
    FragmentedGives();
    forall c | 0 <= c < 2 ensures ChunkOk(g, s, c) { FragmentedOk(c); }
    hide Sound, NoTwins, ActivePages, Counted, GivenUp, RunsFrom, ChunkOk;
    assert s.chunks[..1] == [Fragmented(0)] && [Fragmented(0)][..0] == [];
    assert DirtySum([Fragmented(0)]) == 3 && ActiveSum(g, [Fragmented(0)]) == 2;
  }

  predicate Starts(stash: seq<nat>, taken: seq<Run>) {
    |stash| == |taken| && forall k :: 0 <= k < |taken| ==> stash[k] == taken[k].start
  }

  lemma NotPicked(rs: seq<Run>, i: nat, all: bool)
    requires i < |rs| && !Picked(rs, i, all)
    ensures PickedRuns(rs, i + 1, all) == PickedRuns(rs, i, all) && AfterStash(rs, i + 1, all) == AfterStash(rs, i, all)
  {
  }

  lemma StashStarts(g: Geometry, s: State, c: nat, rs: seq<Run>, all: bool)
    requires Valid(g, s) && Playing(s, c) && rs == Runs(g, s.chunks[c])
    ensures g.bias == StartOf(rs, 0, g.pages) && Moved(s, s, c) && rs == AfterStash(rs, 0, all)
    ensures PickedRuns(rs, 0, all) == [] && Exchanged(g, s, s, c, {}, Members([])) && Pages([]) == 0
  {
    InPlayFacts(g, s, c);
  }

  /** What the walk sees at run i */
  lemma WalkFacts(g: Geometry, t: State, c: nat, rs: seq<Run>, i: nat, all: bool)
    requires Valid(g, t) && Playing(t, c) && i < |rs| && Runs(g, t.chunks[c]) == AfterStash(rs, i, all)
    requires Tiles(rs, g.bias, g.pages) && NoTwins(rs)
    ensures var m, x, now := t.chunks[c].pageMap, rs[i], AfterStash(rs, i, all);
            && now == now[..i] + [x] + now[i + 1..] && |m| == g.pages
            && 1 <= x.start && x.pages >= 1 && x.start + x.pages <= g.pages && g.bias <= x.start
            && x.start + x.pages == StartOf(rs, i + 1, g.pages)
            && m[x.start].alloc == !x.use.Free? && m[x.start].dirty == m[x.start + x.pages - 1].dirty == x.dirty
            && (if !m[x.start].alloc || m[x.start].large then m[x.start].size == x.pages
                else m[x.start].bin < |g.bins| && g.bins[m[x.start].bin] == x.pages)
            && (!m[x.start].alloc ==>
                  Picked(rs, i, all) ==
                  (m[x.start].dirty && (all || AdjacPred(m, g.bias, x.start) || AdjacSucc(m, x.start, x.pages))))
            && (m[x.start].alloc ==> !Picked(rs, i, all))
  {
    hide Tiles, NoTwins, Valid, Kept, Runs, FreeCount, Adjacent, DirtyPages, FreeAt, AfterStash;
    var m, x, now := t.chunks[c].pageMap, rs[i], AfterStash(rs, i, all);
    InPlayFacts(g, t, c);
    assert now == now[..i] + [x] + now[i + 1..];
    assert rs == rs[..i] + [x] + rs[i + 1..];
    Around(rs[..i], x, rs[i + 1..], g.bias, g.pages);
    Around(now[..i], x, now[i + 1..], g.bias, g.pages);
    assert x in now && Marks(m, g.bins, x);
    MarkedFlanks(m, g.bins, g.bias, now[..i], x, now[i + 1..]);
    if x.use.Free? && x.dirty {
      Middle(rs[..i], x, rs[i + 1..]);
      if i > 0 {
        assert Last(rs[..i]) == rs[i - 1] && Last(now[..i]) == now[i - 1];
        AfterStashAt(rs, i, all, i - 1);
        assert now[i - 1].use.Free? <==> rs[i - 1].use.Free?;
      }
      if i + 1 < |rs| { assert now[i + 1] == rs[i + 1]; }
    }
  }

  lemma StashStep(g: Geometry, s: State, t: State, u: State, c: nat, rs: seq<Run>, i: nat, all: bool,
                  now: seq<Run>, taken: seq<Run>)
    requires c < |s.chunks| && c < |t.chunks| && c < |u.chunks| && i < |rs| && Picked(rs, i, all)
    requires rs[i].pages >= 1
    requires now == AfterStash(rs, i, all) && taken == PickedRuns(rs, i, all)
    requires Runs(g, u.chunks[c]) == Carved(now[..i], rs[i], now[i + 1..], rs[i].pages, Large)
    requires Moved(s, t, c) && Moved(t, u, c)
    requires Exchanged(g, s, t, c, {}, Members(taken)) && Exchanged(g, t, u, c, {}, {Taken(rs[i])})
    ensures Moved(s, u, c) && Runs(g, u.chunks[c]) == AfterStash(rs, i + 1, all)
    ensures taken + [Taken(rs[i])] == PickedRuns(rs, i + 1, all)
    ensures Exchanged(g, s, u, c, {}, Members(taken + [Taken(rs[i])]))
    ensures Pages(taken + [Taken(rs[i])]) == Pages(taken) + rs[i].pages
  {
    hide Moved, Exchanged, Runs;
    MovedTwice(s, t, u, c);
    ExchangedTwice(g, s, t, u, c, {}, Members(taken), {}, {Taken(rs[i])});
    var none: set<Run> := {};
    assert none + none == none;
    assert Members(taken) - none + {Taken(rs[i])} == Members(taken + [Taken(rs[i])]);
    var all' := taken + [Taken(rs[i])];
    assert all'[..|all'| - 1] == taken;
  }

  /** Once all picked runs are allocated, no free runs are neighbours. */
  lemma {:induction false} NoPairs(rs: seq<Run>)
    requires forall j, k :: 0 <= j && k == j + 1 && k < |rs| ==> !BothFree(rs[j], rs[k])
    ensures Adjacent(rs) == 0
    decreases |rs|
  {
    if |rs| >= 2 {
      assert !BothFree(rs[0], rs[1]);
      NoPairs(rs[1..]);
    }
  }

  lemma {:induction false} NoDirt(rs: seq<Run>)
    requires forall r :: r in rs ==> !(r.use.Free? && r.dirty)
    ensures DirtyPages(rs) == 0
    decreases |rs|
  {
    if rs != [] {
      assert rs[0] in rs;
      NoDirt(rs[1..]);
    }
  }

  lemma StashedApart(rs: seq<Run>, all: bool)
    requires NoTwins(rs)
    ensures Adjacent(AfterStash(rs, |rs|, all)) == 0 && (all ==> DirtyPages(AfterStash(rs, |rs|, all)) == 0)
  {
    hide NoTwins, AfterStash;
    var now := AfterStash(rs, |rs|, all);
    forall j, k | 0 <= j && k == j + 1 && k < |rs| ensures !BothFree(now[j], now[k]) {
      AfterStashAt(rs, |rs|, all, j);
      AfterStashAt(rs, |rs|, all, k);
      assert rs == rs[..j] + [rs[j]] + rs[k..];
      if rs[j].use.Free? { Middle(rs[..j], rs[j], rs[k..]); }
    }
    NoPairs(now);
    if all {
      forall r | r in now ensures !(r.use.Free? && r.dirty) {
        var j :| 0 <= j < |now| && now[j] == r;
        AfterStashAt(rs, |rs|, all, j);
      }
      NoDirt(now);
    }
  }

  lemma {:induction false} NonePicked(rs: seq<Run>, i: nat, all: bool)
    requires i <= |rs| && PickedRuns(rs, i, all) == []
    ensures AfterStash(rs, i, all) == rs
  {
    if i > 0 { NonePicked(rs, i - 1, all); }
  }

  lemma StashEnds(g: Geometry, s: State, t: State, c: nat, rs: seq<Run>, i: nat, all: bool, taken: seq<Run>)
    requires Valid(g, s) && Playing(s, c) && rs == Runs(g, s.chunks[c])
    requires Valid(g, t) && Playing(t, c) && Moved(s, t, c) && i <= |rs| && StartOf(rs, i, g.pages) >= g.pages
    requires Runs(g, t.chunks[c]) == AfterStash(rs, i, all) && taken == PickedRuns(rs, i, all)
    requires t.ndirty + Pages(taken) == s.ndirty
    ensures i == |rs| && t.chunks[c].nrunsAdjac == 0 && (all ==> t.chunks[c].ndirty == 0)
    ensures taken == [] ==> s.chunks[c].nrunsAdjac == 0 && (all ==> s.chunks[c].ndirty == 0)
    ensures t.chunks[c].ndirty + Pages(taken) == s.chunks[c].ndirty
  {
    hide Tiles, NoTwins, Valid, Runs, FreeCount, Adjacent, DirtyPages, FreeAt, AfterStash, PickedRuns, Pages, Listed, Queued;
    InPlayFacts(g, s, c);
    InPlayFacts(g, t, c);
    TilesWithin(rs, g.bias, g.pages);
    assert forall j :: 0 <= j < |rs| ==> rs[j] in rs && rs[j].start < g.pages;
    StashedApart(rs, all);
    if taken == [] { NonePicked(rs, i, all); }
  }

  // ---- what trimming relies on ----

  function Head(y: Run, head: nat): Run {
    y.(pages := head)
  }

  function Tail(y: Run, head: nat): Run
    requires head <= y.pages
  {
    y.(start := y.start + head, pages := y.pages - head)
  }

  function TwoMarked(m: seq<Page>, y: Run, head: nat): seq<Page>
    requires y.start + y.pages <= |m| && 0 < head < y.pages
  {
    var d := m[y.start].dirty;
    var n := m[y.start + head - 1 := LargeSet(m[y.start + head - 1], 0, d)];
    var n' := n[y.start := LargeSet(n[y.start], head, d)];
    n'[y.start + head := LargeSet(n'[y.start + head], y.pages - head, d)]
  }

  lemma TwoMarks(m: seq<Page>, bins: seq<nat>, y: Run, head: nat)
    requires Marks(m, bins, y) && y.use.Large? && 0 < head < y.pages
    ensures var n := TwoMarked(m, y, head);
            && |n| == |m| && AllMarked(n, bins, [Head(y, head), Tail(y, head)])
            && forall k :: 0 <= k < |m| && !(y.start <= k < y.start + y.pages) ==> n[k] == m[k]
  {
    var n := TwoMarked(m, y, head);
    assert Marks(n, bins, Head(y, head));
    assert Marks(n, bins, Tail(y, head));
  }

  lemma TwoTile(y: Run, head: nat)
    requires 0 < head < y.pages && !y.use.Free?
    ensures Tiles([Head(y, head), Tail(y, head)], y.start, End([y], 0)) && NoneFree([Head(y, head), Tail(y, head)])
    ensures NoneFree([y])
  {
    var ys := [Head(y, head), Tail(y, head)];
    assert ys[1..] == [Tail(y, head)] && ys[1..][1..] == [];
  }

  lemma OneTiles(z: Run)
    requires z.pages >= 1
    ensures Tiles([z], z.start, z.start + z.pages)
  {
    assert [z][1..] == [];
  }

  lemma OwnedDirty(g: Geometry, s: State, c: nat, y: Run)
    requires Valid(g, s) && Owned(g, s, c, y)
    ensures y.start < |s.chunks[c].pageMap| && s.chunks[c].pageMap[y.start].dirty == y.dirty
  {
    OwnedMarks(g, s, c, y);
  }

  lemma NotBefore(g: Geometry, s: State, t: State, c: nat, r: Run)
    requires Exchanged(g, s, t, c, {}, {}) && !Owned(g, t, c, r)
    ensures !Owned(g, s, c, r)
  {
  }

  lemma NowOwned(g: Geometry, s: State, t: State, c: nat, out: set<Run>, into: set<Run>, r: Run)
    requires Exchanged(g, s, t, c, out, into) && r in into
    ensures Owned(g, t, c, r)
  {
  }

  /** A run is given up for its two parts. */
  lemma Replaced(g: Geometry, s: State, t: State, c: nat, y: Run, head: nat)
    requires 0 < head < y.pages && c < |s.chunks|
    requires var ys := [Head(y, head), Tail(y, head)];
             Exchanged(g, s, t, c, Members([y]) - Members(ys), Members(ys))
    ensures Exchanged(g, s, t, c, {y}, {Head(y, head), Tail(y, head)})
  {
    var ys := [Head(y, head), Tail(y, head)];
    assert Members([y]) - Members(ys) == {y};
    assert Members(ys) == {Head(y, head), Tail(y, head)};
  }

  /** No part of an allocated run is itself an allocated run. */
  lemma PartNotOwned(g: Geometry, s: State, c: nat, y: Run, part: Run)
    requires Valid(g, s) && Owned(g, s, c, y) && part != y && part.pages >= 1
    requires y.start <= part.start && part.start + part.pages <= y.start + y.pages
    ensures !Owned(g, s, c, part)
  {
    hide Owned, Valid;
    if Owned(g, s, c, part) { OwnedApart(g, s, c, y, part); }
  }

  /** Nor was it one before the run was allocated. */
  lemma PartBefore(g: Geometry, s: State, t: State, c: nat, y: Run, part: Run)
    requires Valid(g, t) && Exchanged(g, s, t, c, {}, {y}) && part != y && part.pages >= 1
    requires y.start <= part.start && part.start + part.pages <= y.start + y.pages
    ensures !Owned(g, s, c, part)
  {
    hide Owned, Valid;
    assert Owned(g, t, c, y);
    PartNotOwned(g, t, c, y, part);
  }

  lemma HeadGone(g: Geometry, s: State, u: State, c: nat, y: Run, head: nat)
    requires Valid(g, s) && Owned(g, s, c, y) && 0 < head < y.pages
    requires var h, r := Head(y, head), Tail(y, head); Exchanged(g, s, u, c, {y} + {h}, {h, r} - {h} + {})
    ensures Exchanged(g, s, u, c, {y}, {Tail(y, head)})
  {
    hide Owned, Valid;
    PartNotOwned(g, s, c, y, Head(y, head));
  }

  lemma TailGone(g: Geometry, s: State, u: State, c: nat, y: Run, head: nat)
    requires Valid(g, s) && Owned(g, s, c, y) && 0 < head < y.pages
    requires var h, r := Head(y, head), Tail(y, head); Exchanged(g, s, u, c, {y} + {r}, {h, r} - {r} + {})
    ensures Exchanged(g, s, u, c, {y}, {Head(y, head)})
  {
    hide Owned, Valid;
    PartNotOwned(g, s, c, y, Tail(y, head));
  }

  /** A new run, trimmed, is still the only thing that is new. */
  lemma PassedOn(g: Geometry, s: State, t: State, u: State, c: nat, y: Run, z: Run)
    requires Exchanged(g, s, t, c, {}, {y}) && Exchanged(g, t, u, c, {y}, {z}) && !Owned(g, s, c, y)
    ensures Exchanged(g, s, u, c, {}, {z})
    ensures c < |t.chunks| ==> c < |u.chunks| && u.chunks[c].base == t.chunks[c].base
  {
    hide Owned;
  }

  lemma NothingNew(g: Geometry, s: State, t: State, u: State, c: nat, z: Run)
    requires Exchanged(g, s, t, c, {}, {z}) && Exchanged(g, t, u, c, {}, {})
    ensures Exchanged(g, s, u, c, {}, {z})
    ensures c < |t.chunks| ==> c < |u.chunks| && u.chunks[c].base == t.chunks[c].base
  {
    hide Owned;
  }

  /** Behind the allocated run y there is a free run of k pages. */
  predicate FreeBehind(g: Geometry, s: State, c: nat, y: Run, k: nat) {
    c < |s.chunks| && FreeAt(Runs(g, s.chunks[c]), k, y.start + y.pages)
  }

  lemma BehindFacts(g: Geometry, s: State, c: nat, a: seq<Run>, y: Run, b: seq<Run>)
    requires Valid(g, s) && Playing(s, c) && Runs(g, s.chunks[c]) == a + [y] + b && !y.use.Free?
    ensures var m, p := s.chunks[c].pageMap, y.start + y.pages;
            && |m| == g.pages
            && (if p < g.pages && !m[p].alloc
                then b != [] && b[0].use.Free? && b[0].start == p && b[0].pages == m[p].size && m[p].size >= 1 &&
                     forall k :: FreeBehind(g, s, c, y, k) <==> k == m[p].size
                else forall k :: !FreeBehind(g, s, c, y, k))
            && Runs(g, s.chunks[c]) == (a + [y]) + b
            && (b != [] ==> Runs(g, s.chunks[c]) == (a + [y]) + [b[0]] + b[1..])
  {
    hide Tiles, NoTwins, Valid, Kept, RunsFrom;
    UsedRunFacts(g, s, c, a, y, b);
    var m, p := s.chunks[c].pageMap, y.start + y.pages;
    Around(a, y, b, g.bias, g.pages);
    if b != [] {
      assert b[0] in a + [y] + b && Marks(m, g.bins, b[0]);
      assert (a + [y]) + [b[0]] + b[1..] == a + [y] + b;
      Around(a + [y], b[0], b[1..], g.bias, g.pages);
    }
  }

  lemma GrowFacts(g: Geometry, t: State, c: nat, a: seq<Run>, y: Run, x: Run, b: seq<Run>, splitsize: nat)
    requires Valid(g, t) && Playing(t, c) && 1 <= splitsize <= x.pages && y.use.Large?
    requires Runs(g, t.chunks[c]) == Carved(a + [y], x, b, splitsize, Large)
    ensures var m, y2 := t.chunks[c].pageMap, Run(x.start, splitsize, Large, x.dirty);
            && |m| == g.pages && x.start == y.start + y.pages && x.start + splitsize <= g.pages && y.pages >= 1
            && Runs(g, t.chunks[c]) == a + [y, y2] + (Leftover(x, splitsize) + b) && NoneFree([y, y2])
            && m[x.start + splitsize - 1].alloc && m[x.start + splitsize - 1].large
            && m[y.start].dirty == y.dirty && m[x.start + splitsize - 1].dirty == x.dirty
  {
    hide Tiles, NoTwins, Valid, Kept, RunsFrom;
    var m, y2 := t.chunks[c].pageMap, Run(x.start, splitsize, Large, x.dirty);
    var rs := Runs(g, t.chunks[c]);
    InPlayFacts(g, t, c);
    assert rs == a + [y] + ([y2] + (Leftover(x, splitsize) + b));
    assert y in rs && Marks(m, g.bins, y);
    Around(a, y, [y2] + (Leftover(x, splitsize) + b), g.bias, g.pages);
    assert y2 in rs && Marks(m, g.bins, y2);
  }

  /** A run marked as large from its first page to its last */
  lemma Grown(m: seq<Page>, n: seq<Page>, bins: seq<nat>, z: Run)
    requires z.use.Large? && z.pages >= 2 && z.start + z.pages <= |m|
    requires var n' := m[z.start := LargeSet(m[z.start], z.pages, z.dirty)]; var q := z.start + z.pages - 1;
             n == n'[q := LargeSet(n'[q], 0, z.dirty)]
    ensures Marks(n, bins, z)
  {
  }

  lemma GrowExchanged(g: Geometry, s: State, t: State, u: State, c: nat, y: Run, y2: Run, z: Run)
    requires Valid(g, t) && Exchanged(g, s, t, c, {}, {y2}) && Owned(g, s, c, y) && y.pages >= 1 && y2.pages >= 1
    requires Exchanged(g, t, u, c, Members([y, y2]) - Members([z]), Members([z]))
    requires z.start == y.start && z.pages == y.pages + y2.pages && y2.start == y.start + y.pages
    requires !Owned(g, s, c, y2)
    ensures Exchanged(g, s, u, c, {y}, {z})
  {
    hide Owned, Valid;
    assert Members([y, y2]) - Members([z]) == {y, y2} && Members([z]) == {z};
  }

  lemma SmallFacts(m: seq<Page>, bins: seq<nat>, y: Run)
    requires Marks(m, bins, y) && y.use.Small?
    ensures m[y.start].bin < |bins| && bins[m[y.start].bin] == y.pages
  {
  }

  lemma BinRunGone(g: Geometry, s: State, u: State, c: nat, y: Run, head: nat)
    requires Valid(g, s) && Owned(g, s, c, y) && y.use.Small? && 0 < head < y.pages
    requires var z := Taken(y); var w := Run(y.start, head, Large, z.dirty);
             Exchanged(g, s, u, c, {y} + {z} + {w}, {z} - {z} + {w} - {w} + {})
    ensures Exchanged(g, s, u, c, {y}, {})
  {
    hide Owned, Valid;
    PartNotOwned(g, s, c, y, Taken(y));
    PartNotOwned(g, s, c, y, Run(y.start, head, Large, Taken(y).dirty));
  }
}
