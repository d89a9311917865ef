/** arena.c: which pages are free, which of them are dirty, and what the operations on runs do to every page */
module ArenaPages {
  import opened Bits
  import opened Wrappers
  import opened PageRuns
  import opened ArenaState
  import opened ArenaSteps

  predicate Covers(r: Run, page: nat) {
    r.start <= page < r.start + r.pages
  }

  /** The page lies in a free run that is dirty, or clean. */
  ghost predicate FreeIn(rs: seq<Run>, page: nat, dirty: bool) {
    exists r :: r in rs && Covers(r, page) && r.use.Free? && r.dirty == dirty
  }

  lemma FreeParts(a: seq<Run>, xs: seq<Run>, b: seq<Run>, page: nat, dirty: bool)
    ensures FreeIn(a + xs + b, page, dirty) <==> FreeIn(a, page, dirty) || FreeIn(xs, page, dirty) || FreeIn(b, page, dirty)
  {
    if r :| r in a + xs + b && Covers(r, page) && r.use.Free? && r.dirty == dirty {
      assert r in a || r in xs || r in b;
    }
    forall r | r in a || r in xs || r in b ensures r in a + xs + b { }
  }

  lemma FreeOne(x: Run, page: nat, dirty: bool)
    ensures FreeIn([x], page, dirty) <==> Covers(x, page) && x.use.Free? && x.dirty == dirty
  {
    assert x in [x];
  }

  lemma FreeWithin(rs: seq<Run>, lo: nat, hi: nat, page: nat, dirty: bool)
    requires Tiles(rs, lo, hi) && FreeIn(rs, page, dirty)
    ensures lo <= page < hi
  {
    TilesWithin(rs, lo, hi);
  }

  /** A page lies in one run at most. */
  lemma {:induction false} FreeOnce(rs: seq<Run>, lo: nat, hi: nat, page: nat)
    requires Tiles(rs, lo, hi)
    ensures !(FreeIn(rs, page, true) && FreeIn(rs, page, false))
    decreases |rs|
  {
    hide FreeIn;
    if rs == [] {
      UsedNotFree(rs, page, true);
    } else {
      var mid := lo + rs[0].pages;
      FreeOnce(rs[1..], mid, hi, page);
      assert [] + [rs[0]] + rs[1..] == rs;
      forall d: bool ensures FreeIn(rs, page, d) <==> (Covers(rs[0], page) && rs[0].use.Free? && rs[0].dirty == d)
                                                      || FreeIn(rs[1..], page, d)
      {
        FreeParts([], [rs[0]], rs[1..], page, d);
        FreeOne(rs[0], page, d);
        UsedNotFree([], page, d);
      }
      if FreeIn(rs[1..], page, true) { FreeWithin(rs[1..], mid, hi, page, true); }
      if FreeIn(rs[1..], page, false) { FreeWithin(rs[1..], mid, hi, page, false); }
    }
  }

  lemma UsedNotFree(rs: seq<Run>, page: nat, dirty: bool)
    requires NoneFree(rs)
    ensures !FreeIn(rs, page, dirty)
  {
  }

  /** Pages lo to hi - 1 come into use (None), or become free and dirty or clean as told; the others stay as they are. */
  ghost predicate RunsBecome(rs: seq<Run>, rs': seq<Run>, lo: nat, hi: nat, now: Option<bool>) {
    forall page: nat, d: bool ::
      FreeIn(rs', page, d) <==> if lo <= page < hi then now == Some(d) else FreeIn(rs, page, d)
  }

  /** A free run gives up its front. */
  lemma CarvedPages(a: seq<Run>, x: Run, b: seq<Run>, need: nat, use: Use, lo: nat, hi: nat)
    requires x.use.Free? && !use.Free? && 1 <= need <= x.pages && Tiles(a + [x] + b, lo, hi)
    ensures RunsBecome(a + [x] + b, Carved(a, x, b, need, use), x.start, x.start + need, None)
    ensures forall page: nat :: x.start <= page < x.start + need ==> FreeIn(a + [x] + b, page, x.dirty)
  {
    hide Tiles, FreeIn, Carved;
    var y, rest, rs := Run(x.start, need, use, x.dirty), Leftover(x, need), a + [x] + b;
    Around(a, x, b, lo, hi);
    CarvedAs(a, x, b, need, use);
    forall page: nat, d: bool
      ensures FreeIn(Carved(a, x, b, need, use), page, d) <==> !(x.start <= page < x.start + need) && FreeIn(rs, page, d)
      ensures Covers(x, page) && d == x.dirty ==> FreeIn(rs, page, d)
    {
      FreeParts(a, [x], b, page, d);
      FreeParts(a, [y] + rest, b, page, d);
      FreeParts([], [y], rest, page, d);
      assert [] + [y] + rest == [y] + rest;
      FreeOne(x, page, d);
      FreeOne(y, page, d);
      if rest != [] { FreeOne(rest[0], page, d); } else { UsedNotFree(rest, page, d); }
      UsedNotFree([], page, d);
      if FreeIn(a, page, d) { FreeWithin(a, lo, x.start, page, d); }
      if FreeIn(b, page, d) { FreeWithin(b, x.start + x.pages, hi, page, d); }
    }
  }

  lemma ForwardPages(f: Run, b: seq<Run>, page: nat, d: bool)
    requires f.use.Free? && (b != [] ==> b[0].start == f.start + f.pages)
    ensures var (h, rest) := JoinedForward(f, b);
            h.use.Free? && (FreeIn([h], page, d) || FreeIn(rest, page, d) <==> FreeIn([f], page, d) || FreeIn(b, page, d))
    ensures b == [] || JoinedForward(f, b).0.start == f.start
  {
    hide FreeIn;
    var (h, rest) := JoinedForward(f, b);
    FreeOne(f, page, d);
    FreeOne(h, page, d);
    if b != [] && Twins(f, b[0]) {
      FreeParts([], [b[0]], rest, page, d);
      assert [] + [b[0]] + rest == b;
      FreeOne(b[0], page, d);
      UsedNotFree([], page, d);
    }
  }

  lemma BackwardPages(a: seq<Run>, f: Run, page: nat, d: bool)
    requires f.use.Free? && (a != [] ==> Last(a).start + Last(a).pages == f.start)
    ensures var (front, h) := JoinedBackward(a, f);
            FreeIn(front, page, d) || FreeIn([h], page, d) <==> FreeIn(a, page, d) || FreeIn([f], page, d)
  {
    hide FreeIn;
    var (front, h) := JoinedBackward(a, f);
    FreeOne(f, page, d);
    FreeOne(h, page, d);
    if a != [] && Twins(Last(a), f) {
      FreeParts(front, [Last(a)], [], page, d);
      assert front + [Last(a)] + [] == a;
      FreeOne(Last(a), page, d);
      UsedNotFree([], page, d);
    }
  }

  /** A run becomes free and joins its neighbours. */
  lemma JoinedPages(a: seq<Run>, x: Run, b: seq<Run>, dirty: bool, lo: nat, hi: nat)
    requires !x.use.Free? && Tiles(a + [x] + b, lo, hi)
    ensures RunsBecome(a + [x] + b, Joined(a, x, b, dirty), x.start, x.start + x.pages, Some(dirty))
  {
    hide Tiles, FreeIn;
    var f := Run(x.start, x.pages, Free, dirty);
    var (g, rest) := JoinedForward(f, b);
    var (front, h) := JoinedBackward(a, g);
    Around(a, x, b, lo, hi);
    forall page: nat, d: bool
      ensures FreeIn(front + [h] + rest, page, d) <==>
              if x.start <= page < x.start + x.pages then d == dirty else FreeIn(a + [x] + b, page, d)
    {
      ForwardPages(f, b, page, d);
      BackwardPages(a, g, page, d);
      FreeParts(front, [h], rest, page, d);
      FreeParts(a, [x], b, page, d);
      FreeOne(x, page, d);
      FreeOne(f, page, d);
      if FreeIn(a, page, d) { FreeWithin(a, lo, x.start, page, d); }
      if FreeIn(b, page, d) { FreeWithin(b, x.start + x.pages, hi, page, d); }
    }
  }

  /** Allocated runs in the place of others free no page. */
  lemma UsedPages(a: seq<Run>, xs: seq<Run>, ys: seq<Run>, b: seq<Run>)
    requires NoneFree(xs) && NoneFree(ys)
    ensures RunsBecome(a + xs + b, a + ys + b, 0, 0, None)
  {
    hide FreeIn, NoneFree;
    forall page: nat, d: bool ensures FreeIn(a + ys + b, page, d) <==> FreeIn(a + xs + b, page, d) {
      FreeParts(a, xs, b, page, d);
      FreeParts(a, ys, b, page, d);
      UsedNotFree(xs, page, d);
      UsedNotFree(ys, page, d);
    }
  }

  // ---- the pages of an arena ----

  /** The page is free, and dirty or clean as told. A chunk not there yet counts as one clean free run, which is what it
      will be. */
  ghost predicate FreePage(g: Geometry, s: State, o: nat, page: nat, dirty: bool) {
    if o < |s.chunks| then FreeIn(Runs(g, s.chunks[o]), page, dirty) else !dirty && g.bias <= page < g.pages
  }

  ghost predicate PagesBecome(g: Geometry, s: State, t: State, c: nat, lo: nat, hi: nat, now: Option<bool>) {
    forall o: nat, page: nat, d: bool ::
      FreePage(g, t, o, page, d) <==> if o == c && lo <= page < hi then now == Some(d) else FreePage(g, s, o, page, d)
  }

  ghost predicate SamePages(g: Geometry, s: State, t: State) {
    forall o: nat, page: nat, d: bool :: FreePage(g, t, o, page, d) <==> FreePage(g, s, o, page, d)
  }

  /** Some dirty free pages have become clean, and no page has changed otherwise. */
  ghost predicate Cleaned(g: Geometry, s: State, t: State) {
    forall o: nat, page: nat ::
      && (FreePage(g, t, o, page, true) ==> FreePage(g, s, o, page, true))
      && (FreePage(g, t, o, page, true) || FreePage(g, t, o, page, false) <==>
          FreePage(g, s, o, page, true) || FreePage(g, s, o, page, false))
  }

  /** All of the run's pages are free, and as dirty as the run is. */
  ghost predicate FreeThroughout(g: Geometry, s: State, c: nat, r: Run) {
    forall page: nat :: r.start <= page < r.start + r.pages ==> FreePage(g, s, c, page, r.dirty)
  }

  lemma PagesOf(g: Geometry, s: State, t: State, c: nat, lo: nat, hi: nat, now: Option<bool>)
    requires c < |s.chunks| == |t.chunks|
    requires forall o :: 0 <= o < |s.chunks| && o != c ==> t.chunks[o].pageMap == s.chunks[o].pageMap
    requires RunsBecome(Runs(g, s.chunks[c]), Runs(g, t.chunks[c]), lo, hi, now)
    ensures PagesBecome(g, s, t, c, lo, hi, now)
  {
    hide FreeIn, Runs;
    forall o: nat, page: nat, d: bool ensures FreePage(g, t, o, page, d) <==>
        if o == c && lo <= page < hi then now == Some(d) else FreePage(g, s, o, page, d)
    {
      if o < |s.chunks| && o != c { SameMap(g, s.chunks[o], t.chunks[o]); }
    }
  }

  lemma MovedPages(g: Geometry, s: State, t: State, c: nat, lo: nat, hi: nat, now: Option<bool>)
    requires c < |s.chunks| && Moved(s, t, c)
    requires RunsBecome(Runs(g, s.chunks[c]), Runs(g, t.chunks[c]), lo, hi, now)
    ensures PagesBecome(g, s, t, c, lo, hi, now)
  {
    hide Moved, RunsBecome, Runs, PagesBecome;
    MovedMaps(s, t, c);
    PagesOf(g, s, t, c, lo, hi, now);
  }

  lemma MapsSamePages(g: Geometry, s: State, t: State)
    requires |s.chunks| == |t.chunks| && forall o :: 0 <= o < |s.chunks| ==> t.chunks[o].pageMap == s.chunks[o].pageMap
    ensures SamePages(g, s, t)
  {
    hide FreeIn, Runs;
    forall o: nat, page: nat, d: bool ensures FreePage(g, t, o, page, d) <==> FreePage(g, s, o, page, d) {
      if o < |s.chunks| { SameMap(g, s.chunks[o], t.chunks[o]); }
    }
  }

  /** A chunk comes as it was counted. */
  lemma WholePages(g: Geometry, s: State, t: State)
    requires g.bias < g.pages && |t.chunks| == |s.chunks| + 1 && t.chunks[..|s.chunks|] == s.chunks
    requires Runs(g, t.chunks[|s.chunks|]) == [Whole(g, false)]
    ensures SamePages(g, s, t)
  {
    hide FreeIn, Runs;
    forall o: nat, page: nat, d: bool ensures FreePage(g, t, o, page, d) <==> FreePage(g, s, o, page, d) {
      if o < |s.chunks| { assert t.chunks[o] == t.chunks[..|s.chunks|][o]; }
      FreeOne(Whole(g, false), page, d);
    }
  }

  lemma SameTwice(g: Geometry, s: State, t: State, u: State)
    requires SamePages(g, s, t) && SamePages(g, t, u)
    ensures SamePages(g, s, u)
  {
    hide FreePage;
  }

  lemma SameThenBecome(g: Geometry, s: State, t: State, u: State, c: nat, y: Run, size: nat)
    requires SamePages(g, s, t) && PagesBecome(g, t, u, c, y.start, y.start + size, None) && FreeThroughout(g, t, c, y)
    ensures PagesBecome(g, s, u, c, y.start, y.start + size, None) && FreeThroughout(g, s, c, y)
  {
    hide FreePage;
  }

  lemma SplitPages(g: Geometry, s: State, t: State, c: nat, a: seq<Run>, x: Run, b: seq<Run>, need: nat, use: Use)
    requires Valid(g, s) && Playing(s, c) && Runs(g, s.chunks[c]) == a + [x] + b && Moved(s, t, c)
    requires x.use.Free? && !use.Free? && 1 <= need <= x.pages && Runs(g, t.chunks[c]) == Carved(a, x, b, need, use)
    ensures PagesBecome(g, s, t, c, x.start, x.start + need, None)
    ensures FreeThroughout(g, s, c, Run(x.start, need, use, x.dirty))
  {
    hide Valid, Moved, Runs, Carved, FreeIn, RunsBecome, PagesBecome, Tiles, Kept, NoTwins, AllMarked;
    InPlayFacts(g, s, c);
    CarvedPages(a, x, b, need, use, g.bias, g.pages);
    MovedPages(g, s, t, c, x.start, x.start + need, None);
  }

  lemma ReleasePages(g: Geometry, s: State, t: State, c: nat, a: seq<Run>, x: Run, b: seq<Run>, dirty: bool)
    requires Valid(g, s) && Playing(s, c) && Runs(g, s.chunks[c]) == a + [x] + b && |t.chunks| == |s.chunks|
    requires forall o :: 0 <= o < |s.chunks| && o != c ==> t.chunks[o].pageMap == s.chunks[o].pageMap
    requires !x.use.Free? && Runs(g, t.chunks[c]) == Joined(a, x, b, dirty)
    ensures PagesBecome(g, s, t, c, x.start, x.start + x.pages, Some(dirty))
  {
    hide Valid, Runs, Joined, RunsBecome, PagesBecome, Tiles, Kept, NoTwins, AllMarked;
    InPlayFacts(g, s, c);
    JoinedPages(a, x, b, dirty, g.bias, g.pages);
    PagesOf(g, s, t, c, x.start, x.start + x.pages, Some(dirty));
  }

  lemma RemarkedPages(g: Geometry, s: State, t: State, c: nat, a: seq<Run>, xs: seq<Run>, ys: seq<Run>, b: seq<Run>)
    requires c < |s.chunks| && Moved(s, t, c) && NoneFree(xs) && NoneFree(ys)
    requires Runs(g, s.chunks[c]) == a + xs + b && Runs(g, t.chunks[c]) == a + ys + b
    ensures SamePages(g, s, t)
  {
    hide Moved, Runs, RunsBecome, FreePage, NoneFree;
    UsedPages(a, xs, ys, b);
    MovedPages(g, s, t, c, 0, 0, None);
  }

  // ---- what purging does to pages ----

  /** The pages of taken, free and dirty before, are in use. */
  ghost predicate PagesTaken(g: Geometry, s: State, t: State, c: nat, taken: seq<Run>) {
    && (forall o: nat, page: nat, d: bool ::
          FreePage(g, t, o, page, d) <==> FreePage(g, s, o, page, d) && !(o == c && Within(taken, page)))
    && forall page: nat :: Within(taken, page) ==> FreePage(g, s, c, page, true)
  }

  /** The pages of taken are free and clean. */
  ghost predicate PagesGiven(g: Geometry, s: State, t: State, c: nat, taken: seq<Run>) {
    forall o: nat, page: nat, d: bool ::
      FreePage(g, t, o, page, d) <==> if o == c && Within(taken, page) then !d else FreePage(g, s, o, page, d)
  }

  lemma WithinMore(taken: seq<Run>, y: Run, page: nat)
    ensures Within(taken + [y], page) <==> Within(taken, page) || Covers(y, page)
    ensures !Within([], page)
  {
    var more := taken + [y];
    if k :| 0 <= k < |taken| && taken[k].start <= page < taken[k].start + taken[k].pages { assert more[k] == taken[k]; }
    if Covers(y, page) { assert more[|taken|] == y; }
  }

  lemma NothingTaken(g: Geometry, s: State, c: nat)
    ensures PagesTaken(g, s, s, c, []) && PagesGiven(g, s, s, c, [])
  {
    hide FreePage;
  }

  lemma TakenStep(g: Geometry, s: State, t: State, u: State, c: nat, taken: seq<Run>, x: Run)
    requires PagesTaken(g, s, t, c, taken) && PagesBecome(g, t, u, c, x.start, x.start + x.pages, None)
    requires x.dirty && FreeThroughout(g, t, c, Taken(x))
    ensures PagesTaken(g, s, u, c, taken + [Taken(x)])
  {
    hide FreePage, Within;
    forall page: nat
      ensures Within(taken + [Taken(x)], page) <==> Within(taken, page) || x.start <= page < x.start + x.pages
    {
      WithinMore(taken, Taken(x), page);
    }
  }

  lemma GivenStep(g: Geometry, s: State, t: State, u: State, c: nat, taken: seq<Run>, k: nat)
    requires k < |taken| && PagesGiven(g, s, t, c, taken[..k])
    requires PagesBecome(g, t, u, c, taken[k].start, taken[k].start + taken[k].pages, Some(false))
    ensures PagesGiven(g, s, u, c, taken[..k + 1])
  {
    hide FreePage, Within;
    assert taken[..k + 1] == taken[..k] + [taken[k]];
    forall page: nat ensures Within(taken[..k + 1], page) <==> Within(taken[..k], page) || Covers(taken[k], page) {
      WithinMore(taken[..k], taken[k], page);
    }
  }

  lemma FlagPages(g: Geometry, s: State, c: nat, m: seq<Page>)
    requires c < |s.chunks| && Runs(g, WithMap(s, c, m).chunks[c]) == Runs(g, s.chunks[c])
    ensures SamePages(g, s, WithMap(s, c, m))
  {
    hide FreeIn, Runs;
  }

  /** Pages taken and given back have become clean. */
  lemma PurgePages(g: Geometry, s: State, t: State, u: State, v: State, c: nat, taken: seq<Run>)
    requires PagesTaken(g, s, t, c, taken) && SamePages(g, t, u) && PagesGiven(g, u, v, c, taken)
    ensures PagesGiven(g, s, v, c, taken) && Cleaned(g, s, v)
  {
    hide FreePage, Within;
    assert PagesGiven(g, s, v, c, taken);
  }

  lemma NothingCleaned(g: Geometry, s: State)
    ensures Cleaned(g, s, s)
  {
    hide FreePage;
  }

  lemma CleanedTwice(g: Geometry, s: State, t: State, u: State)
    requires Cleaned(g, s, t) && Cleaned(g, t, u)
    ensures Cleaned(g, s, u)
  {
    hide FreePage;
  }

  /** The other chunks keep their maps and records; one of them may have gone back to the system. */
  ghost predicate OthersKept(s: State, t: State, c: nat) {
    && |t.chunks| == |s.chunks|
    && forall o :: 0 <= o < |s.chunks| && o != c ==> t.chunks[o] == s.chunks[o].(mapped := t.chunks[o].mapped)
  }

  /** In no chunk with dirty pages is a dirty free run beside a clean one. */
  ghost predicate Unfragmented(s: State) {
    forall k :: k in s.chunksDirty ==> k.chunk < |s.chunks| && s.chunks[k.chunk].nrunsAdjac == 0
  }

  lemma NotFragmented(s: State, k: DirtyKey)
    requires Unfragmented(s) && k in s.chunksDirty
    ensures k.chunk < |s.chunks| && s.chunks[k.chunk].nrunsAdjac == 0
  {
  }

  lemma {:induction false} SameDirtySum(a: seq<Chunk>, b: seq<Chunk>)
    requires |a| == |b| && forall o :: 0 <= o < |a| ==> a[o].ndirty == b[o].ndirty
    ensures DirtySum(a) == DirtySum(b)
    decreases |a|
  {
    if a != [] { SameDirtySum(a[..|a| - 1], b[..|b| - 1]); }
  }

  /** A chunk purged of all its dirty pages leaves the others as fragmented as they were. */
  lemma StillUnfragmented(g: Geometry, s: State, t: State, c: nat, npurged: nat)
    requires Valid(g, s) && Valid(g, t) && Unfragmented(s) && c < |s.chunks| && OthersKept(s, t, c)
    requires npurged == s.chunks[c].ndirty && t.ndirty + npurged == s.ndirty
    ensures Unfragmented(t)
  {
    hide Sound, NoTwins, RunsFrom, ActiveSum, FreeAt, FreeCount, Adjacent, DirtyPages;
    DirtySumUpdate(s.chunks, c, t.chunks[c]);
    SameDirtySum(s.chunks[c := t.chunks[c]], t.chunks);
    assert t.chunks[c].ndirty == 0;
    forall k | k in t.chunksDirty ensures k.chunk < |t.chunks| && t.chunks[k.chunk].nrunsAdjac == 0 {
      DirtyPlaying(g, t, k);
      var ch := t.chunks[k.chunk];
      assert k.chunk != c;
      assert ChunkOk(g, s, k.chunk);
      assert DirtyKey(k.chunk, ch.nrunsAvail, ch.nrunsAdjac) in s.chunksDirty;
    }
  }

  // ---- what a release does ----

  /** Pages lo to hi - 1 of chunk c are given up, and free and dirty or clean as told: no other page changes, and the
      counters follow. A chunk that becomes a single free run is the spare, and its pages do not count as dirty. */
  ghost predicate Freed(g: Geometry, s: State, t: State, c: nat, lo: nat, hi: nat, dirty: bool) {
    && PagesBecome(g, s, t, c, lo, hi, Some(dirty)) && lo <= hi
    && c < |s.chunks| == |t.chunks| && g.bias < g.pages && t.nactive + (hi - lo) == s.nactive
    && var emptied := |Runs(g, t.chunks[c])| == 1;
    && t.spare == (if emptied then Some(c) else s.spare)
    && t.ndirty + (if emptied && dirty then g.pages - g.bias else 0) == s.ndirty + (if dirty then hi - lo else 0)
  }

  /** With a multiplier that is not negative, more dirty pages than one for every 2^lgDirtyMult active ones are purged:
      just then some become clean, and afterwards there are no more than that, but for those others are purging, and less
      than a chunk fewer unless some chunk is fragmented. */
  ghost predicate Tidied(g: Geometry, lgDirtyMult: int, npurgatory: int, s: State, t: State) {
    && Cleaned(g, s, t) && t.nactive == s.nactive && |t.chunks| == |s.chunks|
    && (lgDirtyMult < 0 || s.ndirty - npurgatory <= Shr(s.nactive, lgDirtyMult) ==> t == s)
    && (lgDirtyMult >= 0 ==> t.ndirty - npurgatory <= Shr(t.nactive, lgDirtyMult))
    && (lgDirtyMult >= 0 && Unfragmented(s) && t != s ==> t.ndirty - npurgatory > Shr(t.nactive, lgDirtyMult) - g.pages)
  }

  /** What arena_run_dalloc does, as far as pages and counters go: the release comes to the state r, and if the pages were
      dirty others may be purged. */
  ghost predicate Dalloced(g: Geometry, lgDirtyMult: int, npurgatory: int, s: State, r: State, t: State,
                           c: nat, lo: nat, hi: nat, dirty: bool)
  {
    Freed(g, s, r, c, lo, hi, dirty) && if dirty then Tidied(g, lgDirtyMult, npurgatory, r, t) else t == r
  }

  lemma SameThenFreed(g: Geometry, s: State, t: State, u: State, c: nat, lo: nat, hi: nat, dirty: bool)
    requires SamePages(g, s, t) && Freed(g, t, u, c, lo, hi, dirty) && |t.chunks| == |s.chunks|
    requires t.nactive == s.nactive && t.ndirty == s.ndirty && t.spare == s.spare
    ensures Freed(g, s, u, c, lo, hi, dirty)
  {
    hide FreePage, Runs;
  }

  lemma BecomeThenSame(g: Geometry, s: State, t: State, u: State, c: nat, lo: nat, hi: nat, now: Option<bool>)
    requires PagesBecome(g, s, t, c, lo, hi, now) && SamePages(g, t, u)
    ensures PagesBecome(g, s, u, c, lo, hi, now)
  {
    hide FreePage;
  }

  /** No page is free both dirty and clean. */
  lemma OneDirtiness(g: Geometry, s: State, o: nat, page: nat)
    requires Valid(g, s)
    ensures !(FreePage(g, s, o, page, true) && FreePage(g, s, o, page, false))
  {
    if o < |s.chunks| && FreePage(g, s, o, page, true) {
      hide RunsFrom, NoTwins, Kept, FreeIn, AllMarked;
      assert ChunkOk(g, s, o);
      FreeOnce(Runs(g, s.chunks[o]), g.bias, g.pages, page);
    }
  }

  // ---- what an aligned allocation does ----

  /** Pages lo to hi - 1 of chunk c have come into use. The other pages are as they were, or, unless exact is asked for,
      some dirty free ones have become clean. */
  ghost predicate OnlyTaken(g: Geometry, s: State, t: State, c: nat, lo: nat, hi: nat, exact: bool) {
    forall o: nat, page: nat ::
      var used := o == c && lo <= page < hi;
      && (FreePage(g, t, o, page, true) || FreePage(g, t, o, page, false) <==>
          !used && (FreePage(g, s, o, page, true) || FreePage(g, s, o, page, false)))
      && (FreePage(g, t, o, page, true) ==> FreePage(g, s, o, page, true))
      && (exact && !used ==> (FreePage(g, t, o, page, true) <==> FreePage(g, s, o, page, true)))
      && (exact && !used ==> (FreePage(g, t, o, page, false) <==> FreePage(g, s, o, page, false)))
  }

  lemma JustTaken(g: Geometry, s: State, t: State, c: nat, z: Run, exact: bool)
    requires PagesBecome(g, s, t, c, z.start, z.start + z.pages, None)
    ensures OnlyTaken(g, s, t, c, z.start, z.start + z.pages, exact)
  {
    hide FreePage;
  }

  /** Pages trimmed off a run that was free are what they were before it was taken. */
  lemma Trimmed(g: Geometry, lgDirtyMult: int, npurgatory: int, s: State, t: State, r: State, u: State, c: nat, z: Run,
                lo: nat, hi: nat, lo': nat, hi': nat, exact: bool)
    requires z.start <= lo <= hi <= z.start + z.pages && (lo' == hi || hi' == lo) && lo' <= hi'
    requires var from, to := (if lo < lo' then lo else lo'), (if hi > hi' then hi else hi');
             OnlyTaken(g, s, t, c, from, to, exact)
    requires Dalloced(g, lgDirtyMult, npurgatory, t, r, u, c, lo, hi, z.dirty) && exact == (!z.dirty || lgDirtyMult < 0)
    requires Valid(g, s) && FreeThroughout(g, s, c, z)
    ensures OnlyTaken(g, s, u, c, lo', hi', exact)
    ensures z.dirty && lgDirtyMult >= 0 ==> u.ndirty - npurgatory <= Shr(u.nactive, lgDirtyMult)
  {
    hide FreePage, Valid, Shr, Runs;
    forall o: nat, page: nat ensures !(FreePage(g, s, o, page, true) && FreePage(g, s, o, page, false)) {
      OneDirtiness(g, s, o, page);
    }
  }

  lemma StillTakenOnly(g: Geometry, s: State, t: State, u: State, c: nat, lo: nat, hi: nat, exact: bool)
    requires OnlyTaken(g, s, t, c, lo, hi, exact) && SamePages(g, t, u)
    ensures OnlyTaken(g, s, u, c, lo, hi, exact)
  {
    hide FreePage;
  }
}
