/** arena.c, arena.h: the page map of one chunk and the runs it describes. Sizes and positions are in pages. */
module PageRuns {

  /** One entry of the page map. size is the run size, or the page's offset in a small run. */
  datatype Page = Page(alloc: bool, large: bool, dirty: bool, unzeroed: bool, bin: nat, size: nat)

  const BININD_INVALID: nat := 0xff

  // ---- arena_mapbits_*_set ----

  function UnallocatedSet(size: nat, dirty: bool, unzeroed: bool): Page {
    Page(false, false, dirty, unzeroed, BININD_INVALID, size)
  }

  function LargeSet(p: Page, size: nat, dirty: bool): Page {
    Page(true, true, dirty, p.unzeroed, BININD_INVALID, size)
  }

  function SmallSet(p: Page, runind: nat, bin: nat, dirty: bool): Page {
    Page(true, false, dirty, p.unzeroed, bin, runind)
  }

  // ---- runs ----

  datatype Use = Free | Large | Small(bin: nat)

  datatype Run = Run(start: nat, pages: nat, use: Use, dirty: bool)

  function Last(rs: seq<Run>): Run
    requires rs != []
  {
    rs[|rs| - 1]
  }

  function End(rs: seq<Run>, lo: nat): nat {
    if rs == [] then lo else Last(rs).start + Last(rs).pages
  }

  /** The runs lie end to end from lo to hi. */
  predicate Tiles(rs: seq<Run>, lo: nat, hi: nat)
    decreases |rs|
  {
    if rs == [] then lo == hi
    else rs[0].start == lo && rs[0].pages >= 1 && Tiles(rs[1..], lo + rs[0].pages, hi)
  }

  /** The first and last entries of the run say what it is; a small run is marked throughout. bins gives the run size
      of every bin. */
  predicate Marks(m: seq<Page>, bins: seq<nat>, r: Run) {
    && r.pages >= 1 && r.start + r.pages <= |m|
    && var first, last := m[r.start], m[r.start + r.pages - 1];
    && first.dirty == last.dirty == r.dirty
    && match r.use
       case Free =>
         && !first.alloc && !last.alloc && !first.large && !last.large
         && first.size == last.size == r.pages
       case Large =>
         && first.alloc && last.alloc && first.large && last.large
         && first.size == r.pages && (r.pages > 1 ==> last.size == 0)
       case Small(bin) =>
         && bin < |bins| && bins[bin] == r.pages
         && forall k :: r.start <= k < r.start + r.pages ==>
              m[k].alloc && !m[k].large && m[k].bin == bin && m[k].size == k - r.start
  }

  predicate AllMarked(m: seq<Page>, bins: seq<nat>, rs: seq<Run>) {
    forall r :: r in rs ==> Marks(m, bins, r)
  }

  /** The run that the entry of its first page announces */
  function RunAt(m: seq<Page>, bins: seq<nat>, i: nat): Run
    requires i < |m|
  {
    var p := m[i];
    if !p.alloc then Run(i, p.size, Free, p.dirty)
    else if p.large then Run(i, p.size, Large, p.dirty)
    else Run(i, if p.bin < |bins| then bins[p.bin] else 0, Small(p.bin), p.dirty)
  }

  /** The runs met by walking the map from page i, each step as long as the run it stands on */
  function RunsFrom(m: seq<Page>, bins: seq<nat>, i: nat): seq<Run>
    decreases |m| - i
  {
    if i >= |m| then []
    else
      var r := RunAt(m, bins, i);
      if r.pages == 0 || i + r.pages > |m| then [r] else [r] + RunsFrom(m, bins, i + r.pages)
  }

  /** The walk from page lo crosses runs that are all properly marked and ends at the end of the chunk. */
  predicate Sound(m: seq<Page>, bins: seq<nat>, lo: nat) {
    var rs := RunsFrom(m, bins, lo);
    Tiles(rs, lo, |m|) && AllMarked(m, bins, rs)
  }

  /** Only one list of runs fits a page map. */
  lemma {:induction false} RunsUnique(m: seq<Page>, bins: seq<nat>, lo: nat, rs: seq<Run>)
    requires Tiles(rs, lo, |m|) && AllMarked(m, bins, rs)
    ensures RunsFrom(m, bins, lo) == rs && Sound(m, bins, lo)
    decreases |rs|
  {
    if rs != [] {
      assert rs[0] in rs && Marks(m, bins, rs[0]);
      assert RunAt(m, bins, lo) == rs[0];
      forall r | r in rs[1..] ensures Marks(m, bins, r) { assert r in rs; }
      RunsUnique(m, bins, lo + rs[0].pages, rs[1..]);
      assert rs == [rs[0]] + rs[1..];
    }
  }

  lemma {:induction false} TilesJoin(a: seq<Run>, b: seq<Run>, lo: nat, mid: nat, hi: nat)
    requires Tiles(a, lo, mid) && Tiles(b, mid, hi)
    ensures Tiles(a + b, lo, hi)
    decreases |a|
  {
    if a == [] {
      assert a + b == b;
    } else {
      TilesJoin(a[1..], b, lo + a[0].pages, mid, hi);
      assert (a + b)[1..] == a[1..] + b;
    }
  }

  lemma {:induction false} TilesSplit(a: seq<Run>, b: seq<Run>, lo: nat, hi: nat)
    requires Tiles(a + b, lo, hi)
    ensures Tiles(a, lo, End(a, lo)) && Tiles(b, End(a, lo), hi)
    decreases |a|
  {
    if a == [] {
      assert a + b == b;
    } else {
      assert (a + b)[1..] == a[1..] + b;
      TilesSplit(a[1..], b, lo + a[0].pages, hi);
      assert a[0] == (a + b)[0];
      assert End(a[1..], lo + a[0].pages) == End(a, lo);
    }
  }

  lemma {:induction false} TilesWithin(rs: seq<Run>, lo: nat, hi: nat)
    requires Tiles(rs, lo, hi)
    ensures lo <= hi && forall r :: r in rs ==> lo <= r.start && r.pages >= 1 && r.start + r.pages <= hi
    ensures rs != [] ==> rs[0].start == lo && End(rs, lo) == hi && lo < hi
    decreases |rs|
  {
    if rs != [] {
      TilesWithin(rs[1..], lo + rs[0].pages, hi);
      forall r | r in rs ensures lo <= r.start && r.pages >= 1 && r.start + r.pages <= hi {
        assert r == rs[0] || r in rs[1..];
      }
      if |rs| > 1 { assert Last(rs) == Last(rs[1..]); }
    }
  }

  /** A run and what lies on either side of it */
  lemma Around(a: seq<Run>, x: Run, b: seq<Run>, lo: nat, hi: nat)
    requires Tiles(a + [x] + b, lo, hi)
    ensures Tiles(a, lo, x.start) && Tiles(b, x.start + x.pages, hi) && x.pages >= 1 &&
            Tiles([x], x.start, x.start + x.pages)
    ensures lo <= x.start && x.start + x.pages <= hi
    ensures a == [] <==> x.start == lo
    ensures b == [] <==> x.start + x.pages == hi
    ensures a != [] ==> Last(a).start + Last(a).pages == x.start
    ensures b != [] ==> b[0].start == x.start + x.pages
    ensures forall r :: r in a ==> lo <= r.start && r.pages >= 1 && r.start + r.pages <= x.start
    ensures forall r :: r in b ==> x.start + x.pages <= r.start && r.pages >= 1 && r.start + r.pages <= hi
  {
    TilesSplit(a + [x], b, lo, hi);
    TilesSplit(a, [x], lo, End(a + [x], lo));
    assert [x][1..] == [];
    assert Last(a + [x]) == x;
    TilesWithin(a, lo, x.start);
    TilesWithin(b, x.start + x.pages, hi);
  }

  /** What a run's marks say does not depend on other pages. */
  lemma MarksFrame(m: seq<Page>, n: seq<Page>, bins: seq<nat>, r: Run)
    requires Marks(m, bins, r) && |n| == |m|
    requires forall k :: r.start <= k < r.start + r.pages ==> n[k] == m[k]
    ensures Marks(n, bins, r)
  {
    assert n[r.start] == m[r.start] && n[r.start + r.pages - 1] == m[r.start + r.pages - 1];
  }

  /** Remarking the pages of some runs as other runs changes the list there and nowhere else. */
  lemma Remarked(m: seq<Page>, n: seq<Page>, bins: seq<nat>, lo: nat,
                 a: seq<Run>, xs: seq<Run>, ys: seq<Run>, b: seq<Run>, from: nat, to: nat)
    requires |n| == |m| && Tiles(a, lo, from) && Tiles(xs, from, to) && Tiles(b, to, |m|)
    requires AllMarked(m, bins, a + xs + b)
    requires Tiles(ys, from, to) && AllMarked(n, bins, ys)
    requires forall k :: 0 <= k < |m| && !(from <= k < to) ==> n[k] == m[k]
    ensures RunsFrom(n, bins, lo) == a + ys + b && Sound(n, bins, lo) && Tiles(a + ys + b, lo, |n|)
  {
    TilesWithin(a, lo, from);
    TilesWithin(xs, from, to);
    TilesWithin(b, to, |m|);
    forall r | r in a + ys + b ensures Marks(n, bins, r) {
      if r in a {
        assert r in a + xs + b;
        MarksFrame(m, n, bins, r);
      } else if r in b {
        assert r in a + xs + b;
        MarksFrame(m, n, bins, r);
      }
    }
    TilesJoin(a, ys, lo, from, to);
    TilesJoin(a + ys, b, lo, to, |m|);
    RunsUnique(n, bins, lo, a + ys + b);
  }

  // ---- what the counters count ----

  function FreeCount(rs: seq<Run>): nat {
    if rs == [] then 0 else (if rs[0].use.Free? then 1 else 0) + FreeCount(rs[1..])
  }

  function DirtyPages(rs: seq<Run>): nat {
    if rs == [] then 0 else (if rs[0].use.Free? && rs[0].dirty then rs[0].pages else 0) + DirtyPages(rs[1..])
  }

  function ActivePages(rs: seq<Run>): nat {
    if rs == [] then 0 else (if rs[0].use.Free? then 0 else rs[0].pages) + ActivePages(rs[1..])
  }

  predicate BothFree(r: Run, s: Run) {
    r.use.Free? && s.use.Free?
  }

  /** Neighbouring pairs of free runs */
  function Adjacent(rs: seq<Run>): nat {
    if |rs| < 2 then 0 else (if BothFree(rs[0], rs[1]) then 1 else 0) + Adjacent(rs[1..])
  }

  predicate Twins(r: Run, s: Run) {
    r.use.Free? && s.use.Free? && r.dirty == s.dirty
  }

  /** No two neighbouring free runs could be one. */
  predicate NoTwins(rs: seq<Run>) {
    |rs| < 2 || (!Twins(rs[0], rs[1]) && NoTwins(rs[1..]))
  }

  function Joint(a: seq<Run>, b: seq<Run>): nat {
    if a != [] && b != [] && BothFree(Last(a), b[0]) then 1 else 0
  }

  lemma {:induction false} Concat(a: seq<Run>, b: seq<Run>)
    ensures FreeCount(a + b) == FreeCount(a) + FreeCount(b)
    ensures DirtyPages(a + b) == DirtyPages(a) + DirtyPages(b)
    ensures ActivePages(a + b) == ActivePages(a) + ActivePages(b)
    ensures Adjacent(a + b) == Adjacent(a) + Joint(a, b) + Adjacent(b)
    ensures NoTwins(a + b) <==> NoTwins(a) && NoTwins(b) && (a != [] && b != [] ==> !Twins(Last(a), b[0]))
    decreases |a|
  {
    if a == [] {
      assert a + b == b;
    } else {
      assert (a + b)[1..] == a[1..] + b;
      Concat(a[1..], b);
      if |a| > 1 { assert (a + b)[1] == a[1] && Last(a) == Last(a[1..]); }
      else if b != [] { assert (a + b)[1] == b[0]; }
    }
  }

  /** There are fewer adjacencies than free runs. */
  lemma {:induction false} FewerAdjacent(rs: seq<Run>)
    ensures FreeCount(rs) == 0 ==> Adjacent(rs) == 0
    ensures FreeCount(rs) > 0 ==> Adjacent(rs) < FreeCount(rs)
    decreases |rs|
  {
    if rs != [] {
      FewerAdjacent(rs[1..]);
    }
  }

  /** The tree of available runs knows a free run by its size and place. */
  predicate FreeAt(rs: seq<Run>, pages: nat, start: nat) {
    Run(start, pages, Free, true) in rs || Run(start, pages, Free, false) in rs
  }

  predicate NoneFree(rs: seq<Run>) {
    forall r :: r in rs ==> !r.use.Free?
  }

  lemma {:induction false} NoneFreeCounts(rs: seq<Run>)
    requires NoneFree(rs)
    ensures FreeCount(rs) == 0 && DirtyPages(rs) == 0 && Adjacent(rs) == 0 && NoTwins(rs)
    decreases |rs|
  {
    if rs != [] {
      assert rs[0] in rs;
      forall r | r in rs[1..] ensures !r.use.Free? { assert r in rs; }
      NoneFreeCounts(rs[1..]);
    }
  }

  /** Allocated runs between two parts keep the parts' free runs apart. */
  lemma Hole(a: seq<Run>, xs: seq<Run>, b: seq<Run>)
    requires xs != [] && NoneFree(xs)
    ensures FreeCount(a + xs + b) == FreeCount(a) + FreeCount(b)
    ensures DirtyPages(a + xs + b) == DirtyPages(a) + DirtyPages(b)
    ensures Adjacent(a + xs + b) == Adjacent(a) + Adjacent(b)
    ensures NoTwins(a + xs + b) <==> NoTwins(a) && NoTwins(b)
    ensures forall p, s :: FreeAt(a + xs + b, p, s) <==> FreeAt(a, p, s) || FreeAt(b, p, s)
  {
    NoneFreeCounts(xs);
    Concat(a, xs);
    Concat(a + xs, b);
    assert Last(a + xs) == Last(xs) && xs[0] in xs && Last(xs) in xs;
    assert NoTwins(a + xs) <==> NoTwins(a);
    assert !Twins(Last(a + xs), if b == [] then xs[0] else b[0]);
  }

  /** One free run between two parts */
  lemma Middle(a: seq<Run>, x: Run, b: seq<Run>)
    requires x.use.Free?
    ensures FreeCount(a + [x] + b) == FreeCount(a) + 1 + FreeCount(b)
    ensures DirtyPages(a + [x] + b) == DirtyPages(a) + (if x.dirty then x.pages else 0) + DirtyPages(b)
    ensures Adjacent(a + [x] + b) == Adjacent(a) + Joint(a, [x]) + Joint([x], b) + Adjacent(b)
    ensures NoTwins(a + [x] + b) <==>
              NoTwins(a) && NoTwins(b) && (a != [] ==> !Twins(Last(a), x)) && (b != [] ==> !Twins(x, b[0]))
    ensures forall p, s :: FreeAt(a + [x] + b, p, s) <==>
            FreeAt(a, p, s) || (p == x.pages && s == x.start) || FreeAt(b, p, s)
  {
    Concat(a, [x]);
    Concat(a + [x], b);
    assert Last(a + [x]) == x && Last([x]) == x;
    assert [x][1..] == [];
    assert Run(x.start, x.pages, Free, x.dirty) == x;
  }

  /** Pages in use before, between and after */
  lemma ActiveThree(a: seq<Run>, xs: seq<Run>, b: seq<Run>)
    ensures ActivePages(a + xs + b) == ActivePages(a) + ActivePages(xs) + ActivePages(b)
  {
    Concat(a, xs);
    Concat(a + xs, b);
  }

  // ---- what an allocation and a release do to the list ----

  /** x gives its first need pages away; what is left of it stays free. */
  function Carved(a: seq<Run>, x: Run, b: seq<Run>, need: nat, use: Use): seq<Run>
    requires 1 <= need <= x.pages
  {
    a + [Run(x.start, need, use, x.dirty)] + (Leftover(x, need) + b)
  }

  function Leftover(x: Run, need: nat): seq<Run>
    requires 1 <= need <= x.pages
  {
    if need < x.pages then [Run(x.start + need, x.pages - need, Free, x.dirty)] else []
  }

  /** The carved list, read in two other ways */
  lemma CarvedAs(a: seq<Run>, x: Run, b: seq<Run>, need: nat, use: Use)
    requires 1 <= need <= x.pages
    ensures var y, rest := Run(x.start, need, use, x.dirty), Leftover(x, need);
            Carved(a, x, b, need, use) == a + ([y] + rest) + b == a + [y] + rest + b
  {
  }

  /** Carving keeps the tiling, keeps twins away and puts need pages to use. */
  lemma CarvedFits(a: seq<Run>, x: Run, b: seq<Run>, need: nat, use: Use, lo: nat, hi: nat)
    requires x.use.Free? && !use.Free? && 1 <= need <= x.pages && NoTwins(a + [x] + b) && Tiles(a + [x] + b, lo, hi)
    ensures NoTwins(Carved(a, x, b, need, use)) && Tiles(Carved(a, x, b, need, use), lo, hi)
    ensures Tiles([Run(x.start, need, use, x.dirty)] + Leftover(x, need), x.start, x.start + x.pages)
    ensures ActivePages(Carved(a, x, b, need, use)) == ActivePages(a + [x] + b) + need
    ensures DirtyPages(Carved(a, x, b, need, use)) + (if x.dirty then need else 0) == DirtyPages(a + [x] + b)
  {
    hide FreeCount, DirtyPages, Adjacent, FreeAt, NoTwins, Joint, Carved, Leftover;
    var y, rest := Run(x.start, need, use, x.dirty), Leftover(x, need);
    CarvedAs(a, x, b, need, use);
    Around(a, x, b, lo, hi);
    PiecesTile(x, need, use);
    TilesJoin(a, [y] + rest, lo, x.start, x.start + x.pages);
    TilesJoin(a + ([y] + rest), b, lo, x.start + x.pages, hi);
    CarvedApart(a, x, b, need, use);
    ActiveThree(a, [x], b);
    ActiveThree(a, [y] + rest, b);
    CarvedDirty(a, x, b, need, use);
  }

  lemma CarvedDirty(a: seq<Run>, x: Run, b: seq<Run>, need: nat, use: Use)
    requires x.use.Free? && !use.Free? && 1 <= need <= x.pages
    ensures DirtyPages(Carved(a, x, b, need, use)) + (if x.dirty then need else 0) == DirtyPages(a + [x] + b)
  {
    hide FreeCount, Adjacent, FreeAt, NoTwins, Joint;
    Middle(a, x, b);
    Hole(a, [Run(x.start, need, use, x.dirty)], Leftover(x, need) + b);
    Concat(Leftover(x, need), b);
    if need < x.pages { assert Leftover(x, need)[1..] == []; }
  }

  lemma PiecesTile(x: Run, need: nat, use: Use)
    requires x.use.Free? && !use.Free? && 1 <= need <= x.pages
    ensures Tiles([Run(x.start, need, use, x.dirty)] + Leftover(x, need), x.start, x.start + x.pages)
    ensures ActivePages([x]) == 0 && ActivePages([Run(x.start, need, use, x.dirty)] + Leftover(x, need)) == need
  {
    var y, rest := Run(x.start, need, use, x.dirty), Leftover(x, need);
    assert ([y] + rest)[1..] == rest && [x][1..] == [];
    if rest != [] { assert rest[1..] == []; }
  }

  lemma CarvedApart(a: seq<Run>, x: Run, b: seq<Run>, need: nat, use: Use)
    requires x.use.Free? && !use.Free? && 1 <= need <= x.pages && NoTwins(a + [x] + b)
    ensures NoTwins(Carved(a, x, b, need, use))
  {
    hide FreeCount, DirtyPages, Adjacent, FreeAt, NoTwins, Joint;
    var y, rest := Run(x.start, need, use, x.dirty), Leftover(x, need);
    Hole(a, [y], rest + b);
    Middle(a, x, b);
    if rest == [] {
      assert rest + b == b;
    } else {
      Middle([], rest[0], b);
      assert [] + [rest[0]] + b == rest + b;
      NoTwinsNil();
    }
  }

  lemma NoTwinsNil()
    ensures NoTwins([])
  {
  }

  /** A free run and the run behind it, made one if they are twins */
  function JoinedForward(f: Run, b: seq<Run>): (Run, seq<Run>) {
    if b != [] && Twins(f, b[0]) then (f.(pages := f.pages + b[0].pages), b[1..]) else (f, b)
  }

  function JoinedBackward(a: seq<Run>, f: Run): (seq<Run>, Run) {
    if a != [] && Twins(Last(a), f)
    then (a[..|a| - 1], Run(Last(a).start, Last(a).pages + f.pages, Free, f.dirty)) else (a, f)
  }

  /** x becomes free and joins the free neighbours that are as dirty as it is. */
  function Joined(a: seq<Run>, x: Run, b: seq<Run>, dirty: bool): seq<Run> {
    var (g, rest) := JoinedForward(Run(x.start, x.pages, Free, dirty), b);
    var (front, h) := JoinedBackward(a, g);
    front + [h] + rest
  }

  /** Joining forward leaves no twin behind the run, joining backward none in front of it. */
  lemma JoinedForwardApart(f: Run, b: seq<Run>)
    requires NoTwins(b)
    ensures var (h, rest) := JoinedForward(f, b);
            && NoTwins(rest) && (rest != [] ==> !Twins(h, rest[0])) && h.dirty == f.dirty && h.use == f.use
  {
  }

  lemma JoinedBackwardApart(a: seq<Run>, f: Run, b: seq<Run>)
    requires f.use.Free? && NoTwins(a) && NoTwins(b) && (b != [] ==> !Twins(f, b[0]))
    ensures var (front, h) := JoinedBackward(a, f);
            h.use.Free? && h.dirty == f.dirty && NoTwins(front) && NoTwins(front + [h] + b)
  {
    hide FreeCount, Adjacent, DirtyPages, ActivePages, FreeAt;
    var (front, h) := JoinedBackward(a, f);
    if a != [] && Twins(Last(a), f) {
      assert a == front + [Last(a)] + [];
      Middle(front, Last(a), []);
    }
    Middle(front, h, b);
  }

  lemma JoinedForwardCounts(f: Run, b: seq<Run>)
    requires f.use.Free?
    ensures var (h, rest) := JoinedForward(f, b);
            && ActivePages(rest) == ActivePages(b)
            && (if h.dirty then h.pages else 0) + DirtyPages(rest) == (if f.dirty then f.pages else 0) + DirtyPages(b)
  {
  }

  lemma JoinedBackwardCounts(a: seq<Run>, f: Run)
    requires f.use.Free?
    ensures var (front, k) := JoinedBackward(a, f);
            && ActivePages(front) == ActivePages(a)
            && DirtyPages(front) + (if k.dirty then k.pages else 0) == DirtyPages(a) + (if f.dirty then f.pages else 0)
  {
    if a != [] && Twins(Last(a), f) {
      assert a == a[..|a| - 1] + [Last(a)];
      Concat(a[..|a| - 1], [Last(a)]);
      assert [Last(a)][1..] == [];
    }
  }

  /** Joining moves no page in or out of use, and makes none dirty or clean. */
  lemma JoinedCounts(a: seq<Run>, f: Run, b: seq<Run>)
    requires f.use.Free?
    ensures var (h, rest) := JoinedForward(f, b); var (front, k) := JoinedBackward(a, h);
            && ActivePages(front + [k] + rest) == ActivePages(a) + ActivePages(b)
            && DirtyPages(front + [k] + rest) == DirtyPages(a) + (if f.dirty then f.pages else 0) + DirtyPages(b)
  {
    hide NoTwins, FreeAt, Adjacent, FreeCount;
    var (h, rest) := JoinedForward(f, b);
    var (front, k) := JoinedBackward(a, h);
    JoinedForwardCounts(f, b);
    JoinedBackwardCounts(a, h);
    assert k.use.Free?;
    hide JoinedForward, JoinedBackward;
    Middle(front, k, rest);
    ActiveThree(front, [k], rest);
    assert [k][1..] == [];
  }

  lemma JoinLeftover(x: Run, b: seq<Run>, need: nat)
    requires x.use.Free? && 1 <= need <= x.pages && (b != [] ==> !Twins(x, b[0]))
    ensures JoinedForward(Run(x.start, need, Free, x.dirty), Leftover(x, need) + b) == (x, b)
  {
    if need < x.pages {
      assert (Leftover(x, need) + b)[1..] == b;
    } else {
      assert Leftover(x, need) + b == b;
    }
  }

  /** Releasing a run just allocated brings back the list from before. */
  lemma ReleaseUndoesAllocation(a: seq<Run>, x: Run, b: seq<Run>, need: nat, use: Use)
    requires x.use.Free? && 1 <= need <= x.pages && NoTwins(a + [x] + b)
    ensures Joined(a, Run(x.start, need, use, x.dirty), Leftover(x, need) + b, x.dirty) == a + [x] + b
  {
    hide NoTwins;
    assert (a != [] ==> !Twins(Last(a), x)) && (b != [] ==> !Twins(x, b[0])) by { Middle(a, x, b); }
    JoinLeftover(x, b, need);
  }
}
