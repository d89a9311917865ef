/** arena.c: the chunks of an arena, its two trees and its counters, and what must agree between them */
module ArenaState {
  import opened Wrappers
  import opened PageRuns

  /** map_bias, chunk_npages and the run size of every bin, in pages */
  datatype Geometry = Geometry(bias: nat, pages: nat, bins: seq<nat>)

  predicate Usable(g: Geometry) {
    1 <= g.bias < g.pages && forall k :: 0 <= k < |g.bins| ==> g.bins[k] >= 1
  }

  /** A chunk: its address in pages, its page map and its counters. One that went back to the system is not mapped. */
  datatype Chunk = Chunk(base: nat, mapped: bool, pageMap: seq<Page>, ndirty: nat, nrunsAvail: nat, nrunsAdjac: nat)

  /** An element of runs_avail, with the key it was inserted under */
  datatype AvailKey = AvailKey(pages: nat, chunk: nat, page: nat)

  /** An element of chunks_dirty, with the key it was inserted under */
  datatype DirtyKey = DirtyKey(chunk: nat, navail: nat, nadjac: nat)

  datatype State = State(chunks: seq<Chunk>, runsAvail: set<AvailKey>, chunksDirty: set<DirtyKey>,
                         spare: Option<nat>, ndirty: nat, nactive: nat)

  function Runs(g: Geometry, ch: Chunk): seq<Run> {
    RunsFrom(ch.pageMap, g.bins, g.bias)
  }

  /** Mapped, and not set aside as the spare */
  predicate Playing(s: State, c: nat) {
    c < |s.chunks| && s.chunks[c].mapped && s.spare != Some(c)
  }

  predicate Counted(ch: Chunk, rs: seq<Run>) {
    ch.nrunsAvail == FreeCount(rs) && ch.nrunsAdjac == Adjacent(rs) && ch.ndirty == DirtyPages(rs)
  }

  ghost predicate Listed(avail: set<AvailKey>, c: nat, rs: seq<Run>) {
    forall k: AvailKey :: k.chunk == c ==> (k in avail <==> FreeAt(rs, k.pages, k.page))
  }

  ghost predicate Queued(dirty: set<DirtyKey>, c: nat, ch: Chunk) {
    forall k: DirtyKey :: k.chunk == c ==>
      (k in dirty <==> ch.ndirty > 0 && k.navail == ch.nrunsAvail && k.nadjac == ch.nrunsAdjac)
  }

  /** The counters of chunk c, and what the trees hold for it, are right for the runs rs. */
  ghost predicate Kept(s: State, c: nat, rs: seq<Run>)
    requires c < |s.chunks|
  {
    Counted(s.chunks[c], rs) && Listed(s.runsAvail, c, rs) && Queued(s.chunksDirty, c, s.chunks[c])
  }

  /** The page map of chunk c is sound and coalesced, and the records of c are those of its runs; a chunk out of play is
      one free run that nothing records. */
  ghost predicate ChunkOk(g: Geometry, s: State, c: nat)
    requires c < |s.chunks|
  {
    && var ch := s.chunks[c];
    && |ch.pageMap| == g.pages && Sound(ch.pageMap, g.bins, g.bias) && NoTwins(Runs(g, ch))
    && (Playing(s, c) ==> Kept(s, c, Runs(g, ch)))
    && (!Playing(s, c) ==> Kept(s, c, []) && |Runs(g, ch)| == 1 && Runs(g, ch)[0].use.Free?)
  }

  function DirtySum(chunks: seq<Chunk>): nat {
    if chunks == [] then 0 else DirtySum(chunks[..|chunks| - 1]) + chunks[|chunks| - 1].ndirty
  }

  function ActiveSum(g: Geometry, chunks: seq<Chunk>): nat {
    if chunks == [] then 0
    else ActiveSum(g, chunks[..|chunks| - 1]) + ActivePages(Runs(g, chunks[|chunks| - 1]))
  }

  ghost predicate KeysInRange(s: State) {
    && (forall k :: k in s.runsAvail ==> k.chunk < |s.chunks|)
    && (forall k :: k in s.chunksDirty ==> k.chunk < |s.chunks|)
    && (s.spare.Some? ==> s.spare.value < |s.chunks| && s.chunks[s.spare.value].mapped)
  }

  ghost predicate Valid(g: Geometry, s: State) {
    && Usable(g) && KeysInRange(s)
    && (forall c :: 0 <= c < |s.chunks| ==> ChunkOk(g, s, c))
    && s.ndirty == DirtySum(s.chunks) && s.nactive == ActiveSum(g, s.chunks)
  }

  lemma {:induction false} DirtySumUpdate(chunks: seq<Chunk>, c: nat, ch: Chunk)
    requires c < |chunks|
    ensures DirtySum(chunks[c := ch]) + chunks[c].ndirty == DirtySum(chunks) + ch.ndirty
    ensures chunks[c].ndirty <= DirtySum(chunks)
    decreases |chunks|
  {
    var n := |chunks| - 1;
    if c < n {
      assert chunks[c := ch][..n] == chunks[..n][c := ch];
      DirtySumUpdate(chunks[..n], c, ch);
    } else {
      assert chunks[c := ch][..n] == chunks[..n];
    }
  }

  lemma {:induction false} ActiveSumUpdate(g: Geometry, chunks: seq<Chunk>, c: nat, ch: Chunk)
    requires c < |chunks|
    ensures ActiveSum(g, chunks[c := ch]) + ActivePages(Runs(g, chunks[c])) ==
            ActiveSum(g, chunks) + ActivePages(Runs(g, ch))
    ensures ActivePages(Runs(g, chunks[c])) <= ActiveSum(g, chunks)
    decreases |chunks|
  {
    hide Runs, ActivePages;
    var n := |chunks| - 1;
    if c < n {
      assert chunks[c := ch][..n] == chunks[..n][c := ch];
      ActiveSumUpdate(g, chunks[..n], c, ch);
    } else {
      assert chunks[c := ch][..n] == chunks[..n];
    }
  }

  /** From s to t only the map and the counters of chunk c changed, and what the trees hold for it. */
  ghost predicate Moved(s: State, t: State, c: nat)
    requires c < |s.chunks|
  {
    && |t.chunks| == |s.chunks| && t.chunks == s.chunks[c := t.chunks[c]]
    && t.chunks[c].base == s.chunks[c].base && t.chunks[c].mapped == s.chunks[c].mapped
    && |t.chunks[c].pageMap| == |s.chunks[c].pageMap| && t.spare == s.spare
    && (forall k: AvailKey :: k.chunk != c ==> (k in t.runsAvail <==> k in s.runsAvail))
    && (forall k: DirtyKey :: k.chunk != c ==> (k in t.chunksDirty <==> k in s.chunksDirty))
    && t.ndirty + s.chunks[c].ndirty == s.ndirty + t.chunks[c].ndirty
  }

  lemma MovedTwice(s: State, t: State, u: State, c: nat)
    requires c < |s.chunks| && Moved(s, t, c) && Moved(t, u, c)
    ensures Moved(s, u, c)
  {
  }

  /** The state with another page map in chunk c */
  function WithMap(s: State, c: nat, m: seq<Page>): State
    requires c < |s.chunks|
  {
    s.(chunks := s.chunks[c := s.chunks[c].(pageMap := m)])
  }

  lemma MapOnly(s: State, c: nat, m: seq<Page>, rs: seq<Run>)
    requires c < |s.chunks| && Kept(s, c, rs) && |m| == |s.chunks[c].pageMap|
    ensures Kept(WithMap(s, c, m), c, rs) && Moved(s, WithMap(s, c, m), c)
  {
    hide FreeCount, DirtyPages, Adjacent, FreeAt;
  }

  lemma ActiveOnly(s: State, t: State, c: nat, rs: seq<Run>, n: nat)
    requires c < |s.chunks| && Moved(s, t, c) && Kept(t, c, rs)
    ensures Moved(s, t.(nactive := n), c) && Kept(t.(nactive := n), c, rs)
  {
    hide Counted, Listed, Queued;
  }

  /** Records that are right again make the whole state right. */
  lemma Settled(g: Geometry, s: State, t: State, c: nat)
    requires Valid(g, s) && Playing(s, c) && Moved(s, t, c)
    requires Sound(t.chunks[c].pageMap, g.bins, g.bias) && NoTwins(Runs(g, t.chunks[c]))
    requires Kept(t, c, Runs(g, t.chunks[c]))
    requires t.nactive + ActivePages(Runs(g, s.chunks[c])) == s.nactive + ActivePages(Runs(g, t.chunks[c]))
    ensures Valid(g, t) && Playing(t, c)
  {
    hide Runs, ActivePages, Sound, NoTwins, DirtySum, ActiveSum, FreeAt, Counted, Usable;
    DirtySumUpdate(s.chunks, c, t.chunks[c]);
    ActiveSumUpdate(g, s.chunks, c, t.chunks[c]);
    assert ChunkOk(g, s, c);
    forall o | 0 <= o < |t.chunks| ensures ChunkOk(g, t, o) {
      assert ChunkOk(g, s, o);
      assert Playing(t, o) == Playing(s, o);
      if o != c { assert t.chunks[o] == s.chunks[o]; }
    }
    assert KeysInRange(t);
  }

  /** All is right but that chunk c, one free run, is in play and not yet, or no longer, on record. */
  ghost predicate ValidBut(g: Geometry, s: State, c: nat) {
    && Usable(g) && KeysInRange(s) && Playing(s, c)
    && (forall o :: 0 <= o < |s.chunks| && o != c ==> ChunkOk(g, s, o))
    && Idle(g, s, c)
    && s.ndirty == DirtySum(s.chunks) && s.nactive == ActiveSum(g, s.chunks)
  }

  ghost predicate Idle(g: Geometry, s: State, c: nat)
    requires c < |s.chunks|
  {
    && var ch := s.chunks[c];
    && |ch.pageMap| == g.pages && Sound(ch.pageMap, g.bins, g.bias) && NoTwins(Runs(g, ch))
    && Kept(s, c, []) && |Runs(g, ch)| == 1 && Runs(g, ch)[0].use.Free?
  }

  /** The run of an idle chunk is recorded: the chunk is like any other. */
  lemma Recorded(g: Geometry, s: State, t: State, c: nat)
    requires ValidBut(g, s, c) && Moved(s, t, c) && t.chunks[c].pageMap == s.chunks[c].pageMap && t.nactive == s.nactive
    requires Kept(t, c, Runs(g, t.chunks[c]))
    ensures Valid(g, t) && Playing(t, c)
  {
    hide Runs, ActivePages, Sound, NoTwins, DirtySum, ActiveSum, FreeAt, Counted, Usable;
    DirtySumUpdate(s.chunks, c, t.chunks[c]);
    ActiveSumUpdate(g, s.chunks, c, t.chunks[c]);
    assert Runs(g, t.chunks[c]) == Runs(g, s.chunks[c]) by { SameMap(g, s.chunks[c], t.chunks[c]); }
    forall o | 0 <= o < |t.chunks| ensures ChunkOk(g, t, o) {
      assert Playing(t, o) == Playing(s, o);
      if o != c { assert ChunkOk(g, s, o) && t.chunks[o] == s.chunks[o]; }
    }
    assert KeysInRange(t);
  }

  lemma SameMap(g: Geometry, x: Chunk, y: Chunk)
    requires x.pageMap == y.pageMap
    ensures Runs(g, x) == Runs(g, y)
  {
  }

  /** The record of a chunk's one free run is taken back. */
  lemma Unrecorded(g: Geometry, s: State, t: State, c: nat)
    requires Valid(g, s) && Playing(s, c) && Moved(s, t, c) && t.chunks[c].pageMap == s.chunks[c].pageMap
    requires |Runs(g, s.chunks[c])| == 1 && Runs(g, s.chunks[c])[0].use.Free? && Kept(t, c, []) && t.nactive == s.nactive
    ensures ValidBut(g, t, c)
  {
    hide Runs, ActivePages, Sound, NoTwins, DirtySum, ActiveSum, FreeAt, Counted, Usable;
    DirtySumUpdate(s.chunks, c, t.chunks[c]);
    ActiveSumUpdate(g, s.chunks, c, t.chunks[c]);
    SameMap(g, s.chunks[c], t.chunks[c]);
    assert ChunkOk(g, s, c);
    forall o | 0 <= o < |t.chunks| && o != c ensures ChunkOk(g, t, o) {
      assert ChunkOk(g, s, o);
      assert Playing(t, o) == Playing(s, o) && t.chunks[o] == s.chunks[o];
    }
    assert KeysInRange(t);
  }

  /** An idle chunk becomes the spare, and the spare before it goes back to the system. */
  function Retire(s: State, c: nat): State
    requires s.spare.Some? ==> s.spare.value < |s.chunks|
  {
    if s.spare.Some?
    then s.(spare := Some(c), chunks := s.chunks[s.spare.value := s.chunks[s.spare.value].(mapped := false)])
    else s.(spare := Some(c))
  }

  lemma Retired(g: Geometry, s: State, c: nat)
    requires ValidBut(g, s, c)
    ensures Valid(g, Retire(s, c))
  {
    hide Runs, ActivePages, Sound, NoTwins, DirtySum, ActiveSum, FreeAt, Counted, Usable;
    var t := Retire(s, c);
    if s.spare.Some? {
      var gone := s.spare.value;
      assert ChunkOk(g, s, gone);
      DirtySumUpdate(s.chunks, gone, t.chunks[gone]);
      ActiveSumUpdate(g, s.chunks, gone, t.chunks[gone]);
      SameMap(g, s.chunks[gone], t.chunks[gone]);
      CountedSame(s.chunks[gone], t.chunks[gone], []);
    }
    forall o | 0 <= o < |t.chunks| ensures ChunkOk(g, t, o) {
      if o != c {
        assert ChunkOk(g, s, o);
        if s.spare != Some(o) { assert Playing(t, o) == Playing(s, o) && t.chunks[o] == s.chunks[o]; }
      }
    }
    assert KeysInRange(t);
  }

  lemma CountedSame(x: Chunk, y: Chunk, rs: seq<Run>)
    requires Counted(x, rs) && y == x.(mapped := y.mapped)
    ensures Counted(y, rs)
  {
  }

  /** The spare comes back into play. */
  lemma Respared(g: Geometry, s: State)
    requires Valid(g, s) && s.spare.Some?
    ensures ValidBut(g, s.(spare := None), s.spare.value)
  {
    hide Runs, ActivePages, Sound, NoTwins, DirtySum, ActiveSum, FreeAt, Counted, Usable;
    var t := s.(spare := None);
    forall o | 0 <= o < |t.chunks| ensures o != s.spare.value ==> ChunkOk(g, t, o) {
      assert ChunkOk(g, s, o);
    }
    assert ChunkOk(g, s, s.spare.value);
    assert KeysInRange(t);
  }

  /** A new chunk from the system comes into play. */
  lemma Mapped(g: Geometry, s: State, ch: Chunk)
    requires Valid(g, s) && ch.mapped && ch.ndirty == ch.nrunsAvail == ch.nrunsAdjac == 0 && s.spare.None?
    requires |ch.pageMap| == g.pages && Sound(ch.pageMap, g.bins, g.bias) && NoTwins(Runs(g, ch))
    requires |Runs(g, ch)| == 1 && Runs(g, ch)[0].use.Free?
    ensures ValidBut(g, s.(chunks := s.chunks + [ch]), |s.chunks|)
  {
    hide Runs, Sound, NoTwins, Usable;
    var t := s.(chunks := s.chunks + [ch]);
    var c := |s.chunks|;
    assert t.chunks[..c] == s.chunks;
    assert ActivePages(Runs(g, ch)) == 0 by { assert Runs(g, ch)[1..] == []; }
    assert Counted(ch, []);
    hide Counted, FreeAt, ActivePages;
    forall o | 0 <= o < |t.chunks| && o != c ensures ChunkOk(g, t, o) {
      assert ChunkOk(g, s, o) && t.chunks[o] == s.chunks[o];
      assert Playing(t, o) == Playing(s, o);
    }
    assert Kept(t, c, []) by { NothingFree(); }
    assert KeysInRange(t);
  }

  lemma NothingFree()
    ensures forall p, q :: !FreeAt([], p, q)
  {
  }

  /** Records of runs with a hole in them do not tell what fills the hole. */
  lemma HoleSame(s: State, c: nat, a: seq<Run>, xs: seq<Run>, ys: seq<Run>, b: seq<Run>)
    requires c < |s.chunks| && Kept(s, c, a + xs + b)
    requires xs != [] && NoneFree(xs) && ys != [] && NoneFree(ys)
    ensures Kept(s, c, a + ys + b)
  {
    hide FreeCount, DirtyPages, Adjacent, NoTwins, FreeAt, Queued;
    Hole(a, xs, b);
    Hole(a, ys, b);
  }

  // ---- what the users of the arena hold ----

  /** r is an allocated run of chunk c. */
  predicate Owned(g: Geometry, s: State, c: nat, r: Run) {
    c < |s.chunks| && r in Runs(g, s.chunks[c]) && !r.use.Free?
  }

  /** Of all allocated runs, only those of out in chunk c are gone and only those of into are new, and no chunk moved. */
  ghost predicate Exchanged(g: Geometry, s: State, t: State, c: nat, out: set<Run>, into: set<Run>) {
    && |s.chunks| <= |t.chunks|
    && (forall o :: 0 <= o < |s.chunks| ==> t.chunks[o].base == s.chunks[o].base)
    && (forall o: nat, r :: Owned(g, t, o, r) <==>
          (Owned(g, s, o, r) && !(o == c && r in out)) || (o == c && r in into))
  }

  lemma ExchangedTwice(g: Geometry, s: State, t: State, u: State, c: nat,
                       out: set<Run>, into: set<Run>, out': set<Run>, into': set<Run>)
    requires Exchanged(g, s, t, c, out, into) && Exchanged(g, t, u, c, out', into')
    ensures Exchanged(g, s, u, c, out + out', into - out' + into')
  {
    hide Owned;
  }

  /** Only the runs of chunk c can have changed hands. */
  lemma MovedExchanged(g: Geometry, s: State, t: State, c: nat, out: set<Run>, into: set<Run>)
    requires c < |s.chunks| && Moved(s, t, c)
    requires forall r :: Owned(g, t, c, r) <==> (Owned(g, s, c, r) && r !in out) || r in into
    ensures Exchanged(g, s, t, c, out, into)
  {
    hide Runs;
    forall o: nat, r ensures Owned(g, t, o, r) <==>
          (Owned(g, s, o, r) && !(o == c && r in out)) || (o == c && r in into)
    {
      if o != c && o < |s.chunks| { assert t.chunks[o] == s.chunks[o]; }
    }
  }

  /** A chunk in which a run is allocated is in play. */
  lemma OwnedPlaying(g: Geometry, s: State, c: nat, r: Run)
    requires Valid(g, s) && Owned(g, s, c, r)
    ensures Playing(s, c)
  {
    assert ChunkOk(g, s, c);
  }

  /** Allocated runs never overlap, and lie behind the header of their chunk. */
  lemma OwnedApart(g: Geometry, s: State, c: nat, q: Run, r: Run)
    requires Valid(g, s) && Owned(g, s, c, q) && Owned(g, s, c, r)
    ensures g.bias <= r.start && 1 <= r.pages && r.start + r.pages <= g.pages
    ensures q == r || q.start + q.pages <= r.start || r.start + r.pages <= q.start
  {
    assert ChunkOk(g, s, c);
    var rs := Runs(g, s.chunks[c]);
    var i :| 0 <= i < |rs| && rs[i] == q;
    assert rs == rs[..i] + [rs[i]] + rs[i + 1..];
    Around(rs[..i], rs[i], rs[i + 1..], g.bias, g.pages);
    TilesWithin(rs, g.bias, g.pages);
    assert r == q || r in rs[..i] || r in rs[i + 1..];
  }

  /** A chunk with dirty pages on record is in play: purging never meets the spare. */
  lemma DirtyPlaying(g: Geometry, s: State, k: DirtyKey)
    requires Valid(g, s) && k in s.chunksDirty
    ensures Playing(s, k.chunk) && s.chunks[k.chunk].ndirty > 0
    ensures k.navail == s.chunks[k.chunk].nrunsAvail && k.nadjac == s.chunks[k.chunk].nrunsAdjac
  {
    assert ChunkOk(g, s, k.chunk);
  }

  /** No chunk with dirty pages on record means no dirty pages. */
  lemma {:induction false} NoneDirty(g: Geometry, s: State, n: nat)
    requires Valid(g, s) && s.chunksDirty == {} && n <= |s.chunks|
    ensures DirtySum(s.chunks[..n]) == 0
    decreases n
  {
    if n > 0 {
      NoneDirty(g, s, n - 1);
      assert s.chunks[..n][..n - 1] == s.chunks[..n - 1];
      assert ChunkOk(g, s, n - 1);
      var ch := s.chunks[n - 1];
      assert DirtyKey(n - 1, ch.nrunsAvail, ch.nrunsAdjac) !in s.chunksDirty;
    }
  }

  /** Chunks that keep their page maps, and new ones with nothing allocated, change nobody's holdings. */
  lemma SameHoldings(g: Geometry, s: State, t: State, c: nat)
    requires |s.chunks| <= |t.chunks|
    requires forall o :: 0 <= o < |s.chunks| ==>
               t.chunks[o].base == s.chunks[o].base && t.chunks[o].pageMap == s.chunks[o].pageMap
    requires forall o :: |s.chunks| <= o < |t.chunks| ==> forall r :: r in Runs(g, t.chunks[o]) ==> r.use.Free?
    ensures Exchanged(g, s, t, c, {}, {})
  {
    forall o: nat, r ensures Owned(g, t, o, r) <==> Owned(g, s, o, r) {
      if o < |s.chunks| { SameMap(g, s.chunks[o], t.chunks[o]); }
    }
  }

  // ---- arena_avail_tree_nsearch ----

  function Address(chunks: seq<Chunk>, k: AvailKey): nat
    requires k.chunk < |chunks|
  {
    chunks[k.chunk].base + k.page
  }

  /** arena_avail_comp, on runs: the smaller, and of the same size the one lower in memory, comes first. */
  predicate NotAfter(chunks: seq<Chunk>, j: AvailKey, k: AvailKey)
    requires j.chunk < |chunks| && k.chunk < |chunks|
  {
    j.pages < k.pages || (j.pages == k.pages && Address(chunks, j) <= Address(chunks, k))
  }

  /** k is the lowest of the best fits. */
  predicate BestFit(chunks: seq<Chunk>, among: set<AvailKey>, size: nat, k: AvailKey)
    requires forall j :: j in among ==> j.chunk < |chunks|
  {
    k in among && size <= k.pages && forall j :: j in among && size <= j.pages ==> NotAfter(chunks, k, j)
  }

  lemma {:induction false} BestFitExists(chunks: seq<Chunk>, among: set<AvailKey>, size: nat, k: AvailKey)
    requires forall j :: j in among ==> j.chunk < |chunks|
    requires k in among && size <= k.pages
    ensures exists j :: BestFit(chunks, among, size, j)
    decreases |among|
  {
    var rest := among - {k};
    if others :| others in rest && size <= others.pages {
      BestFitExists(chunks, rest, size, others);
      var j :| BestFit(chunks, rest, size, j);
      assert BestFit(chunks, among, size, if NotAfter(chunks, j, k) then j else k);
    } else {
      assert BestFit(chunks, among, size, k);
    }
  }

  /** What stands in the tree of available runs is a free run of a chunk in play. */
  lemma KeyRun(g: Geometry, s: State, k: AvailKey) returns (a: seq<Run>, x: Run, b: seq<Run>)
    requires Valid(g, s) && k in s.runsAvail
    ensures Playing(s, k.chunk) && Runs(g, s.chunks[k.chunk]) == a + [x] + b
    ensures x.use.Free? && x.start == k.page && x.pages == k.pages
  {
    hide Runs, Sound, NoTwins, DirtySum, ActiveSum, Counted, Queued;
    assert ChunkOk(g, s, k.chunk);
    NothingFree();
    var rs := Runs(g, s.chunks[k.chunk]);
    assert FreeAt(rs, k.pages, k.page);
    var i :| 0 <= i < |rs| && rs[i].use.Free? && rs[i].start == k.page && rs[i].pages == k.pages;
    a, x, b := rs[..i], rs[i], rs[i + 1..];
  }
}
