/** Free extents of address space as a set: what recycling and recording do to it. Addresses and sizes are in chunks. */
module ExtentSets {
  import opened Wrappers

  datatype Extent = Extent(addr: nat, size: nat, zeroed: bool)

  function End(e: Extent): nat { e.addr + e.size }

  predicate Apart(e: Extent, f: Extent) { End(e) <= f.addr || End(f) <= e.addr }

  predicate Touching(e: Extent, f: Extent) { End(e) == f.addr || End(f) == e.addr }

  predicate Within(e: Extent, x: nat) { e.addr <= x < End(e) }

  predicate SomeWithin(s: set<Extent>, x: nat) { exists e :: e in s && Within(e, x) }

  /** An extent that says it is zeroed covers the address. */
  predicate SaysZeroed(s: set<Extent>, x: nat) { exists e :: e in s && e.zeroed && Within(e, x) }

  ghost predicate Disjoint(s: set<Extent>) {
    && (forall e :: e in s ==> e.size > 0)
    && forall e, f :: e in s && f in s && e != f ==> Apart(e, f)
  }

  /** No two extents touch: all that could be joined has been. */
  ghost predicate Maximal(s: set<Extent>) {
    forall e, f :: e in s && f in s ==> !Touching(e, f)
  }

  // ---- taking a range out of an extent ----

  function Lead(e: Extent, ret: nat): set<Extent>
    requires e.addr <= ret
  {
    if ret == e.addr then {} else {Extent(e.addr, ret - e.addr, e.zeroed)}
  }

  function Trail(e: Extent, ret: nat, size: nat): set<Extent>
    requires ret + size <= End(e)
  {
    if ret + size == End(e) then {} else {Extent(ret + size, End(e) - (ret + size), e.zeroed)}
  }

  /** e in s gives up size chunks from ret on, and keeps what is before and behind them. */
  function TakenOut(s: set<Extent>, e: Extent, ret: nat, size: nat): set<Extent>
    requires e.addr <= ret && ret + size <= End(e)
  {
    s - {e} + Lead(e, ret) + Trail(e, ret, size)
  }

  lemma TakenOutDisjoint(s: set<Extent>, e: Extent, ret: nat, size: nat)
    requires Disjoint(s) && e in s && size > 0 && e.addr <= ret && ret + size <= End(e)
    ensures Disjoint(TakenOut(s, e, ret, size))
  {
  }

  lemma TakenOutMaximal(s: set<Extent>, e: Extent, ret: nat, size: nat)
    requires Disjoint(s) && Maximal(s) && e in s && size > 0 && e.addr <= ret && ret + size <= End(e)
    ensures Maximal(TakenOut(s, e, ret, size))
  {
    var t := TakenOut(s, e, ret, size);
    forall f, g | f in t && g in t ensures !Touching(f, g) {
      assert (f in s && f != e) || (f in Lead(e, ret)) || (f in Trail(e, ret, size));
      assert (g in s && g != e) || (g in Lead(e, ret)) || (g in Trail(e, ret, size));
      if f in s && f != e { assert Apart(f, e) && !Touching(f, e); }
      if g in s && g != e { assert Apart(g, e) && !Touching(g, e); }
    }
  }

  /** Exactly the range is gone, and nothing else is claimed to be zeroed. */
  lemma TakenOutCover(s: set<Extent>, e: Extent, ret: nat, size: nat, x: nat)
    requires Disjoint(s) && e in s && size > 0 && e.addr <= ret && ret + size <= End(e)
    ensures SomeWithin(TakenOut(s, e, ret, size), x) <==> SomeWithin(s, x) && !(ret <= x < ret + size)
    ensures SaysZeroed(TakenOut(s, e, ret, size), x) <==> SaysZeroed(s, x) && !(ret <= x < ret + size)
  {
  }

  // ---- putting a range in ----

  /** The extents just behind and just before c, where there are any. */
  predicate IsNext(s: set<Extent>, c: Extent, n: Option<Extent>) {
    match n
    case None => forall e :: e in s ==> e.addr != End(c)
    case Some(e) => e in s && e.addr == End(c)
  }

  predicate IsPrev(s: set<Extent>, c: Extent, p: Option<Extent>) {
    match p
    case None => forall e :: e in s ==> End(e) != c.addr
    case Some(e) => e in s && End(e) == c.addr
  }

  function Join(a: Extent, b: Extent): Extent { Extent(a.addr, a.size + b.size, a.zeroed && b.zeroed) }

  /** The extent that c becomes with its neighbours. */
  function Whole(c: Extent, n: Option<Extent>, p: Option<Extent>): Extent {
    var c1 := if n.Some? then Join(c, n.value) else c;
    if p.Some? then Join(p.value, c1) else c1
  }

  function Members(n: Option<Extent>): set<Extent> { if n.Some? then {n.value} else {} }

  /** s with c put in, joined with both neighbours. */
  function Recorded(s: set<Extent>, c: Extent, n: Option<Extent>, p: Option<Extent>): set<Extent> {
    s - Members(n) - Members(p) + {Whole(c, n, p)}
  }

  /** Nothing of c is in s. */
  ghost predicate Outside(s: set<Extent>, c: Extent) {
    forall e :: e in s ==> Apart(e, c)
  }

  lemma RecordedDisjoint(s: set<Extent>, c: Extent, n: Option<Extent>, p: Option<Extent>)
    requires Disjoint(s) && Outside(s, c) && c.size > 0 && IsNext(s, c, n) && IsPrev(s, c, p)
    ensures Disjoint(Recorded(s, c, n, p))
  {
    var w := Whole(c, n, p);
    forall e | e in s - Members(n) - Members(p) ensures Apart(e, w) {
      assert Apart(e, c);
      if n.Some? { assert Apart(e, n.value); }
      if p.Some? { assert Apart(e, p.value); }
    }
  }

  /** Extents that were maximal stay so. */
  lemma RecordedMaximal(s: set<Extent>, c: Extent, n: Option<Extent>, p: Option<Extent>)
    requires Disjoint(s) && Maximal(s) && Outside(s, c) && c.size > 0 && IsNext(s, c, n) && IsPrev(s, c, p)
    ensures Maximal(Recorded(s, c, n, p))
  {
    var w := Whole(c, n, p);
    forall e | e in s - Members(n) - Members(p) ensures !Touching(e, w) {
      if n.Some? { assert !Touching(e, n.value) && Apart(e, n.value); }
      if p.Some? { assert !Touching(e, p.value) && Apart(e, p.value); }
      assert Apart(e, c);
    }
  }

  /** Exactly the range is added, and it is said to be zeroed only if it is. */
  lemma RecordedCover(s: set<Extent>, c: Extent, n: Option<Extent>, p: Option<Extent>, x: nat)
    requires Disjoint(s) && Outside(s, c) && c.size > 0 && IsNext(s, c, n) && IsPrev(s, c, p)
    ensures SomeWithin(Recorded(s, c, n, p), x) <==> SomeWithin(s, x) || Within(c, x)
    ensures SaysZeroed(Recorded(s, c, n, p), x) ==> SaysZeroed(s, x) || (c.zeroed && Within(c, x))
  {
  }

  // ---- threads ----

  /** The extents recorded, the pieces that threads hold between dropping and taking the lock again, and the ranges that
      are handed out. */
  datatype State = State(recorded: set<Extent>, pending: set<Extent>, owned: set<Extent>)

  /** The critical sections. Taking with room on both sides leaves the trailing piece in hand, because a node
      for it is allocated with the lock dropped; recording is one section. Granted and unmapped ranges come from the
      system and go back to it. */
  datatype Step =
    | Take(e: Extent, ret: nat, size: nat)
    | PutTrail(t: Extent)
    | LoseTrail(t: Extent)
    | Record(o: Extent, c: Extent, n: Option<Extent>, p: Option<Extent>)
    | Grant(c: Extent)
    | Unmap(c: Extent)

  /** What is recorded is given back by its owner: it is all or part of a range handed out. */
  predicate Enabled(st: State, a: Step) {
    match a
    case Take(e, ret, size) => e in st.recorded && size > 0 && e.addr <= ret && ret + size <= End(e)
    case PutTrail(t) => t in st.pending
    case LoseTrail(t) => t in st.pending
    case Record(o, c, n, p) =>
      && o in st.owned && c.size > 0 && o.addr <= c.addr && End(c) <= End(o)
      && IsNext(st.recorded, c, n) && IsPrev(st.recorded, c, p)
    case Grant(c) => c.size > 0 && forall e :: e in st.recorded + st.pending + st.owned ==> Apart(e, c)
    case Unmap(c) => c in st.owned
  }

  function After(st: State, a: Step): State
    requires Enabled(st, a)
  {
    match a
    case Take(e, ret, size) =>
      var owned := st.owned + {Extent(ret, size, false)};
      if ret == e.addr then State(st.recorded - {e} + Trail(e, ret, size), st.pending, owned)
      else State(st.recorded - {e} + Lead(e, ret), st.pending + Trail(e, ret, size), owned)
    case PutTrail(t) => State(st.recorded + {t}, st.pending - {t}, st.owned)
    case LoseTrail(t) => State(st.recorded, st.pending - {t}, st.owned)
    case Record(o, c, n, p) => State(Recorded(st.recorded, c, n, p), st.pending, TakenOut(st.owned, o, c.addr, c.size))
    case Grant(c) => State(st.recorded, st.pending, st.owned + {c})
    case Unmap(c) => State(st.recorded, st.pending, st.owned - {c})
  }

  ghost predicate Separate(s: set<Extent>, t: set<Extent>) {
    forall e, f :: e in s && f in t ==> Apart(e, f)
  }

  /** No address is recorded, in hand or handed out twice. */
  ghost predicate NoOverlap(st: State) {
    && Disjoint(st.recorded) && Disjoint(st.pending) && Disjoint(st.owned)
    && Separate(st.recorded, st.pending) && Separate(st.recorded, st.owned) && Separate(st.pending, st.owned)
  }

  predicate Inside(x: Extent, e: Extent) {
    x.size > 0 && e.addr <= x.addr && End(x) <= End(e)
  }

  lemma OneMore(s: set<Extent>, x: Extent)
    requires Disjoint(s) && x.size > 0 && forall f :: f in s ==> Apart(f, x)
    ensures Disjoint(s + {x})
  {
  }

  lemma Fewer(s: set<Extent>, t: set<Extent>)
    requires Disjoint(s) && t <= s
    ensures Disjoint(t)
  {
  }

  /** Splitting members of s keeps s apart from t. */
  lemma PartsSeparate(s: set<Extent>, e: Extent, q: set<Extent>, t: set<Extent>)
    requires Separate(s, t) && e in s && forall x :: x in q ==> Inside(x, e)
    ensures Separate(s - {e} + q, t) && Separate(q, t)
  {
    forall x, f | x in q && f in t ensures Apart(x, f) { assert Apart(e, f); }
  }

  lemma Turned(s: set<Extent>, t: set<Extent>)
    ensures Separate(s, t) <==> Separate(t, s)
  {
  }

  lemma Together(s: set<Extent>, q: set<Extent>, t: set<Extent>)
    requires Separate(s, t) && Separate(q, t)
    ensures Separate(s + q, t) && Separate(t, s + q)
  {
  }

  lemma StepKeepsApart(st: State, a: Step)
    requires Enabled(st, a) && NoOverlap(st)
    ensures NoOverlap(After(st, a))
  {
    match a
    case Take(e, ret, size) => TakeApart(st, e, ret, size);
    case PutTrail(t) => PutApart(st, t);
    case LoseTrail(t) =>
    case Record(o, c, n, p) => RecordApart(st, o, c, n, p);
    case Grant(c) => GrantApart(st, c);
    case Unmap(c) =>
  }

  lemma PutApart(st: State, t: Extent)
    requires t in st.pending && NoOverlap(st)
    ensures NoOverlap(After(st, PutTrail(t)))
  {
    OneMore(st.recorded, t);
  }

  lemma GrantApart(st: State, c: Extent)
    requires Enabled(st, Grant(c)) && NoOverlap(st)
    ensures NoOverlap(After(st, Grant(c)))
  {
    forall e | e in st.recorded || e in st.pending || e in st.owned ensures Apart(c, e) && Apart(e, c) {
      assert e in st.recorded + st.pending + st.owned;
    }
    OneMore(st.owned, c);
    Together(st.owned, {c}, st.recorded);
    Together(st.owned, {c}, st.pending);
  }

  lemma TakeApart(st: State, e: Extent, ret: nat, size: nat)
    requires Enabled(st, Take(e, ret, size)) && NoOverlap(st)
    ensures NoOverlap(After(st, Take(e, ret, size)))
  {
    hide Disjoint, Separate, Apart;
    var r, lead, trail := {Extent(ret, size, false)}, Lead(e, ret), Trail(e, ret, size);
    var keep, hold := if ret == e.addr then trail else lead, if ret == e.addr then {} else trail;
    TakenOutDisjoint(st.recorded, e, ret, size);
    Fewer(TakenOut(st.recorded, e, ret, size), st.recorded - {e} + keep);
    PiecesFit(e, ret, size, keep, hold, r);
    PiecesApart(st.recorded, e, keep, hold, r);
    PartsSeparate(st.recorded, e, keep, st.pending);
    PartsSeparate(st.recorded, e, keep, st.owned);
    PartsSeparate(st.recorded, e, hold, st.pending);
    PartsSeparate(st.recorded, e, hold, st.owned);
    PartsSeparate(st.recorded, e, r, st.pending);
    PartsSeparate(st.recorded, e, r, st.owned);
    Assembled(st, st.recorded - {e} + keep, hold, r);
    assert After(st, Take(e, ret, size)) == State(st.recorded - {e} + keep, st.pending + hold, st.owned + r);
  }

  lemma PiecesFit(e: Extent, ret: nat, size: nat, keep: set<Extent>, hold: set<Extent>, r: set<Extent>)
    requires size > 0 && e.addr <= ret && ret + size <= End(e) && r == {Extent(ret, size, false)}
    requires keep == if ret == e.addr then Trail(e, ret, size) else Lead(e, ret)
    requires hold == if ret == e.addr then {} else Trail(e, ret, size)
    ensures forall x :: x in keep + hold + r ==> Inside(x, e)
    ensures Disjoint(hold) && Disjoint(r) && Separate(keep, hold) && Separate(keep, r) && Separate(hold, r)
  {
  }

  /** The pieces of e keep clear of one another and of the rest of s. */
  lemma PiecesApart(s: set<Extent>, e: Extent, keep: set<Extent>, hold: set<Extent>, r: set<Extent>)
    requires Disjoint(s) && e in s && forall x :: x in keep + hold + r ==> Inside(x, e)
    requires Disjoint(hold) && Disjoint(r) && Separate(keep, hold) && Separate(keep, r) && Separate(hold, r)
    ensures Separate(s - {e} + keep, hold) && Separate(s - {e} + keep, r)
  {
    forall f, x | f in s - {e} && x in hold + r ensures Apart(f, x) {
      assert x in keep + hold + r && Apart(f, e);
    }
  }

  /** A new recorded set, and more in hand and handed out */
  lemma Assembled(st: State, recorded: set<Extent>, hold: set<Extent>, r: set<Extent>)
    requires NoOverlap(st) && Disjoint(recorded) && Disjoint(hold) && Disjoint(r)
    requires Separate(recorded, hold) && Separate(recorded, r) && Separate(recorded, st.pending) &&
             Separate(recorded, st.owned)
    requires Separate(hold, r) && Separate(hold, st.pending) && Separate(hold, st.owned)
    requires Separate(r, st.pending) && Separate(r, st.owned)
    ensures NoOverlap(State(recorded, st.pending + hold, st.owned + r))
  {
    Joined(st.pending, hold);
    Joined(st.owned, r);
    hide Disjoint, Separate;
    Turned(recorded, hold);
    Turned(recorded, r);
    Turned(recorded, st.pending);
    Turned(recorded, st.owned);
    Together(st.pending, hold, recorded);
    Together(st.owned, r, recorded);
    Together(st.pending, hold, st.owned);
    Turned(hold, r);
    Turned(r, st.pending);
    Together(st.pending, hold, r);
    Turned(st.pending + hold, st.owned);
    Turned(st.pending + hold, r);
    Together(st.owned, r, st.pending + hold);
  }

  lemma Joined(s: set<Extent>, q: set<Extent>)
    requires Disjoint(s) && Disjoint(q) && Separate(q, s)
    ensures Disjoint(s + q)
  {
  }

  lemma RecordApart(st: State, o: Extent, c: Extent, n: Option<Extent>, p: Option<Extent>)
    requires Enabled(st, Record(o, c, n, p)) && NoOverlap(st)
    ensures NoOverlap(After(st, Record(o, c, n, p)))
  {
    forall f | f in st.recorded || f in st.pending ensures Apart(f, c) && Apart(c, f) { assert Apart(f, o); }
    RecordedDisjoint(st.recorded, c, n, p);
    TakenOutDisjoint(st.owned, o, c.addr, c.size);
    var owned := TakenOut(st.owned, o, c.addr, c.size);
    Turned(st.recorded, st.owned);
    Turned(st.pending, st.owned);
    PartsSeparate(st.owned, o, Lead(o, c.addr) + Trail(o, c.addr, c.size), st.recorded);
    PartsSeparate(st.owned, o, Lead(o, c.addr) + Trail(o, c.addr, c.size), st.pending);
    assert owned == st.owned - {o} + (Lead(o, c.addr) + Trail(o, c.addr, c.size));
    assert Separate({c}, owned) by { forall f | f in owned ensures Apart(c, f) { if f in st.owned && f != o { assert Apart(f, o); } } }
    Turned(st.recorded, owned);
    Turned(st.pending, owned);
    WholeSeparate(st.recorded, c, n, p, st.pending);
    WholeSeparate(st.recorded, c, n, p, owned);
  }

  /** What keeps clear of a range and of everything recorded keeps clear of what the range becomes. */
  lemma WholeSeparate(s: set<Extent>, c: Extent, n: Option<Extent>, p: Option<Extent>, t: set<Extent>)
    requires IsNext(s, c, n) && IsPrev(s, c, p) && Separate(s, t) && Separate({c}, t)
    requires c.size > 0 && forall f :: f in s + t ==> f.size > 0
    ensures Separate(Recorded(s, c, n, p), t)
  {
    var w := Whole(c, n, p);
    forall f | f in t ensures Apart(w, f) {
      assert Apart(c, f);
      if n.Some? { assert Apart(n.value, f); }
      if p.Some? { assert Apart(p.value, f); }
    }
  }

  // ---- any sequence of steps ----

  ghost predicate Runs(st: State, steps: seq<Step>)
    decreases |steps|
  {
    steps == [] || (Enabled(st, steps[0]) && Runs(After(st, steps[0]), steps[1..]))
  }

  ghost function AfterAll(st: State, steps: seq<Step>): State
    requires Runs(st, steps)
    decreases |steps|
  {
    if steps == [] then st else AfterAll(After(st, steps[0]), steps[1..])
  }

  /** Whatever the threads do in whatever order, no address is recorded, in hand or handed out twice. */
  lemma {:induction false} StepsKeepDisjoint(st: State, steps: seq<Step>)
    requires Runs(st, steps) && NoOverlap(st)
    ensures NoOverlap(AfterAll(st, steps))
    decreases |steps|
  {
    hide NoOverlap, After;
    if steps != [] {
      StepKeepsApart(st, steps[0]);
      StepsKeepDisjoint(After(st, steps[0]), steps[1..]);
    }
  }

  /** Nothing recorded touches the piece that is put back. */
  ghost predicate Lonely(st: State, a: Step) {
    a.PutTrail? ==> forall e :: e in st.recorded ==> !Touching(e, a.t)
  }

  /** A step leaves no two touching extents recorded exactly when it does not put a piece back next to one. */
  lemma StepMaximalIff(st: State, a: Step)
    requires Enabled(st, a) && NoOverlap(st) && Maximal(st.recorded)
    ensures Maximal(After(st, a).recorded) <==> Lonely(st, a)
  {
    match a
    case Take(e, ret, size) => TakenOutMaximal(st.recorded, e, ret, size);
    case PutTrail(t) =>
      assert t in After(st, a).recorded;
    case LoseTrail(t) =>
    case Record(o, c, n, p) =>
      assert Outside(st.recorded, c);
      RecordedMaximal(st.recorded, c, n, p);
    case Grant(c) =>
    case Unmap(c) =>
  }

  ghost predicate AllLonely(st: State, steps: seq<Step>)
    requires Runs(st, steps)
    decreases |steps|
  {
    steps == [] || (Lonely(st, steps[0]) && AllLonely(After(st, steps[0]), steps[1..]))
  }

  /** So a run whose pieces are all put back where nothing touches them leaves no two touching extents. */
  lemma {:induction false} StepsKeepMaximal(st: State, steps: seq<Step>)
    requires Runs(st, steps) && NoOverlap(st) && Maximal(st.recorded) && AllLonely(st, steps)
    ensures Maximal(AfterAll(st, steps).recorded)
    decreases |steps|
  {
    hide NoOverlap, After, Maximal, Lonely;
    if steps != [] {
      StepKeepsApart(st, steps[0]);
      StepMaximalIff(st, steps[0]);
      StepsKeepMaximal(After(st, steps[0]), steps[1..]);
    }
  }

  /** Run as one step, recycling puts its piece back where nothing touches it. */
  lemma AtOnceLonely(st: State, e: Extent, ret: nat, size: nat, t: Extent)
    requires Enabled(st, Take(e, ret, size)) && NoOverlap(st) && Maximal(st.recorded)
    requires t in Trail(e, ret, size) && ret != e.addr
    ensures Lonely(After(st, Take(e, ret, size)), PutTrail(t))
  {
    forall f | f in After(st, Take(e, ret, size)).recorded ensures !Touching(f, t) {
      if f in st.recorded && f != e { assert Apart(f, e) && !Touching(f, e); }
    }
  }

  /** Otherwise touching extents can result: while the trailing piece 4..8 of an extent is in hand, the chunks behind it
      are recorded, and then the piece is put back as it is. */
  lemma InterleavingMayTouch() returns (st: State, steps: seq<Step>)
    ensures NoOverlap(st) && Maximal(st.recorded) && st.pending == {}
    ensures Runs(st, steps) && AfterAll(st, steps).pending == {} && !Maximal(AfterAll(st, steps).recorded)
  {
    var e, t, c := Extent(0, 8, false), Extent(4, 4, false), Extent(8, 2, false);
    st := State({e}, {}, {c});
    steps := [Take(e, 2, 2), Record(c, c, None, None), PutTrail(t)];
    var s1 := After(st, steps[0]);
    assert s1 == State({Extent(0, 2, false)}, {t}, {c, Extent(2, 2, false)});
    var s2 := After(s1, steps[1]);
    assert s2.recorded == {Extent(0, 2, false), c};
    var s3 := After(s2, steps[2]);
    assert t in s3.recorded && c in s3.recorded && Touching(t, c);
    ThreeSteps(st, steps, s1, s2, s3);
  }

  lemma ThreeSteps(st: State, steps: seq<Step>, s1: State, s2: State, s3: State)
    requires |steps| == 3 && Enabled(st, steps[0]) && After(st, steps[0]) == s1
    requires Enabled(s1, steps[1]) && After(s1, steps[1]) == s2 && Enabled(s2, steps[2]) && After(s2, steps[2]) == s3
    ensures Runs(st, steps) && AfterAll(st, steps) == s3
  {
    hide Enabled, After;
    var last := steps[1..][1..];
    assert last == [steps[2]] && last[1..] == [];
    assert Runs(s3, last[1..]) && AfterAll(s3, last[1..]) == s3;
    assert Runs(s2, last) && AfterAll(s2, last) == s3;
    assert Runs(s1, steps[1..]) && AfterAll(s1, steps[1..]) == s3;
  }
}
