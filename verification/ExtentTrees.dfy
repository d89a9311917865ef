/** chunk.c: the free extents in two trees, one by address and one by size, and what chunk_recycle and
    chunk_record do to them. A tree is the sequence of its nodes in order. */
module ExtentTrees {
  import opened Bits
  import opened Wrappers
  import opened ExtentSets

  datatype Tree = Ad | Sz

  /** extent_ad_comp and extent_szad_comp */
  predicate Lt(t: Tree, a: Extent, b: Extent) {
    match t
    case Ad => a.addr < b.addr
    case Sz => a.size < b.size || (a.size == b.size && a.addr < b.addr)
  }

  predicate Sorted(t: Tree, s: seq<Extent>) {
    forall i, j :: 0 <= i < j < |s| ==> Lt(t, s[i], s[j])
  }

  ghost function Elements(s: seq<Extent>): set<Extent> {
    set e | e in s
  }

  function Insert(t: Tree, s: seq<Extent>, e: Extent): seq<Extent> {
    if s == [] || Lt(t, e, s[0]) then [e] + s else [s[0]] + Insert(t, s[1..], e)
  }

  function Remove(s: seq<Extent>, e: Extent): seq<Extent> {
    if s == [] then [] else if s[0] == e then s[1..] else [s[0]] + Remove(s[1..], e)
  }

  lemma {:induction false} InsertElements(t: Tree, s: seq<Extent>, e: Extent)
    ensures Elements(Insert(t, s, e)) == Elements(s) + {e}
    decreases |s|
  {
    if s == [] || Lt(t, e, s[0]) {
    } else {
      InsertElements(t, s[1..], e);
      assert Elements(s) == {s[0]} + Elements(s[1..]);
      var r := Insert(t, s[1..], e);
      assert Elements([s[0]] + r) == {s[0]} + Elements(r);
    }
  }

  /** A node that compares unequal to all keeps the order. */
  lemma {:induction false} InsertSorted(t: Tree, s: seq<Extent>, e: Extent)
    requires Sorted(t, s) && forall f :: f in s ==> Lt(t, e, f) || Lt(t, f, e)
    ensures Sorted(t, Insert(t, s, e))
    decreases |s|
  {
    if s == [] {
    } else if Lt(t, e, s[0]) {
      forall j | 0 < j < |s| ensures Lt(t, e, s[j]) { assert Lt(t, s[0], s[j]); }
    } else {
      InsertSorted(t, s[1..], e);
      InsertElements(t, s[1..], e);
      var r := Insert(t, s[1..], e);
      forall j | 0 <= j < |r| ensures Lt(t, s[0], r[j]) {
        assert r[j] in Elements(r);
        assert r[j] in s[1..] || r[j] == e;
        assert s[0] in s;
      }
    }
  }

  lemma {:induction false} RemoveElements(t: Tree, s: seq<Extent>, e: Extent)
    requires Sorted(t, s)
    ensures Elements(Remove(s, e)) == Elements(s) - {e} && Sorted(t, Remove(s, e))
    decreases |s|
  {
    if s != [] {
      assert Elements(s) == {s[0]} + Elements(s[1..]);
      if s[0] == e {
        assert e !in s[1..] by { forall j | 0 <= j < |s[1..]| ensures s[1..][j] != e { assert Lt(t, s[0], s[j + 1]); } }
      } else {
        RemoveElements(t, s[1..], e);
        var r := Remove(s[1..], e);
        assert Elements([s[0]] + r) == {s[0]} + Elements(r);
        forall j | 0 <= j < |r| ensures Lt(t, s[0], r[j]) {
          assert r[j] in Elements(r);
          assert r[j] in s[1..];
        }
      }
    }
  }

  /** Extents with different addresses compare unequal in both trees. */
  lemma Comparable(t: Tree, s: seq<Extent>, e: Extent)
    requires forall f :: f in s ==> f.addr != e.addr
    ensures forall f :: f in s ==> Lt(t, e, f) || Lt(t, f, e)
  {
  }

  // ---- alignment ----

  /** ALIGNMENT_CEILING, to a multiple of 2^lg chunks */
  function Ceiling(a: nat, lg: nat): nat {
    Pow2Positive(lg);
    Shl(Shr(a + Pow2(lg) - 1, lg), lg)
  }

  /** The next multiple is less than a whole step away. */
  lemma CeilingClose(a: nat, lg: nat)
    ensures Pow2(lg) >= 1 && a <= Ceiling(a, lg) < a + Pow2(lg) && Low(Ceiling(a, lg), lg) == 0
  {
    hide Shl, Shr, Low;
    Pow2Positive(lg);
    ShlShr(a + Pow2(lg) - 1, lg);
    ShrOfSum(Shr(a + Pow2(lg) - 1, lg), 0, lg);
  }

  // ---- the two trees ----

  /** Both trees hold the set, in their orders. */
  ghost predicate Both(ad: seq<Extent>, szad: seq<Extent>, s: set<Extent>) {
    Sorted(Ad, ad) && Sorted(Sz, szad) && Elements(ad) == s && Elements(szad) == s
  }

  lemma BothRemove(ad: seq<Extent>, szad: seq<Extent>, s: set<Extent>, e: Extent)
    requires Both(ad, szad, s)
    ensures Both(Remove(ad, e), Remove(szad, e), s - {e})
  {
    RemoveElements(Ad, ad, e);
    RemoveElements(Sz, szad, e);
  }

  lemma BothInsert(ad: seq<Extent>, szad: seq<Extent>, s: set<Extent>, e: Extent)
    requires Both(ad, szad, s) && forall f :: f in s ==> f.addr != e.addr
    ensures Both(Insert(Ad, ad, e), Insert(Sz, szad, e), s + {e})
  {
    hide Sorted, Lt;
    forall f | f in ad ensures f.addr != e.addr { assert f in Elements(ad); }
    forall f | f in szad ensures f.addr != e.addr { assert f in Elements(szad); }
    Comparable(Ad, ad, e);
    Comparable(Sz, szad, e);
    InsertSorted(Ad, ad, e);
    InsertSorted(Sz, szad, e);
    InsertElements(Ad, ad, e);
    InsertElements(Sz, szad, e);
  }

  /** The outcome of chunk_recycle: Dealloc hands the range to chunk_dealloc when no node could be had for the
      trailing space, which is then lost. */
  datatype Recycle = Nothing | Got(addr: nat, zeroed: bool) | Dealloc(addr: nat)

  class Extents {
    var szad: seq<Extent>
    var ad: seq<Extent>
    /** The extents recorded. */
    ghost var free: set<Extent>
    /** The number of chunks at which size_t wraps. */
    const limit: nat

    ghost predicate Valid()
      reads this
    {
      limit > 0 && Both(ad, szad, free) && Disjoint(free)
    }

    constructor (limit: nat)
      requires limit > 0
      ensures Valid() && free == {}
    {
      this.limit := limit;
      szad, ad, free := [], [], {};
    }

    /** extent_tree_szad_nsearch with address 0: the smallest extent of at least that size, the lowest of equals. */
    method SizeSearch(size: nat) returns (node: Option<Extent>)
      requires Valid()
      ensures node == None <==> forall e :: e in free ==> e.size < size
      ensures node.Some? ==> node.value in free && node.value.size >= size
      ensures node.Some? ==> forall e :: e in free && e.size >= size && e != node.value ==>
                node.value.size < e.size || (node.value.size == e.size && node.value.addr < e.addr)
    {
      var i := 0;
      while i < |szad|
        invariant 0 <= i <= |szad| && forall j :: 0 <= j < i ==> szad[j].size < size
      {
        if szad[i].size >= size {
          assert szad[i] in Elements(szad);
          forall e | e in free && e.size >= size && e != szad[i] ensures Lt(Sz, szad[i], e) {
            assert e in Elements(szad);
            var j :| 0 <= j < |szad| && szad[j] == e;
          }
          return Some(szad[i]);
        }
        i := i + 1;
      }
      forall e | e in free ensures e.size < size { assert e in Elements(szad); }
      node := None;
    }

    /** extent_tree_ad_nsearch and the test of its result: the extent that begins there. */
    method StartingAt(addr: nat) returns (node: Option<Extent>)
      requires Valid()
      ensures node == None ==> forall e :: e in free ==> e.addr != addr
      ensures node.Some? ==> node.value in free && node.value.addr == addr
    {
      var i := 0;
      while i < |ad| && ad[i].addr < addr
        invariant 0 <= i <= |ad| && forall j :: 0 <= j < i ==> ad[j].addr < addr
      {
        i := i + 1;
      }
      if i < |ad| && ad[i].addr == addr {
        assert ad[i] in Elements(ad);
        return Some(ad[i]);
      }
      forall e | e in free ensures e.addr != addr {
        assert e in Elements(ad);
        var j :| 0 <= j < |ad| && ad[j] == e;
        if j > i { assert Lt(Ad, ad[i], ad[j]); }
      }
      node := None;
    }

    /** extent_tree_ad_prev and the test of its result: the extent just before node that ends where chunk begins. */
    method EndingAt(node: Extent, chunk: nat) returns (prev: Option<Extent>)
      requires Valid() && node in free && node.addr == chunk
      ensures prev == None ==> forall e :: e in free ==> End(e) != chunk
      ensures prev.Some? ==> prev.value in free && End(prev.value) == chunk
    {
      var i := 0;
      assert node in Elements(ad);
      ghost var k :| 0 <= k < |ad| && ad[k] == node;
      while ad[i] != node
        invariant 0 <= i <= k
        decreases k - i
      {
        i := i + 1;
      }
      if i > 0 && End(ad[i - 1]) == chunk {
        assert ad[i - 1] in Elements(ad);
        return Some(ad[i - 1]);
      }
      forall e | e in free ensures End(e) != chunk {
        assert e in Elements(ad);
        var j :| 0 <= j < |ad| && ad[j] == e;
        if j < i - 1 {
          assert Lt(Ad, ad[j], ad[i - 1]);
          assert ad[i - 1] in Elements(ad);
          assert Apart(ad[j], ad[i - 1]);
        }
      }
      prev := None;
    }

    method Put(e: Extent)
      requires Both(ad, szad, free) && forall f :: f in free ==> f.addr != e.addr
      modifies `ad, `szad, `free
      ensures Both(ad, szad, free) && free == old(free) + {e}
    {
      BothInsert(ad, szad, free, e);
      szad := Insert(Sz, szad, e);
      ad := Insert(Ad, ad, e);
      free := free + {e};
    }

    method Take(e: Extent)
      requires Both(ad, szad, free)
      modifies `ad, `szad, `free
      ensures Both(ad, szad, free) && free == old(free) - {e}
    {
      BothRemove(ad, szad, free, e);
      szad := Remove(szad, e);
      ad := Remove(ad, e);
      free := free - {e};
    }

    /** chunk_recycle, run as one step: best fit, at the first aligned place in it; what is left over goes back. able tells
        whether base_node_alloc has a node when one is needed, which is when there is something left on either side. */
    method Recycle(size: nat, lgAlign: nat, base: bool, able: bool) returns (r: Recycle, ghost e: Extent)
      requires Valid() && 0 < size < limit && Pow2(lgAlign) <= limit
      modifies `ad, `szad, `free
      ensures Valid()
      ensures r.Nothing? ==> free == old(free)
      ensures r.Nothing? <==> base || size + Pow2(lgAlign) - 1 >= limit || forall f :: f in old(free) ==>
              f.size < size + Pow2(lgAlign) - 1
      ensures !r.Nothing? ==> e in old(free) && e.addr <= r.addr && r.addr + size <= End(e) && Low(r.addr, lgAlign) == 0
      ensures !r.Nothing? ==> r.addr == Ceiling(e.addr, lgAlign)
      ensures !r.Nothing? ==> forall f :: f in old(free) && f.size >= size + Pow2(lgAlign) - 1 && f != e ==>
                e.size < f.size || (e.size == f.size && e.addr < f.addr)
      ensures r.Got? ==> free == TakenOut(old(free), e, r.addr, size) && r.zeroed == e.zeroed
      ensures r.Dealloc? ==> free == TakenOut(old(free), e, r.addr, End(e) - r.addr)
      ensures !r.Nothing? ==> (r.Dealloc? <==> !able && r.addr > e.addr && r.addr + size < End(e))
    {
      hide Both, Sorted, Shl, Shr, Low;
      e := Extent(0, 0, false);
      if base { return Nothing, e; }
      Pow2Positive(lgAlign);
      var allocSize := (size + Pow2(lgAlign) - 1) % limit;
      WrapDetected(size, Pow2(lgAlign) - 1, limit, allocSize);
      if allocSize < size { return Nothing, e; }
      var found := SizeSearch(allocSize);
      if found == None { return Nothing, e; }
      var node := found.value;
      e := node;
      CeilingClose(node.addr, lgAlign);
      var leadsize := Ceiling(node.addr, lgAlign) - node.addr;
      var trailsize := node.size - leadsize - size;
      var ret := node.addr + leadsize;
      r := PutBack(node, ret, size, leadsize, trailsize, able);
    }

    /** The remainder of chunk_recycle. */
    method PutBack(node: Extent, ret: nat, size: nat, leadsize: nat, trailsize: nat, able: bool) returns (r: Recycle)
      requires Valid() && node in free && size > 0 && ret == node.addr + leadsize && End(node) == ret + size + trailsize
      modifies `ad, `szad, `free
      ensures Valid() && !r.Nothing? && r.addr == ret
      ensures r.Got? ==> free == TakenOut(old(free), node, ret, size) && r.zeroed == node.zeroed
      ensures r.Dealloc? ==> free == TakenOut(old(free), node, ret, End(node) - ret)
      ensures r.Dealloc? <==> !able && leadsize > 0 && trailsize > 0
    {
      hide Both;
      ghost var s := free;
      TakenOutDisjoint(s, node, ret, size);
      TakenOutDisjoint(s, node, ret, End(node) - ret);
      DifferentStarts(s, node);
      var spare := true;
      Take(node);
      if leadsize != 0 {
        Put(Extent(node.addr, leadsize, node.zeroed));
        spare := false;
      }
      assert free == s - {node} + Lead(node, ret);
      if trailsize != 0 {
        if !spare {
          if !able {
            assert free == TakenOut(s, node, ret, End(node) - ret);
            return Dealloc(ret);
          }
        }
        Put(Extent(ret + size, trailsize, node.zeroed));
      }
      assert free == TakenOut(s, node, ret, size);
      r := Got(ret, node.zeroed);
    }

    /** chunk_record: the range is joined with what lies behind it and with what lies before it. It leaks when
        neither a neighbour behind nor a new node can hold it. */
    method Record(chunk: nat, size: nat, unzeroed: bool, able: bool)
      returns (kept: bool, ghost n: Option<Extent>, ghost p: Option<Extent>)
      requires Valid() && size > 0 && Outside(free, Extent(chunk, size, !unzeroed))
      modifies `ad, `szad, `free
      ensures Valid()
      ensures !kept ==> free == old(free)
      ensures kept <==> able || exists e :: e in old(free) && e.addr == chunk + size
      ensures kept ==>
              IsNext(old(free), Extent(chunk, size, !unzeroed), n) &&
              IsPrev(old(free), Extent(chunk, size, !unzeroed), p)
      ensures kept ==> free == Recorded(old(free), Extent(chunk, size, !unzeroed), n, p)
    {
      hide Both, Within, Lt;
      ghost var s, c := free, Extent(chunk, size, !unzeroed);
      n, p := None, None;
      var xnode := able;
      var next := StartingAt(chunk + size);
      var node := Extent(chunk, size, !unzeroed);
      if next.Some? {
        n := next;
        Take(next.value);
        node := Extent(chunk, next.value.size + size, next.value.zeroed && !unzeroed);
      } else if !xnode {
        return false, n, p;
      }
      OutsideStarts(s, c);
      Put(node);
      HalfRecorded(s, c, n, node);
      var prev := EndingAt(node, chunk);
      RecordedPrev(s, c, n, node, prev);
      p := prev;
      RecordedDisjoint(s, c, n, p);
      if prev.Some? {
        Take(prev.value);
        Take(node);
        PrevStarts(s, c, n, node, prev.value);
        Put(Extent(prev.value.addr, node.size + prev.value.size, node.zeroed && prev.value.zeroed));
      }
      kept := true;
    }
  }

  /** The sum is smaller than its first part exactly when it wrapped. */
  lemma WrapDetected(size: nat, more: nat, limit: nat, y: nat)
    requires size < limit && more < limit && y == (size + more) % limit
    ensures y < size <==> size + more >= limit
    ensures size + more < limit ==> y == size + more
  {
    if size + more >= limit { assert y == size + more - limit; }
  }

  /** Disjoint extents begin at different places. */
  lemma DifferentStarts(s: set<Extent>, e: Extent)
    requires Disjoint(s) && e in s
    ensures forall f :: f in s && f != e ==> f.addr < e.addr || f.addr >= End(e)
  {
    forall f | f in s && f != e ensures f.addr < e.addr || f.addr >= End(e) { assert Apart(f, e); }
  }

  lemma OutsideStarts(s: set<Extent>, c: Extent)
    requires Disjoint(s) && Outside(s, c) && c.size > 0
    ensures forall f :: f in s ==> f.addr != c.addr
  {
    forall f | f in s ensures f.addr != c.addr { assert Apart(f, c); }
  }

  lemma HalfRecorded(s: set<Extent>, c: Extent, n: Option<Extent>, node: Extent)
    requires Disjoint(s) && Outside(s, c) && c.size > 0 && IsNext(s, c, n)
    requires node == if n.Some? then Extent(c.addr, n.value.size + c.size, n.value.zeroed && c.zeroed) else c
    ensures node == Whole(c, n, None) && s - Members(n) + {node} == Recorded(s, c, n, None) &&
            Disjoint(s - Members(n) + {node})
  {
    hide Outside, Disjoint;
    HalfDisjoint(s, c, n, node);
  }

  lemma HalfDisjoint(s: set<Extent>, c: Extent, n: Option<Extent>, node: Extent)
    requires Disjoint(s) && Outside(s, c) && c.size > 0 && IsNext(s, c, n)
    requires node.addr == c.addr && End(node) == if n.Some? then End(n.value) else End(c)
    ensures Disjoint(s - Members(n) + {node})
  {
    forall e | e in s - Members(n) ensures Apart(e, node) {
      assert Apart(e, c);
      if n.Some? { assert Apart(e, n.value); }
    }
  }

  /** The extent found before the new node was there before it. */
  lemma RecordedPrev(s: set<Extent>, c: Extent, n: Option<Extent>, node: Extent, prev: Option<Extent>)
    requires Disjoint(s) && Outside(s, c) && c.size > 0 && IsNext(s, c, n) && node == Whole(c, n, None)
    requires prev == None ==> forall e :: e in s - Members(n) + {node} ==> End(e) != c.addr
    requires prev.Some? ==> prev.value in s - Members(n) + {node} && End(prev.value) == c.addr
    ensures IsPrev(s, c, prev) && (prev.Some? ==> prev.value in s && prev.value != node && prev.value !in Members(n))
  {
    if prev == None {
      forall e | e in s ensures End(e) != c.addr { if e in Members(n) { } }
    }
  }

  lemma PrevStarts(s: set<Extent>, c: Extent, n: Option<Extent>, node: Extent, prev: Extent)
    requires Disjoint(s) && prev in s && End(prev) == c.addr && node == Whole(c, n, None) && IsNext(s, c, n) &&
             c.size > 0 && node !in s
    ensures forall f :: f in s - Members(n) + {node} - {prev} - {node} ==> f.addr != prev.addr
    ensures s - Members(n) + {node} - {prev} - {node} +
            {Extent(prev.addr, node.size + prev.size, node.zeroed && prev.zeroed)}
         == Recorded(s, c, n, Some(prev))
  {
    forall f | f in s - Members(n) + {node} - {prev} - {node} ensures f.addr != prev.addr { assert Apart(f, prev); }
  }
}
