/** The output phase of the decoder: undoing the run-length coding as bytes are read off the inverse
    transform, in the fast form and in the small one. */
module OutputRuns {
  import opened Bits
  import opened CountingSort
  import opened Rotations
  import opened Checksums
  import opened RunLength
  import opened Decompressor
  import opened InverseTransform

  /** The registers of the output loops. */
  datatype Cursor = Cursor(tPos: nat, used: nat, k0: Byte, ch: Byte, len: nat)

  /** The block's bytes, in order. */
  function Text(last: Block, orig: nat): (t: seq<Byte>)
    requires orig < |last|
    ensures |t| == |last| && forall i :: 0 <= i < |t| ==> t[i] == ByteAt(last, orig, i)
  {
    seq(|last|, i requires 0 <= i < |last| => ByteAt(last, orig, i))
  }

  /** What the block expands to from its byte i on; beyond its end a count has been missed. */
  function TailFrom(last: Block, orig: nat, used: nat): Expansion
    requires orig < |last| && used >= 1
  {
    var n := |last|;
    if used > n + 1 then Expansion([], true)
    else if used == n + 1 then Expansion([], false)
    else Expand(Text(last, orig)[used - 1..], ByteAt(last, orig, n))
  }

  /** What the loops still have to write. */
  function Left(last: Block, orig: nat, c: Cursor): Expansion
    requires orig < |last| && c.used >= 1
  {
    Prepend(Repeat(c.ch, c.len), TailFrom(last, orig, c.used))
  }

  predicate Good(last: Block, orig: nat, c: Cursor) {
    && orig < |last| && 1 <= c.used <= |last| + 2
    && (c.used <= |last| ==> c.k0 == ByteAt(last, orig, c.used - 1))
  }

  /** The next k bytes at i equal the one at i. */
  predicate Same(last: Block, orig: nat, i: nat, k: nat)
    requires orig < |last|
  {
    i + k <= |last| && forall j :: i <= j < i + k ==> ByteAt(last, orig, j) == ByteAt(last, orig, i)
  }

  /** A run of k < 4 bytes that the next byte, or the end, closes. */
  lemma ShortRun(last: Block, orig: nat, i: nat, k: nat)
    requires orig < |last| && 1 <= k <= 3 && Same(last, orig, i, k)
    requires i + k == |last| || ByteAt(last, orig, i + k) != ByteAt(last, orig, i)
    ensures TailFrom(last, orig, i + 1) == Prepend(Repeat(ByteAt(last, orig, i), k), TailFrom(last, orig, i + k + 1))
  {
    hide ByteAt;
    var t, n := Text(last, orig), |last|;
    var rest := t[i..];
    assert forall j :: 0 <= j < k ==> rest[j] == ByteAt(last, orig, i + j);
    if i + k < n { assert rest[k] == ByteAt(last, orig, i + k); }
    assert Leading(rest) == k;
    assert rest[k..] == t[i + k..];
    if i + k == n { assert t[i + k..] == []; ExpandNothing(ByteAt(last, orig, n)); }
  }

  /** Four equal bytes and a count, which may lie beyond the end. */
  lemma LongRun(last: Block, orig: nat, i: nat)
    requires orig < |last| && Same(last, orig, i, 4)
    ensures TailFrom(last, orig, i + 1)
         == Prepend(Repeat(ByteAt(last, orig, i), ByteAt(last, orig, i + 4) as nat + 4), TailFrom(last, orig, i + 6))
  {
    hide ByteAt, Repeat;
    var t, n := Text(last, orig), |last|;
    var rest := t[i..];
    assert forall j :: 0 <= j < 4 ==> rest[j] == ByteAt(last, orig, i + j);
    assert Leading(rest) == 4;
    if i + 4 < n {
      assert rest[4] == ByteAt(last, orig, i + 4);
      assert rest[5..] == t[i + 5..];
      if i + 5 == n { assert t[i + 5..] == []; ExpandNothing(ByteAt(last, orig, n)); }
    }
  }

  /** One byte more of the same. */
  lemma SameMore(last: Block, orig: nat, i: nat, k: nat)
    requires orig < |last| && Same(last, orig, i, k) && i + k < |last| && ByteAt(last, orig, i + k) == ByteAt(last, orig, i)
    ensures Same(last, orig, i, k + 1)
  {
    hide ByteAt;
  }

  /** The bytes of either inverse transform, whichever the decoder built. */
  class Source {
    const small: bool
    const tt: array<nat>
    const ll16: array<nat>
    const ll4: array<nat>
    const cftab: array<nat>
    /** The capacity of the block, against which positions are checked */
    const nblockMax: nat
    ghost const last: seq<Byte>
    ghost const orig: nat
    ghost const cycle: seq<nat>

    constructor (small: bool, tt: array<nat>, ll16: array<nat>, ll4: array<nat>, cftab: array<nat>, nblockMax: nat,
                 ghost last: seq<Byte>, ghost orig: nat, ghost cycle: seq<nat>)
      requires orig < |last| <= nblockMax <= 900_000
      requires !small ==> tt[..] == PackedTT(last)
      requires small ==> ll16.Length == |last| && RoomLL(ll16[..], ll4[..]) && StartsTable(last, cftab[..])
                         && orig in cycle && Reversed(last, View(ll16[..], ll4[..]), cycle)
      ensures Ready() && this.small == small && this.last == last && this.orig == orig
      ensures this.tt == tt && this.ll16 == ll16 && this.ll4 == ll4 && this.cftab == cftab && this.nblockMax == nblockMax
    {
      this.small, this.tt, this.ll16, this.ll4, this.cftab := small, tt, ll16, ll4, cftab;
      this.nblockMax, this.last, this.orig, this.cycle := nblockMax, last, orig, cycle;
    }

    ghost predicate Ready()
      reads this, tt, ll16, ll4, cftab
    {
      && orig < |last| <= nblockMax <= 900_000
      && (!small ==> tt[..] == PackedTT(last))
      && (small ==> ll16.Length == |last| && RoomLL(ll16[..], ll4[..]) && StartsTable(last, cftab[..])
                    && orig in cycle && Reversed(last, View(ll16[..], ll4[..]), cycle))
    }

    /** save_nblock */
    method Size() returns (n: nat)
      requires Ready()
      ensures n == |last|
    {
      n := if small then ll16.Length else tt.Length;
    }

    /** tPos after i bytes were read. */
    ghost function Position(i: nat): nat
      requires Ready()
      reads this, tt, ll16, ll4, cftab
    {
      if small then Row(last, orig, i) else Row(last, orig, i + 1)
    }

    /** The first tPos. */
    method Start(origPtr: nat) returns (tPos: nat)
      requires Ready() && origPtr == orig
      ensures tPos == Position(0)
    {
      hide Follow;
      if small { return origPtr; }
      Unpack(last[orig], Follow(last)[orig]);
      RowNext(last, orig, 0);
      assert tt[orig] == PackedTT(last)[orig];
      tPos := tt[origPtr] / 256;
    }

    /** BZ_GET_FAST. The assertion is its range check, which never fails. */
    method GetFast(tPos: nat, ghost used: nat) returns (cccc: Byte, tPos': nat)
      requires Ready() && !small && tPos == Position(used)
      ensures cccc == ByteAt(last, orig, used) && tPos' == Position(used + 1)
    {
      hide Follow;
      assert tPos < nblockMax;
      var x := tt[tPos];
      assert x == PackedTT(last)[tPos];
      Unpack(last[tPos], Follow(last)[tPos]);
      RowNext(last, orig, used + 1);
      cccc := x % 256;
      tPos' := x / 256;
    }

    /** BZ_GET_SMALL. The assertion is its range check, which never fails. */
    method GetSmall(tPos: nat, ghost used: nat) returns (cccc: Byte, tPos': nat)
      requires Ready() && small && tPos == Position(used)
      ensures cccc == ByteAt(last, orig, used) && tPos' == Position(used + 1)
    {
      hide Follow, View, Below, RoomLL;
      assert tPos < nblockMax;
      RowOnCycle(last, View(ll16[..], ll4[..]), orig, cycle, used);
      RowNext(last, orig, used);
      cccc := IndexIntoF(tPos, cftab, last);
      tPos' := GetLL(ll16, ll4, tPos);
    }

    method Get(tPos: nat, ghost used: nat) returns (cccc: Byte, tPos': nat)
      requires Ready() && tPos == Position(used)
      ensures cccc == ByteAt(last, orig, used) && tPos' == Position(used + 1)
    {
      if small { cccc, tPos' := GetSmall(tPos, used); } else { cccc, tPos' := GetFast(tPos, used); }
    }
  }

  /** Only rows of the reversed cycle are visited. */
  lemma {:induction false} RowOnCycle(last: Block, v: seq<nat>, orig: nat, p: seq<nat>, i: nat)
    requires orig < |last| && Reversed(last, v, p) && orig in p
    ensures Row(last, orig, i) in p && v[Row(last, orig, i)] == Follow(last)[Row(last, orig, i)]
    decreases i
  {
    hide Follow;
    if i > 0 { RowOnCycle(last, v, orig, p, i - 1); }
  }

  /** BZ2_indexIntoF: the byte of the first column at a row, by binary search in cftab. */
  method IndexIntoF(indx: nat, cftab: array<nat>, ghost last: Block) returns (nb: nat)
    requires indx < |last| && StartsTable(last, cftab[..])
    ensures nb == last[Follow(last)[indx]]
  {
    hide Follow, Below;
    nb := 0;
    var na := 256;
    FirstStart(last);
    while true
      invariant 0 <= nb < na <= 256 && Below(last, nb) <= indx < Below(last, na)
      decreases na - nb
    {
      if na - nb == 1 { break; }
      var mid := (nb + na) / 2;
      assert cftab[mid] == cftab[..][mid] == Below(last, mid);
      if indx >= cftab[mid] { nb := mid; } else { na := mid; }
    }
    OnlyStart(last, indx, nb);
  }

  lemma FirstStart(last: Block)
    ensures Below(last, 0) == 0 && Below(last, 256) == |last|
  {
    BelowAll(last, 256);
  }

  lemma OnlyStart(last: Block, indx: nat, nb: nat)
    requires indx < |last| && Below(last, nb) <= indx < Below(last, nb + 1)
    ensures nb == last[Follow(last)[indx]]
  {
    BelowAll(last, 256);
    PlaceAtSorted(last, indx, 256);
    OneBucket(last, indx, nb, last[Follow(last)[indx]]);
  }

  // ---- building the source of a block ----

  /** unzftab, counted as the block was decoded. */
  method CountBytes(last: seq<Byte>) returns (unzftab: seq<nat>)
    ensures |unzftab| == 256 && forall v: nat :: v < 256 ==> unzftab[v] == Count(last, v)
  {
    unzftab := seq(256, _ => 0);
    var i := 0;
    while i < |last|
      invariant 0 <= i <= |last| && |unzftab| == 256 && forall v: nat :: v < 256 ==> unzftab[v] == Rank(last, i, v)
    {
      unzftab := unzftab[last[i] := unzftab[last[i]] + 1];
      i := i + 1;
    }
  }

  /** The check of unzftab */
  method CheckCounts(unzftab: seq<nat>, n: nat) returns (ok: bool)
    requires |unzftab| == 256
    ensures ok <==> forall i :: 0 <= i < 256 ==> unzftab[i] <= n
  {
    for i := 0 to 256
      invariant forall j :: 0 <= j < i ==> unzftab[j] <= n
    {
      if unzftab[i] > n { return false; }
    }
    ok := true;
  }

  /** The two checks of cftab: every entry in range, and none below the one before it */
  method CheckStarts(cftab: array<nat>, n: nat) returns (ok: bool)
    requires cftab.Length == 257
    ensures ok <==> (forall i :: 0 <= i < 257 ==> cftab[i] <= n) && forall i :: 1 <= i < 257 ==> cftab[i - 1] <= cftab[i]
  {
    for i := 0 to 257
      invariant forall j :: 0 <= j < i ==> cftab[j] <= n
    {
      if cftab[i] > n { return false; }
    }
    for i := 1 to 257
      invariant forall j :: 1 <= j < i ==> cftab[j - 1] <= cftab[j]
    {
      if cftab[i - 1] > cftab[i] { return false; }
    }
    ok := true;
  }

  /** The tables counted and summed are those that the checks of the decoder speak of. */
  lemma TablesAre(unzftab: seq<nat>, cftab: seq<nat>, last: Block)
    requires |unzftab| == 256 && forall v: nat :: v < 256 ==> unzftab[v] == Count(last, v)
    requires StartsTable(last, cftab)
    ensures |cftab| == 257 && TablesInRange(unzftab, cftab, |last|)
  {
    TablesAlwaysInRange(last);
    assert unzftab == Unzftab(last) && cftab == Cftab(last);
  }

  /** The end of BZ2_decompress for a block: cftab, and tt or the packed and reversed vector. The assertion says that
      the range checks of unzftab and cftab pass. */
  method BuildSource(small: bool, last: seq<Byte>, origPtr: nat, nblockMax: nat) returns (src: Source)
    requires origPtr < |last| <= nblockMax <= 900_000
    ensures fresh(src) && src.Ready() && src.last == last && src.orig == origPtr && src.small == small &&
            src.nblockMax == nblockMax
  {
    hide *;
    var n := |last|;
    var unzftab := CountBytes(last);
    var countsOk := CheckCounts(unzftab, n);
    var cftab := MakeCftab(unzftab, last);
    assert cftab.Length == 257 by { TablesAre(unzftab, cftab[..], last); }
    var startsOk := CheckStarts(cftab, n);
    assert countsOk && startsOk by { TablesAre(unzftab, cftab[..], last); }
    if small {
      var ll16 := new nat[n](i requires 0 <= i < n => last[i]);
      var ll4 := new nat[(n + 1) / 2];
      assert ll16[..] == last;
      HasRoom(ll16[..], ll4[..]);
      var cftabCopy := MakeCftab(unzftab, last);
      BuildT(ll16, ll4, cftabCopy, last);
      ghost var p := ReversePointers(ll16, ll4, origPtr, last);
      ReversedSize(last, View(ll16[..], ll4[..]), p);
      src := new Source(true, cftab, ll16, ll4, cftab, nblockMax, last, origPtr, p);
    } else {
      var tt := new nat[n](i requires 0 <= i < n => last[i]);
      assert tt[..] == last;
      BuildFast(tt, cftab, last);
      src := new Source(false, tt, tt, tt, cftab, nblockMax, last, origPtr, []);
    }
  }

  lemma HasRoom(ll16: seq<nat>, ll4: seq<nat>)
    requires |ll4| == (|ll16| + 1) / 2
    ensures RoomLL(ll16, ll4)
  {
  }

  lemma ReversedSize(last: Block, v: seq<nat>, p: seq<nat>)
    requires Reversed(last, v, p)
    ensures |v| == |last|
  {
  }

  // ---- the next run ----

  /** c stands in the block of src. */
  ghost predicate Stands(src: Source, c: Cursor)
    reads src, src.tt, src.ll16, src.ll4, src.cftab
  {
    src.Ready() && Good(src.last, src.orig, c) && c.tPos == src.Position(c.used)
  }

  /** What a block's next run must turn the registers into. */
  ghost predicate Advanced(last: Block, orig: nat, c0: Cursor, c: Cursor) {
    && orig < |last| && 1 <= c0.used < c.used && Good(last, orig, c) && c.len >= 1
    && Left(last, orig, c) == TailFrom(last, orig, c0.used)
  }

  lemma ShortAdvance(last: Block, orig: nat, c0: Cursor, c: Cursor)
    requires Good(last, orig, c0) && c0.used <= |last| && 1 <= c.len <= 3 && c.used == c0.used + c.len && c.ch == c0.k0
    requires Same(last, orig, c0.used - 1, c.len)
    requires c.used == |last| + 1 || (c.k0 == ByteAt(last, orig, c.used - 1) && c.k0 != c0.k0)
    ensures Advanced(last, orig, c0, c)
  {
    hide ByteAt, Repeat, TailFrom;
    ShortRun(last, orig, c0.used - 1, c.len);
  }

  lemma LongAdvance(last: Block, orig: nat, c0: Cursor, c: Cursor)
    requires Good(last, orig, c0) && Same(last, orig, c0.used - 1, 4)
    requires c.used == c0.used + 5 && c.ch == c0.k0 && c.k0 == ByteAt(last, orig, c0.used + 4)
    requires c.len == ByteAt(last, orig, c0.used + 3) as nat + 4
    ensures Advanced(last, orig, c0, c)
  {
    hide ByteAt, Repeat, TailFrom;
    LongRun(last, orig, c0.used - 1);
  }

  lemma SameStart(last: Block, orig: nat, i: nat)
    requires orig < |last| && i < |last|
    ensures Same(last, orig, i, 1)
  {
  }

  /** The reading of a run in unRLE_obuf_to_output_SMALL: the end of the block is looked for first. */
  method NextRunSmall(src: Source, c0: Cursor) returns (c: Cursor)
    requires Stands(src, c0) && c0.len == 0 && c0.used <= |src.last|
    ensures Stands(src, c) && Advanced(src.last, src.orig, c0, c)
  {
    hide ByteAt, Source.Ready, Advanced, Same, Row;
    ghost var last, orig, i := src.last, src.orig, c0.used - 1;
    var n := src.Size();
    SameStart(last, orig, i);
    c := c0.(len := 1, ch := c0.k0);
    var k1, t := src.Get(c.tPos, c.used);
    c := c.(tPos := t, used := c.used + 1);
    if c.used == n + 1 { ShortAdvance(last, orig, c0, c); return; }
    if k1 != c.k0 { c := c.(k0 := k1); ShortAdvance(last, orig, c0, c); return; }
    SameMore(last, orig, i, 1);
    c := c.(len := 2);
    k1, t := src.Get(c.tPos, c.used);
    c := c.(tPos := t, used := c.used + 1);
    if c.used == n + 1 { ShortAdvance(last, orig, c0, c); return; }
    if k1 != c.k0 { c := c.(k0 := k1); ShortAdvance(last, orig, c0, c); return; }
    SameMore(last, orig, i, 2);
    c := c.(len := 3);
    k1, t := src.Get(c.tPos, c.used);
    c := c.(tPos := t, used := c.used + 1);
    if c.used == n + 1 { ShortAdvance(last, orig, c0, c); return; }
    if k1 != c.k0 { c := c.(k0 := k1); ShortAdvance(last, orig, c0, c); return; }
    SameMore(last, orig, i, 3);
    c := CountAndNext(src, c, c0);
  }

  /** After four equal bytes: the count, and the byte behind it. */
  method CountAndNext(src: Source, c1: Cursor, ghost c0: Cursor) returns (c: Cursor)
    requires src.Ready() && Good(src.last, src.orig, c0) && c1.tPos == src.Position(c1.used) && c1.used == c0.used + 3
    requires c1.ch == c0.k0 && Same(src.last, src.orig, c0.used - 1, 4)
    ensures Stands(src, c) && Advanced(src.last, src.orig, c0, c)
  {
    hide ByteAt, Source.Ready, Advanced, Row, Source.Position;
    var k1, t := src.Get(c1.tPos, c1.used);
    c := c1.(tPos := t, used := c1.used + 1, len := k1 as nat + 4);
    k1, t := src.Get(c.tPos, c.used);
    c := c.(tPos := t, used := c.used + 1, k0 := k1);
    LongAdvance(src.last, src.orig, c0, c);
    AdvancedGood(src.last, src.orig, c0, c);
  }

  lemma AdvancedGood(last: Block, orig: nat, c0: Cursor, c: Cursor)
    requires Advanced(last, orig, c0, c)
    ensures Good(last, orig, c) && c0.used < c.used
  {
  }

  /** The reading of a run in unRLE_obuf_to_output_FAST: a first differing byte is looked for before the end. */
  method NextRunFast(src: Source, c0: Cursor) returns (c: Cursor)
    requires Stands(src, c0) && c0.len == 0 && c0.used <= |src.last|
    ensures Stands(src, c) && Advanced(src.last, src.orig, c0, c)
  {
    hide ByteAt, Source.Ready, Advanced, Same, Row;
    ghost var last, orig, i := src.last, src.orig, c0.used - 1;
    var n := src.Size();
    SameStart(last, orig, i);
    c := c0.(len := 1, ch := c0.k0);
    var k1, t := src.Get(c.tPos, c.used);
    c := c.(tPos := t, used := c.used + 1);
    if k1 != c.k0 { c := c.(k0 := k1); ShortAdvance(last, orig, c0, c); return; }
    if c.used == n + 1 { ShortAdvance(last, orig, c0, c); return; }
    SameMore(last, orig, i, 1);
    c := c.(len := 2);
    k1, t := src.Get(c.tPos, c.used);
    c := c.(tPos := t, used := c.used + 1);
    if c.used == n + 1 { ShortAdvance(last, orig, c0, c); return; }
    if k1 != c.k0 { c := c.(k0 := k1); ShortAdvance(last, orig, c0, c); return; }
    SameMore(last, orig, i, 2);
    c := c.(len := 3);
    k1, t := src.Get(c.tPos, c.used);
    c := c.(tPos := t, used := c.used + 1);
    if c.used == n + 1 { ShortAdvance(last, orig, c0, c); return; }
    if k1 != c.k0 { c := c.(k0 := k1); ShortAdvance(last, orig, c0, c); return; }
    SameMore(last, orig, i, 3);
    c := CountAndNext(src, c, c0);
  }
}
