/** The decoder's move-to-front list: sixteen rows of sixteen bytes that slide towards the low end of
    mtfa, repacked at the high end when the first row gets there. It behaves as one list of 256. */
module SlidingMtf {
  import opened Arrays
  import opened MoveToFront

  const MTFA_SIZE := 4096
  const MTFL_SIZE := 16

  /** The row at a base. */
  function RowAt(a: seq<nat>, base: nat): (r: seq<nat>)
    requires base + 16 <= |a|
    ensures |r| == 16
  {
    a[base..base + 16]
  }

  /** The rows lie one behind the other, with room before the first. */
  predicate Spaced(b: seq<nat>) {
    && |b| == 16 && b[15] + 16 <= 4096
    && forall l, m :: 0 <= l < m < 16 ==> b[l] + 16 * (m - l) <= b[m]
  }

  /** The list the rows make up. */
  function Entry(a: seq<nat>, b: seq<nat>, i: nat): nat
    requires |a| == 4096 && Spaced(b) && i < 256
  {
    RowAt(a, Base(b, i / 16))[i % 16]
  }

  function Base(b: seq<nat>, l: nat): (p: nat)
    requires Spaced(b) && l < 16
    ensures p == b[l] && p + 16 <= 4096
  {
    assert l < 15 ==> b[l] + 16 * (15 - l) <= b[15];
    b[l]
  }

  function ListOf(a: seq<nat>, b: seq<nat>): (s: seq<nat>)
    requires |a| == 4096 && Spaced(b)
    ensures |s| == 256 && forall i :: 0 <= i < 256 ==> s[i] == Entry(a, b, i)
  {
    seq(256, i requires 0 <= i < 256 => Entry(a, b, i))
  }

  // ---- moving across rows ----

  /** Row l when entry 16 * lno + off goes to the front. */
  function MovedRow(a: seq<nat>, b: seq<nat>, lno: nat, off: nat, l: nat): seq<nat>
    requires |a| == 4096 && Spaced(b) && l < 16 && lno < 16 && off < 16
  {
    var r := RowAt(a, Base(b, l));
    if l > lno then r
    else
      var first := if l == 0 then RowAt(a, Base(b, lno))[off] else RowAt(a, Base(b, l - 1))[15];
      if l == lno then [first] + r[..off] + r[off + 1..] else [first] + r[..15]
  }

  /** Rows so moved make the list with that entry moved to the front. */
  lemma MovedRows(a: seq<nat>, b: seq<nat>, a': seq<nat>, b': seq<nat>, n: nat)
    requires |a| == |a'| == 4096 && Spaced(b) && Spaced(b') && n < 256
    requires forall l :: 0 <= l < 16 ==> RowAt(a', Base(b', l)) == MovedRow(a, b, n / 16, n % 16, l)
    ensures ListOf(a', b') == MoveFront(ListOf(a, b), n)
  {
    hide RowAt, Base, Spaced;
    forall i | 0 <= i < 256 ensures ListOf(a', b')[i] == MoveFront(ListOf(a, b), n)[i] {
      assert RowAt(a', Base(b', i / 16)) == MovedRow(a, b, n / 16, n % 16, i / 16);
      MovedEntry(a, b, n, i);
    }
  }

  lemma MovedEntry(a: seq<nat>, b: seq<nat>, n: nat, i: nat)
    requires |a| == 4096 && Spaced(b) && n < 256 && i < 256
    ensures |MovedRow(a, b, n / 16, n % 16, i / 16)| == 16
    ensures MovedRow(a, b, n / 16, n % 16, i / 16)[i % 16] == MoveFront(ListOf(a, b), n)[i]
  {
    hide RowAt, Base, Spaced;
    var s, l, j := ListOf(a, b), i / 16, i % 16;
    if i == 0 {
    } else if i <= n {
      assert MoveFront(s, n)[i] == s[i - 1];
      if j == 0 { assert (i - 1) / 16 == l - 1 && (i - 1) % 16 == 15; } else { assert (i - 1) / 16 == l && (i - 1) % 16 == j - 1; }
    } else {
      assert MoveFront(s, n)[i] == s[i];
    }
  }

  // ---- the cascade of the general case ----

  /** Row l when the cascade has come down to row m. */
  predicate CascadeRow(a0: seq<nat>, b0: seq<nat>, a: seq<nat>, lno: nat, off: nat, m: nat, l: nat)
    requires |a0| == |a| == 4096 && Spaced(b0) && b0[0] >= 1 && m <= lno < 16 && off < 16 && l < 16
  {
    var base, moved := Base(b0, l), MovedRow(a0, b0, lno, off, l);
    if l > lno then RowAt(a, base) == moved
    else if l == lno then if m < lno then RowAt(a, base) == moved else RowAt(a, base)[1..] == moved[1..]
    else if l > m then base >= 1 && RowAt(a, base - 1) == moved
    else RowAt(a, base) == RowAt(a0, base)
  }

  ghost predicate Cascade(a0: seq<nat>, b0: seq<nat>, a: seq<nat>, lno: nat, off: nat, m: nat) {
    && |a0| == |a| == 4096 && Spaced(b0) && b0[0] >= 1 && m <= lno < 16 && off < 16
    && forall l :: 0 <= l < 16 ==> CascadeRow(a0, b0, a, lno, off, m, l)
  }

  /** The bases when the cascade has come down to row m. */
  ghost predicate CascadeBases(b0: seq<nat>, b: seq<nat>, lno: nat, m: nat) {
    && |b| == 16 == |b0| && m <= lno < 16
    && forall l :: 0 <= l < 16 ==>
       b[l] as int ==
       (if l == m == lno then b0[l] as int + 1 else if m < l < lno then b0[l] as int - 1 else b0[l] as int)
  }

  lemma SpacedAt(b: seq<nat>, l: nat, m: nat)
    requires Spaced(b) && l < m < 16
    ensures b[l] + 16 * (m - l) <= b[m] && b[l] + 16 <= b[m] && b[m] + 16 <= 4096
  {
    assert m < 15 ==> b[m] + 16 * (15 - m) <= b[15];
  }

  lemma RowPut(a: seq<nat>, p: nat, x: nat, base: nat)
    requires p < |a| && base + 16 <= |a|
    ensures p < base || p >= base + 16 ==> RowAt(a[p := x], base) == RowAt(a, base)
    ensures a[p] == x ==> RowAt(a[p := x], base) == RowAt(a, base)
    ensures p == base ==> RowAt(a[p := x], base) == [x] + RowAt(a, base)[1..]
    ensures p + 1 == base ==> RowAt(a[p := x], base - 1) == [x] + RowAt(a, base)[..15]
  {
    if a[p] == x { assert a[p := x] == a; }
  }

  /** The cell that row m takes over, with the last entry of the row before. */
  lemma CascadeStep(a0: seq<nat>, b0: seq<nat>, a: seq<nat>, lno: nat, off: nat, m: nat)
    requires Cascade(a0, b0, a, lno, off, m) && 1 <= m
    ensures var p: int := if m == lno then b0[m] else b0[m] - 1; var q := b0[m - 1] + 15;
            0 <= p < 4096 && q < 4096 && Cascade(a0, b0, a[p := a[q]], lno, off, m - 1)
  {
    hide RowAt, MovedRow;
    SpacedAt(b0, m - 1, m);
    var p: nat, q := if m == lno then b0[m] else b0[m] - 1, b0[m - 1] + 15;
    assert CascadeRow(a0, b0, a, lno, off, m, m - 1);
    LastOfRow(a, a0, b0[m - 1]);
    var a', m' := a[p := a[q]], m - 1;
    forall l | 0 <= l < 16 ensures CascadeRow(a0, b0, a', lno, off, m', l) {
      CascadeStepRow(a0, b0, a, lno, off, m, p, q, l);
    }
  }

  lemma LastOfRow(a: seq<nat>, a0: seq<nat>, base: nat)
    requires base + 16 <= |a| == |a0| && RowAt(a, base) == RowAt(a0, base)
    ensures a[base + 15] == RowAt(a0, base)[15]
  {
    assert RowAt(a, base)[15] == a[base + 15];
  }

  lemma CascadeStepRow(a0: seq<nat>, b0: seq<nat>, a: seq<nat>, lno: nat, off: nat, m: nat, p: nat, q: nat, l: nat)
    requires Cascade(a0, b0, a, lno, off, m) && 1 <= m && l < 16 && b0[m - 1] + 16 <= b0[m] && b0[m] + 16 <= 4096
    requires q == b0[m - 1] + 15 && p == (if m == lno then b0[m] else b0[m] - 1) && a[q] == RowAt(a0, Base(b0, m - 1))[15]
    ensures CascadeRow(a0, b0, a[p := a[q]], lno, off, m - 1, l)
  {
    hide RowAt;
    assert CascadeRow(a0, b0, a, lno, off, m, l);
    var base := Base(b0, l);
    RowPut(a, p, a[q], base);
    if l > m {
      SpacedAt(b0, m, l);
      RowPut(a, p, a[q], base - 1);
    } else if l < m - 1 {
      SpacedAt(b0, l, m);
      SpacedAt(b0, l, m - 1);
    } else if l == m - 1 && p < base + 16 {
      assert p == q;
    }
  }

  /** The front entry goes before row 0, and all rows are as moved. */
  lemma CascadeEnd(a0: seq<nat>, b0: seq<nat>, a: seq<nat>, b: seq<nat>, lno: nat, off: nat, uc: nat)
    requires Cascade(a0, b0, a, lno, off, 0) && CascadeBases(b0, b, lno, 0) && lno >= 1
    requires uc == RowAt(a0, Base(b0, lno))[off]
    ensures b[0] >= 1 && Spaced(b[0 := b[0] - 1])
    ensures ListOf(a[b[0] - 1 := uc], b[0 := b[0] - 1]) == MoveFront(ListOf(a0, b0), 16 * lno + off)
  {
    hide RowAt, MovedRow, ListOf;
    var b', a' := b[0 := b[0] - 1], a[b[0] - 1 := uc];
    BasesDown(b0, b, lno);
    forall l | 0 <= l < 16 ensures RowAt(a', Base(b', l)) == MovedRow(a0, b0, lno, off, l) {
      CascadeEndRow(a0, b0, a, b, lno, off, uc, l);
    }
    assert (16 * lno + off) / 16 == lno && (16 * lno + off) % 16 == off;
    MovedRows(a0, b0, a', b', 16 * lno + off);
  }

  lemma BasesDown(b0: seq<nat>, b: seq<nat>, lno: nat)
    requires Spaced(b0) && b0[0] >= 1 && CascadeBases(b0, b, lno, 0) && lno >= 1
    ensures b[0] == b0[0] && Spaced(b[0 := b[0] - 1])
  {
    var b' := b[0 := b[0] - 1];
    forall l, m | 0 <= l < m < 16 ensures b'[l] + 16 * (m - l) <= b'[m] {
      SpacedAt(b0, l, m);
    }
  }

  lemma CascadeEndRow(a0: seq<nat>, b0: seq<nat>, a: seq<nat>, b: seq<nat>, lno: nat, off: nat, uc: nat, l: nat)
    requires Cascade(a0, b0, a, lno, off, 0) && CascadeBases(b0, b, lno, 0) && lno >= 1 && l < 16
    requires uc == RowAt(a0, Base(b0, lno))[off] && Spaced(b[0 := b[0] - 1])
    ensures RowAt(a[b[0] - 1 := uc], Base(b[0 := b[0] - 1], l)) == MovedRow(a0, b0, lno, off, l)
  {
    hide RowAt;
    assert CascadeRow(a0, b0, a, lno, off, 0, l);
    var p: nat := b[0] - 1;
    RowPut(a, p, uc, Base(b0, l));
    if l > 0 {
      SpacedAt(b0, 0, l);
      RowPut(a, p, uc, Base(b0, l) - 1);
    }
  }

  // ---- repacking ----

  /** Rows above ii and the entries of row ii from jj on are at the high end; what is still to be copied is intact. */
  ghost predicate Repacking(a0: seq<nat>, b0: seq<nat>, a: seq<nat>, ii: int, jj: nat) {
    && |a0| == |a| == 4096 && Spaced(b0) && -1 <= ii < 16 && jj <= 16
    && (forall l :: ii < l < 16 ==> PackedRow(a0, b0, a, l))
    && (ii >= 0 ==> a[3840 + 16 * ii + jj..3840 + 16 * ii + 16] == RowAt(a0, Base(b0, ii))[jj..]
                    && a[..b0[ii] + jj] == a0[..b0[ii] + jj])
  }

  predicate PackedRow(a0: seq<nat>, b0: seq<nat>, a: seq<nat>, l: nat)
    requires |a0| == |a| == 4096 && Spaced(b0) && l < 16
  {
    RowAt(a, 3840 + 16 * l) == RowAt(a0, Base(b0, l))
  }

  lemma HighEnd(b: seq<nat>, l: nat)
    requires Spaced(b) && l < 16
    ensures b[l] <= 3840 + 16 * l
  {
    assert l < 15 ==> b[l] + 16 * (15 - l) <= b[15];
  }

  lemma RepackStart(a0: seq<nat>, b0: seq<nat>)
    requires |a0| == 4096 && Spaced(b0)
    ensures Repacking(a0, b0, a0, 15, 16)
  {
    assert RowAt(a0, Base(b0, 15))[16..] == [];
    HighEnd(b0, 15);
  }

  /** The copy goes to a place at or above what is still to be copied. */
  lemma RepackStep(a0: seq<nat>, b0: seq<nat>, a: seq<nat>, ii: nat, jj: nat)
    requires Repacking(a0, b0, a, ii, jj) && jj >= 1
    ensures b0[ii] + jj - 1 < 4096 && 3840 + 16 * ii + jj - 1 < 4096
    ensures Repacking(a0, b0, a[3840 + 16 * ii + jj - 1 := a[b0[ii] + jj - 1]], ii, jj - 1)
  {
    HighEnd(b0, ii);
    var k, q := 3840 + 16 * ii + jj - 1, b0[ii] + jj - 1;
    var a' := a[k := a[q]];
    assert a[..b0[ii] + jj][q] == a0[..b0[ii] + jj][q];
    var row := RowAt(a0, Base(b0, ii));
    assert row[jj - 1] == a0[q];
    assert row[jj - 1..] == [row[jj - 1]] + row[jj..];
    assert a'[k..3840 + 16 * ii + 16] == [a[q]] + a[k + 1..3840 + 16 * ii + 16];
    assert a'[..b0[ii] + jj - 1] == a[..b0[ii] + jj][..b0[ii] + jj - 1] == a0[..b0[ii] + jj][..b0[ii] + jj - 1];
    forall l | ii < l < 16 ensures PackedRow(a0, b0, a', l) {
      assert PackedRow(a0, b0, a, l);
      RowPut(a, k, a[q], 3840 + 16 * l);
    }
  }

  lemma RepackNext(a0: seq<nat>, b0: seq<nat>, a: seq<nat>, ii: nat)
    requires Repacking(a0, b0, a, ii, 0)
    ensures Repacking(a0, b0, a, ii - 1, 16)
  {
    assert RowAt(a0, Base(b0, ii))[0..] == RowAt(a0, Base(b0, ii));
    assert PackedRow(a0, b0, a, ii);
    if ii > 0 {
      SpacedAt(b0, ii - 1, ii);
      assert RowAt(a0, Base(b0, ii - 1))[16..] == [];
      var n := b0[ii - 1] + 16;
      assert a[..n] == a[..b0[ii]][..n] && a0[..n] == a0[..b0[ii]][..n];
      assert a[..b0[ii] + 0] == a[..b0[ii]];
    }
  }

  lemma RepackEnd(a0: seq<nat>, b0: seq<nat>, a: seq<nat>, b: seq<nat>)
    requires Repacking(a0, b0, a, -1, 16) && |b| == 16 && forall l :: 0 <= l < 16 ==> b[l] == 3840 + 16 * l
    ensures Spaced(b) && ListOf(a, b) == ListOf(a0, b0)
  {
    hide RowAt;
    forall i | 0 <= i < 256 ensures Entry(a, b, i) == Entry(a0, b0, i) {
      assert PackedRow(a0, b0, a, i / 16);
    }
  }

  // ---- the object ----

  class MtfList {
    const mtfa: array<nat>
    const mtfbase: array<nat>

    ghost predicate Valid()
      reads this, mtfa, mtfbase
    {
      mtfa != mtfbase && mtfa.Length == 4096 && Spaced(mtfbase[..]) && mtfbase[0] >= 1
    }

    /** The list of 256 that it stands for. */
    ghost function Contents(): seq<nat>
      requires Valid()
      reads this, mtfa, mtfbase
    {
      ListOf(mtfa[..], mtfbase[..])
    }

    /** The MTF init loops. */
    constructor ()
      ensures Valid() && Contents() == Ascending(256) && fresh(mtfa) && fresh(mtfbase)
    {
      mtfa, mtfbase := new nat[4096], new nat[16];
      new;
      var kk := MTFA_SIZE - 1;
      var ii := 15;
      while ii >= 0
        invariant -1 <= ii <= 15 && kk == 3840 + 16 * ii + 15
        invariant forall l :: ii < l < 16 ==> mtfbase[l] == 3840 + 16 * l
        invariant forall k :: kk < k < 4096 ==> mtfa[k] == k - 3840
      {
        var jj := 15;
        while jj >= 0
          invariant -1 <= jj <= 15 && kk == 3840 + 16 * ii + jj
          invariant forall l :: ii < l < 16 ==> mtfbase[l] == 3840 + 16 * l
          invariant forall k :: kk < k < 4096 ==> mtfa[k] == k - 3840
        {
          mtfa[kk] := ii * MTFL_SIZE + jj;
          kk := kk - 1;
          jj := jj - 1;
        }
        mtfbase[ii] := kk + 1;
        ii := ii - 1;
      }
      InitialList(mtfa[..], mtfbase[..]);
    }

    /** mtfa[mtfbase[0]] */
    method Front() returns (uc: nat)
      requires Valid()
      ensures uc == Contents()[0]
    {
      uc := mtfa[mtfbase[0]];
      assert RowAt(mtfa[..], mtfbase[0])[0] == uc;
    }

    /** A move within the first row. */
    method MoveNear(n: nat) returns (uc: nat)
      requires Valid() && n < 16
      modifies mtfa
      ensures Valid() && uc == old(Contents()[n]) && Contents() == MoveFront(old(Contents()), n)
    {
      hide MoveFront, ListOf, Shifted;
      ghost var a0, b := mtfa[..], mtfbase[..];
      var pp := mtfbase[0];
      SpacedAt(b, 0, 15);
      uc := mtfa[pp + n];
      ShiftUp(mtfa, pp, n);
      ghost var a1 := mtfa[..];
      ShiftedFirst(a0, a1, pp, n);
      Put(mtfa, pp, uc);
      assert mtfa[..][pp := a0[pp]] == a1[pp := a0[pp]] == a1;
      NearMoved(a0, mtfa[..], b, n, uc);
    }

    /** The shift of the general case, within row lno. */
    method ShiftRow(lno: nat, off: nat) returns (uc: nat)
      requires Valid() && 1 <= lno < 16 && off < 16
      modifies mtfa, mtfbase
      ensures mtfa != mtfbase && uc == RowAt(old(mtfa[..]), old(mtfbase[lno]))[off]
      ensures Cascade(old(mtfa[..]), old(mtfbase[..]), mtfa[..], lno, off, lno)
      ensures CascadeBases(old(mtfbase[..]), mtfbase[..], lno, lno)
    {
      ghost var a0, b := mtfa[..], mtfbase[..];
      ghost var base := Base(b, lno);
      var pp := mtfbase[lno] + off;
      uc := mtfa[pp];
      assert uc == RowAt(a0, base)[off];
      while pp > mtfbase[lno]
        invariant base <= pp <= base + off && mtfbase[..] == b && Shifted(a0, mtfa[..], base, pp - base, off)
      {
        mtfa[pp] := mtfa[pp - 1];
        pp := pp - 1;
      }
      mtfbase[lno] := mtfbase[lno] + 1;
      CascadeStart(a0, mtfa[..], b, lno, off);
    }

    /** A move from a later row. */
    method MoveFar(nn: nat) returns (uc: nat)
      requires Valid() && 16 <= nn < 256
      modifies mtfa, mtfbase
      ensures mtfa.Length == 4096 && mtfa != mtfbase && Spaced(mtfbase[..])
      ensures uc == old(Contents()[nn]) && ListOf(mtfa[..], mtfbase[..]) == MoveFront(old(Contents()), nn)
    {
      hide *;
      ghost var a0, b0 := mtfa[..], mtfbase[..];
      ValidFacts();
      RowSize();
      var lno := nn / MTFL_SIZE;
      var off := nn % MTFL_SIZE;
      EntryIs(a0, b0, nn);
      ghost var lno0 := nn / 16;
      uc := ShiftRow(lno, off);
      while lno > 0
        invariant 0 <= lno <= lno0 && off < 16 && mtfa != mtfbase
        invariant Cascade(a0, b0, mtfa[..], lno0, off, lno) && CascadeBases(b0, mtfbase[..], lno0, lno)
      {
        CascadeFacts(a0, b0, mtfa[..], mtfbase[..], lno0, off, lno);
        CascadeStep(a0, b0, mtfa[..], lno0, off, lno);
        BasesStep(b0, mtfbase[..], lno0, lno);
        var p := mtfbase[lno] - 1;
        Put(mtfbase, lno, p);
        Put(mtfa, p, mtfa[mtfbase[lno - 1] + 15]);
        lno := lno - 1;
      }
      CascadeFacts(a0, b0, mtfa[..], mtfbase[..], lno0, off, 0);
      CascadeEnd(a0, b0, mtfa[..], mtfbase[..], lno0, off, uc);
      Put(mtfbase, 0, mtfbase[0] - 1);
      Put(mtfa, mtfbase[0], uc);
    }

    lemma RowSize()
      ensures MTFL_SIZE == 16
    {
    }

    lemma ValidFacts()
      requires Valid()
      ensures mtfa != mtfbase && mtfa.Length == 4096 && mtfbase.Length == 16 && Spaced(mtfbase[..]) && mtfbase[0] >= 1
      ensures Contents() == ListOf(mtfa[..], mtfbase[..])
    {
    }

    /** The rows are copied back to the high end, in place. */
    method Repack()
      requires mtfa != mtfbase && mtfa.Length == 4096 && Spaced(mtfbase[..])
      modifies mtfa, mtfbase
      ensures Valid() && Contents() == old(ListOf(mtfa[..], mtfbase[..]))
    {
      hide Spaced, RowAt, Base, ListOf, Repacking;
      ghost var a0, b0 := mtfa[..], mtfbase[..];
      RepackStart(a0, b0);
      SpacedSize(b0);
      var kk := 4096 - 1;
      var ii := 15;
      while ii >= 0
        invariant -1 <= ii <= 15 && kk == 3840 + 16 * ii + 15
        invariant forall l :: ii < l < 16 ==> mtfbase[l] == 3840 + 16 * l
        invariant forall l :: 0 <= l <= ii ==> mtfbase[l] == b0[l]
        invariant Repacking(a0, b0, mtfa[..], ii, 16)
      {
        var jj := 15;
        while jj >= 0
          invariant -1 <= jj <= 15 && kk == 3840 + 16 * ii + jj
          invariant forall l :: ii < l < 16 ==> mtfbase[l] == 3840 + 16 * l
          invariant forall l :: 0 <= l <= ii ==> mtfbase[l] == b0[l]
          invariant Repacking(a0, b0, mtfa[..], ii, jj + 1)
        {
          RepackStep(a0, b0, mtfa[..], ii, jj + 1);
          Put(mtfa, kk, mtfa[mtfbase[ii] + jj]);
          kk := kk - 1;
          jj := jj - 1;
        }
        RepackNext(a0, b0, mtfa[..], ii);
        mtfbase[ii] := kk + 1;
        ii := ii - 1;
      }
      RepackEnd(a0, b0, mtfa[..], mtfbase[..]);
    }

    /** A whole move-to-front step: whichever branch it takes, and whether or not it repacks, it is one move
        to the front of the one list. */
    method Move(nn: nat) returns (uc: nat)
      requires Valid() && nn < 256
      modifies mtfa, mtfbase
      ensures Valid() && uc == old(Contents()[nn]) && Contents() == MoveFront(old(Contents()), nn)
    {
      hide Spaced, ListOf, MoveFront;
      if nn < MTFL_SIZE {
        uc := MoveNear(nn);
      } else {
        uc := MoveFar(nn);
        SpacedSize(mtfbase[..]);
        if mtfbase[0] == 0 { Repack(); }
      }
    }
  }

  lemma EntryIs(a: seq<nat>, b: seq<nat>, n: nat)
    requires |a| == 4096 && Spaced(b) && n < 256
    ensures ListOf(a, b)[n] == RowAt(a, Base(b, n / 16))[n % 16] && 16 * (n / 16) + n % 16 == n
  {
  }

  /** The shifting loops of the first branch: four cells at a time, then one. */
  method ShiftUp(a: array<nat>, pp: nat, n: nat)
    requires pp + n < a.Length
    modifies a
    ensures Shifted(old(a[..]), a[..], pp, 0, n)
  {
    ghost var a0 := a[..];
    var nn := n;
    while nn > 3
      invariant 0 <= nn <= n && Shifted(a0, a[..], pp, nn, n)
    {
      ShiftFour(a, pp, nn, a0, n);
      nn := nn - 4;
    }
    while nn > 0
      invariant 0 <= nn <= n && Shifted(a0, a[..], pp, nn, n)
    {
      a[pp + nn] := a[pp + nn - 1];
      nn := nn - 1;
    }
  }

  method ShiftFour(a: array<nat>, pp: nat, nn: nat, ghost a0: seq<nat>, ghost n: nat)
    requires nn > 3 && Shifted(a0, a[..], pp, nn, n)
    modifies a
    ensures Shifted(a0, a[..], pp, nn - 4, n)
  {
    var z := pp + nn;
    a[z] := a[z - 1];
    a[z - 1] := a[z - 2];
    a[z - 2] := a[z - 3];
    a[z - 3] := a[z - 4];
  }

  lemma ShiftedFirst(a0: seq<nat>, a: seq<nat>, pp: nat, n: nat)
    requires Shifted(a0, a, pp, 0, n)
    ensures |a| == |a0| && pp + n < |a| && a[pp := a0[pp]] == a
  {
  }

  lemma SpacedSize(b: seq<nat>)
    requires Spaced(b)
    ensures |b| == 16
  {
  }

  lemma InitialList(a: seq<nat>, b: seq<nat>)
    requires |a| == 4096 && |b| == 16 && forall l :: 0 <= l < 16 ==> b[l] == 3840 + 16 * l
    requires forall k :: 3840 <= k < 4096 ==> a[k] == k - 3840
    ensures Spaced(b) && ListOf(a, b) == Ascending(256)
  {
    forall i | 0 <= i < 256 ensures Entry(a, b, i) == i {
      assert RowAt(a, Base(b, i / 16))[i % 16] == a[3840 + i];
    }
  }

  /** Cells lo + nn + 1 .. lo + n hold what was one cell below, the others what they held. */
  ghost predicate Shifted(a0: seq<nat>, a: seq<nat>, lo: nat, nn: nat, n: nat) {
    && |a| == |a0| && nn <= n && lo + n < |a|
    && (forall k :: lo + nn < k <= lo + n ==> a[k] == a0[k - 1])
    && (forall k :: 0 <= k < |a| && !(lo + nn < k <= lo + n) ==> a[k] == a0[k])
  }

  lemma NearRow(a0: seq<nat>, a: seq<nat>, b: seq<nat>, n: nat, uc: nat, l: nat)
    requires |a0| == |a| == 4096 && Spaced(b) && n < 16 && uc == a0[b[0] + n] && a[b[0]] == uc && l < 16
    requires Shifted(a0, a[b[0] := a0[b[0]]], b[0], 0, n) && (l > 0 ==> b[0] + 16 <= b[l])
    ensures RowAt(a, Base(b, l)) == MovedRow(a0, b, 0, n, l)
  {
    var was := a[b[0] := a0[b[0]]];
    var r, r0, m := RowAt(a, Base(b, l)), RowAt(a0, Base(b, l)), MovedRow(a0, b, 0, n, l);
    forall j | 0 <= j < 16 ensures r[j] == m[j] {
      var k := b[l] + j;
      assert r[j] == a[k] && r0[j] == a0[k];
      if l > 0 || j > 0 { assert a[k] == was[k]; }
      if l == 0 && 1 <= j <= n { assert r0[j - 1] == a0[k - 1]; }
    }
  }

  lemma CascadeStart(a0: seq<nat>, a: seq<nat>, b: seq<nat>, lno: nat, off: nat)
    requires |a0| == 4096 && Spaced(b) && b[0] >= 1 && 1 <= lno < 16 && off < 16 && Shifted(a0, a, b[lno], 0, off)
    ensures Cascade(a0, b, a, lno, off, lno) && CascadeBases(b, b[lno := b[lno] + 1], lno, lno)
  {
    forall l | 0 <= l < 16 ensures CascadeRow(a0, b, a, lno, off, lno, l) {
      if l < lno { SpacedAt(b, l, lno); }
      if l > lno { SpacedAt(b, lno, l); }
      StartRow(a0, a, b, lno, off, l);
    }
  }

  lemma StartRow(a0: seq<nat>, a: seq<nat>, b: seq<nat>, lno: nat, off: nat, l: nat)
    requires |a0| == 4096 && Spaced(b) && b[0] >= 1 && 1 <= lno < 16 && off < 16 && l < 16 && Shifted(a0, a, b[lno], 0, off)
    requires (l < lno ==> b[l] + 16 <= b[lno]) && (l > lno ==> b[lno] + 16 <= b[l])
    ensures CascadeRow(a0, b, a, lno, off, lno, l)
  {
    var r, r0, m := RowAt(a, Base(b, l)), RowAt(a0, Base(b, l)), MovedRow(a0, b, lno, off, l);
    forall j | 0 <= j < 16 ensures r[j] == (if l == lno && 1 <= j <= off then r0[j - 1] else r0[j]) {
      assert r[j] == a[b[l] + j] && r0[j] == a0[b[l] + j];
      if l == lno && 1 <= j <= off { assert r0[j - 1] == a0[b[l] + j - 1]; }
    }
    if l == lno {
      OwnRow(a0, b, lno, off, r, r0);
    } else {
      assert r == r0;
    }
  }

  lemma OwnRow(a0: seq<nat>, b: seq<nat>, lno: nat, off: nat, r: seq<nat>, r0: seq<nat>)
    requires |a0| == 4096 && Spaced(b) && lno < 16 && off < 16 && |r| == 16 == |r0| && r0 == RowAt(a0, Base(b, lno))
    requires forall j :: 1 <= j <= off ==> r[j] == r0[j - 1]
    requires forall j :: off < j < 16 ==> r[j] == r0[j]
    ensures |MovedRow(a0, b, lno, off, lno)| == 16 && r[1..] == MovedRow(a0, b, lno, off, lno)[1..]
  {
    hide RowAt, Base, Spaced;
    var m := MovedRow(a0, b, lno, off, lno);
    assert m[1..] == r0[..off] + r0[off + 1..];
    forall j | 0 <= j < 15 ensures r[1..][j] == m[1..][j] {
      var k := j + 1;
      assert r[1..][j] == r[k];
      if j >= off { assert m[1..][j] == r0[off + 1..][j - off] == r0[j + 1]; } else { assert m[1..][j] == r0[j]; }
    }
  }

  lemma CascadeFacts(a0: seq<nat>, b0: seq<nat>, a: seq<nat>, b: seq<nat>, lno: nat, off: nat, m: nat)
    requires Cascade(a0, b0, a, lno, off, m) && CascadeBases(b0, b, lno, m)
    ensures |a| == 4096 && |b| == 16 == |b0| && m <= lno < 16
    ensures m >= 1 ==> b[m] >= 1 && b[m] - 1 == (if m == lno then b0[m] else b0[m] - 1) && b[m - 1] == b0[m - 1]
                       && b[m] - 1 < 4096 && b[m - 1] + 15 < 4096
    ensures lno >= 1 && m == 0 ==> 1 <= b[0] < 4096
  {
    hide CascadeRow;
    if m >= 1 { SpacedAt(b0, m - 1, m); }
    SpacedAt(b0, 0, 15);
  }

  lemma BasesStep(b0: seq<nat>, b: seq<nat>, lno: nat, m: nat)
    requires CascadeBases(b0, b, lno, m) && m >= 1 && b[m] >= 1
    ensures CascadeBases(b0, b[m := b[m] - 1], lno, m - 1)
  {
  }

  lemma NearMoved(a0: seq<nat>, a: seq<nat>, b: seq<nat>, n: nat, uc: nat)
    requires |a0| == |a| == 4096 && Spaced(b) && n < 16 && uc == a0[b[0] + n] && a[b[0]] == uc
    requires Shifted(a0, a[b[0] := a0[b[0]]], b[0], 0, n)
    ensures ListOf(a, b) == MoveFront(ListOf(a0, b), n) && uc == ListOf(a0, b)[n]
  {
    hide ListOf, MoveFront;
    forall l | 0 <= l < 16 ensures RowAt(a, Base(b, l)) == MovedRow(a0, b, 0, n, l) {
      if l > 0 { SpacedAt(b, 0, l); }
      NearRow(a0, a, b, n, uc, l);
    }
    assert n / 16 == 0 && n % 16 == n;
    MovedRows(a0, b, a, b, n);
    assert ListOf(a0, b)[n] == Entry(a0, b, n);
  }
}
