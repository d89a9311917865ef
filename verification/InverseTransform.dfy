/** The two inverse transforms of the decoder: the 32-bit vector tt, and the 20-bit packed vector
    built in place and reversed by its pointers. Both visit the rows that Follow visits. */
module InverseTransform {
  import opened Arrays
  import opened Bits
  import opened BitWriter
  import opened CountingSort
  import opened Permutations
  import opened Rotations
  import opened Decompressor

  /** The row reached after i steps from orig. */
  function Row(last: Block, orig: nat, i: nat): (r: nat)
    requires orig < |last|
    ensures r < |last|
  {
    if i == 0 then orig else Follow(last)[Row(last, orig, i - 1)]
  }

  /** The byte read at step i, going round the cycle for ever. */
  function ByteAt(last: Block, orig: nat, i: nat): Byte
    requires orig < |last|
  {
    last[Row(last, orig, i + 1)]
  }

  /** The bytes read are those that unwinding gives. */
  lemma {:induction false} UnwindBytes(last: Block, orig: nat, j: nat, k: nat)
    requires orig < |last|
    ensures Unwind(last, Row(last, orig, j), k) == seq(k, i requires 0 <= i < k => ByteAt(last, orig, j + i))
    decreases k
  {
    hide Follow, Row;
    var whole := seq(k, i requires 0 <= i < k => ByteAt(last, orig, j + i));
    if k > 0 {
      RowNext(last, orig, j);
      UnwindBytes(last, orig, j + 1, k - 1);
      var rest := seq(k - 1, i requires 0 <= i < k - 1 => ByteAt(last, orig, j + 1 + i));
      assert whole[0] == ByteAt(last, orig, j);
      forall i | 0 <= i < k - 1 ensures whole[i + 1] == rest[i] { assert j + (i + 1) == j + 1 + i; }
      assert whole == [whole[0]] + rest;
    }
  }

  lemma RowNext(last: Block, orig: nat, i: nat)
    requires orig < |last|
    ensures Row(last, orig, i + 1) == Follow(last)[Row(last, orig, i)]
  {
  }

  /** Place and Follow are inverse. */
  lemma PlaceFollow(last: Block, i: nat)
    requires i < |last|
    ensures Place(last, i) < |last| && Follow(last)[Place(last, i)] == i
    ensures Place(last, Follow(last)[i]) == i
  {
    BelowAll(last, 256);
    SortedAtPlace(last, i, 256);
    PlaceAtSorted(last, i, 256);
  }

  // ---- cftab ----

  /** cftab holds the bucket starts. */
  ghost predicate StartsTable(last: Block, tab: seq<nat>) {
    |tab| == 257 && forall v: nat :: v <= 256 ==> tab[v] == Below(last, v)
  }

  /** The bucket starts advanced past the first i rows. */
  ghost predicate PlacesTable(last: Block, tab: seq<nat>, i: nat) {
    i <= |last| && |tab| == 257 && forall v: nat :: v < 256 ==> tab[v] == Below(last, v) + Rank(last, i, v)
  }

  lemma PlacesStart(last: Block, tab: seq<nat>)
    requires StartsTable(last, tab)
    ensures PlacesTable(last, tab, 0)
  {
  }

  lemma PlacesStep(last: Block, tab: seq<nat>, i: nat)
    requires PlacesTable(last, tab, i) && i < |last|
    ensures tab[last[i]] == Place(last, i) && PlacesTable(last, tab[last[i] := tab[last[i]] + 1], i + 1)
  {
  }

  /** cftab from the counts. */
  method MakeCftab(unzftab: seq<nat>, ghost last: Block) returns (cftab: array<nat>)
    requires |unzftab| == 256 && forall v: nat :: v < 256 ==> unzftab[v] == Count(last, v)
    ensures fresh(cftab) && StartsTable(last, cftab[..])
  {
    hide Rank;
    cftab := new nat[257];
    cftab[0] := 0;
    var i := 1;
    while i <= 256
      invariant 1 <= i <= 257 && cftab[0] == 0 && forall v :: 1 <= v < i ==> cftab[v] == unzftab[v - 1]
    {
      cftab[i] := unzftab[i - 1];
      i := i + 1;
    }
    i := 1;
    while i <= 256
      invariant 1 <= i <= 257 && (forall v: nat :: v < i ==> cftab[v] == Below(last, v))
      invariant forall v :: i <= v <= 256 ==> cftab[v] == unzftab[v - 1]
    {
      cftab[i] := cftab[i] + cftab[i - 1];
      i := i + 1;
    }
  }

  // ---- the 32-bit vector ----

  /** The rows below i have been put in the upper bits. */
  ghost predicate HalfPacked(last: Block, tt: seq<nat>, i: nat) {
    |tt| == |last| && forall j :: 0 <= j < |tt| ==> PackedAt(last, tt, i, j)
  }

  predicate PackedAt(last: Block, tt: seq<nat>, i: nat, j: nat)
    requires j < |tt| == |last|
  {
    tt[j] == last[j] + 256 * (if Follow(last)[j] < i then Follow(last)[j] else 0)
  }

  lemma PackStart(last: Block, tt: seq<nat>)
    requires tt == last
    ensures HalfPacked(last, tt, 0)
  {
  }

  lemma PackStep(last: Block, tt: seq<nat>, i: nat)
    requires HalfPacked(last, tt, i) && i < |last|
    ensures var j := Place(last, i); j < |tt| && tt[i] % 256 == last[i] && tt[j] < 256
                                     && HalfPacked(last, tt[j := tt[j] + 256 * i], i + 1)
  {
    hide Follow, Place;
    var j := Place(last, i);
    PlaceFollow(last, i);
    assert PackedAt(last, tt, i, i) && PackedAt(last, tt, i, j);
    Unpack(last[i], if Follow(last)[i] < i then Follow(last)[i] else 0);
    var tt', i' := tt[j := tt[j] + 256 * i], i + 1;
    forall k | 0 <= k < |tt'| ensures PackedAt(last, tt', i', k) {
      assert PackedAt(last, tt, i, k);
      if k != j && Follow(last)[k] == i { PlaceFollow(last, k); }
    }
  }

  lemma PackEnd(last: Block, tt: seq<nat>)
    requires HalfPacked(last, tt, |last|)
    ensures tt == PackedTT(last)
  {
    hide Follow;
    forall j | 0 <= j < |tt| ensures tt[j] == PackedTT(last)[j] {
      assert PackedAt(last, tt, |last|, j);
    }
  }

  /** Or-ing a row number above a byte. */
  lemma OrRow(i: nat, lo: nat)
    requires lo < 256
    ensures BitOr(Shl(i, 8), lo) == lo + 256 * i
  {
    Pow2Values();
    OrDisjoint(i, 8, lo);
    ShlEight(i);
  }

  /** The T^(-1) loop of the fast decoder, in place over the last column. */
  method BuildFast(tt: array<nat>, cftab: array<nat>, ghost last: Block)
    requires tt != cftab && tt[..] == last && StartsTable(last, cftab[..])
    modifies tt, cftab
    ensures tt[..] == PackedTT(last)
  {
    hide *;
    PackStart(last, tt[..]);
    PlacesStart(last, cftab[..]);
    var i := 0;
    while i < tt.Length
      invariant 0 <= i <= tt.Length == |last| && HalfPacked(last, tt[..], i) && PlacesTable(last, cftab[..], i)
    {
      PackStep(last, tt[..], i);
      PlacesStep(last, cftab[..], i);
      var uc := tt[i] % 256;
      PlacesSize(last, cftab[..], i);
      var j := cftab[uc];
      OrRow(i, tt[j]);
      Put(tt, j, BitOr(Shl(i, 8), tt[j]));
      Put(cftab, uc, cftab[uc] + 1);
      i := i + 1;
    }
    PackEnd(last, tt[..]);
  }

  lemma PlacesSize(last: Block, tab: seq<nat>, i: nat)
    requires PlacesTable(last, tab, i)
    ensures |tab| == 257
  {
  }

  // ---- the 20-bit vector ----

  /** GET_LL4: the nibble of entry i. */
  function Nibble(ll4: seq<nat>, i: nat): nat
    requires i / 2 < |ll4|
  {
    if i % 2 == 0 then ll4[i / 2] % 16 else ll4[i / 2] / 16
  }

  /** GET_LL */
  function LL(ll16: seq<nat>, ll4: seq<nat>, i: nat): nat
    requires i < |ll16| && i / 2 < |ll4|
  {
    ll16[i] + 65536 * Nibble(ll4, i)
  }

  /** There is half a byte for each entry. */
  predicate RoomLL(ll16: seq<nat>, ll4: seq<nat>) {
    |ll16| <= 2 * |ll4|
  }

  /** All entries. */
  function View(ll16: seq<nat>, ll4: seq<nat>): (v: seq<nat>)
    requires RoomLL(ll16, ll4)
    ensures |v| == |ll16| && forall i :: 0 <= i < |v| ==> v[i] == LL(ll16, ll4, i)
  {
    seq(|ll16|, i requires 0 <= i < |ll16| => LL(ll16, ll4, i))
  }

  /** What SET_LL4 leaves in the byte that entry i shares with its neighbour. */
  function WithNibble(w: nat, i: nat, h: nat): nat {
    if i % 2 == 0 then w / 16 * 16 + h else w % 16 + 16 * h
  }

  lemma SetEntry(low: seq<nat>, nib: seq<nat>, i: nat, n: nat, k: nat)
    requires RoomLL(low, nib) && i < |low| && k < |low| && n < 0x10_0000
    ensures LL(low[i := n % 65536], nib[i / 2 := WithNibble(nib[i / 2], i, n / 65536)], k) == if k == i then n
            else LL(low, nib, k)
  {
    var h := n / 65536;
    NibbleKept(nib[i / 2], h);
    if k / 2 == i / 2 && k != i { assert k % 2 != i % 2; }
  }

  lemma NibbleKept(w: nat, h: nat)
    requires h < 16
    ensures (w / 16 * 16 + h) % 16 == h && (w / 16 * 16 + h) / 16 == w / 16
    ensures (w % 16 + 16 * h) % 16 == w % 16 && (w % 16 + 16 * h) / 16 == h
  {
  }

  /** SET_LL: the sixteen low bits, and four more in the entry's half of a byte. */
  method SetLL(ll16: array<nat>, ll4: array<nat>, i: nat, n: nat)
    requires ll16 != ll4 && i < ll16.Length && RoomLL(ll16[..], ll4[..]) && n < 0x10_0000
    modifies ll16, ll4
    ensures RoomLL(ll16[..], ll4[..]) && View(ll16[..], ll4[..]) == old(View(ll16[..], ll4[..]))[i := n]
    ensures forall k :: 0 <= k < ll16.Length && k != i ==> ll16[k] == old(ll16[k])
  {
    hide LL, WithNibble;
    ghost var low: seq<nat>, nib: seq<nat> := ll16[..], ll4[..];
    ll16[i] := n % 65536;
    ll4[i / 2] := WithNibble(ll4[i / 2], i, n / 65536);
    assert ll16[..] == low[i := n % 65536] && ll4[..] == nib[i / 2 := WithNibble(nib[i / 2], i, n / 65536)];
    forall k | 0 <= k < |low| ensures LL(ll16[..], ll4[..], k) == if k == i then n else LL(low, nib, k) {
      SetEntry(low, nib, i, n, k);
    }
  }

  /** T below i, and the last column still in the low bits from i on. */
  ghost predicate Threaded(last: Block, low: seq<nat>, v: seq<nat>, i: nat) {
    && |v| == |low| == |last| && i <= |v|
    && (forall k :: 0 <= k < i ==> v[k] == Place(last, k))
    && (forall k :: i <= k < |v| ==> low[k] == last[k])
  }

  lemma ThreadStep(last: Block, low: seq<nat>, v: seq<nat>, low': seq<nat>, i: nat)
    requires Threaded(last, low, v, i) && i < |v| && |low'| == |low|
    requires forall k :: 0 <= k < |low| && k != i ==> low'[k] == low[k]
    ensures low[i] == last[i] && Threaded(last, low', v[i := Place(last, i)], i + 1)
  {
    hide Place;
  }

  lemma ThreadFacts(last: Block, low: seq<nat>, v: seq<nat>, i: nat)
    requires Threaded(last, low, v, i)
    ensures |low| == |last| && (i < |low| ==> low[i] == last[i] < 256)
  {
  }

  /** The T loop of the small decoder. */
  method BuildT(ll16: array<nat>, ll4: array<nat>, cftabCopy: array<nat>, ghost last: Block)
    requires ll16 != ll4 && ll16 != cftabCopy && ll4 != cftabCopy && ll16[..] == last && RoomLL(ll16[..], ll4[..])
    requires |last| <= 900_000 && StartsTable(last, cftabCopy[..])
    modifies ll16, ll4, cftabCopy
    ensures RoomLL(ll16[..], ll4[..]) && Threaded(last, ll16[..], View(ll16[..], ll4[..]), |last|)
  {
    hide Place, Rank, Below, View, PlacesTable;
    PlacesStart(last, cftabCopy[..]);
    ThreadStart(last, ll16[..], View(ll16[..], ll4[..]));
    var i := 0;
    while i < ll16.Length
      invariant 0 <= i <= ll16.Length == |last| && RoomLL(ll16[..], ll4[..])
      invariant PlacesTable(last, cftabCopy[..], i) && Threaded(last, ll16[..], View(ll16[..], ll4[..]), i)
    {
      ghost var low, v := ll16[..], View(ll16[..], ll4[..]);
      ThreadFacts(last, low, v, i);
      PlacesStep(last, cftabCopy[..], i);
      PlacesSize(last, cftabCopy[..], i);
      PlaceFollow(last, i);
      var uc := ll16[i] % 256;
      SetLL(ll16, ll4, i, cftabCopy[uc]);
      ThreadStep(last, low, v, ll16[..], i);
      Put(cftabCopy, uc, cftabCopy[uc] + 1);
      i := i + 1;
    }
  }

  lemma ThreadStart(last: Block, low: seq<nat>, v: seq<nat>)
    requires low == last && |v| == |low|
    ensures Threaded(last, low, v, 0)
  {
  }

  // ---- pointer reversal ----

  /** The walk so far: it began at orig, goes by T, and has met no row twice. */
  ghost predicate Walked(last: Block, orig: nat, p: seq<nat>) {
    && orig < |last| && p != [] && p[0] == orig && Distinct(p)
    && (forall k :: 0 <= k < |p| ==> p[k] < |last|)
    && (forall k :: 0 < k < |p| ==> p[k] == Place(last, p[k - 1]))
  }

  /** The rows walked, after the first, point back; the others still point forward. */
  ghost predicate Reversing(last: Block, v: seq<nat>, orig: nat, p: seq<nat>) {
    && Walked(last, orig, p) && |v| == |last|
    && (forall k :: 0 < k < |p| ==> v[p[k]] == p[k - 1])
    && (forall y :: 0 <= y < |v| && y !in p[1..] ==> v[y] == Place(last, y))
  }

  /** Every row of the cycle through orig points to the row that follows it. */
  ghost predicate Reversed(last: Block, v: seq<nat>, p: seq<nat>) {
    && |v| == |last|
    && forall y :: y in p ==> y < |v| && v[y] == Follow(last)[y] && v[y] in p
  }

  lemma PlaceInjective(last: Block, x: nat, y: nat)
    requires x < |last| && y < |last| && Place(last, x) == Place(last, y)
    ensures x == y
  {
    PlaceFollow(last, x);
    PlaceFollow(last, y);
  }

  /** The next row is new, unless it is the first one. */
  lemma NextIsNew(last: Block, orig: nat, p: seq<nat>)
    requires Walked(last, orig, p)
    ensures var j := Place(last, p[|p| - 1]); j < |last| && (j == orig || j !in p)
  {
    hide Place;
    var i := p[|p| - 1];
    var j := Place(last, i);
    PlaceFollow(last, i);
    if j != orig && j in p {
      var k :| 0 <= k < |p| && p[k] == j;
      assert k > 0;
      PlaceInjective(last, p[k - 1], i);
    }
  }

  lemma ReverseStart(last: Block, low: seq<nat>, v: seq<nat>, orig: nat)
    requires Threaded(last, low, v, |last|) && orig < |last|
    ensures Reversing(last, v, orig, [orig])
  {
    hide Place;
    assert [orig][1..] == [];
  }

  lemma ReverseStep(last: Block, v: seq<nat>, orig: nat, p: seq<nat>)
    requires Reversing(last, v, orig, p) && Place(last, p[|p| - 1]) != orig
    ensures var i := p[|p| - 1]; var j := Place(last, i);
            j < |v| && v[j] == Place(last, j) && Reversing(last, v[j := i], orig, p + [j]) && |p| < |last|
  {
    hide Place;
    NextIsNew(last, orig, p);
    var i := p[|p| - 1];
    var j := Place(last, i);
    var q := p + [j];
    assert q[1..] == p[1..] + [j];
    assert j !in p[1..];
    assert Walked(last, orig, q);
    DistinctFits(q, |last|);
    forall k | 0 < k < |q| ensures v[j := i][q[k]] == q[k - 1] {
      if k < |p| { assert p[k] != j; }
    }
  }

  lemma DistinctFits(p: seq<nat>, n: nat)
    requires Distinct(p) && forall k :: 0 <= k < |p| ==> p[k] < n
    ensures |p| <= n
  {
    DistinctCount(p);
    assert Elements(p) <= Range(n);
    SubsetCount(Elements(p), Range(n));
  }

  lemma ReverseEnd(last: Block, v: seq<nat>, orig: nat, p: seq<nat>)
    requires Reversing(last, v, orig, p) && Place(last, p[|p| - 1]) == orig
    ensures Reversed(last, v[orig := p[|p| - 1]], p) && orig in p
  {
    hide Place;
    var v' := v[orig := p[|p| - 1]];
    forall y | y in p ensures y < |v'| && v'[y] == Follow(last)[y] && v'[y] in p {
      var k :| 0 <= k < |p| && p[k] == y;
      if k == 0 {
        PlaceFollow(last, p[|p| - 1]);
      } else {
        PlaceFollow(last, p[k - 1]);
        assert p[0] != p[k];
      }
    }
  }

  lemma ReverseFacts(last: Block, v: seq<nat>, orig: nat, p: seq<nat>)
    requires Reversing(last, v, orig, p)
    ensures |v| == |last| && p != [] && p[|p| - 1] < |last| && orig < |last|
    ensures v[orig] == Place(last, orig)
    ensures |p| <= |last|
  {
    hide Place;
    assert orig !in p[1..] by {
      forall k | 0 <= k < |p[1..]| ensures p[1..][k] != orig { assert p[0] != p[k + 1]; }
    }
    DistinctFits(p, |last|);
  }

  method GetLL(ll16: array<nat>, ll4: array<nat>, i: nat) returns (n: nat)
    requires i < ll16.Length && RoomLL(ll16[..], ll4[..])
    ensures n == View(ll16[..], ll4[..])[i]
  {
    n := ll16[i] + 65536 * (if i % 2 == 0 then ll4[i / 2] % 16 else ll4[i / 2] / 16);
  }

  /** The pointer reversal of the small decoder: it turns round the cycle through origPtr, and terminates
      because the walk meets no row twice. */
  method ReversePointers(ll16: array<nat>, ll4: array<nat>, origPtr: nat, ghost last: Block) returns (ghost p: seq<nat>)
    requires ll16 != ll4 && RoomLL(ll16[..], ll4[..]) && origPtr < |last| <= 900_000 && ll16.Length == |last|
    requires Threaded(last, ll16[..], View(ll16[..], ll4[..]), |last|)
    modifies ll16, ll4
    ensures RoomLL(ll16[..], ll4[..]) && Reversed(last, View(ll16[..], ll4[..]), p) && origPtr in p
  {
    hide *;
    ReverseStart(last, ll16[..], View(ll16[..], ll4[..]), origPtr);
    p := [origPtr];
    var i := origPtr;
    ReverseFacts(last, View(ll16[..], ll4[..]), origPtr, p);
    var j := GetLL(ll16, ll4, i);
    while true
      invariant ll16.Length == |last| && RoomLL(ll16[..], ll4[..]) && Reversing(last, View(ll16[..], ll4[..]), origPtr, p)
      invariant p != [] && i == p[|p| - 1] < |last| && j == Place(last, i) && |p| <= |last|
      decreases |last| - |p|
    {
      ghost var v := View(ll16[..], ll4[..]);
      NextFits(last, i);
      var tmp := GetLL(ll16, ll4, j);
      SetLL(ll16, ll4, j, i);
      i := j;
      j := tmp;
      if i == origPtr {
        ReverseEnd(last, v, origPtr, p);
        break;
      }
      ReverseStep(last, v, origPtr, p);
      p := p + [i];
    }
  }

  lemma NextFits(last: Block, i: nat)
    requires i < |last|
    ensures Place(last, i) < |last|
  {
    PlaceFollow(last, i);
  }
}
