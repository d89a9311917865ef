/** generateMTFValues: the symbols of a sorted block, written over the sort's own output. */
module MtfEncoder {
  import opened Bits
  import opened CountingSort
  import opened MoveToFront
  import opened Rotations

  /** Entry i of the 32-bit array ptr, in the 16-bit halves of the memory it shares with mtfv. */
  function PtrAt(mem: seq<nat>, i: nat): nat
    requires 2 * i + 1 < |mem|
  {
    mem[2 * i] + 65536 * mem[2 * i + 1]
  }

  /** The digit loop of a run: mtfv[wr..] receives RunDigits(zPend). */
  method FlushRun(mem: array<nat>, freq: array<nat>, wr0: nat, zPend0: nat) returns (wr: nat)
    requires zPend0 > 0 && freq.Length >= 2 && wr0 + zPend0 <= mem.Length && mem != freq
    requires forall v :: 0 <= v < freq.Length ==> freq[v] == Count(mem[..wr0], v)
    modifies mem, freq
    ensures wr == wr0 + |RunDigits(zPend0)|
    ensures mem[..wr] == old(mem[..wr0]) + RunDigits(zPend0)
    ensures forall k :: wr <= k < mem.Length ==> mem[k] == old(mem[k])
    ensures forall v :: 0 <= v < freq.Length ==> freq[v] == Count(mem[..wr], v)
  {
    hide Rank, RunDigits;
    wr := wr0;
    ghost var z := zPend0;
    var zPend: nat := zPend0 - 1;
    while true
      invariant z == zPend + 1 && wr + z <= mem.Length
      invariant wr0 <= wr && mem[..wr] + RunDigits(z) == old(mem[..wr0]) + RunDigits(zPend0)
      invariant forall k :: wr <= k < mem.Length ==> mem[k] == old(mem[k])
      invariant forall v :: 0 <= v < freq.Length ==> freq[v] == Count(mem[..wr], v)
      decreases z
    {
      var digit := if zPend % 2 == 1 then RUNB else RUNA;
      ghost var before := mem[..wr];
      PutSymbol(mem, freq, wr, digit);
      wr := wr + 1;
      assert mem[..wr] == before + [digit];
      NextDigit(z);
      assert before + ([digit] + RunDigits((z - 1) / 2)) == before + [digit] + RunDigits((z - 1) / 2);
      z := (z - 1) / 2;
      if zPend < 2 {
        assert mem[..wr] + RunDigits(z) == mem[..wr];
        assert wr == |mem[..wr]|;
        break;
      }
      zPend := (zPend - 2) / 2;
    }
  }

  lemma NextDigit(z: nat)
    requires z >= 1
    ensures RunDigits(z) == [if (z - 1) % 2 == 1 then RUNB else RUNA] + RunDigits((z - 1) / 2)
    ensures z <= 2 ==> RunDigits((z - 1) / 2) == []
  {
  }

  /** A symbol goes out and is counted. */
  method PutSymbol(mem: array<nat>, freq: array<nat>, wr: nat, s: nat)
    requires wr < mem.Length && s < freq.Length && mem != freq
    requires forall v :: 0 <= v < freq.Length ==> freq[v] == Count(mem[..wr], v)
    modifies mem, freq
    ensures mem[..] == old(mem[..])[wr := s]
    ensures forall v :: 0 <= v < freq.Length ==> freq[v] == Count(mem[..wr + 1], v)
  {
    hide Rank;
    mem[wr] := s;
    assert mem[..wr + 1] == old(mem[..wr]) + [s];
    forall v | 0 <= v < freq.Length ensures Count(mem[..wr + 1], v) == old(freq[v]) + if s == v then 1 else 0 {
      CountAppend(old(mem[..wr]), s, v);
    }
    freq[s] := freq[s] + 1;
  }

  /** The rotating loop: finds x behind the front of the list and moves it there. */
  method Rotate(yy: array<nat>, n: nat, x: nat) returns (j: nat)
    requires n <= yy.Length && x in yy[..n] && yy[0] != x
    modifies yy
    ensures j == IndexOf(old(yy[..n]), x) && j > 0
    ensures yy[..n] == MoveFront(old(yy[..n]), j)
  {
    ghost var was := yy[..n];
    var rtmp := yy[1];
    yy[1] := yy[0];
    j := 1;
    while x != rtmp
      invariant 1 <= j < n && rtmp == was[j] && x !in was[..j] && x in was
      invariant yy[0] == was[0] && forall k :: 1 <= k <= j ==> yy[k] == was[k - 1]
      invariant forall k :: j < k < n ==> yy[k] == was[k]
      decreases n - j
    {
      assert x in was[..j + 1] + was[j + 1..];
      assert was[..j + 1] == was[..j] + [was[j]];
      j := j + 1;
      var rtmp2 := rtmp;
      rtmp := yy[j];
      yy[j] := rtmp2;
    }
    yy[0] := rtmp;
    FirstIndex(was, x, j);
    assert yy[..n] == MoveFront(was, j);
  }

  /** The sequence numbers of the last column. */
  function Ranked(block: seq<Byte>, ptr: seq<nat>, unseqToSeq: seq<nat>): (s: seq<nat>)
    requires |unseqToSeq| == 256 && forall i :: 0 <= i < |ptr| ==> ptr[i] < |block|
    ensures |s| == |ptr|
  {
    seq(|ptr|, i requires 0 <= i < |ptr| => unseqToSeq[block[Prev(|block|, ptr[i])]])
  }

  /** What the encoding loop keeps: symbols written so far, then the pending run and the rest of the column,
      make up the whole; the entries of ptr still to be read are intact. */
  ghost predicate Progress(mem: seq<nat>, mem0: seq<nat>, list: seq<nat>, n: nat, s: seq<nat>, i: nat, wr: nat, zPend: nat) {
    && |mem| == |mem0| == 2 * |s| && i <= |s| && wr + zPend <= i
    && mem[2 * i..] == mem0[2 * i..]
    && |list| == n && Covers(list, s[i..]) && Covers(Ascending(n), s)
    && mem[..wr] + Encode(list, s[i..], zPend) == Encode(Ascending(n), s, 0)
  }

  lemma ProgressStarts(mem: seq<nat>, n: nat, s: seq<nat>)
    requires |mem| == 2 * |s| && forall i :: 0 <= i < |s| ==> s[i] < n
    ensures Progress(mem, mem, Ascending(n), n, s, 0, 0, 0)
  {
    AscendingCovers(n, s);
    assert s[0..] == s;
    assert mem[..0] + Encode(Ascending(n), s, 0) == Encode(Ascending(n), s, 0);
  }

  /** A character at the front of the list lengthens the pending run. */
  lemma ProgressRun(mem: seq<nat>, mem0: seq<nat>, list: seq<nat>, n: nat, s: seq<nat>, i: nat, wr: nat, zPend: nat)
    requires Progress(mem, mem0, list, n, s, i, wr, zPend) && i < |s| && n > 0 && list[0] == s[i]
    ensures Progress(mem, mem0, list, n, s, i + 1, wr, zPend + 1)
  {
  }

  /** Flushing the run and writing the rank of a character off the front. */
  lemma ProgressRank(mem: seq<nat>, after: seq<nat>, mem0: seq<nat>, list: seq<nat>, n: nat, s: seq<nat>, i: nat,
                     wr: nat, zPend: nat, p: nat)
    requires Progress(mem, mem0, list, n, s, i, wr, zPend) && i < |s|
    requires s[i] in list && p == IndexOf(list, s[i]) && p > 0
    requires var w := wr + |RunDigits(zPend)| + 1;
             |after| == |mem| && w <= 2 * i + 2 && after[..w] == mem[..wr] + RunDigits(zPend) + [p + 1] &&
                 after[w..] == mem[w..]
    ensures Progress(after, mem0, MoveFront(list, p), n, s, i + 1, wr + |RunDigits(zPend)| + 1, 0)
  {
    hide RunDigits, MoveFront, Encode, IndexOf;
    var w := wr + |RunDigits(zPend)| + 1;
    assert s[i..][0] == s[i] && s[i..][1..] == s[i + 1..];
    EncodeStep(list, s[i..], zPend);
    var tail := Encode(MoveFront(list, p), s[i + 1..], 0);
    assert mem[..wr] + (RunDigits(zPend) + [p + 1] + tail) == after[..w] + tail;
    DropTwo(mem, mem0, after, w, i);
  }

  lemma DropTwo(mem: seq<nat>, mem0: seq<nat>, after: seq<nat>, w: nat, i: nat)
    requires |after| == |mem| == |mem0| && w <= 2 * i + 2 <= |mem| && after[w..] == mem[w..] && mem[2 * i..] == mem0[2 * i..]
    ensures after[2 * (i + 1)..] == mem0[2 * (i + 1)..]
  {
  }

  /** The branch for a character off the front: the run so far, the rotation, the rank. */
  method PutRank(mem: array<nat>, freq: array<nat>, yy: array<nat>, n: nat, wr0: nat, zPend: nat, ll: nat,
                 ghost mem0: seq<nat>, ghost s: seq<nat>, ghost i: nat) returns (wr: nat)
    requires yy != mem && yy != freq && mem != freq && n <= yy.Length && freq.Length == n + 2
    requires Progress(mem[..], mem0, yy[..n], n, s, i, wr0, zPend) && i < |s| && ll == s[i] && n > 0 && yy[0] != ll
    requires forall v :: 0 <= v < freq.Length ==> freq[v] == Count(mem[..wr0], v)
    modifies mem, freq, yy
    ensures Progress(mem[..], mem0, yy[..n], n, s, i + 1, wr, 0)
    ensures forall v :: 0 <= v < freq.Length ==> freq[v] == Count(mem[..wr], v)
  {
    hide Rank, RunDigits, Encode, MoveFront, IndexOf;
    ghost var before, list := mem[..], yy[..n];
    wr := wr0;
    if zPend > 0 {
      wr := FlushRun(mem, freq, wr, zPend);
    } else {
      NoDigits();
      assert mem[..wr] + RunDigits(zPend) == mem[..wr];
    }
    assert mem[..wr] == before[..wr0] + RunDigits(zPend);
    assert s[i..][0] == ll;
    assert ll in list;
    var j := Rotate(yy, n, ll);
    PutSymbol(mem, freq, wr, j + 1);
    wr := wr + 1;
    assert mem[..wr] == before[..wr0] + RunDigits(zPend) + [j + 1];
    assert mem[wr..] == before[wr..];
    ProgressRank(before, mem[..], mem0, list, n, s, i, wr0, zPend, j);
  }

  lemma NoDigits()
    ensures RunDigits(0) == []
  {
  }

  lemma EndOfColumn(list: seq<nat>, s: seq<nat>, zPend: nat)
    requires Covers(list, s[|s|..])
    ensures Encode(list, s[|s|..], zPend) == RunDigits(zPend) && |RunDigits(zPend)| <= zPend
  {
  }

  lemma SamePtr(mem: seq<nat>, mem0: seq<nat>, i: nat)
    requires |mem| == |mem0| && 2 * i + 1 < |mem| && mem[2 * i..] == mem0[2 * i..]
    ensures PtrAt(mem, i) == PtrAt(mem0, i)
  {
  }

  /** generateMTFValues: reads the sorted rotations in ptr, and writes over them, from the start of the same
      memory, the symbols of the block's last column, ending with the end-of-block symbol. */
  method GenerateMtfValues(mem: array<nat>, freq: array<nat>, block: seq<Byte>, unseqToSeq: seq<nat>, nInUse: nat,
                           ghost ptr: seq<nat>)
    returns (nMTF: nat)
    requires |block| >= 1 && |ptr| == |block| && mem.Length == 2 * |block| && mem != freq
    requires forall i :: 0 <= i < |ptr| ==> ptr[i] < |block| && ptr[i] == PtrAt(mem[..], i)
    requires |unseqToSeq| == 256 && 1 <= nInUse <= 256 && freq.Length == nInUse + 2
    requires forall i :: 0 <= i < |block| ==> unseqToSeq[block[i]] < nInUse
    modifies mem, freq
    ensures nMTF <= |block| + 1 && nMTF <= mem.Length
    ensures Covers(Ascending(nInUse), Ranked(block, ptr, unseqToSeq))
    ensures mem[..nMTF] == Encode(Ascending(nInUse), Ranked(block, ptr, unseqToSeq), 0) + [nInUse + 1]
    ensures forall v :: 0 <= v < freq.Length ==> freq[v] == Count(mem[..nMTF], v)
  {
    hide Rank, RunDigits, Encode, MoveFront, IndexOf, Covers;
    var nblock := |block|;
    ghost var s := Ranked(block, ptr, unseqToSeq);
    ghost var mem0 := mem[..];
    var eob := nInUse + 1;
    for v := 0 to nInUse + 2
      invariant forall u :: 0 <= u < v ==> freq[u] == 0
      invariant mem[..] == mem0
    {
      freq[v] := 0;
    }
    var wr: nat, zPend: nat := 0, 0;
    var yy := new nat[256](i => i);
    assert yy[..nInUse] == Ascending(nInUse);
    ProgressStarts(mem0, nInUse, s);
    for i := 0 to nblock
      invariant Progress(mem[..], mem0, yy[..nInUse], nInUse, s, i, wr, zPend)
      invariant fresh(yy)
      invariant forall v :: 0 <= v < freq.Length ==> freq[v] == Count(mem[..wr], v)
    {
      SamePtr(mem[..], mem0, i);
      var j: int := PtrAt(mem[..], i) - 1;
      if j < 0 { j := j + nblock; }
      var ll := unseqToSeq[block[j]];
      assert ll == s[i];
      if yy[0] == ll {
        ProgressRun(mem[..], mem0, yy[..nInUse], nInUse, s, i, wr, zPend);
        zPend := zPend + 1;
      } else {
        wr := PutRank(mem, freq, yy, nInUse, wr, zPend, ll, mem0, s, i);
        zPend := 0;
      }
    }
    ghost var list := yy[..nInUse];
    EndOfColumn(list, s, zPend);
    if zPend > 0 {
      wr := FlushRun(mem, freq, wr, zPend);
    } else {
      NoDigits();
    }
    PutSymbol(mem, freq, wr, eob);
    wr := wr + 1;
    nMTF := wr;
  }
}
