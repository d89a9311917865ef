/** The initial run-length coding: runs of one byte in the input, pairs in the block, and what the
    decoder makes of the block. */
module RunLength {
  import opened Bits

  /** A run of 1 to 255 equal bytes. */
  datatype Pair = Pair(ch: Byte, len: nat)

  predicate PairOk(p: Pair) { 1 <= p.len <= 255 }

  function Repeat(ch: Byte, n: nat): (r: seq<Byte>)
    ensures |r| == n && forall i :: 0 <= i < n ==> r[i] == ch
  {
    seq(n, _ => ch)
  }

  /** How a run stands in the block: up to three copies, or four and a count. */
  function Packed(p: Pair): (r: seq<Byte>)
    requires PairOk(p)
    ensures 1 <= |r| <= 5
  {
    if p.len < 4 then Repeat(p.ch, p.len) else Repeat(p.ch, 4) + [p.len - 4]
  }

  /** Neighbouring runs differ, unless the first one was full. */
  predicate Joint(p: Pair, q: Pair) { p.ch != q.ch || p.len == 255 }

  predicate RunsOk(runs: seq<Pair>) {
    && (forall i :: 0 <= i < |runs| ==> PairOk(runs[i]))
    && forall i :: 0 < i < |runs| ==> Joint(runs[i - 1], runs[i])
  }

  function PackAll(runs: seq<Pair>): seq<Byte>
    requires forall i :: 0 <= i < |runs| ==> PairOk(runs[i])
  {
    if runs == [] then [] else Packed(runs[0]) + PackAll(runs[1..])
  }

  function Unpacked(runs: seq<Pair>): seq<Byte> {
    if runs == [] then [] else Repeat(runs[0].ch, runs[0].len) + Unpacked(runs[1..])
  }

  /** How many of the first four bytes equal the first one. */
  function Leading(t: seq<Byte>): (k: nat)
    requires t != []
    ensures 1 <= k <= 4 && k <= |t| && forall i :: 0 <= i < k ==> t[i] == t[0]
    ensures k < 4 && k < |t| ==> t[k] != t[0]
  {
    if |t| == 1 || t[1] != t[0] then 1
    else if |t| == 2 || t[2] != t[0] then 2
    else if |t| == 3 || t[3] != t[0] then 3
    else 4
  }

  /** torn: the bytes end where a count should be. */
  datatype Expansion = Expansion(out: seq<Byte>, torn: bool)

  /** What the decoder writes for the block bytes t; a torn run takes its count from the byte beyond them. */
  function Expand(t: seq<Byte>, beyond: Byte): Expansion
    decreases |t|
  {
    if t == [] then Expansion([], false)
    else
      var k := Leading(t);
      if k < 4 then Prepend(Repeat(t[0], k), Expand(t[k..], beyond))
      else if |t| == 4 then Expansion(Repeat(t[0], 4 + beyond as nat), true)
      else Prepend(Repeat(t[0], 4 + t[4] as nat), Expand(t[5..], beyond))
  }

  function Prepend(a: seq<Byte>, e: Expansion): Expansion { Expansion(a + e.out, e.torn) }

  // ---- expanding what was packed ----

  /** The first byte of a packing is its first run's. */
  lemma PackAllFirst(runs: seq<Pair>)
    requires RunsOk(runs) && runs != []
    ensures PackAll(runs) != [] && PackAll(runs)[0] == runs[0].ch
  {
  }

  lemma ExpandPacked(p: Pair, rest: seq<Byte>, beyond: Byte)
    requires PairOk(p) && (p.len < 4 && rest != [] ==> rest[0] != p.ch)
    ensures Expand(Packed(p) + rest, beyond) == Prepend(Repeat(p.ch, p.len), Expand(rest, beyond))
  {
  }

  /** Whatever lies beyond the block, its runs come back whole. */
  lemma {:induction false} ExpandPackAll(runs: seq<Pair>, beyond: Byte)
    requires RunsOk(runs)
    ensures Expand(PackAll(runs), beyond) == Expansion(Unpacked(runs), false)
    decreases |runs|
  {
    hide Packed, Leading, Expand, Repeat;
    if runs == [] {
      ExpandNothing(beyond);
    } else {
      var rest := runs[1..];
      RunsTail(runs);
      ExpandPackAll(rest, beyond);
      if rest != [] { PackAllFirst(rest); }
      ExpandPacked(runs[0], PackAll(rest), beyond);
    }
  }

  lemma ExpandNothing(beyond: Byte)
    ensures Expand([], beyond) == Expansion([], false)
  {
  }

  lemma RunsTail(runs: seq<Pair>)
    requires RunsOk(runs) && runs != []
    ensures RunsOk(runs[1..]) && (|runs| > 1 ==> Joint(runs[0], runs[1]))
  {
  }

  // ---- appending ----

  lemma {:induction false} PackAllAppend(runs: seq<Pair>, p: Pair)
    requires PairOk(p) && forall i :: 0 <= i < |runs| ==> PairOk(runs[i])
    ensures PackAll(runs + [p]) == PackAll(runs) + Packed(p)
    decreases |runs|
  {
    hide Packed;
    if runs == [] {
      assert [] + [p] == [p] && [p][1..] == [];
      assert PackAll([p]) == Packed(p) + PackAll([]);
    } else {
      assert (runs + [p])[1..] == runs[1..] + [p];
      PackAllAppend(runs[1..], p);
    }
  }

  lemma {:induction false} UnpackedAppend(runs: seq<Pair>, p: Pair)
    ensures Unpacked(runs + [p]) == Unpacked(runs) + Repeat(p.ch, p.len)
    decreases |runs|
  {
    hide Repeat;
    if runs == [] {
      assert [] + [p] == [p] && [p][1..] == [];
      assert Unpacked([p]) == Repeat(p.ch, p.len) + Unpacked([]);
    } else {
      assert (runs + [p])[1..] == runs[1..] + [p];
      UnpackedAppend(runs[1..], p);
    }
  }

  lemma RunsOkAppend(runs: seq<Pair>, p: Pair)
    requires RunsOk(runs) && PairOk(p) && (runs != [] ==> Joint(runs[|runs| - 1], p))
    ensures RunsOk(runs + [p])
  {
  }
}
