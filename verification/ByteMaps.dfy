/** The map between the bytes that occur in a block and their sequence numbers. */
module ByteMaps {
  import opened Bits

  /** The byte values in use among the first n, ascending. */
  function InUseList(inUse: seq<bool>, n: nat): (r: seq<Byte>)
    requires n <= |inUse| && n <= 256
    ensures |r| <= n && forall i :: 0 <= i < |r| ==> r[i] < n && inUse[r[i]]
  {
    if n == 0 then [] else InUseList(inUse, n - 1) + if inUse[n - 1] then [n - 1] else []
  }

  lemma {:induction false} InUseListGrows(inUse: seq<bool>, m: nat, n: nat)
    requires m <= n <= |inUse| && n <= 256
    ensures |InUseList(inUse, m)| <= |InUseList(inUse, n)|
    ensures InUseList(inUse, m) == InUseList(inUse, n)[..|InUseList(inUse, m)|]
  {
    if m < n { InUseListGrows(inUse, m, n - 1); }
  }

  /** The sequence number of a byte in use is the number of smaller bytes in use, and the list inverts it. */
  lemma SequenceNumber(inUse: seq<bool>, b: nat)
    requires |inUse| == 256 && b < 256 && inUse[b]
    ensures var k := |InUseList(inUse, b)|; k < |InUseList(inUse, 256)| && InUseList(inUse, 256)[k] == b
  {
    InUseListGrows(inUse, b + 1, 256);
    assert InUseList(inUse, b + 1)[|InUseList(inUse, b)|] == b;
  }

  /** makeMaps_e */
  method MakeMapsE(inUse: seq<bool>, unseqToSeq: array<nat>) returns (nInUse: nat)
    requires |inUse| == 256 && unseqToSeq.Length == 256
    modifies unseqToSeq
    ensures nInUse == |InUseList(inUse, 256)|
    ensures forall b :: 0 <= b < 256 && inUse[b] ==> unseqToSeq[b] < nInUse && InUseList(inUse, 256)[unseqToSeq[b]] == b
  {
    hide InUseList;
    nInUse := 0;
    assert |InUseList(inUse, 0)| == 0;
    for i := 0 to 256
      invariant nInUse == |InUseList(inUse, i)|
      invariant forall b :: 0 <= b < i && inUse[b] ==> unseqToSeq[b] == |InUseList(inUse, b)|
    {
      InUseListNext(inUse, i);
      if inUse[i] {
        unseqToSeq[i] := nInUse;
        nInUse := nInUse + 1;
      }
    }
    forall b | 0 <= b < 256 && inUse[b] ensures unseqToSeq[b] < nInUse && InUseList(inUse, 256)[unseqToSeq[b]] == b {
      SequenceNumber(inUse, b);
    }
  }

  lemma InUseListNext(inUse: seq<bool>, n: nat)
    requires n < |inUse| && n < 256
    ensures InUseList(inUse, n + 1) == InUseList(inUse, n) + if inUse[n] then [n] else []
  {
  }

  /** makeMaps_d */
  method MakeMapsD(inUse: seq<bool>, seqToUnseq: array<nat>) returns (nInUse: nat)
    requires |inUse| == 256 && seqToUnseq.Length == 256
    modifies seqToUnseq
    ensures nInUse == |InUseList(inUse, 256)| && seqToUnseq[..nInUse] == InUseList(inUse, 256)
  {
    hide InUseList;
    nInUse := 0;
    assert InUseList(inUse, 0) == [] by { InUseListNone(inUse); }
    for i := 0 to 256
      invariant nInUse == |InUseList(inUse, i)| && seqToUnseq[..nInUse] == InUseList(inUse, i)
    {
      InUseListNext(inUse, i);
      if inUse[i] {
        seqToUnseq[nInUse] := i;
        nInUse := nInUse + 1;
      }
    }
  }

  lemma InUseListNone(inUse: seq<bool>)
    ensures InUseList(inUse, 0) == []
  {
  }
}
