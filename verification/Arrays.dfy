/** Writing one element of an array, as an update of the sequence it holds, and exchanging two. */
module Arrays {

  function Swap(a: seq<nat>, i: nat, j: nat): (r: seq<nat>)
    requires i < |a| && j < |a|
    ensures |r| == |a|
  {
    a[i := a[j]][j := a[i]]
  }

  method Put(a: array<nat>, i: nat, x: nat)
    requires i < a.Length
    modifies a
    ensures a[..] == old(a[..])[i := x]
  {
    a[i] := x;
  }

  method AddTo(a: array<int>, i: nat, d: int)
    requires i < a.Length
    modifies a
    ensures a[..] == old(a[..])[i := old(a[..])[i] + d]
  {
    a[i] := a[i] + d;
  }
}
