/** Move-to-front ranks and the bijective base-2 coding of runs of rank zero. */
module MoveToFront {

  const RUNA := 0
  const RUNB := 1

  function MoveFront(list: seq<nat>, p: nat): (r: seq<nat>)
    requires p < |list|
    ensures |r| == |list|
  {
    [list[p]] + list[..p] + list[p + 1..]
  }

  /** The first position of x. */
  function IndexOf(list: seq<nat>, x: nat): (p: nat)
    requires x in list
    ensures p < |list| && list[p] == x && x !in list[..p]
  {
    if list[0] == x then 0 else 1 + IndexOf(list[1..], x)
  }

  lemma FirstIndex(list: seq<nat>, x: nat, j: nat)
    requires j < |list| && list[j] == x && x !in list[..j]
    ensures x in list && IndexOf(list, x) == j
  {
  }

  /** A run length as digits RUNA = 1 and RUNB = 2 of base 2, least significant first. */
  function RunDigits(z: nat): (r: seq<nat>)
    ensures forall i :: 0 <= i < |r| ==> r[i] <= 1
    ensures |r| <= z
  {
    if z == 0 then [] else [if (z - 1) % 2 == 1 then RUNB else RUNA] + RunDigits((z - 1) / 2)
  }

  function Ascending(n: nat): (r: seq<nat>)
    ensures |r| == n && forall i :: 0 <= i < n ==> r[i] == i
  {
    seq(n, i requires 0 <= i < n => i)
  }

  ghost predicate Covers(list: seq<nat>, s: seq<nat>) {
    forall i :: 0 <= i < |s| ==> s[i] in list
  }

  lemma MoveFrontCovers(list: seq<nat>, p: nat, s: seq<nat>)
    requires p < |list| && Covers(list, s)
    ensures Covers(MoveFront(list, p), s)
  {
  }

  /** The symbols for s, given the list so far and pend characters already counted as a run of rank zero. */
  function Encode(list: seq<nat>, s: seq<nat>, pend: nat): seq<nat>
    requires Covers(list, s)
    decreases |s|
  {
    if s == [] then RunDigits(pend)
    else
      var p := IndexOf(list, s[0]);
      if p == 0 then Encode(list, s[1..], pend + 1)
      else
        MoveFrontCovers(list, p, s[1..]);
        RunDigits(pend) + [p + 1] + Encode(MoveFront(list, p), s[1..], 0)
  }

  /** A character off the front of the list closes the pending run. */
  lemma EncodeStep(list: seq<nat>, s: seq<nat>, pend: nat)
    requires Covers(list, s) && s != [] && IndexOf(list, s[0]) > 0
    ensures var p := IndexOf(list, s[0]);
            Covers(MoveFront(list, p), s[1..])
            && Encode(list, s, pend) == RunDigits(pend) + [p + 1] + Encode(MoveFront(list, p), s[1..], 0)
  {
    MoveFrontCovers(list, IndexOf(list, s[0]), s[1..]);
  }

  /** Every symbol lies between RUNA and the list size. */
  lemma {:induction false} EncodeRange(list: seq<nat>, s: seq<nat>, pend: nat, i: nat)
    requires Covers(list, s) && i < |Encode(list, s, pend)|
    ensures Encode(list, s, pend)[i] <= if |list| <= 1 then 1 else |list|
    decreases |s|
  {
    if s != [] {
      var p := IndexOf(list, s[0]);
      if p == 0 {
        EncodeRange(list, s[1..], pend + 1, i);
      } else {
        MoveFrontCovers(list, p, s[1..]);
        var k := |RunDigits(pend)| + 1;
        if i >= k {
          EncodeRange(MoveFront(list, p), s[1..], 0, i - k);
        }
      }
    }
  }

  /** No more symbols than characters. */
  lemma {:induction false} EncodeNoLonger(list: seq<nat>, s: seq<nat>, pend: nat)
    requires Covers(list, s)
    ensures |Encode(list, s, pend)| <= |s| + pend
    decreases |s|
  {
    hide RunDigits, IndexOf, MoveFront;
    if s != [] {
      var p := IndexOf(list, s[0]);
      if p == 0 {
        EncodeNoLonger(list, s[1..], pend + 1);
      } else {
        MoveFrontCovers(list, p, s[1..]);
        EncodeNoLonger(MoveFront(list, p), s[1..], 0);
      }
    }
  }

  lemma AscendingCovers(n: nat, s: seq<nat>)
    requires forall i :: 0 <= i < |s| ==> s[i] < n
    ensures Covers(Ascending(n), s)
  {
    forall i | 0 <= i < |s| ensures s[i] in Ascending(n) {
      assert Ascending(n)[s[i]] == s[i];
    }
  }
}
