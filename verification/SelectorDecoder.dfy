/** The decoder's selectors: the loop that undoes their move-to-front coding. */
module SelectorDecoder {
  import opened MoveToFront
  import opened Decompressor

  /** One selector: the entry at v moves to the front of pos. */
  method TakeOut(pos: array<nat>, v0: nat) returns (tmp: nat)
    requires v0 < pos.Length
    modifies pos
    ensures tmp == old(pos[v0]) && pos[..] == MoveFront(old(pos[..]), v0)
  {
    ghost var was := pos[..];
    var v := v0;
    tmp := pos[v];
    while v > 0
      invariant v <= v0
      invariant forall k :: v < k <= v0 ==> pos[k] == was[k - 1]
      invariant forall k :: 0 <= k < pos.Length && !(v < k <= v0) ==> pos[k] == was[k]
    {
      pos[v] := pos[v - 1];
      v := v - 1;
    }
    pos[0] := tmp;
    assert pos[..] == MoveFront(was, v0);
  }

  lemma UndoStep(pos: seq<nat>, mtf: seq<nat>, i: nat)
    requires AllBelow(mtf, |pos|) && i < |mtf|
    ensures UndoSelectors(pos, mtf[i..]) == [pos[mtf[i]]] + UndoSelectors(MoveFront(pos, mtf[i]), mtf[i + 1..])
  {
  }

  /** The selectors from the ranks read, as the machine's Selector3 step has them at once. */
  method UndoSelectorMtf(selectorMtf: seq<nat>, nGroups: nat) returns (selector: seq<nat>)
    requires AllBelow(selectorMtf, nGroups)
    ensures selector == UndoSelectors(Ascending(nGroups), selectorMtf)
  {
    hide MoveFront, UndoSelectors;
    var pos := new nat[nGroups](i => i);
    assert pos[..] == Ascending(nGroups);
    selector := [];
    assert selectorMtf[0..] == selectorMtf;
    for i := 0 to |selectorMtf|
      invariant fresh(pos) && pos.Length == nGroups
      invariant selector + UndoSelectors(pos[..], selectorMtf[i..]) == UndoSelectors(Ascending(nGroups), selectorMtf)
    {
      UndoStep(pos[..], selectorMtf, i);
      var tmp := TakeOut(pos, selectorMtf[i]);
      selector := selector + [tmp];
    }
    UndoNone(pos[..]);
    assert selectorMtf[|selectorMtf|..] == [];
  }

  lemma UndoNone(pos: seq<nat>)
    ensures UndoSelectors(pos, []) == []
  {
  }
}
