/** The decoder machine on the selectors and the code lengths. */
module TableRoundTrip {
  import opened Bits
  import opened MoveToFront
  import opened HuffmanCodes
  import opened Decompressor
  import opened BlockFormat
  import opened Pieces

  // ---- selectors ----

  /** Undoing the move-to-front coding of the selectors gives them back. */
  lemma {:induction false} SelectorsUndo(pos: seq<nat>, selector: seq<nat>)
    requires Covers(pos, selector)
    ensures AllBelow(SelectorRanks(pos, selector), |pos|)
    ensures UndoSelectors(pos, SelectorRanks(pos, selector)) == selector
    decreases |selector|
  {
    if selector != [] {
      var p := IndexOf(pos, selector[0]);
      MoveFrontCovers(pos, p, selector[1..]);
      SelectorsUndo(MoveFront(pos, p), selector[1..]);
      var ranks := SelectorRanks(pos, selector);
      assert ranks[0] == p && ranks[1..] == SelectorRanks(MoveFront(pos, p), selector[1..]);
    }
  }

  lemma StepSelector3(d: Decoder, b: bool)
    requires Valid(d) && d.state == Selector3
    ensures Takes(More(d), [b], AfterSelector3(d, if b then 1 else 0))
  {
    hide Takes, AfterSelector3;
    StepBit(d, b);
  }

  /** One rank in unary, up to the zero that ends it. */
  lemma {:induction false} TakeUnary(d: Decoder, r: nat)
    requires Valid(d) && d.state == Selector3 && d.sel.j + r < d.sel.nGroups
    ensures Takes(More(d), Unary(r), AfterSelector3(d.(sel := d.sel.(j := d.sel.j + r)), 0))
    decreases r
  {
    hide Takes, Advance, UndoSelectors;
    if r == 0 {
      StepSelector3(d, false);
    } else {
      var d1 := d.(sel := d.sel.(j := d.sel.j + 1));
      StepSelector3(d, true);
      TakeUnary(d1, r - 1);
      Chain(More(d), [true], More(d1), Unary(r - 1), AfterSelector3(d.(sel := d.sel.(j := d.sel.j + r)), 0));
    }
  }

  /** The decoder with all selector ranks read and undone. */
  function AtCoding(d: Decoder, ranks: seq<nat>): Decoder
    requires AllBelow(ranks, d.sel.nGroups)
  {
    d.(sel := d.sel.(j := 0, selectorMtf := ranks, selector := UndoSelectors(Ascending(d.sel.nGroups), ranks)),
       cod := Coding(0, [], [], d.cod.tables), state := Coding1)
  }

  /** A rank is complete: the next one follows, or the selectors are known. */
  lemma RankRead(d: Decoder, ranks: seq<nat>, i: nat)
    requires Valid(d) && d.state == Selector3 && d.sel.j == 0
    requires |ranks| == d.sel.nSelectors && AllBelow(ranks, d.sel.nGroups)
    requires i == |d.sel.selectorMtf| && d.sel.selectorMtf == ranks[..i]
    ensures Valid(AtCoding(d, ranks))
    ensures var d', d1 := d.(sel := d.sel.(j := ranks[i])), d.(sel := d.sel.(selectorMtf := ranks[..i + 1]));
            && Valid(d') && Valid(d1) == (i + 1 < |ranks|)
            && AfterSelector3(d', 0) == More(if i + 1 < |ranks| then d1 else AtCoding(d, ranks))
  {
    hide UndoSelectors;
    UndoSelectorsBelow(Ascending(d.sel.nGroups), ranks, d.sel.nGroups);
    assert ranks[..i] + [ranks[i]] == ranks[..i + 1];
    assert ranks[..|ranks|] == ranks;
  }

  lemma {:induction false} TakeRanks(d: Decoder, ranks: seq<nat>, i: nat)
    requires Valid(d) && d.state == Selector3 && d.sel.j == 0
    requires |ranks| == d.sel.nSelectors && AllBelow(ranks, d.sel.nGroups)
    requires i == |d.sel.selectorMtf| && d.sel.selectorMtf == ranks[..i]
    ensures Valid(AtCoding(d, ranks))
    ensures Takes(More(d), UnaryBits(ranks[i..]), More(AtCoding(d, ranks)))
    decreases |ranks| - i
  {
    hide Takes, Advance, UndoSelectors, AfterSelector3;
    TakeUnary(d, ranks[i]);
    RankRead(d, ranks, i);
    assert ranks[i..][0] == ranks[i] && ranks[i..][1..] == ranks[i + 1..];
    if i + 1 < |ranks| {
      var d1 := d.(sel := d.sel.(selectorMtf := ranks[..i + 1]));
      TakeRanks(d1, ranks, i + 1);
      Chain(More(d), Unary(ranks[i]), More(d1), UnaryBits(ranks[i + 1..]), More(AtCoding(d, ranks)));
    } else {
      assert UnaryBits(ranks[i..]) == Unary(ranks[i]) + UnaryBits([]);
      assert UnaryBits(ranks[i..]) == Unary(ranks[i]);
    }
  }

  // ---- code lengths ----

  lemma StepCoding2(d: Decoder, b: bool)
    requires Valid(d) && d.state == Coding2
    ensures Takes(More(d), [b], AfterCoding2(d, if b then 1 else 0))
  {
    hide Takes, AfterCoding2;
    StepBit(d, b);
  }

  lemma StepCoding3(d: Decoder, b: bool)
    requires Valid(d) && d.state == Coding3
    ensures Takes(More(d), [b], AfterCoding3(d, if b then 1 else 0))
  {
    hide Takes, AfterCoding3;
    StepBit(d, b);
  }

  /** One step up or down of the current length: a bit to say so, a bit for the direction. */
  lemma StepDelta(d: Decoder, down: bool)
    requires Valid(d) && d.state == Coding2
    requires 1 <= (if down then d.cod.curr - 1 else d.cod.curr + 1) <= 20
    ensures Takes(More(d), [true, down], More(d.(cod := d.cod.(curr := if down then d.cod.curr - 1 else d.cod.curr + 1))))
  {
    hide Takes, Advance, BeginMtf;
    var d1 := d.(state := Coding3);
    var d2 := d.(cod := d.cod.(curr := if down then d.cod.curr - 1 else d.cod.curr + 1));
    StepCoding2(d, true);
    StepCoding3(d1, down);
    Chain(More(d), [true], More(d1), [down], More(d2));
    assert [true] + [down] == [true, down];
  }

  /** The current length is walked to the target and accepted there. */
  lemma {:induction false} TakeDelta(d: Decoder, curr: nat, target: nat)
    requires Valid(d) && d.state == Coding2 && d.cod.curr == curr && 1 <= target <= 20
    ensures Takes(More(d), DeltaBits(curr, target), AfterCoding2(d.(cod := d.cod.(curr := target)), 0))
    decreases if curr < target then target - curr else curr - target
  {
    hide Takes, Advance, AfterCoding2;
    var o := AfterCoding2(d.(cod := d.cod.(curr := target)), 0);
    if curr == target {
      StepCoding2(d, false);
    } else {
      var next := if curr < target then curr + 1 else curr - 1;
      var d1 := d.(cod := d.cod.(curr := next));
      StepDelta(d, curr > target);
      TakeDelta(d1, next, target);
      Chain(More(d), [true, curr > target], More(d1), DeltaBits(next, target), o);
    }
  }

  /** What follows a completed row. */
  function RowDone(d: Decoder, row: seq<nat>): (o: Outcome)
    requires CodingLive(d) && |row| == AlphaSize(d) && RowOk(row)
    ensures Live(o)
  {
    var d' := d.(cod := d.cod.(curr := row[|row| - 1], row := [], len := d.cod.len + [row]), state := Coding2);
    if |d'.cod.len| < d.sel.nGroups then More(d'.(state := Coding1))
    else BeginMtf(d'.(cod := d'.cod.(tables := MakeTables(d'.cod.len))))
  }

  lemma {:induction false} TakeRow(d: Decoder, row: seq<nat>, i: nat)
    requires Valid(d) && d.state == Coding2 && |row| == AlphaSize(d) && RowOk(row)
    requires i < |row| && d.cod.row == row[..i]
    ensures Takes(More(d), RowBits(d.cod.curr as nat, row[i..]), RowDone(d, row))
    decreases |row| - i
  {
    hide Takes, Advance, BeginMtf, MakeTables, DeltaBits;
    var curr := d.cod.curr as nat;
    var o := RowDone(d, row);
    TakeDelta(d, curr, row[i]);
    assert row[i..][0] == row[i] && row[i..][1..] == row[i + 1..];
    assert row[..i] + [row[i]] == row[..i + 1];
    if i + 1 < |row| {
      var d1 := d.(cod := d.cod.(curr := row[i], row := row[..i + 1]));
      TakeRow(d1, row, i + 1);
      assert d1.(cod := d1.cod.(row := [])) == d.(cod := d.cod.(curr := row[i], row := []));
      Chain(More(d), DeltaBits(curr, row[i]), More(d1), RowBits(row[i], row[i + 1..]), o);
    } else {
      assert row[..i + 1] == row;
      assert RowBits(curr, row[i..]) == DeltaBits(curr, row[i]) + RowBits(row[i], []);
      assert RowBits(curr, row[i..]) == DeltaBits(curr, row[i]);
    }
  }

  lemma TakeTable(d: Decoder, row: seq<nat>)
    requires Valid(d) && d.state == Coding1 && |row| == AlphaSize(d) && RowOk(row)
    ensures Takes(More(d), BitsOf(row[0], 5) + RowBits(row[0], row), RowDone(d, row))
  {
    hide Takes, BeginMtf, BitsOf, MakeTables, RowBits;
    Pow2Values();
    Step(d, row[0], 5);
    var d1 := d.(cod := d.cod.(curr := row[0], row := []), state := Coding2);
    assert Advance(d, row[0]) == More(d1);
    assert row[0..] == row;
    TakeRow(d1, row, 0);
    Chain(More(d), BitsOf(row[0], 5), More(d1), RowBits(row[0], row), RowDone(d, row));
  }

  /** The decoder with every code table made. */
  function AtSymbols(d: Decoder, len: seq<seq<nat>>, curr: int): Decoder {
    d.(cod := Coding(curr, [], len, MakeTables(len)), state := Coding2)
  }

  /** The last row read, all tables are known. */
  lemma LastRow(d: Decoder, len: seq<seq<nat>>, row: seq<nat>)
    requires SelectorsKnown(d) && RowsOk(len, AlphaSize(d)) && |len| == d.sel.nGroups
    requires d.cod.len + [row] == len && CodingLive(d) && |row| == AlphaSize(d) && RowOk(row)
    ensures TablesKnown(AtSymbols(d, len, row[|row| - 1])) && RowDone(d, row) == BeginMtf(AtSymbols(d, len, row[|row| - 1]))
  {
    hide BeginMtf, DecodeTables, Ascending;
  }

  /** Another row is still to come. */
  lemma MiddleRow(d: Decoder, row: seq<nat>)
    requires CodingLive(d) && |row| == AlphaSize(d) && RowOk(row) && |d.cod.len| + 1 < d.sel.nGroups
    ensures var d1 := d.(cod := d.cod.(curr := row[|row| - 1], row := [], len := d.cod.len + [row]), state := Coding1);
            Valid(d1) && RowDone(d, row) == More(d1)
  {
    hide BeginMtf, DecodeTables, Ascending;
  }

  lemma {:induction false} TakeTables(d: Decoder, len: seq<seq<nat>>, t: nat) returns (curr: int)
    requires Valid(d) && d.state == Coding1 && RowsOk(len, AlphaSize(d)) && |len| == d.sel.nGroups
    requires t < |len| && d.cod.len == len[..t]
    ensures TablesKnown(AtSymbols(d, len, curr))
    ensures Takes(More(d), TableBits(len[t..]), BeginMtf(AtSymbols(d, len, curr)))
    decreases |len| - t
  {
    hide Takes, Advance, BeginMtf, BitsOf, MakeTables, RowBits, TablesKnown, RowDone;
    var row := len[t];
    var bits := BitsOf(row[0], 5) + RowBits(row[0], row);
    TakeTable(d, row);
    assert len[..t] + [row] == len[..t + 1];
    assert len[t..][0] == row && len[t..][1..] == len[t + 1..];
    if t + 1 < |len| {
      var d1 := d.(cod := d.cod.(curr := row[|row| - 1], row := [], len := len[..t + 1]));
      MiddleRow(d, row);
      curr := TakeTables(d1, len, t + 1);
      assert AtSymbols(d1, len, curr) == AtSymbols(d, len, curr);
      Chain(More(d), bits, More(d1), TableBits(len[t + 1..]), BeginMtf(AtSymbols(d, len, curr)));
    } else {
      assert len[..t + 1] == len;
      LastRow(d, len, row);
      curr := row[|row| - 1];
      assert TableBits(len[t..]) == bits + TableBits([]);
      assert TableBits(len[t..]) == bits;
    }
  }
}
