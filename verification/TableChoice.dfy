/** The first half of sendMTFValues: which code tables to use, and which table for which group of symbols. */
module TableChoice {
  import opened Bits
  import opened CountingSort
  import opened HuffmanCodes
  import opened HuffmanLengths
  import opened HuffmanForest
  import opened BlockFormat

  const LESSER_ICOST := 0
  const GREATER_ICOST := 15
  const N_ITERS := 4
  const MAX_LEN := 17

  function GroupsFor(nMTF: nat): (n: nat)
    ensures 2 <= n <= 6
  {
    if nMTF < 200 then 2 else if nMTF < 600 then 3 else if nMTF < 1200 then 4 else if nMTF < 2400 then 5 else 6
  }

  /** Rows of code lengths, none above 17. */
  predicate Rows(len: seq<seq<nat>>, nGroups: nat, alphaSize: nat) {
    |len| == nGroups && forall t :: 0 <= t < nGroups ==> |len[t]| == alphaSize && forall v :: 0 <= v < alphaSize ==>
        len[t][v] <= MAX_LEN
  }

  predicate SymbolsOk(mtfv: seq<nat>, alphaSize: nat) {
    forall i :: 0 <= i < |mtfv| ==> mtfv[i] < alphaSize
  }

  // ---- costs ----

  /** What coding symbols gs..ge-1 with one table costs. */
  function Cost(row: seq<nat>, mtfv: seq<nat>, gs: nat, ge: nat): (c: nat)
    requires gs <= ge <= |mtfv| && SymbolsOk(mtfv, |row|) && forall v :: 0 <= v < |row| ==> row[v] <= MAX_LEN
    ensures c <= MAX_LEN * (ge - gs)
    decreases ge
  {
    if ge == gs then 0 else Cost(row, mtfv, gs, ge - 1) + row[mtfv[ge - 1]]
  }

  /** The slow loop: every table, symbol by symbol. */
  method SlowCosts(len: seq<seq<nat>>, mtfv: seq<nat>, nGroups: nat, alphaSize: nat, gs: nat, ge: nat)
    returns (cost: seq<nat>)
    requires Rows(len, nGroups, alphaSize) && SymbolsOk(mtfv, alphaSize) && gs <= ge <= |mtfv| && ge - gs <= 50
    ensures |cost| == nGroups && forall t :: 0 <= t < nGroups ==> cost[t] == Cost(len[t], mtfv, gs, ge) < 0x1_0000
  {
    cost := seq(nGroups, _ => 0);
    for i := gs to ge
      invariant |cost| == nGroups && forall t :: 0 <= t < nGroups ==> cost[t] == Cost(len[t], mtfv, gs, i)
    {
      for t := 0 to nGroups
        invariant |cost| == nGroups
        invariant forall u :: 0 <= u < t ==> cost[u] == Cost(len[u], mtfv, gs, i + 1)
        invariant forall u :: t <= u < nGroups ==> cost[u] == Cost(len[u], mtfv, gs, i)
      {
        cost := cost[t := cost[t] + len[t][mtfv[i]]];
      }
    }
  }

  /** Two lengths in one word: the second in the high half. */
  function Pack(lo: nat, hi: nat): nat { lo + 65536 * hi }

  /** The fast loop for six tables and a full group: three packed sums stand for six,
      because no half can carry into the other. */
  method FastCosts(len: seq<seq<nat>>, mtfv: seq<nat>, alphaSize: nat, gs: nat, ge: nat) returns (cost: seq<nat>)
    requires Rows(len, 6, alphaSize) && SymbolsOk(mtfv, alphaSize) && gs + 50 == ge <= |mtfv|
    ensures |cost| == 6 && forall t :: 0 <= t < 6 ==> cost[t] == Cost(len[t], mtfv, gs, ge) < 0x1_0000
  {
    hide Pack, Cost;
    var cost01, cost23, cost45 := 0, 0, 0;
    CostNothing(len, mtfv, gs);
    PackZero();
    for i := gs to ge
      invariant cost01 == Pack(Cost(len[0], mtfv, gs, i), Cost(len[1], mtfv, gs, i))
      invariant cost23 == Pack(Cost(len[2], mtfv, gs, i), Cost(len[3], mtfv, gs, i))
      invariant cost45 == Pack(Cost(len[4], mtfv, gs, i), Cost(len[5], mtfv, gs, i))
    {
      var icv := mtfv[i];
      PackedStep(len[0], len[1], mtfv, gs, i);
      PackedStep(len[2], len[3], mtfv, gs, i);
      PackedStep(len[4], len[5], mtfv, gs, i);
      cost01 := cost01 + Pack(len[0][icv], len[1][icv]);
      cost23 := cost23 + Pack(len[2][icv], len[3][icv]);
      cost45 := cost45 + Pack(len[4][icv], len[5][icv]);
    }
    Unpack(Cost(len[0], mtfv, gs, ge), Cost(len[1], mtfv, gs, ge));
    Unpack(Cost(len[2], mtfv, gs, ge), Cost(len[3], mtfv, gs, ge));
    Unpack(Cost(len[4], mtfv, gs, ge), Cost(len[5], mtfv, gs, ge));
    cost := [cost01 % 65536, cost01 / 65536, cost23 % 65536, cost23 / 65536, cost45 % 65536, cost45 / 65536];
  }

  lemma CostNothing(len: seq<seq<nat>>, mtfv: seq<nat>, gs: nat)
    requires |len| == 6 && gs <= |mtfv| && forall t :: 0 <= t < 6 ==> SymbolsOk(mtfv, |len[t]|) && forall v ::
             0 <= v < |len[t]| ==> len[t][v] <= MAX_LEN
    ensures forall t :: 0 <= t < 6 ==> Cost(len[t], mtfv, gs, gs) == 0
  {
  }

  lemma PackZero()
    ensures Pack(0, 0) == 0
  {
  }

  /** Adding packed lengths adds both costs. */
  lemma PackedStep(lo: seq<nat>, hi: seq<nat>, mtfv: seq<nat>, gs: nat, i: nat)
    requires gs <= i < |mtfv| && |lo| == |hi| && SymbolsOk(mtfv, |lo|)
    requires forall v :: 0 <= v < |lo| ==> lo[v] <= MAX_LEN && hi[v] <= MAX_LEN
    ensures Pack(Cost(lo, mtfv, gs, i), Cost(hi, mtfv, gs, i)) + Pack(lo[mtfv[i]], hi[mtfv[i]])
         == Pack(Cost(lo, mtfv, gs, i + 1), Cost(hi, mtfv, gs, i + 1))
  {
  }

  lemma Unpack(lo: nat, hi: nat)
    requires lo < 65536
    ensures Pack(lo, hi) % 65536 == lo && Pack(lo, hi) / 65536 == hi
  {
  }

  /** The first table of least cost. */
  method Cheapest(cost: seq<nat>) returns (bt: nat)
    requires |cost| > 0 && forall t :: 0 <= t < |cost| ==> cost[t] < 0x1_0000
    ensures bt < |cost| && (forall t :: 0 <= t < |cost| ==> cost[bt] <= cost[t]) && forall t :: 0 <= t < bt ==>
            cost[bt] < cost[t]
  {
    var bc := 999999999;
    bt := 0;
    for t := 0 to |cost|
      invariant t == 0 ==> bc == 999999999 && bt == 0
      invariant t > 0 ==> bt < t && bc == cost[bt]
      invariant forall u :: 0 <= u < t ==> bc <= cost[u]
      invariant forall u :: 0 <= u < bt ==> bc < cost[u]
    {
      if cost[t] < bc { bc := cost[t]; bt := t; }
    }
  }

  // ---- one improvement pass ----

  function Sum(f: seq<nat>): nat {
    if f == [] then 0 else Sum(f[..|f| - 1]) + f[|f| - 1]
  }

  lemma {:induction false} SumUpdate(f: seq<nat>, v: nat, x: nat)
    requires v < |f|
    ensures Sum(f[v := x]) == Sum(f) - f[v] + x
  {
    var k := |f| - 1;
    if v == k {
      assert f[v := x][..k] == f[..k];
    } else {
      SumUpdate(f[..k], v, x);
      assert f[v := x][..k] == f[..k][v := x];
    }
  }

  lemma {:induction false} SumZeros(n: nat)
    ensures Sum(seq(n, _ => 0)) == 0
  {
    if n > 0 {
      SumZeros(n - 1);
      assert seq(n, _ => 0)[..n - 1] == seq(n - 1, _ => 0);
    }
  }

  lemma {:induction false} FreqSumBound(f: seq<nat>)
    ensures FreqSum(f) <= Sum(f) + |f|
  {
    if f != [] { FreqSumBound(f[..|f| - 1]); }
  }

  /** Every selector names a table of least cost for its group. */
  predicate BestSelectors(len: seq<seq<nat>>, selector: seq<nat>, mtfv: seq<nat>, nGroups: nat, alphaSize: nat)
    requires Rows(len, nGroups, alphaSize) && SymbolsOk(mtfv, alphaSize)
  {
    forall g :: 0 <= g < |selector| ==> BestFor(len, selector[g], mtfv, nGroups, alphaSize, g)
  }

  function Least(x: nat, y: nat): nat { if x < y then x else y }

  predicate BestFor(len: seq<seq<nat>>, s: nat, mtfv: seq<nat>, nGroups: nat, alphaSize: nat, g: nat)
    requires Rows(len, nGroups, alphaSize) && SymbolsOk(mtfv, alphaSize)
  {
    && s < nGroups && 50 * g < |mtfv|
    && forall t :: 0 <= t < nGroups ==>
         Cost(len[s], mtfv, 50 * g, Least(50 * g + 50, |mtfv|)) <= Cost(len[t], mtfv, 50 * g, Least(50 * g + 50, |mtfv|))
  }

  /** The frequencies of one group, added to its table's. */
  method AddFrequencies(f: seq<nat>, mtfv: seq<nat>, gs: nat, ge: nat) returns (r: seq<nat>)
    requires gs <= ge <= |mtfv| && SymbolsOk(mtfv, |f|)
    ensures |r| == |f| && Sum(r) == Sum(f) + (ge - gs)
    ensures forall v :: 0 <= v < |f| ==> r[v] == f[v] + Count(mtfv[gs..ge], v)
  {
    hide Sum, Rank;
    r := f;
    assert forall v :: 0 <= v < |f| ==> Count(mtfv[gs..gs], v) == 0 by { CountEmpty(mtfv, gs); }
    for i := gs to ge
      invariant |r| == |f| && Sum(r) == Sum(f) + (i - gs)
      invariant forall v :: 0 <= v < |f| ==> r[v] == f[v] + Count(mtfv[gs..i], v)
    {
      var s := mtfv[i];
      SumUpdate(r, s, r[s] + 1);
      r := r[s := r[s] + 1];
      assert mtfv[gs..i + 1] == mtfv[gs..i] + [s];
      forall v | 0 <= v < |f| ensures Count(mtfv[gs..i + 1], v) == Count(mtfv[gs..i], v) + if s == v then 1 else 0 {
        CountAppend(mtfv[gs..i], s, v);
      }
    }
  }

  lemma CountEmpty(mtfv: seq<nat>, gs: nat)
    requires gs <= |mtfv|
    ensures forall v: nat :: Count(mtfv[gs..gs], v) == 0
  {
  }

  /** How often symbol v is among those of the first n that are coded with table t */
  function Times(selector: seq<nat>, mtfv: seq<nat>, t: nat, v: nat, n: nat): nat
    requires n <= |mtfv| && n <= 50 * |selector|
  {
    if n == 0 then 0
    else Times(selector, mtfv, t, v, n - 1) + if selector[(n - 1) / 50] == t && mtfv[n - 1] == v then 1 else 0
  }

  /** The frequencies of all symbols with table t */
  function Frequencies(selector: seq<nat>, mtfv: seq<nat>, t: nat, alphaSize: nat): (f: seq<nat>)
    requires |mtfv| <= 50 * |selector|
    ensures |f| == alphaSize && forall v :: 0 <= v < alphaSize ==> f[v] == Times(selector, mtfv, t, v, |mtfv|)
  {
    seq(alphaSize, v requires 0 <= v < alphaSize => Times(selector, mtfv, t, v, |mtfv|))
  }

  /** A further selector does not matter to the symbols before its group. */
  lemma {:induction false} TimesPrefix(selector: seq<nat>, bt: nat, mtfv: seq<nat>, t: nat, v: nat, n: nat)
    requires n <= |mtfv| && n <= 50 * |selector|
    ensures Times(selector + [bt], mtfv, t, v, n) == Times(selector, mtfv, t, v, n)
  {
    if n > 0 { TimesPrefix(selector, bt, mtfv, t, v, n - 1); }
  }

  /** The symbols of a further group count for the table chosen for it and for no other. */
  lemma {:induction false} TimesGroup(selector: seq<nat>, bt: nat, mtfv: seq<nat>, t: nat, v: nat, ge: nat)
    requires var gs := 50 * |selector|; gs <= ge <= |mtfv| && ge <= gs + 50
    ensures var gs := 50 * |selector|;
            Times(selector + [bt], mtfv, t, v, ge) ==
            Times(selector, mtfv, t, v, gs) + if t == bt then Count(mtfv[gs..ge], v) else 0
    decreases ge
  {
    hide Rank;
    var gs := 50 * |selector|;
    if ge == gs {
      TimesPrefix(selector, bt, mtfv, t, v, gs);
      CountEmpty(mtfv, gs);
    } else {
      TimesGroup(selector, bt, mtfv, t, v, ge - 1);
      assert (ge - 1) / 50 == |selector|;
      assert mtfv[gs..ge] == mtfv[gs..ge - 1] + [mtfv[ge - 1]];
      CountAppend(mtfv[gs..ge - 1], mtfv[ge - 1], v);
    }
  }

  /** The frequencies known once another group has its table */
  ghost predicate Counted(rfreq: seq<seq<nat>>, selector: seq<nat>, mtfv: seq<nat>, nGroups: nat, alphaSize: nat, n: nat) {
    && n <= |mtfv| && n <= 50 * |selector| && |rfreq| == nGroups
    && forall t :: 0 <= t < nGroups ==> CountedFor(rfreq[t], selector, mtfv, t, alphaSize, n)
  }

  ghost predicate CountedFor(f: seq<nat>, selector: seq<nat>, mtfv: seq<nat>, t: nat, alphaSize: nat, n: nat)
    requires n <= |mtfv| && n <= 50 * |selector|
  {
    |f| == alphaSize && forall v :: 0 <= v < alphaSize ==> f[v] == Times(selector, mtfv, t, v, n)
  }

  lemma GroupCounted(rfreq: seq<seq<nat>>, selector: seq<nat>, mtfv: seq<nat>, nGroups: nat, alphaSize: nat, ge: nat,
                     bt: nat, r: seq<nat>)
    requires var gs := 50 * |selector|; gs <= ge <= |mtfv| && ge <= gs + 50
    requires Counted(rfreq, selector, mtfv, nGroups, alphaSize, 50 * |selector|) && bt < nGroups && |r| == alphaSize
    requires forall v :: 0 <= v < alphaSize ==> r[v] == rfreq[bt][v] + Count(mtfv[50 * |selector|..ge], v)
    ensures Counted(rfreq[bt := r], selector + [bt], mtfv, nGroups, alphaSize, ge)
  {
    hide Rank, Times;
    var after := rfreq[bt := r];
    forall t | 0 <= t < nGroups ensures CountedFor(after[t], selector + [bt], mtfv, t, alphaSize, ge) {
      assert CountedFor(rfreq[t], selector, mtfv, t, alphaSize, 50 * |selector|);
      forall v | 0 <= v < alphaSize ensures after[t][v] == Times(selector + [bt], mtfv, t, v, ge) {
        TimesGroup(selector, bt, mtfv, t, v, ge);
      }
    }
  }

  lemma NothingCounted(rfreq: seq<seq<nat>>, mtfv: seq<nat>, nGroups: nat, alphaSize: nat)
    requires rfreq == seq(nGroups, _ => seq(alphaSize, _ => 0))
    ensures Counted(rfreq, [], mtfv, nGroups, alphaSize, 0)
  {
  }

  lemma AllCounted(rfreq: seq<seq<nat>>, selector: seq<nat>, mtfv: seq<nat>, nGroups: nat, alphaSize: nat)
    requires Counted(rfreq, selector, mtfv, nGroups, alphaSize, |mtfv|)
    ensures |rfreq| == nGroups && |mtfv| <= 50 * |selector|
    ensures forall t :: 0 <= t < nGroups ==> rfreq[t] == Frequencies(selector, mtfv, t, alphaSize)
  {
    forall t | 0 <= t < nGroups ensures rfreq[t] == Frequencies(selector, mtfv, t, alphaSize) {
      assert CountedFor(rfreq[t], selector, mtfv, t, alphaSize, |mtfv|);
    }
  }

  /** Assigns each group to its cheapest table and totals the symbol frequencies of each table. */
  method AssignGroups(len: seq<seq<nat>>, mtfv: seq<nat>, nGroups: nat, alphaSize: nat)
    returns (selector: seq<nat>, rfreq: seq<seq<nat>>)
    requires Rows(len, nGroups, alphaSize) && SymbolsOk(mtfv, alphaSize) && 2 <= nGroups <= 6
    ensures |selector| == GroupCount(|mtfv|) && BestSelectors(len, selector, mtfv, nGroups, alphaSize)
    ensures |rfreq| == nGroups && forall t :: 0 <= t < nGroups ==> |rfreq[t]| == alphaSize && Sum(rfreq[t]) <= |mtfv|
    ensures |mtfv| <= 50 * |selector|
    ensures forall t :: 0 <= t < nGroups ==> rfreq[t] == Frequencies(selector, mtfv, t, alphaSize)
  {
    hide Sum, Rank, Cost, Counted, Frequencies;
    selector := [];
    SumZeros(alphaSize);
    rfreq := seq(nGroups, _ => seq(alphaSize, _ => 0));
    NothingCounted(rfreq, mtfv, nGroups, alphaSize);
    var gs := 0;
    while gs < |mtfv|
      invariant gs <= |mtfv| && |selector| == GroupCount(gs) && (gs < |mtfv| ==> gs == 50 * |selector|)
      invariant BestSelectors(len, selector, mtfv, nGroups, alphaSize)
      invariant Counted(rfreq, selector, mtfv, nGroups, alphaSize, gs)
      invariant |rfreq| == nGroups && forall t :: 0 <= t < nGroups ==> |rfreq[t]| == alphaSize && Sum(rfreq[t]) <= gs
    {
      var ge := Least(gs + 50, |mtfv|);
      var cost;
      if nGroups == 6 && ge - gs == 50 {
        cost := FastCosts(len, mtfv, alphaSize, gs, ge);
      } else {
        cost := SlowCosts(len, mtfv, nGroups, alphaSize, gs, ge);
      }
      var bt := Cheapest(cost);
      assert BestFor(len, bt, mtfv, nGroups, alphaSize, |selector|);
      var r := AddFrequencies(rfreq[bt], mtfv, gs, ge);
      GroupCounted(rfreq, selector, mtfv, nGroups, alphaSize, ge, bt, r);
      selector := selector + [bt];
      rfreq := rfreq[bt := r];
      gs := ge;
    }
    AllCounted(rfreq, selector, mtfv, nGroups, alphaSize);
  }

  /** The lengths of every table, made anew from its frequencies. */
  method RemakeTables(rfreq: seq<seq<nat>>, nGroups: nat, alphaSize: nat, n: nat) returns (len: seq<seq<nat>>)
    requires |rfreq| == nGroups && 3 <= alphaSize <= MAX_ALPHA_SIZE && n < 1_000_000
    requires forall t :: 0 <= t < nGroups ==> |rfreq[t]| == alphaSize && Sum(rfreq[t]) <= n
    ensures Rows(len, nGroups, alphaSize) && forall t :: 0 <= t < nGroups ==> RowFits(len[t], alphaSize)
    ensures forall t :: 0 <= t < nGroups ==> MadeFrom(len[t], rfreq[t], 17)
  {
    hide Sum, FreqSum, KraftSum, Pow2, Fits, MadeFrom;
    len := [];
    for t := 0 to nGroups
      invariant |len| == t && forall u :: 0 <= u < t ==> MadeFrom(len[u], rfreq[u], 17)
      invariant |len| == t && forall u :: 0 <= u < t ==> RowFits(len[u], alphaSize) && forall v ::
                0 <= v < alphaSize ==> len[u][v] <= MAX_LEN
    {
      var row := new nat[alphaSize];
      FreqSumBound(rfreq[t]);
      MakeCodeLengths(row, rfreq[t], MAX_LEN);
      assert row[..alphaSize] == row[..];
      KraftImpliesFits(row[..], MAX_LEN);
      len := len + [row[..]];
    }
  }

  // ---- the initial tables ----

  function TailSum(f: seq<nat>, k: nat): nat
    requires k <= |f|
    decreases |f| - k
  {
    if k == |f| then 0 else f[k] + TailSum(f, k + 1)
  }

  /** A table that is cheap for symbols gs..ge and dear for the rest. */
  function Band(alphaSize: nat, gs: nat, ge: int): seq<nat> {
    seq(alphaSize, v => if gs <= v <= ge then LESSER_ICOST else GREATER_ICOST)
  }

  predicate CheapIn(len: seq<seq<nat>>, t: nat, v: nat)
    requires t < |len| && v < |len[t]|
  {
    len[t][v] == LESSER_ICOST
  }

  /** Some table from p on is cheap for v. */
  predicate Covered(len: seq<seq<nat>>, alphaSize: nat, p: nat, v: nat)
    requires (forall t :: 0 <= t < |len| ==> |len[t]| == alphaSize) && v < alphaSize
  {
    exists t :: p <= t < |len| && CheapIn(len, t, v)
  }

  /** Each symbol below gs is cheap in exactly one of the tables from p on, and no other symbol in any. */
  ghost predicate Divides(len: seq<seq<nat>>, alphaSize: nat, p: nat, gs: nat) {
    && p <= |len| && gs <= alphaSize && (forall t :: 0 <= t < |len| ==> |len[t]| == alphaSize)
    && (forall v :: 0 <= v < gs ==> Covered(len, alphaSize, p, v))
    && (forall v, t, u :: 0 <= v < alphaSize && p <= t < u < |len| ==> !(CheapIn(len, t, v) && CheapIn(len, u, v)))
    && (forall v, t :: gs <= v < alphaSize && p <= t < |len| ==> !CheapIn(len, t, v))
  }

  /** A part of the frequency still to be shared out. */
  function Share(remF: nat, nPart: nat): (r: nat)
    requires nPart >= 1
    ensures nPart == 1 ==> r == remF
  {
    remF / nPart
  }

  /** The band from gs up to e is the shortest that has its share, or it reaches the last symbol without it. */
  ghost predicate Reaches(mtfFreq: seq<nat>, gs: nat, share: nat, e: int) {
    && gs - 1 <= e < |mtfFreq|
    && (TailSum(mtfFreq, gs) - TailSum(mtfFreq, e + 1) >= share || e == |mtfFreq| - 1)
    && (e >= gs ==> TailSum(mtfFreq, gs) - TailSum(mtfFreq, e) < share)
  }

  /** Every other band between the first and the last one made gives up a symbol. */
  predicate Shortened(nPart: nat, nGroups: nat) {
    nPart != nGroups && nPart != 1 && (nGroups - nPart) % 2 == 1
  }

  /** How far the next group of symbols reaches: until it has its share of the frequency, less one symbol
      when it is to be shortened and has more than one. */
  method GroupEnd(mtfFreq: seq<nat>, gs: nat, nPart: nat, nGroups: nat, remF: nat)
    returns (ge: int, aFreq: nat, ghost reach: int)
    requires gs <= |mtfFreq| && remF == TailSum(mtfFreq, gs) && 1 <= nPart <= nGroups
    ensures gs - 1 <= ge < |mtfFreq| && aFreq <= remF && remF - aFreq == TailSum(mtfFreq, ge + 1)
    ensures Reaches(mtfFreq, gs, Share(remF, nPart), reach)
    ensures ge == if reach > gs && Shortened(nPart, nGroups) then reach - 1 else reach
    ensures nPart == 1 ==> TailSum(mtfFreq, ge + 1) == 0
  {
    hide Share;
    var tFreq := Share(remF, nPart);
    ge := gs - 1;
    aFreq := 0;
    while aFreq < tFreq && ge < |mtfFreq| - 1
      invariant gs - 1 <= ge < |mtfFreq| && aFreq + TailSum(mtfFreq, ge + 1) == remF
      invariant ge >= gs ==> aFreq >= mtfFreq[ge] && aFreq - mtfFreq[ge] < tFreq
    {
      ge := ge + 1;
      aFreq := aFreq + mtfFreq[ge];
    }
    reach := ge;
    if ge > gs && Shortened(nPart, nGroups) {
      aFreq := aFreq - mtfFreq[ge];
      ge := ge - 1;
    }
  }

  /** From symbol gs on, band j reaches as far as its equal share of what is left takes, or a symbol less if it is an
      inner band with an odd number and has more than one. */
  ghost predicate EndsAt(mtfFreq: seq<nat>, nGroups: nat, gs: nat, end: nat, j: nat, reach: int) {
    && gs <= |mtfFreq| && j < nGroups && Reaches(mtfFreq, gs, TailSum(mtfFreq, gs) / (nGroups - j), reach)
    && end == if reach > gs && j % 2 == 1 && j + 1 != nGroups then reach else reach + 1
  }

  /** The table of band j is cheap for the symbols of the band and dear for the others; the first band has the last table. */
  ghost predicate BandTable(mtfFreq: seq<nat>, nGroups: nat, ends: seq<nat>, len: seq<seq<nat>>, j: nat) {
    && j < nGroups == |len| && j + 1 < |ends|
    && var row, gs, end := len[nGroups - 1 - j], ends[j], ends[j + 1];
    && (exists reach :: EndsAt(mtfFreq, nGroups, gs, end, j, reach))
    && |row| == |mtfFreq| && forall v :: 0 <= v < |row| ==> row[v] == if gs <= v < end then 0 else 15
  }

  /** The first bands, one behind the other, and their tables */
  ghost predicate Banded(mtfFreq: seq<nat>, nGroups: nat, ends: seq<nat>, len: seq<seq<nat>>, parts: nat) {
    && parts <= nGroups == |len| && |ends| == parts + 1 && ends[0] == 0
    && forall j: nat :: j < parts ==> BandTable(mtfFreq, nGroups, ends, len, j)
  }

  lemma AnotherBand(mtfFreq: seq<nat>, nGroups: nat, ends: seq<nat>, len: seq<seq<nat>>, parts: nat, ge: int, reach: int)
    requires Banded(mtfFreq, nGroups, ends, len, parts) && parts < nGroups && ge >= -1
    requires EndsAt(mtfFreq, nGroups, ends[parts], ge + 1, parts, reach)
    ensures Banded(mtfFreq, nGroups, ends + [ge + 1], len[nGroups - 1 - parts := Band(|mtfFreq|, ends[parts], ge)],
                   parts + 1)
  {
    hide EndsAt;
    var more, tables := ends + [ge + 1], len[nGroups - 1 - parts := Band(|mtfFreq|, ends[parts], ge)];
    forall j: nat | j < parts + 1 ensures BandTable(mtfFreq, nGroups, more, tables, j) {
      assert more[j] == ends[j];
      if j < parts {
        assert BandTable(mtfFreq, nGroups, ends, len, j) && more[j + 1] == ends[j + 1];
      } else {
        assert EndsAt(mtfFreq, nGroups, more[j], more[j + 1], j, reach);
      }
    }
  }

  lemma EndFound(mtfFreq: seq<nat>, gs: nat, nPart: nat, nGroups: nat, ge: int, reach: int)
    requires gs <= |mtfFreq| && 1 <= nPart <= nGroups && ge >= gs - 1
    requires Reaches(mtfFreq, gs, Share(TailSum(mtfFreq, gs), nPart), reach)
    requires ge == if reach > gs && Shortened(nPart, nGroups) then reach - 1 else reach
    ensures EndsAt(mtfFreq, nGroups, gs, ge + 1, nGroups - nPart, reach)
  {
    hide Reaches, TailSum;
  }

  /** The first set of tables: the symbols divided into bands of about equal frequency. */
  method InitialTables(mtfFreq: seq<nat>, nMTF: nat, nGroups: nat) returns (len: seq<seq<nat>>, ghost ends: seq<nat>)
    requires 2 <= nGroups <= 6 && |mtfFreq| >= 1 && mtfFreq[|mtfFreq| - 1] > 0 && TailSum(mtfFreq, 0) == nMTF
    ensures Rows(len, nGroups, |mtfFreq|) && Divides(len, |mtfFreq|, 0, |mtfFreq|)
    ensures Banded(mtfFreq, nGroups, ends, len, nGroups) && ends[nGroups] == |mtfFreq|
  {
    hide TailSum, Banded, Reaches, EndsAt, Divides, Band;
    var alphaSize := |mtfFreq|;
    var nPart := nGroups;
    var remF := nMTF;
    var gs := 0;
    len := seq(nGroups, _ => seq(alphaSize, _ => GREATER_ICOST));
    ends := [0];
    NoBand(mtfFreq, nGroups, len);
    while nPart > 0
      invariant nPart <= nGroups == |len| && gs <= alphaSize && remF == TailSum(mtfFreq, gs)
      invariant Rows(len, nGroups, alphaSize) && Divides(len, alphaSize, nPart, gs)
      invariant nPart == 0 ==> remF == 0
      invariant |ends| == nGroups - nPart + 1 && ends[nGroups - nPart] == gs
      invariant Banded(mtfFreq, nGroups, ends, len, nGroups - nPart)
    {
      var ge, aFreq, reach := GroupEnd(mtfFreq, gs, nPart, nGroups, remF);
      var row := Band(alphaSize, gs, ge);
      BandDivides(len, alphaSize, nPart, gs, ge);
      BandBelow(alphaSize, gs, ge);
      EndFound(mtfFreq, gs, nPart, nGroups, ge, reach);
      AnotherBand(mtfFreq, nGroups, ends, len, nGroups - nPart, ge, reach);
      ends := ends + [ge + 1];
      len := len[nPart - 1 := row];
      nPart := nPart - 1;
      gs := ge + 1;
      remF := remF - aFreq;
    }
    LastInTail(mtfFreq, gs);
  }

  lemma NoBand(mtfFreq: seq<nat>, nGroups: nat, len: seq<seq<nat>>)
    requires len == seq(nGroups, _ => seq(|mtfFreq|, _ => GREATER_ICOST))
    ensures Banded(mtfFreq, nGroups, [0], len, 0) && Divides(len, |mtfFreq|, nGroups, 0)
  {
  }

  lemma BandBelow(alphaSize: nat, gs: nat, ge: int)
    ensures var row := Band(alphaSize, gs, ge); |row| == alphaSize && forall v :: 0 <= v < alphaSize ==> row[v] <= MAX_LEN
  {
  }

  lemma BandDivides(len: seq<seq<nat>>, alphaSize: nat, nPart: nat, gs: nat, ge: int)
    requires 1 <= nPart && gs <= ge + 1 <= alphaSize && Divides(len, alphaSize, nPart, gs)
    ensures Divides(len[nPart - 1 := Band(alphaSize, gs, ge)], alphaSize, nPart - 1, ge + 1)
  {
    var p := nPart - 1;
    var r := len[p := Band(alphaSize, gs, ge)];
    forall v | 0 <= v < ge + 1 ensures Covered(r, alphaSize, p, v) {
      if v < gs {
        assert Covered(len, alphaSize, nPart, v);
        var t :| nPart <= t < |len| && CheapIn(len, t, v);
        assert CheapIn(r, t, v);
      } else {
        assert CheapIn(r, p, v);
      }
    }
    forall v, t | 0 <= v < alphaSize && nPart <= t < |r| ensures CheapIn(r, t, v) == CheapIn(len, t, v) { }
  }

  lemma {:induction false} LastInTail(f: seq<nat>, k: nat)
    requires k <= |f| && |f| > 0 && f[|f| - 1] > 0
    ensures TailSum(f, k) == 0 ==> k == |f|
    decreases |f| - k
  {
    if k < |f| { LastInTail(f, k + 1); }
  }

  lemma {:induction false} TailSumUpdate(f: seq<nat>, k: nat, s: nat, x: nat)
    requires k <= |f| && s < |f|
    ensures TailSum(f[s := x], k) == TailSum(f, k) + if k <= s then x - f[s] else 0
    decreases |f| - k
  {
    if k < |f| { TailSumUpdate(f, k + 1, s, x); }
  }

  lemma {:induction false} TailSumZero(f: seq<nat>, k: nat)
    requires k <= |f| && forall v :: 0 <= v < |f| ==> f[v] == 0
    ensures TailSum(f, k) == 0
    decreases |f| - k
  {
    if k < |f| { TailSumZero(f, k + 1); }
  }

  /** The frequencies add up to the number of symbols. */
  lemma {:induction false} FrequenciesTotal(f: seq<nat>, mtfv: seq<nat>)
    requires SymbolsOk(mtfv, |f|) && forall v :: 0 <= v < |f| ==> f[v] == Count(mtfv, v)
    ensures TailSum(f, 0) == |mtfv|
    decreases |mtfv|
  {
    if mtfv == [] {
      TailSumZero(f, 0);
    } else {
      var k := |mtfv| - 1;
      var s := mtfv[k];
      assert mtfv == mtfv[..k] + [s];
      forall v | 0 <= v < |f| ensures f[v] == Count(mtfv[..k], v) + if s == v then 1 else 0 {
        CountAppend(mtfv[..k], s, v);
      }
      FrequenciesTotal(f[s := f[s] - 1], mtfv[..k]);
      TailSumUpdate(f, 0, s, f[s] - 1);
    }
  }

  // ---- all passes ----

  /** One pass: every group has a table that is cheapest for it, and every table is made anew from the frequencies of the
      symbols it then codes. */
  ghost predicate Pass(mtfv: seq<nat>, nGroups: nat, alphaSize: nat, len: seq<seq<nat>>, selector: seq<nat>,
                       next: seq<seq<nat>>)
  {
    && Rows(len, nGroups, alphaSize) && SymbolsOk(mtfv, alphaSize) && |next| == nGroups
    && |selector| == GroupCount(|mtfv|) && |mtfv| <= 50 * |selector|
    && BestSelectors(len, selector, mtfv, nGroups, alphaSize)
    && forall t :: 0 <= t < nGroups ==> MadeFrom(next[t], Frequencies(selector, mtfv, t, alphaSize), 17)
  }

  /** The plan comes of a first division of the alphabet into two to six bands, and of four passes. tables lists the sets
      of tables in turn, picks the selectors between them. */
  ghost predicate ChosenBy(p: Plan, mtfv: seq<nat>, alphaSize: nat, tables: seq<seq<seq<nat>>>, picks: seq<seq<nat>>) {
    && var n := |mtfv|;
    && p.nGroups == (if n < 200 then 2 else if n < 600 then 3 else if n < 1200 then 4 else if n < 2400 then 5 else 6)
    && |tables| == 5 && |picks| == 4 && tables[4] == p.len && picks[3] == p.selector
    && Divides(tables[0], alphaSize, 0, alphaSize)
    && var mtfFreq := seq(alphaSize, v requires 0 <= v < alphaSize => Count(mtfv, v));
    && (exists ends :: Banded(mtfFreq, p.nGroups, ends, tables[0], p.nGroups))
    && forall i :: 0 <= i < 4 ==> Pass(mtfv, p.nGroups, alphaSize, tables[i], picks[i], tables[i + 1])
  }

  ghost predicate Chosen(p: Plan, mtfv: seq<nat>, alphaSize: nat) {
    exists tables, picks :: ChosenBy(p, mtfv, alphaSize, tables, picks)
  }

  /** The tables and selectors of a block */
  method ChooseTables(mtfv: seq<nat>, mtfFreq: seq<nat>) returns (p: Plan)
    requires 3 <= |mtfFreq| <= MAX_ALPHA_SIZE && mtfFreq[|mtfFreq| - 1] > 0
    requires 1 <= |mtfv| <= 900_001 && SymbolsOk(mtfv, |mtfFreq|)
    requires forall v :: 0 <= v < |mtfFreq| ==> mtfFreq[v] == Count(mtfv, v)
    ensures PlanOk(p, |mtfFreq|, |mtfv|) && |p.selector| <= MAX_SELECTORS
    ensures Rows(p.len, p.nGroups, |mtfFreq|)
    ensures Chosen(p, mtfv, |mtfFreq|)
  {
    hide BestSelectors, Divides, TailSum, Rank, Pass, Banded, Frequencies, MadeFrom;
    var alphaSize := |mtfFreq|;
    var nGroups := GroupsFor(|mtfv|);
    FrequenciesTotal(mtfFreq, mtfv);
    ghost var ends;
    var len;
    len, ends := InitialTables(mtfFreq, |mtfv|, nGroups);
    ghost var tables, picks := [len], [];
    var selector: seq<nat> := [];
    for iter := 0 to N_ITERS
      invariant Rows(len, nGroups, alphaSize) && |tables| == iter + 1 && |picks| == iter && tables[iter] == len
      invariant Divides(tables[0], alphaSize, 0, alphaSize) && Banded(mtfFreq, nGroups, ends, tables[0], nGroups)
      invariant iter > 0 ==> picks[iter - 1] == selector
      invariant forall i :: 0 <= i < iter ==> Pass(mtfv, nGroups, alphaSize, tables[i], picks[i], tables[i + 1])
      invariant iter > 0 ==> forall t :: 0 <= t < nGroups ==> RowFits(len[t], alphaSize)
    {
      var rfreq;
      selector, rfreq := AssignGroups(len, mtfv, nGroups, alphaSize);
      ghost var before := len;
      len := RemakeTables(rfreq, nGroups, alphaSize, |mtfv|);
      PassMade(mtfv, nGroups, alphaSize, before, selector, rfreq, len);
      tables, picks := tables + [len], picks + [selector];
    }
    p := Plan(nGroups, selector, len);
    LastPass(mtfv, nGroups, alphaSize, tables[3], selector, len);
    assert mtfFreq == seq(alphaSize, v requires 0 <= v < alphaSize => Count(mtfv, v));
    assert ChosenBy(p, mtfv, alphaSize, tables, picks);
  }

  lemma PassMade(mtfv: seq<nat>, nGroups: nat, alphaSize: nat, len: seq<seq<nat>>, selector: seq<nat>,
                 rfreq: seq<seq<nat>>, next: seq<seq<nat>>)
    requires Rows(len, nGroups, alphaSize) && SymbolsOk(mtfv, alphaSize) && |next| == |rfreq| == nGroups
    requires |selector| == GroupCount(|mtfv|) && |mtfv| <= 50 * |selector|
    requires BestSelectors(len, selector, mtfv, nGroups, alphaSize)
    requires forall t :: 0 <= t < nGroups ==> rfreq[t] == Frequencies(selector, mtfv, t, alphaSize)
    requires forall t :: 0 <= t < nGroups ==> MadeFrom(next[t], rfreq[t], 17)
    ensures Pass(mtfv, nGroups, alphaSize, len, selector, next)
  {
    hide BestSelectors, MadeFrom, Frequencies, Rows;
  }

  lemma LastPass(mtfv: seq<nat>, nGroups: nat, alphaSize: nat, len: seq<seq<nat>>, selector: seq<nat>, next: seq<seq<nat>>)
    requires Pass(mtfv, nGroups, alphaSize, len, selector, next)
    ensures |selector| == GroupCount(|mtfv|) && forall g :: 0 <= g < |selector| ==> selector[g] < nGroups
  {
  }
}
