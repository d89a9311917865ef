/** Why the tree is worth building: no table of lengths that meets the Kraft inequality costs less than the depths of
    its leaves. */
module HuffmanOptimal {
  import opened Bits
  import opened HuffmanCodes
  import opened HuffmanForest

  // ---- the cost of a table of lengths ----

  /** What it takes to send symbol i u[i] times, all together */
  function Cost(u: seq<nat>, len: seq<nat>): nat
    requires |u| == |len|
  {
    if u == [] then 0 else Cost(u[..|u| - 1], len[..|len| - 1]) + u[|u| - 1] * len[|len| - 1]
  }

  /** The Kraft inequality, at a depth that no length exceeds */
  predicate MeetsKraft(len: seq<nat>, depth: nat) {
    (forall i :: 0 <= i < |len| ==> len[i] <= depth) && KraftSum(len, depth) <= Pow2(depth)
  }

  /** Of all tables of lengths that meet the Kraft inequality, of any lengths, none costs less. */
  ghost predicate LeastCost(u: seq<nat>, len: seq<nat>) {
    && |len| == |u| && (exists depth :: MeetsKraft(len, depth))
    && forall other: seq<nat>, depth: nat :: |other| == |u| && MeetsKraft(other, depth) ==> Cost(u, len) <= Cost(u, other)
  }

  // ---- sums over the roots that a merge has found ----

  /** Node i was a root when k was the last node. */
  predicate Front(f: Forest, k: nat, i: nat)
    requires Sizes(f) && k <= f.n
  {
    1 <= i <= k && Open(f, i, k)
  }

  lemma {:induction false} OverSet(f: Forest, k: nat, t: seq<nat>, i: nat, v: nat, m: nat)
    requires Sizes(f) && k <= f.n && m <= k && f.n < |t| && Front(f, k, i)
    ensures Over(f, k, t[i := v], m) + (if i <= m then t[i] else 0) == Over(f, k, t, m) + (if i <= m then v else 0)
    decreases m
  {
    if m > 0 { OverSet(f, k, t, i, v, m - 1); }
  }

  lemma OverAtLeast(f: Forest, k: nat, t: seq<nat>, i: nat)
    requires Sizes(f) && k <= f.n < |t| && Front(f, k, i)
    ensures t[i] <= Over(f, k, t, k)
  {
    OverSet(f, k, t, i, 0, k);
  }

  /** Two entries change places. */
  function Swapped(l: seq<nat>, i: nat, j: nat): (r: seq<nat>)
    requires i < |l| && j < |l|
    ensures |r| == |l|
  {
    l[i := l[j]][j := l[i]]
  }

  lemma OverSwapped(f: Forest, k: nat, t: seq<nat>, i: nat, j: nat)
    requires Sizes(f) && k <= f.n < |t| && Front(f, k, i) && Front(f, k, j)
    ensures Over(f, k, Swapped(t, i, j), k) == Over(f, k, t, k)
  {
    OverSet(f, k, t, i, t[j], k);
    OverSet(f, k, t[i := t[j]], j, t[i], k);
  }

  /** The weight of each node times its length */
  function Costs(f: Forest, l: seq<nat>): (t: seq<nat>)
    requires Sizes(f) && |l| == f.n + 1
    ensures |t| == |l| && forall i :: 0 <= i < |l| ==> t[i] == WeightOf(f.w[i]) * l[i]
  {
    seq(|l|, i requires 0 <= i < |l| => WeightOf(f.w[i]) * l[i])
  }

  function Krafts(l: seq<nat>, depth: nat): (t: seq<nat>)
    ensures |t| == |l| && forall i :: 0 <= i < |l| ==> t[i] == if l[i] <= depth then Pow2(depth - l[i]) else 0
  {
    seq(|l|, i requires 0 <= i < |l| => if l[i] <= depth then Pow2(depth - l[i]) else 0)
  }

  /** No root has a length above depth, and those of the roots meet the Kraft inequality. */
  predicate Fitting(f: Forest, k: nat, l: seq<nat>, depth: nat) {
    && Sizes(f) && k <= f.n && |l| == f.n + 1
    && (forall i :: 1 <= i <= k && Open(f, i, k) ==> l[i] <= depth)
    && Over(f, k, Krafts(l, depth), k) <= Pow2(depth)
  }

  lemma Rearrange(wx: nat, wm: nat, lx: nat, lm: nat)
    requires wx <= wm && lx <= lm
    ensures wx * lm + wm * lx <= wx * lx + wm * lm
  {
    assert (wm - wx) * (lm - lx) >= 0;
  }

  /** Giving the lighter of two roots the greater length costs no more. */
  lemma SwapCosts(f: Forest, k: nat, l: seq<nat>, x: nat, m: nat, depth: nat)
    requires Fitting(f, k, l, depth) && Front(f, k, x) && Front(f, k, m)
    requires WeightOf(f.w[x]) <= WeightOf(f.w[m]) && l[x] <= l[m]
    ensures var r := Swapped(l, x, m);
            && Fitting(f, k, r, depth) && Over(f, k, r, k) == Over(f, k, l, k)
            && Over(f, k, Costs(f, r), k) <= Over(f, k, Costs(f, l), k)
  {
    hide WeightOf, Over, Pow2;
    var r := Swapped(l, x, m);
    OverSwapped(f, k, l, x, m);
    assert Krafts(r, depth) == Swapped(Krafts(l, depth), x, m);
    OverSwapped(f, k, Krafts(l, depth), x, m);
    var t: seq<nat> := Costs(f, l);
    var vx: nat, vm: nat := WeightOf(f.w[x]) * l[m], WeightOf(f.w[m]) * l[x];
    Rearrange(WeightOf(f.w[x]), WeightOf(f.w[m]), l[x], l[m]);
    assert Costs(f, r) == t[x := vx][m := vm];
    OverSet(f, k, t, x, vx, k);
    OverSet(f, k, t[x := vx], m, vm, k);
  }

  // ---- the Kraft inequality at the greatest length ----

  lemma {:induction false} OverDoubled(f: Forest, k: nat, l: seq<nat>, depth: nat, m: nat)
    requires Sizes(f) && k <= f.n && |l| == f.n + 1 && m <= k
    requires forall i :: 1 <= i <= k && Open(f, i, k) ==> l[i] <= depth
    ensures Over(f, k, Krafts(l, depth + 1), m) == 2 * Over(f, k, Krafts(l, depth), m)
    decreases m
  {
    if m > 0 {
      OverDoubled(f, k, l, depth, m - 1);
      if Open(f, m, k) { NextPow2(depth - l[m]); }
    }
  }

  lemma {:induction false} FittingBelow(f: Forest, k: nat, l: seq<nat>, top: nat, depth: nat)
    requires Fitting(f, k, l, depth) && top <= depth && forall i :: 1 <= i <= k && Open(f, i, k) ==> l[i] <= top
    ensures Fitting(f, k, l, top)
    decreases depth
  {
    hide Over, Pow2;
    if top < depth {
      OverDoubled(f, k, l, depth - 1, k);
      NextPow2(depth - 1);
      FittingBelow(f, k, l, top, depth - 1);
    }
  }

  /** With a single root of the greatest length the sum is odd. */
  lemma {:induction false} OneOdd(f: Forest, k: nat, l: seq<nat>, x: nat, m: nat)
    requires Sizes(f) && k <= f.n && |l| == f.n + 1 && m <= k && Front(f, k, x)
    requires forall i :: 1 <= i <= k && Open(f, i, k) && i != x ==> l[i] < l[x]
    ensures Over(f, k, Krafts(l, l[x]), m) % 2 == if x <= m then 1 else 0
    decreases m
  {
    if m > 0 {
      OneOdd(f, k, l, x, m - 1);
      if Open(f, m, k) && m != x { NextPow2(l[x] - l[m] - 1); }
    }
  }

  /** So it can be shortened by one, at no cost. */
  lemma Shortened(f: Forest, k: nat, l: seq<nat>, x: nat)
    requires x < |l| && Fitting(f, k, l, l[x]) && Front(f, k, x) && l[x] >= 1
    requires forall i :: 1 <= i <= k && Open(f, i, k) && i != x ==> l[i] < l[x]
    ensures var r := l[x := l[x] - 1];
            && Fitting(f, k, r, l[x]) && Over(f, k, r, k) < Over(f, k, l, k)
            && Over(f, k, Costs(f, r), k) <= Over(f, k, Costs(f, l), k)
  {
    hide WeightOf, Over, Pow2;
    var r, top := l[x := l[x] - 1], l[x];
    OverSet(f, k, l, x, top - 1, k);
    OneOdd(f, k, l, x, k);
    NextPow2(top - 1);
    NextPow2(0);
    assert Pow2(0) == 1 by { PowZero(); }
    assert Krafts(r, top) == Krafts(l, top)[x := 2];
    OverSet(f, k, Krafts(l, top), x, 2, k);
    var w := WeightOf(f.w[x]);
    assert w * (top - 1) <= w * top;
    assert Costs(f, r) == Costs(f, l)[x := w * (top - 1)];
    OverSet(f, k, Costs(f, l), x, w * (top - 1), k);
  }

  lemma PowZero()
    ensures Pow2(0) == 1
  {
  }

  /** A root of the greatest length among those but skip */
  lemma {:induction false} Longest(f: Forest, k: nat, l: seq<nat>, x: nat, skip: nat, m: nat) returns (j: nat)
    requires Sizes(f) && k <= f.n < |l| && m <= k && Front(f, k, x) && x != skip && x <= m
    ensures Front(f, k, j) && j != skip && forall i :: 1 <= i <= m && Open(f, i, k) && i != skip ==> l[i] <= l[j]
    decreases m
  {
    if m == x && forall i :: 1 <= i < m ==> !(Open(f, i, k) && i != skip) {
      j := x;
    } else if m > x {
      j := Longest(f, k, l, x, skip, m - 1);
      if Open(f, m, k) && m != skip && l[m] > l[j] { j := m; }
    } else {
      var y: nat :| 1 <= y < m && Open(f, y, k) && y != skip;
      j := Longest(f, k, l, y, skip, m - 1);
      if l[m] > l[j] { j := m; }
    }
  }

  // ---- what every table must cost ----

  /** The weights of the nodes made after k */
  function Merged(f: Forest, k: nat): nat
    requires Sizes(f) && k <= f.n
    decreases f.n - k
  {
    if k == f.n then 0 else WeightOf(f.w[k + 1]) + Merged(f, k + 1)
  }

  /** Two roots of equal length, the greatest, and their parent one shorter: the parent takes its children's place. */
  lemma Contracted(f: Forest, k: nat, l: seq<nat>, x: nat, y: nat)
    requires ForestOk(f) && f.a <= k < f.n && f.kids[k + 1] == (x, y) && x < |l| && Fitting(f, k, l, l[x])
    requires Front(f, k, x) && Front(f, k, y) && x != y && l[x] == l[y]
    ensures l[x] >= 1
    ensures var r := l[k + 1 := l[x] - 1];
            && Fitting(f, k + 1, r, l[x])
            && Over(f, k, Costs(f, l), k) == WeightOf(f.w[k + 1]) + Over(f, k + 1, Costs(f, r), k + 1)
  {
    hide WeightOf, Over, Pow2, Heavy, Linked, HasKids;
    var top := l[x];
    assert Lightest(f, k + 1);
    PowZero();
    NextPow2(0);
    var shares := Krafts(l, top);
    OverSet(f, k, shares, x, 0, k);
    OverAtLeast(f, k, shares[x := 0], y);
    assert top >= 1;
    var r := l[k + 1 := top - 1];
    OverStep(f, k + 1, Krafts(r, top));
    OverPrefix(f, k, shares, Krafts(r, top), k);
    OverStep(f, k + 1, Costs(f, r));
    OverPrefix(f, k, Costs(f, l), Costs(f, r), k);
    forall i | 1 <= i <= k + 1 && Open(f, i, k + 1) ensures r[i] <= top { }
    ParentCost(WeightOf(f.w[x]), WeightOf(f.w[y]), top);
  }

  lemma ParentCost(wx: nat, wy: nat, top: nat)
    requires top >= 1
    ensures wx * top + wy * top == (wx + wy) * (top - 1) + (wx + wy)
  {
  }

  lemma {:induction false} OverPrefix(f: Forest, k: nat, t: seq<nat>, s: seq<nat>, m: nat)
    requires Sizes(f) && m <= f.n < |t| == |s| && forall i :: 1 <= i <= m ==> t[i] == s[i]
    ensures Over(f, k, t, m) == Over(f, k, s, m)
    decreases m
  {
    if m > 0 { OverPrefix(f, k, t, s, m - 1); }
  }

  /** The two roots merged next can be given the greatest lengths at no cost. */
  lemma Deepened(f: Forest, k: nat, l: seq<nat>, depth: nat) returns (r: seq<nat>)
    requires ForestOk(f) && f.a <= k < f.n && Fitting(f, k, l, depth)
    ensures var (x, y) := f.kids[k + 1];
            && Front(f, k, x) && Front(f, k, y) && x != y && |r| == |l| == f.n + 1
            && Fitting(f, k, r, r[x]) && r[y] <= r[x]
            && (forall i :: 1 <= i <= k && Open(f, i, k) && i != x ==> r[i] <= r[y])
            && Over(f, k, r, k) == Over(f, k, l, k) && Over(f, k, Costs(f, r), k) <= Over(f, k, Costs(f, l), k)
  {
    hide WeightOf, Over, Pow2, Heavy, Linked, Costs, Krafts;
    var (x, y) := f.kids[k + 1];
    assert HasKids(f, k + 1) && Lightest(f, k + 1);
    var m := Longest(f, k, l, x, 0, k);
    SwapCosts(f, k, l, x, m, depth);
    var l1 := Swapped(l, x, m);
    var n := Longest(f, k, l1, y, x, k);
    SwapCosts(f, k, l1, y, n, depth);
    r := Swapped(l1, y, n);
    FittingBelow(f, k, r, r[x], depth);
  }

  lemma {:induction false} NoneCheaper(f: Forest, k: nat, l: seq<nat>, depth: nat)
    requires IsTree(f) && f.a <= k <= f.n && Fitting(f, k, l, depth)
    ensures Merged(f, k) <= Over(f, k, Costs(f, l), k)
    decreases f.n - k, Over(f, k, l, k)
  {
    hide WeightOf, Over, Pow2, Costs, Krafts, ForestOk, Fitting;
    if k < f.n {
      assert Sizes(f) by { TreeSizes(f); }
      var r := Deepened(f, k, l, depth);
      var (x, y) := f.kids[k + 1];
      if r[y] < r[x] {
        Shortened(f, k, r, x);
        NoneCheaper(f, k, r[x := r[x] - 1], r[x]);
      } else {
        Contracted(f, k, r, x, y);
        NoneCheaper(f, k + 1, r[k + 1 := r[x] - 1], r[x]);
      }
    }
  }

  lemma TreeSizes(f: Forest)
    requires IsTree(f)
    ensures Sizes(f) && ForestOk(f)
  {
  }

  // ---- what the tree costs ----

  function Depths(f: Forest): (t: seq<nat>)
    requires Sizes(f)
    ensures |t| == f.n + 1 && forall i :: 0 <= i <= f.n ==> t[i] == Depth(f.p, i)
  {
    seq(f.n + 1, i requires 0 <= i <= f.n => Depth(f.p, i))
  }

  lemma {:induction false} TreeCosts(f: Forest, k: nat)
    requires IsTree(f) && f.a <= k <= f.n
    ensures Over(f, k, Costs(f, Depths(f)), k) == Merged(f, k)
    decreases f.n - k
  {
    hide WeightOf, Heavy;
    var t := Costs(f, Depths(f));
    if k == f.n {
      OnlyRootOpen(f, t, f.n - 1);
      assert Linked(f, f.n);
    } else {
      TreeCosts(f, k + 1);
      OverStep(f, k + 1, t);
      var (x, y) := f.kids[k + 1];
      assert HasKids(f, k + 1) && Linked(f, k + 1) && Lightest(f, k + 1);
      var d := Depth(f.p, k + 1);
      assert Depth(f.p, x) == d + 1 == Depth(f.p, y);
      ParentCost(WeightOf(f.w[x]), WeightOf(f.w[y]), d + 1);
    }
  }

  // ---- leaves and tables ----

  /** The weights of the leaves */
  function LeafWeights(w: seq<nat>, a: nat): (u: seq<nat>)
    requires a < |w|
    ensures |u| == a && forall i :: 0 <= i < a ==> u[i] == WeightOf(w[i + 1])
  {
    seq(a, i requires 0 <= i < a => WeightOf(w[i + 1]))
  }

  /** A table of lengths for the leaves, set out on the nodes */
  function OnNodes(f: Forest, len: seq<nat>): (l: seq<nat>)
    requires Sizes(f) && |len| == f.a
    ensures |l| == f.n + 1 && forall i :: 1 <= i <= f.a ==> l[i] == len[i - 1]
  {
    seq(f.n + 1, i requires 0 <= i <= f.n => if 1 <= i <= f.a then len[i - 1] else 0)
  }

  lemma {:induction false} LeafSums(f: Forest, l: seq<nat>, len: seq<nat>, depth: nat, m: nat)
    requires ForestOk(f) && |len| == f.a && |l| == f.n + 1 && m <= f.a && forall i :: 1 <= i <= f.a ==> l[i] == len[i - 1]
    ensures Over(f, f.a, Costs(f, l), m) == Cost(LeafWeights(f.w, f.a)[..m], len[..m])
    ensures (forall i :: 0 <= i < |len| ==> len[i] <= depth) ==>
              Over(f, f.a, Krafts(l, depth), m) == KraftSum(len[..m], depth)
    decreases m
  {
    hide WeightOf, Heavy, Lightest, Pow2;
    if m > 0 {
      LeafSums(f, l, len, depth, m - 1);
      assert Linked(f, m);
      var u := LeafWeights(f.w, f.a);
      assert u[..m][..m - 1] == u[..m - 1] && len[..m][..m - 1] == len[..m - 1];
    }
  }

  /** The depths of the leaves of the tree cost as little as any table can. */
  lemma TreeCheapest(f: Forest, len: seq<nat>, depth: nat)
    requires IsTree(f) && LengthsOf(f, len) && MeetsKraft(len, depth)
    ensures LeastCost(LeafWeights(f.w, f.a), len)
  {
    hide WeightOf, ForestOk, Cost, Costs, KraftSum, Over, Pow2;
    TreeSizes(f);
    var u := LeafWeights(f.w, f.a);
    assert u[..f.a] == u && len[..f.a] == len;
    LeafSums(f, Depths(f), len, depth, f.a);
    TreeCosts(f, f.a);
    forall other: seq<nat>, d: nat | |other| == |u| && MeetsKraft(other, d) ensures Cost(u, len) <= Cost(u, other) {
      var l := OnNodes(f, other);
      assert other[..f.a] == other;
      LeafSums(f, l, other, d, f.a);
      NoneCheaper(f, f.a, l, d);
    }
  }

  // ---- least cost and order ----

  lemma {:induction false} CostSet(u: seq<nat>, len: seq<nat>, i: nat, v: nat)
    requires |u| == |len| && i < |len|
    ensures Cost(u, len[i := v]) + u[i] * len[i] == Cost(u, len) + u[i] * v
    decreases |u|
  {
    var n := |u| - 1;
    if i < n {
      assert len[i := v][..n] == len[..n][i := v];
      CostSet(u[..n], len[..n], i, v);
    } else {
      assert len[i := v][..n] == len[..n];
    }
  }

  lemma {:induction false} KraftSet(len: seq<nat>, i: nat, v: nat, depth: nat)
    requires i < |len| && v <= depth && forall j :: 0 <= j < |len| ==> len[j] <= depth
    ensures KraftSum(len[i := v], depth) + Pow2(depth - len[i]) == KraftSum(len, depth) + Pow2(depth - v)
    decreases |len|
  {
    hide Pow2;
    var n := |len| - 1;
    if i < n {
      assert len[i := v][..n] == len[..n][i := v];
      KraftSet(len[..n], i, v, depth);
    } else {
      assert len[i := v][..n] == len[..n];
    }
  }

  /** In a table of least cost a symbol that is sent more often never has the longer code. */
  lemma OftenerNotLonger(u: seq<nat>, len: seq<nat>, i: nat, j: nat)
    requires LeastCost(u, len) && i < |u| && j < |u| && u[i] > u[j]
    ensures len[i] <= len[j]
  {
    hide KraftSum, Pow2, Cost;
    if len[i] > len[j] {
      var depth :| MeetsKraft(len, depth);
      var other := Swapped(len, i, j);
      KraftSet(len, i, len[j], depth);
      KraftSet(len[i := len[j]], j, len[i], depth);
      assert MeetsKraft(other, depth);
      CostSet(u, len, i, len[j]);
      CostSet(u, len[i := len[j]], j, len[i]);
      StrictlyDearer(u[i], u[j], len[i], len[j]);
    }
  }

  lemma StrictlyDearer(wi: nat, wj: nat, li: nat, lj: nat)
    requires wi > wj && li > lj
    ensures wi * lj + wj * li < wi * li + wj * lj
  {
    assert (wi - wj) * (li - lj) > 0;
  }
}
