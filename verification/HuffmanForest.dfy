/** The forest BZ2_hbMakeCodeLengths grows: how heavy a tree of a given depth must be,
    and what the depths of the leaves add up to. */
module HuffmanForest {
  import opened Bits
  import opened HuffmanCodes

  // A packed weight is the weight of a tree in the high bits and its depth in the low 8.

  function WeightOf(z: nat): nat { z / 256 }

  function DepthOf(z: nat): nat { z % 256 }

  function Max(x: nat, y: nat): nat { if x > y then x else y }

  /** ADDWEIGHTS; the or of the two parts is their sum while the depth fits in 8 bits. */
  function AddWeights(x: nat, y: nat): nat {
    256 * (WeightOf(x) + WeightOf(y)) + (1 + Max(DepthOf(x), DepthOf(y)))
  }

  lemma AddWeightsParts(x: nat, y: nat)
    requires DepthOf(x) < 255 && DepthOf(y) < 255
    ensures WeightOf(AddWeights(x, y)) == WeightOf(x) + WeightOf(y)
    ensures DepthOf(AddWeights(x, y)) == 1 + Max(DepthOf(x), DepthOf(y))
  {
  }

  function Fib(n: nat): nat {
    if n < 2 then n else Fib(n - 1) + Fib(n - 2)
  }

  lemma {:induction false} FibMonotone(m: nat, n: nat)
    requires m <= n
    ensures Fib(m) <= Fib(n)
  {
    if m < n {
      FibMonotone(m, n - 1);
    }
  }

  lemma FibValues()
    ensures Fib(1) == 1 && Fib(2) == 1 && Fib(15) == 610 && Fib(35) == 9227465
  {
    assert Fib(3) == 2 && Fib(4) == 3 && Fib(5) == 5 && Fib(6) == 8 && Fib(7) == 13 && Fib(8) == 21;
    assert Fib(9) == 34 && Fib(10) == 55 && Fib(11) == 89 && Fib(12) == 144 && Fib(13) == 233;
    assert Fib(14) == 377 && Fib(15) == 610 && Fib(16) == 987 && Fib(17) == 1597 && Fib(18) == 2584;
    assert Fib(19) == 4181 && Fib(20) == 6765 && Fib(21) == 10946 && Fib(22) == 17711 && Fib(23) == 28657;
    assert Fib(24) == 46368 && Fib(25) == 75025 && Fib(26) == 121393 && Fib(27) == 196418 && Fib(28) == 317811;
    assert Fib(29) == 514229 && Fib(30) == 832040 && Fib(31) == 1346269 && Fib(32) == 2178309 && Fib(33) == 3524578;
    assert Fib(34) == 5702887;
  }

  const WEIGHT_LIMIT := 0x80_0000

  /** Weights w, parents p (-1 for a root), and for each merged node its two children.
      Nodes 1..a are leaves, 1..n exist; m is the heavier weight of the last merge. */
  datatype Forest = Forest(w: seq<nat>, p: seq<int>, kids: seq<(nat, nat)>, a: nat, n: nat, m: nat)

  predicate Sizes(f: Forest) {
    1 <= f.a <= f.n && f.n < |f.w| && f.n < |f.p| && f.n < |f.kids|
  }

  predicate IsRoot(f: Forest, i: nat)
    requires Sizes(f) && i <= f.n
  {
    f.p[i] == -1
  }

  /** A tree of depth d weighs at least Fib(d + 2), and some merge has had a side of Fib(d + 1). */
  predicate Heavy(f: Forest, i: nat)
    requires Sizes(f) && i <= f.n
  {
    && WeightOf(f.w[i]) >= Fib(DepthOf(f.w[i]) + 2)
    && (DepthOf(f.w[i]) >= 1 ==> Fib(DepthOf(f.w[i]) + 1) <= f.m)
    && (i <= f.a ==> DepthOf(f.w[i]) == 0)
  }

  predicate Linked(f: Forest, i: nat)
    requires Sizes(f) && i <= f.n
  {
    if IsRoot(f, i) then WeightOf(f.w[i]) >= f.m
    else
      && i < f.p[i] <= f.n && f.a < f.p[i]
      && DepthOf(f.w[f.p[i]]) >= DepthOf(f.w[i]) + 1
      && (i == f.kids[f.p[i]].0 || i == f.kids[f.p[i]].1)
  }

  predicate HasKids(f: Forest, k: nat)
    requires Sizes(f) && k <= f.n
  {
    var (x, y) := f.kids[k];
    x != y && 1 <= x < k && 1 <= y < k && f.p[x] == k && f.p[y] == k
  }

  /** When node k was made no node without a parent was lighter than its children, and k weighs what they do. */
  predicate Lightest(f: Forest, k: nat)
    requires Sizes(f) && k <= f.n
  {
    var (x, y) := f.kids[k];
    && x < k && y < k && WeightOf(f.w[k]) == WeightOf(f.w[x]) + WeightOf(f.w[y]) && WeightOf(f.w[x]) <= WeightOf(f.w[y])
    && forall i :: 1 <= i < k && i != x && (f.p[i] < 0 || f.p[i] >= k) ==> WeightOf(f.w[y]) <= WeightOf(f.w[i])
  }

  predicate ForestOk(f: Forest) {
    && Sizes(f)
    && (forall i :: 1 <= i <= f.n ==> Heavy(f, i))
    && (forall i :: 1 <= i <= f.n ==> Linked(f, i))
    && (forall k :: f.a < k <= f.n ==> HasKids(f, k))
    && (forall k :: f.a < k <= f.n ==> Lightest(f, k))
  }

  function RootSum(f: Forest, k: nat): nat
    requires Sizes(f) && k <= f.n
  {
    if k == 0 then 0 else RootSum(f, k - 1) + if IsRoot(f, k) then WeightOf(f.w[k]) else 0
  }

  function LeafSum(w: seq<nat>, k: nat): nat
    requires k < |w|
  {
    if k == 0 then 0 else LeafSum(w, k - 1) + WeightOf(w[k])
  }

  // ---- one merge ----

  function Merge(f: Forest, x: nat, y: nat): Forest
    requires Sizes(f) && 1 <= x <= f.n && 1 <= y <= f.n
    requires f.n + 1 < |f.w| && f.n + 1 < |f.p| && f.n + 1 < |f.kids|
  {
    var k := f.n + 1;
    Forest(f.w[k := AddWeights(f.w[x], f.w[y])], f.p[x := k][y := k][k := -1], f.kids[k := (x, y)],
           f.a, k, WeightOf(f.w[y]))
  }

  predicate CanMerge(f: Forest, x: nat, y: nat) {
    && ForestOk(f) && 1 <= x <= f.n && 1 <= y <= f.n && x != y
    && f.n + 1 < |f.w| && f.n + 1 < |f.p| && f.n + 1 < |f.kids|
    && IsRoot(f, x) && IsRoot(f, y) && WeightOf(f.w[x]) <= WeightOf(f.w[y])
    && (forall i :: 1 <= i <= f.n && i != x && IsRoot(f, i) ==> WeightOf(f.w[y]) <= WeightOf(f.w[i]))
    && RootSum(f, f.n) < WEIGHT_LIMIT
  }

  lemma {:induction false} RootBelowSum(f: Forest, x: nat, k: nat)
    requires Sizes(f) && 1 <= x <= k <= f.n && IsRoot(f, x)
    ensures WeightOf(f.w[x]) <= RootSum(f, k)
    decreases k
  {
    if x < k { RootBelowSum(f, x, k - 1); }
  }

  /** A packed depth stays far below 256. */
  lemma ShallowDepth(z: nat)
    requires WeightOf(z) >= Fib(DepthOf(z) + 2) && WeightOf(z) < WEIGHT_LIMIT
    ensures DepthOf(z) <= 32
  {
    if DepthOf(z) > 32 {
      FibMonotone(35, DepthOf(z) + 2);
      FibValues();
    }
  }

  /** The merged tree is heavy enough for its depth: its lighter side still outweighs
      the lighter grandchild's sibling. */
  lemma MergedHeavy(f: Forest, x: nat, y: nat)
    requires CanMerge(f, x, y)
    ensures DepthOf(f.w[x]) < 255 && DepthOf(f.w[y]) < 255
    ensures var d := 1 + Max(DepthOf(f.w[x]), DepthOf(f.w[y]));
            WeightOf(f.w[x]) + WeightOf(f.w[y]) >= Fib(d + 2) && Fib(d + 1) <= WeightOf(f.w[y])
  {
    RootBelowSum(f, x, f.n);
    RootBelowSum(f, y, f.n);
    assert Heavy(f, x) && Heavy(f, y) && Linked(f, x) && Linked(f, y);
    ShallowDepth(f.w[x]);
    ShallowDepth(f.w[y]);
    FibPositive(DepthOf(f.w[x]) + 1);
    hide Fib;
    FibMerge(WeightOf(f.w[x]), WeightOf(f.w[y]), DepthOf(f.w[x]), DepthOf(f.w[y]), f.m);
  }

  lemma FibMerge(wx: nat, wy: nat, dx: nat, dy: nat, m: nat)
    requires 1 <= wx <= wy && wx >= Fib(dx + 2) && wy >= Fib(dy + 2) && m <= wx
    requires dx >= 1 ==> Fib(dx + 1) <= m
    requires dy >= 1 ==> Fib(dy + 1) <= m
    ensures var d := 1 + Max(dx, dy); wx + wy >= Fib(d + 2) && Fib(d + 1) <= wy
  {
  }

  lemma {:induction false} FibPositive(n: nat)
    ensures Fib(n + 1) >= 1
  {
    if n >= 1 { FibPositive(n - 1); }
  }

  lemma MergeHeavy(f: Forest, x: nat, y: nat, i: nat)
    requires CanMerge(f, x, y) && 1 <= i <= f.n + 1
    ensures Heavy(Merge(f, x, y), i)
  {
    hide Fib;
    MergedHeavy(f, x, y);
    AddWeightsParts(f.w[x], f.w[y]);
    if i <= f.n {
      assert Heavy(f, i) && Linked(f, y);
    }
  }

  lemma MergeLinked(f: Forest, x: nat, y: nat, i: nat)
    requires CanMerge(f, x, y) && 1 <= i <= f.n + 1
    ensures Linked(Merge(f, x, y), i)
  {
    hide Fib, AddWeights, WeightOf, DepthOf;
    MergedHeavy(f, x, y);
    AddWeightsParts(f.w[x], f.w[y]);
    if i <= f.n {
      assert Linked(f, i) && Linked(f, y);
    }
  }

  lemma MergeKids(f: Forest, x: nat, y: nat, k: nat)
    requires CanMerge(f, x, y) && f.a < k <= f.n + 1
    ensures HasKids(Merge(f, x, y), k)
  {
    if k <= f.n { assert HasKids(f, k); }
  }

  lemma MergeTwoLightest(f: Forest, x: nat, y: nat, k: nat)
    requires CanMerge(f, x, y) && f.a < k <= f.n + 1
    ensures Lightest(Merge(f, x, y), k)
  {
    hide AddWeights, WeightOf, DepthOf, Heavy, HasKids;
    MergedHeavy(f, x, y);
    AddWeightsParts(f.w[x], f.w[y]);
    if k <= f.n {
      assert Lightest(f, k);
      var g := Merge(f, x, y);
      forall i | 1 <= i < k && i != f.kids[k].0 && (g.p[i] < 0 || g.p[i] >= k)
        ensures WeightOf(g.w[f.kids[k].1]) <= WeightOf(g.w[i])
      {
        assert f.p[i] < 0 || f.p[i] >= k;
        assert f.w[i] == g.w[i];
      }
    } else {
      forall i | 1 <= i <= f.n && !IsRoot(f, i) ensures 0 <= f.p[i] <= f.n { assert Linked(f, i); }
    }
  }

  lemma {:induction false} MergeSumBelow(f: Forest, x: nat, y: nat, k: nat)
    requires CanMerge(f, x, y) && k <= f.n
    ensures Sizes(Merge(f, x, y))
    ensures RootSum(Merge(f, x, y), k) + (if x <= k then WeightOf(f.w[x]) else 0) +
            (if y <= k then WeightOf(f.w[y]) else 0) == RootSum(f, k)
    decreases k
  {
    if k > 0 { MergeSumBelow(f, x, y, k - 1); }
  }

  lemma MergeOk(f: Forest, x: nat, y: nat)
    requires CanMerge(f, x, y)
    ensures Sizes(f) && ForestOk(Merge(f, x, y))
    ensures RootSum(Merge(f, x, y), f.n + 1) == RootSum(f, f.n)
    ensures AddWeights(f.w[x], f.w[y]) < 0x8000_0000
  {
    hide Heavy, Linked, HasKids, Lightest, AddWeights, WeightOf, DepthOf, Fib;
    var g := Merge(f, x, y);
    forall i | 1 <= i <= g.n ensures Heavy(g, i) { MergeHeavy(f, x, y, i); }
    forall i | 1 <= i <= g.n ensures Linked(g, i) { MergeLinked(f, x, y, i); }
    forall k | g.a < k <= g.n ensures HasKids(g, k) { MergeKids(f, x, y, k); }
    forall k | g.a < k <= g.n ensures Lightest(g, k) { MergeTwoLightest(f, x, y, k); }
    MergedHeavy(f, x, y);
    AddWeightsParts(f.w[x], f.w[y]);
    MergeSumBelow(f, x, y, f.n);
    MergeFits(f, x, y);
  }

  lemma MergeFits(f: Forest, x: nat, y: nat)
    requires CanMerge(f, x, y)
    ensures AddWeights(f.w[x], f.w[y]) < 0x8000_0000
  {
    hide Heavy, Linked, HasKids, Fib;
    MergeSumBelow(f, x, y, f.n);
    MergedHeavy(f, x, y);
  }

  // ---- the finished tree ----

  /** Steps from node i up to its root: the walk along the parents. */
  function Depth(p: seq<int>, i: nat): nat
    decreases |p| - i
  {
    if i < |p| && i < p[i] < |p| then 1 + Depth(p, p[i]) else 0
  }

  /** All nodes hang from the last one. */
  predicate IsTree(f: Forest) {
    ForestOk(f) && IsRoot(f, f.n) && forall i :: 1 <= i < f.n ==> !IsRoot(f, i)
  }

  lemma {:induction false} DepthBounded(f: Forest, i: nat)
    requires IsTree(f) && 1 <= i <= f.n
    ensures Depth(f.p, i) + DepthOf(f.w[i]) <= DepthOf(f.w[f.n])
    decreases f.n - i
  {
    assert Linked(f, i);
    if i < f.n {
      assert !IsRoot(f, i);
      DepthBounded(f, f.p[i]);
    }
  }

  lemma {:induction false} TreeWeight(f: Forest, k: nat)
    requires IsTree(f) && k <= f.n
    ensures RootSum(f, k) == if k == f.n then WeightOf(f.w[f.n]) else 0
    decreases k
  {
    if k > 0 { TreeWeight(f, k - 1); }
  }

  /** If all leaves weigh at most 2, no leaf of an alphabet of 258 is deeper than 12. */
  lemma {:induction false} LightLeaves(w: seq<nat>, k: nat)
    requires k < |w| && forall i :: 1 <= i <= k ==> WeightOf(w[i]) <= 2
    ensures LeafSum(w, k) <= 2 * k
  {
    if k > 0 { LightLeaves(w, k - 1); }
  }

  lemma TooDeepHasHeavyLeaf(f: Forest, i: nat) returns (j: nat)
    requires IsTree(f) && 1 <= i <= f.a <= MAX_ALPHA_SIZE && Depth(f.p, i) > 12
    requires RootSum(f, f.n) == LeafSum(f.w, f.a)
    ensures 1 <= j <= f.a && WeightOf(f.w[j]) >= 3
  {
    DepthBounded(f, i);
    TreeWeight(f, f.n);
    assert Heavy(f, f.n);
    FibMonotone(15, DepthOf(f.w[f.n]) + 2);
    FibValues();
    if forall t :: 1 <= t <= f.a ==> WeightOf(f.w[t]) <= 2 {
      LightLeaves(f.w, f.a);
      assert false;
    }
    j :| 1 <= j <= f.a && WeightOf(f.w[j]) > 2;
  }

  // ---- Kraft ----

  predicate Within(f: Forest, depth: nat) {
    Sizes(f) && forall i :: 1 <= i <= f.n ==> Depth(f.p, i) <= depth
  }

  /** The parent of node i, if it has one, is above k: i was a root when k was the last node. */
  predicate Open(f: Forest, i: nat, k: nat)
    requires Sizes(f) && i <= f.n
  {
    f.p[i] < 0 || f.p[i] > k
  }

  /** The sum of t over the nodes up to m that were roots when k was the last node */
  function Over(f: Forest, k: nat, t: seq<nat>, m: nat): nat
    requires Sizes(f) && m <= f.n < |t|
    decreases m
  {
    if m == 0 then 0 else Over(f, k, t, m - 1) + if Open(f, m, k) then t[m] else 0
  }

  /** Lowering the bound by one lets in exactly the children of k. */
  lemma {:induction false} OverGains(f: Forest, k: nat, t: seq<nat>, m: nat)
    requires ForestOk(f) && f.a < k <= f.n < |t| && m < k && HasKids(f, k)
    ensures var (x, y) := f.kids[k];
            Over(f, k - 1, t, m) == Over(f, k, t, m) + (if x <= m then t[x] else 0) + (if y <= m then t[y] else 0)
    decreases m
  {
    hide Heavy, Lightest;
    if m > 0 {
      OverGains(f, k, t, m - 1);
      assert Linked(f, m);
    }
  }

  /** A node's two children stand in for it. */
  lemma OverStep(f: Forest, k: nat, t: seq<nat>)
    requires ForestOk(f) && f.a < k <= f.n < |t|
    ensures var (x, y) := f.kids[k];
            && HasKids(f, k) && x != 0 && y != 0
            && Over(f, k - 1, t, k - 1) + t[k] == Over(f, k, t, k) + t[x] + t[y]
  {
    hide Heavy, Lightest;
    assert HasKids(f, k) && Linked(f, k);
    OverGains(f, k, t, k - 1);
  }

  /** Each node counts 2^(depth - its own depth). */
  function Shares(f: Forest, depth: nat): (t: seq<nat>)
    requires Within(f, depth)
    ensures |t| == f.n + 1 && forall i :: 1 <= i <= f.n ==> t[i] == Pow2(depth - Depth(f.p, i))
  {
    seq(f.n + 1, i requires 0 <= i <= f.n => if i == 0 then 0 else Pow2(depth - Depth(f.p, i)))
  }

  function Frontier(f: Forest, depth: nat, k: nat, m: nat): nat
    requires Within(f, depth) && m <= f.n
  {
    Over(f, k, Shares(f, depth), m)
  }

  /** Replacing a node by its two children keeps the total. */
  lemma FrontierStep(f: Forest, depth: nat, k: nat)
    requires ForestOk(f) && Within(f, depth) && f.a < k <= f.n
    ensures Frontier(f, depth, k - 1, k - 1) == Frontier(f, depth, k, k)
  {
    hide Heavy, Lightest;
    assert HasKids(f, k) && Linked(f, k);
    OverStep(f, k, Shares(f, depth));
    var (x, y) := f.kids[k];
    assert Depth(f.p, x) == 1 + Depth(f.p, k) && Depth(f.p, y) == 1 + Depth(f.p, k);
    assert Pow2(depth - Depth(f.p, k)) == 2 * Pow2(depth - Depth(f.p, x));
  }

  lemma {:induction false} FrontierConstant(f: Forest, depth: nat, k: nat)
    requires IsTree(f) && Within(f, depth) && f.a <= k <= f.n
    ensures Frontier(f, depth, k, k) == Pow2(depth)
    decreases f.n - k
  {
    if k < f.n {
      FrontierConstant(f, depth, k + 1);
      FrontierStep(f, depth, k + 1);
    } else {
      OnlyRootOpen(f, Shares(f, depth), f.n - 1);
    }
  }

  lemma {:induction false} OnlyRootOpen(f: Forest, t: seq<nat>, m: nat)
    requires IsTree(f) && m < f.n < |t|
    ensures Over(f, f.n, t, m) == 0
    decreases m
  {
    hide Heavy, Lightest;
    if m > 0 {
      assert Linked(f, m) && !IsRoot(f, m);
      OnlyRootOpen(f, t, m - 1);
    }
  }

  /** The lengths read off the leaves. */
  predicate LengthsOf(f: Forest, len: seq<nat>) {
    Sizes(f) && |len| == f.a && forall i :: 0 <= i < |len| ==> len[i] == Depth(f.p, i + 1)
  }

  lemma {:induction false} LeavesInFrontier(f: Forest, depth: nat, len: seq<nat>, m: nat)
    requires IsTree(f) && Within(f, depth) && LengthsOf(f, len) && m <= f.a
    ensures Frontier(f, depth, f.a, m) == KraftSum(len[..m], depth)
    decreases m
  {
    if m > 0 {
      assert Linked(f, m);
      LeavesInFrontier(f, depth, len, m - 1);
      assert len[..m][..m - 1] == len[..m - 1];
    }
  }

  /** The lengths of a full binary tree meet the Kraft inequality with equality. */
  lemma TreeIsComplete(f: Forest, depth: nat, len: seq<nat>)
    requires IsTree(f) && LengthsOf(f, len) && f.a >= 2
    requires forall i :: 0 <= i < |len| ==> len[i] <= depth
    ensures KraftSum(len, depth) == Pow2(depth)
    ensures forall i :: 0 <= i < |len| ==> len[i] >= 1
  {
    forall i | 1 <= i <= f.n ensures Depth(f.p, i) <= depth { InnerBelowLeaf(f, depth, len, i); }
    FrontierConstant(f, depth, f.a);
    LeavesInFrontier(f, depth, len, f.a);
    assert len[..f.a] == len;
    forall i | 0 <= i < |len| ensures len[i] >= 1 {
      assert Linked(f, i + 1);
      assert Linked(f, 1) && !IsRoot(f, 1);
      assert f.n > f.a;
      assert !IsRoot(f, i + 1);
    }
  }

  /** Every inner node lies above some leaf. */
  lemma {:induction false} InnerBelowLeaf(f: Forest, depth: nat, len: seq<nat>, i: nat)
    requires IsTree(f) && LengthsOf(f, len) && 1 <= i <= f.n
    requires forall i :: 0 <= i < |len| ==> len[i] <= depth
    ensures Depth(f.p, i) <= depth
    decreases i
  {
    if i <= f.a {
      assert len[i - 1] == Depth(f.p, i);
    } else {
      assert HasKids(f, i);
      InnerBelowLeaf(f, depth, len, f.kids[i].0);
    }
  }
}
