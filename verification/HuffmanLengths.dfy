/** BZ2_hbMakeCodeLengths: length-limited code lengths by building a Huffman tree on a heap,
    and flattening the weights and starting over while a code comes out too long. */
module HuffmanLengths {
  import opened Bits
  import opened HuffmanCodes
  import opened HuffmanHeap
  import opened HuffmanForest
  import opened HuffmanOptimal

  const HEAP_SIZE := MAX_ALPHA_SIZE + 2
  const NODES_SIZE := 2 * MAX_ALPHA_SIZE

  /** A symbol that does not occur weighs 1. */
  function StartWeight(freq: nat): nat {
    if freq == 0 then 1 else freq
  }

  function FreqSum(freq: seq<nat>): nat {
    if freq == [] then 0 else FreqSum(freq[..|freq| - 1]) + StartWeight(freq[|freq| - 1])
  }

  /** The weights of the leaves, ready for a tree to be built on them. */
  predicate LeavesOk(w: seq<nat>, a: nat) {
    a < |w| && (forall i :: 1 <= i <= a ==> DepthOf(w[i]) == 0 && WeightOf(w[i]) >= 1) && LeafSum(w, a) < WEIGHT_LIMIT
  }

  /** The forest of single leaves. */
  ghost function Seedlings(w: seq<nat>, p: seq<int>, a: nat): Forest {
    Forest(w, p, seq(NODES_SIZE, _ => (0, 0)), a, a, 0)
  }

  lemma SeedlingsOk(w: seq<nat>, p: seq<int>, a: nat)
    requires LeavesOk(w, a) && 1 <= a < NODES_SIZE == |p| == |w| && forall i :: 1 <= i <= a ==> p[i] == -1
    ensures ForestOk(Seedlings(w, p, a))
    ensures RootSum(Seedlings(w, p, a), a) == LeafSum(w, a)
  {
    var f := Seedlings(w, p, a);
    FibValues();
    forall i | 1 <= i <= a ensures Heavy(f, i) && Linked(f, i) { }
    SeedlingSum(f, a);
  }

  lemma {:induction false} SeedlingSum(f: Forest, k: nat)
    requires Sizes(f) && k <= f.n && forall i :: 1 <= i <= f.n ==> IsRoot(f, i)
    ensures RootSum(f, k) == LeafSum(f.w, k)
    decreases k
  {
    if k > 0 { SeedlingSum(f, k - 1); }
  }

  /** The heap holds exactly the roots. */
  ghost predicate HeapOfRoots(f: Forest, g: seq<nat>, nHeap: nat) {
    && Sizes(f) && nHeap < |g|
    && (forall x :: x in Members(g, nHeap) ==> 1 <= x <= f.n && IsRoot(f, x))
    && (forall i :: 1 <= i <= f.n && IsRoot(f, i) ==> i in Members(g, nHeap))
  }

  /** Everything the tree-building loop keeps. */
  ghost predicate Building(f: Forest, heap: seq<nat>, weight: seq<nat>, parent: seq<int>, nHeap: nat, total: nat) {
    && ForestOk(f) && f.w == weight && f.p == parent
    && |weight| == NODES_SIZE && |parent| == NODES_SIZE && |f.kids| == NODES_SIZE && |heap| == HEAP_SIZE
    && nHeap < HEAP_SIZE && IsHeap(weight, heap, nHeap) && DistinctEntries(heap, nHeap)
    && HeapOfRoots(f, heap, nHeap)
    && RootSum(f, f.n) == total < WEIGHT_LIMIT
  }

  /** All leaves on the heap: nothing is built yet. */
  lemma Planted(w: seq<nat>, p: seq<int>, g: seq<nat>, a: nat)
    requires LeavesOk(w, a) && 1 <= a <= MAX_ALPHA_SIZE && |p| == |w| == NODES_SIZE && |g| == HEAP_SIZE
    requires forall i :: 1 <= i <= a ==> p[i] == -1
    requires IsHeap(w, g, a) && DistinctEntries(g, a)
    requires forall x: nat :: x in Members(g, a) <==> 1 <= x <= a
    ensures Building(Seedlings(w, p, a), g, w, p, a, LeafSum(w, a))
  {
    hide IsHeap, Members, LeafSum, DistinctEntries, RootSum, ForestOk;
    SeedlingsOk(w, p, a);
  }

  /** Puts all leaves on the heap. */
  method PlantLeaves(heap: array<nat>, weight: array<nat>, parent: array<int>, a: nat) returns (nHeap: nat)
    requires heap != weight && heap.Length == HEAP_SIZE && weight.Length == NODES_SIZE && parent.Length == NODES_SIZE
    requires 1 <= a <= MAX_ALPHA_SIZE && LeavesOk(weight[..], a)
    modifies heap, weight, parent
    ensures nHeap == a && weight[0] == 0 && weight[1..] == old(weight[1..])
    ensures Building(Seedlings(weight[..], parent[..], a), heap[..], weight[..], parent[..], nHeap,
            old(LeafSum(weight[..], a)))
  {
    hide IsHeap, Members, LeafSum, DistinctEntries, Building, Seedlings;
    nHeap := 0;
    heap[0] := 0;
    weight[0] := 0;
    parent[0] := -2;
    ghost var w := weight[..];
    LeafSumKept(old(weight[..]), w, a);
    assert LeavesOk(w, a) by { assert forall i :: 1 <= i <= a ==> w[i] == old(weight[..])[i]; }
    EmptyHeap(w, heap[..]);
    for i := 1 to a + 1
      invariant nHeap == i - 1 && weight[..] == w
      invariant IsHeap(w, heap[..], nHeap) && DistinctEntries(heap[..], nHeap)
      invariant forall x: nat :: x in Members(heap[..], nHeap) <==> 1 <= x < i
      invariant forall j :: 1 <= j < i ==> parent[j] == -1
    {
      parent[i] := -1;
      nHeap := nHeap + 1;
      ghost var before := heap[..];
      heap[nHeap] := i;
      PutLast(w, before, nHeap - 1, i);
      UpHeap(heap, weight, nHeap);
    }
    Planted(w, parent[..], heap[..], a);
  }

  lemma {:induction false} LeafSumKept(w: seq<nat>, v: seq<nat>, a: nat)
    requires a < |w| == |v| && forall i :: 1 <= i <= a ==> w[i] == v[i]
    ensures LeafSum(w, a) == LeafSum(v, a)
    decreases a
  {
    if a > 0 { LeafSumKept(w, v, a - 1); }
  }

  lemma EmptyHeap(w: seq<nat>, g: seq<nat>)
    requires |w| > 0 && |g| > 0 && w[0] == 0 && g[0] == 0
    ensures IsHeap(w, g, 0) && Members(g, 0) == {} && DistinctEntries(g, 0)
  {
  }

  /** A new entry at the end of the heap, before it rises. */
  lemma PutLast(w: seq<nat>, g: seq<nat>, n: nat, x: nat)
    requires n + 1 < |g| && IsHeap(w, g, n) && DistinctEntries(g, n) && x < |w| && x !in Members(g, n)
    ensures var r := g[n + 1 := x];
            Slots(w, r, n + 1) && IsHeap(w, r, n) && DistinctEntries(r, n + 1) && Members(r, n + 1) == Members(g, n) + {x}
  {
    hide Members, Ordered, DistinctEntries;
    var r := g[n + 1 := x];
    forall i | 1 <= i <= n ensures Ordered(w, r, n, i) {
      assert Ordered(w, g, n, i);
      OrderedInPrefix(w, g, r, n, i);
    }
    MembersPrefix(g, r, n);
    LastMember(g, r, n, x);
  }

  lemma OrderedInPrefix(w: seq<nat>, g: seq<nat>, r: seq<nat>, n: nat, i: nat)
    requires Slots(w, g, n) && n < |r| && r[..n + 1] == g[..n + 1] && 1 <= i <= n && Ordered(w, g, n, i)
    ensures Slots(w, r, n) && Ordered(w, r, n, i)
  {
    assert forall j :: 0 <= j <= n ==> r[j] == r[..n + 1][j] == g[j];
  }

  lemma LastMember(g: seq<nat>, r: seq<nat>, n: nat, x: nat)
    requires n + 1 < |g| && r == g[n + 1 := x] && DistinctEntries(g, n) && x !in Members(g, n)
    ensures DistinctEntries(r, n + 1) && Members(r, n + 1) == Members(r, n) + {x}
  {
  }

  lemma {:induction false} MembersPrefix(g: seq<nat>, r: seq<nat>, n: nat)
    requires n < |g| == |r| && forall i :: 1 <= i <= n ==> g[i] == r[i]
    ensures Members(g, n) == Members(r, n)
    decreases n
  {
    if n > 0 { MembersPrefix(g, r, n - 1); }
  }

  /** The two lightest trees come off the heap and go back on as one. */
  method MergeLightest(heap: array<nat>, weight: array<nat>, parent: array<int>, nHeap: nat, nNodes: nat,
                       ghost f: Forest, ghost total: nat)
    returns (ghost g: Forest)
    requires heap != weight && 2 <= nHeap && nNodes == f.n && f.n + 1 < NODES_SIZE
    requires Building(f, heap[..], weight[..], parent[..], nHeap, total)
    modifies heap, weight, parent
    ensures Building(g, heap[..], weight[..], parent[..], nHeap - 1, total)
    ensures g.n == f.n + 1 && g.a == f.a && forall i :: 1 <= i <= f.n ==> weight[i] == old(weight[i])
  {
    hide IsHeap, Members, DistinctEntries, ForestOk, RootSum, Heavy, Linked, AddWeights, HeapOfRoots;
    ghost var g0 := heap[..];
    var n1 := RemoveLightest(heap, weight, nHeap);
    ghost var g1 := heap[..];
    var n2 := RemoveLightest(heap, weight, nHeap - 1);
    ghost var g2 := heap[..];
    LightestTwo(f, g0, nHeap, n1, n2);
    MergeOk(f, n1, n2);
    g := Merge(f, n1, n2);
    MergedRoots(f, g0, nHeap, g2, n1, n2);
    var k := nNodes + 1;
    parent[n1], parent[n2] := k, k;
    weight[k] := AddWeights(weight[n1], weight[n2]);
    parent[k] := -1;
    assert weight[..] == g.w && parent[..] == g.p;
    HeapReweighted(f.w, g.w, g2, nHeap - 2, k);
    PutLast(g.w, g2, nHeap - 2, k);
    heap[nHeap - 1] := k;
    UpHeap(heap, weight, nHeap - 1);
    RootsPlaced(g, heap[..], nHeap - 1, Members(g2, nHeap - 2), k);
  }

  /** The two entries removed are the two that may be merged. */
  lemma LightestTwo(f: Forest, g: seq<nat>, nHeap: nat, x: nat, y: nat)
    requires ForestOk(f) && HeapOfRoots(f, g, nHeap) && RootSum(f, f.n) < WEIGHT_LIMIT
    requires f.n + 1 < |f.w| && f.n + 1 < |f.p| && f.n + 1 < |f.kids|
    requires x in Members(g, nHeap) && y in Members(g, nHeap) && x != y
    requires forall z :: z in Members(g, nHeap) ==> z < |f.w| && f.w[x] <= f.w[z]
    requires forall z :: z in Members(g, nHeap) && z != x ==> z < |f.w| && f.w[y] <= f.w[z]
    ensures CanMerge(f, x, y)
  {
    hide Members, ForestOk, RootSum;
    HalvingMonotone(f.w[x], f.w[y]);
    forall i | 1 <= i <= f.n && i != x && IsRoot(f, i) ensures WeightOf(f.w[y]) <= WeightOf(f.w[i]) {
      assert i in Members(g, nHeap);
      HalvingMonotone(f.w[y], f.w[i]);
    }
  }

  lemma HalvingMonotone(x: nat, y: nat)
    requires x <= y
    ensures WeightOf(x) <= WeightOf(y)
  {
  }

  /** After the merge the roots are the entries left on the heap and the new node. */
  lemma MergedRoots(f: Forest, g: seq<nat>, nHeap: nat, r: seq<nat>, x: nat, y: nat)
    requires CanMerge(f, x, y) && 2 <= nHeap && HeapOfRoots(f, g, nHeap) && nHeap <= |r|
    requires Members(r, nHeap - 2) == Members(g, nHeap) - {x} - {y}
    ensures var h, m := Merge(f, x, y), Members(r, nHeap - 2);
            Sizes(h) && (forall z :: z in m ==> 1 <= z <= f.n && IsRoot(h, z))
            && (forall i :: 1 <= i <= h.n && IsRoot(h, i) ==> i == h.n || i in m)
    ensures f.n + 1 !in Members(r, nHeap - 2)
  {
    hide Members, ForestOk, RootSum;
  }

  lemma HeapReweighted(w: seq<nat>, v: seq<nat>, g: seq<nat>, n: nat, k: nat)
    requires IsHeap(w, g, n) && k < |w| && k >= 1 && |v| == |w| && v == w[k := v[k]] && k !in Members(g, n)
    ensures IsHeap(v, g, n)
  {
    hide Members;
    assert forall i :: 1 <= i <= n ==> g[i] in Members(g, n);
    forall i | 1 <= i <= n ensures Ordered(v, g, n, i) {
      assert Ordered(w, g, n, i);
      assert g[i] != k && g[i / 2] != k by {
        if i / 2 >= 1 { assert g[i / 2] in Members(g, n); }
      }
    }
  }

  lemma RootsPlaced(f: Forest, g: seq<nat>, nHeap: nat, m: set<nat>, k: nat)
    requires Sizes(f) && nHeap < |g| && k == f.n && IsRoot(f, k)
    requires Members(g, nHeap) == m + {k}
    requires forall z :: z in m ==> 1 <= z <= f.n && IsRoot(f, z)
    requires forall i :: 1 <= i <= f.n && IsRoot(f, i) ==> i == f.n || i in m
    ensures HeapOfRoots(f, g, nHeap)
  {
    hide Members;
  }

  /** Builds the whole tree. */
  method GrowTree(heap: array<nat>, weight: array<nat>, parent: array<int>, a: nat) returns (ghost f: Forest)
    requires heap != weight && heap.Length == HEAP_SIZE && weight.Length == NODES_SIZE && parent.Length == NODES_SIZE
    requires 1 <= a <= MAX_ALPHA_SIZE && LeavesOk(weight[..], a)
    modifies heap, weight, parent
    ensures IsTree(f) && f.a == a && f.n == 2 * a - 1 && f.w == weight[..] && f.p == parent[..]
    ensures RootSum(f, f.n) == old(LeafSum(weight[..], a))
    ensures forall i :: 1 <= i <= a ==> weight[i] == old(weight[i])
  {
    hide IsHeap, Members, DistinctEntries, ForestOk, RootSum, LeafSum;
    ghost var total := LeafSum(weight[..], a);
    var nHeap := PlantLeaves(heap, weight, parent, a);
    f := Seedlings(weight[..], parent[..], a);
    var nNodes := a;
    assert forall i :: 1 <= i <= a ==> weight[i] == weight[1..][i - 1] == old(weight[1..])[i - 1] == old(weight[i]);
    while nHeap > 1
      invariant 1 <= nHeap <= a && nNodes == f.n == 2 * a - nHeap && f.a == a
      invariant Building(f, heap[..], weight[..], parent[..], nHeap, total)
      invariant forall i :: 1 <= i <= a ==> weight[i] == old(weight[i])
    {
      f := MergeLightest(heap, weight, parent, nHeap, nNodes, f, total);
      nHeap := nHeap - 1;
      nNodes := nNodes + 1;
    }
    LastRoot(f, heap[..]);
  }

  /** One entry left on the heap: it is the last node, and everything hangs from it. */
  lemma LastRoot(f: Forest, g: seq<nat>)
    requires ForestOk(f) && |g| > 1 && HeapOfRoots(f, g, 1)
    ensures IsTree(f)
  {
    assert Linked(f, f.n);
    assert IsRoot(f, f.n);
    assert f.n in Members(g, 1);
    assert Members(g, 1) == {g[1]};
  }

  // ---- reading the lengths ----

  /** The length of a leaf is the number of steps to the root. */
  method WalkUp(parent: array<int>, i: nat, n: nat) returns (j: nat)
    requires 1 <= i <= n < parent.Length && forall k :: 1 <= k <= n ==> parent[k] < 0 || k < parent[k] <= n
    ensures j == Depth(parent[..], i)
  {
    j := 0;
    var k := i;
    while parent[k] >= 0
      invariant 1 <= k <= n && j + Depth(parent[..], k) == Depth(parent[..], i)
      decreases n - k
    {
      k := parent[k];
      j := j + 1;
    }
  }

  ghost function TooLongAt(len: seq<nat>, n: nat, maxLen: nat): (t: nat)
    requires n <= |len| && exists t :: 0 <= t < n && len[t] > maxLen
    ensures t < n && len[t] > maxLen
  {
    var t :| 0 <= t < n && len[t] > maxLen; t
  }

  /** Reads all lengths, and tells whether one is above maxLen. */
  method ReadLengths(len: array<nat>, parent: array<int>, a: nat, n: nat, maxLen: nat, ghost f: Forest)
    returns (tooLong: bool)
    requires IsTree(f) && f.p == parent[..] && a == f.a && n == f.n && len.Length >= a
    modifies len
    ensures LengthsOf(f, len[..a])
    ensures tooLong <==> exists i :: 0 <= i < a && len[i] > maxLen
    ensures parent[..] == old(parent[..])
  {
    hide Depth, Heavy, HasKids;
    tooLong := false;
    ghost var p := parent[..];
    forall k | 1 <= k <= n ensures p[k] < 0 || k < p[k] <= n { assert Linked(f, k); }
    for i := 1 to a + 1
      invariant parent[..] == p
      invariant forall t :: 0 <= t < i - 1 ==> len[t] == Depth(p, t + 1)
      invariant tooLong ==> exists t :: 0 <= t < i - 1 && len[t] > maxLen
      invariant !tooLong ==> forall t :: 0 <= t < i - 1 ==> len[t] <= maxLen
    {
      var j := WalkUp(parent, i, n);
      ghost var before := tooLong;
      ghost var t := if tooLong then TooLongAt(len[..], i - 1, maxLen) else i - 1;
      len[i - 1] := j;
      if j > maxLen {
        tooLong := true;
      }
      assert tooLong ==> len[if before then t else i - 1] > maxLen;
    }
  }

  // ---- flattening the weights ----

  /** The weight of leaf i halved, and one added. */
  function Flattened(z: nat): nat {
    256 * (1 + WeightOf(z) / 2)
  }

  lemma FlattenedParts(z: nat)
    requires WeightOf(z) >= 1
    ensures DepthOf(Flattened(z)) == 0 && WeightOf(Flattened(z)) == 1 + WeightOf(z) / 2 <= WeightOf(z)
    ensures WeightOf(z) >= 3 ==> WeightOf(Flattened(z)) < WeightOf(z)
  {
  }

  method Flatten(weight: array<nat>, a: nat)
    requires LeavesOk(weight[..], a)
    modifies weight
    ensures LeavesOk(weight[..], a) && LeafSum(weight[..], a) <= old(LeafSum(weight[..], a))
    ensures forall j :: 1 <= j <= a ==> WeightOf(weight[j]) == 1 + WeightOf(old(weight[..])[j]) / 2
    ensures (exists j :: 1 <= j <= a && WeightOf(old(weight[..])[j]) >= 3) ==>
            LeafSum(weight[..], a) < old(LeafSum(weight[..], a))
  {
    hide Flattened, WeightOf, DepthOf, LeafSum;
    ghost var w := weight[..];
    for i := 1 to a + 1
      invariant forall j :: 1 <= j < i ==> weight[j] == Flattened(w[j])
      invariant forall j :: i <= j <= a ==> weight[j] == w[j]
    {
      var j := weight[i] / 256;
      j := 1 + j / 2;
      assert 256 * j == Flattened(weight[i]) by { FlattenedIs(weight[i]); }
      weight[i] := 256 * j;
    }
    FlattenedSum(w, weight[..], a);
    forall j | 1 <= j <= a
      ensures DepthOf(weight[j]) == 0 && WeightOf(weight[j]) == 1 + WeightOf(w[j]) / 2
    {
      FlattenedParts(w[j]);
    }
  }

  lemma FlattenedIs(z: nat)
    ensures 256 * (1 + z / 256 / 2) == Flattened(z)
  {
  }

  lemma {:induction false} FlattenedSum(w: seq<nat>, v: seq<nat>, a: nat)
    requires a < |w| == |v| && forall i :: 1 <= i <= a ==> WeightOf(w[i]) >= 1 && v[i] == Flattened(w[i])
    ensures LeafSum(v, a) <= LeafSum(w, a)
    ensures (exists j :: 1 <= j <= a && WeightOf(w[j]) >= 3) ==> LeafSum(v, a) < LeafSum(w, a)
    decreases a
  {
    hide Flattened, WeightOf;
    if a > 0 {
      FlattenedParts(w[a]);
      FlattenedSum(w, v, a - 1);
    }
  }

  // ---- the whole ----

  method StartWeights(weight: array<nat>, freq: seq<nat>)
    requires weight.Length == NODES_SIZE && |freq| <= MAX_ALPHA_SIZE && FreqSum(freq) < WEIGHT_LIMIT
    modifies weight
    ensures LeavesOk(weight[..], |freq|)
    ensures forall i :: 0 <= i < |freq| ==> WeightOf(weight[i + 1]) == if freq[i] == 0 then 1 else freq[i]
  {
    hide LeafSum, FreqSum, WeightOf, DepthOf;
    for i := 0 to |freq|
      invariant forall j :: 1 <= j <= i ==> weight[j] == 256 * StartWeight(freq[j - 1])
    {
      weight[i + 1] := 256 * StartWeight(freq[i]);
    }
    StartSum(weight[..], freq, |freq|);
    assert freq[..|freq|] == freq;
    forall j | 1 <= j <= |freq| ensures DepthOf(weight[j]) == 0 && WeightOf(weight[j]) == StartWeight(freq[j - 1]) >= 1 {
      Packed(StartWeight(freq[j - 1]));
    }
  }

  lemma Packed(x: nat)
    ensures DepthOf(256 * x) == 0 && WeightOf(256 * x) == x
  {
  }

  lemma {:induction false} StartSum(w: seq<nat>, freq: seq<nat>, k: nat)
    requires k <= |freq| && k < |w| && forall j :: 1 <= j <= k ==> w[j] == 256 * StartWeight(freq[j - 1])
    ensures LeafSum(w, k) == FreqSum(freq[..k])
    decreases k
  {
    hide WeightOf;
    if k > 0 {
      StartSum(w, freq, k - 1);
      Packed(StartWeight(freq[k - 1]));
      assert freq[..k][..k - 1] == freq[..k - 1];
    }
  }

  /** One turn of the outer loop: the weights of the leaves, and the lengths read off their tree */
  datatype Round = Round(weights: seq<nat>, lens: seq<nat>)

  ghost predicate TooLong(len: seq<nat>, maxLen: nat) {
    exists i :: 0 <= i < |len| && len[i] > maxLen
  }

  /** The weights that follow the rounds: the frequencies, none below 1, or else half those of the last round and one,
      because a length of that round was too long. */
  ghost predicate Follows(h: seq<Round>, freq: seq<nat>, maxLen: nat, u: seq<nat>) {
    && |u| == |freq|
    && if h == [] then forall i :: 0 <= i < |u| ==> u[i] == if freq[i] == 0 then 1 else freq[i]
       else
         var last := h[|h| - 1];
         TooLong(last.lens, maxLen) && |last.weights| == |u| && forall i :: 0 <= i < |u| ==> u[i] == 1 + last.weights[i] / 2
  }

  /** The lengths of each round are the best there are for its weights. */
  ghost predicate Rounds(h: seq<Round>, freq: seq<nat>, maxLen: nat) {
    forall r :: 0 <= r < |h| ==> Follows(h[..r], freq, maxLen, h[r].weights) && LeastCost(h[r].weights, h[r].lens)
  }

  /** len comes of such rounds. */
  ghost predicate MadeFrom(len: seq<nat>, freq: seq<nat>, maxLen: nat) {
    exists h: seq<Round> :: h != [] && Rounds(h, freq, maxLen) && h[|h| - 1].lens == len
  }

  lemma OneMoreRound(h: seq<Round>, freq: seq<nat>, maxLen: nat, u: seq<nat>, len: seq<nat>)
    requires Rounds(h, freq, maxLen) && Follows(h, freq, maxLen, u) && LeastCost(u, len)
    ensures Rounds(h + [Round(u, len)], freq, maxLen)
  {
    hide Follows, LeastCost;
    var more := h + [Round(u, len)];
    forall r | 0 <= r < |more|
      ensures Follows(more[..r], freq, maxLen, more[r].weights) && LeastCost(more[r].weights, more[r].lens)
    {
      assert more[..r] == h[..r];
      if r == |h| { assert h[..r] == h; }
    }
  }

  /** What the tree gives, too long or not, is best for the weights of its leaves. */
  lemma RoundCheapest(f: Forest, len: seq<nat>, u: seq<nat>)
    requires IsTree(f) && LengthsOf(f, len) && f.a >= 2 && u == LeafWeights(f.w, f.a)
    ensures LeastCost(u, len)
  {
    hide ForestOk, KraftSum, Pow2, MaxLen, LeastCost;
    TreeIsComplete(f, MaxLen(len), len);
    TreeCheapest(f, len, MaxLen(len));
  }

  /** If no length was too long at the first attempt, none costs less for the frequencies, a frequency of 0 counting as
      1; and then an oftener symbol never has the longer code. */
  lemma FirstTry(h: seq<Round>, freq: seq<nat>, maxLen: nat)
    requires |h| == 1 && Rounds(h, freq, maxLen)
    ensures var u, len := seq(|freq|, i requires 0 <= i < |freq| => if freq[i] == 0 then 1 else freq[i]), h[0].lens;
            LeastCost(u, len) && forall i, j :: 0 <= i < |freq| && 0 <= j < |freq| && freq[i] > freq[j] > 0 ==> len[i] <= len[j]
  {
    hide LeastCost;
    assert h[..0] == [];
    var u, len := seq(|freq|, i requires 0 <= i < |freq| => if freq[i] == 0 then 1 else freq[i]), h[0].lens;
    assert u == h[0].weights;
    assert |len| == |u| by { SameSizes(u, len); }
    forall i, j | 0 <= i < |freq| && 0 <= j < |freq| && freq[i] > freq[j] > 0 ensures len[i] <= len[j] {
      OftenerNotLonger(u, len, i, j);
    }
  }

  lemma SameSizes(u: seq<nat>, len: seq<nat>)
    requires LeastCost(u, len)
    ensures |len| == |u|
  {
  }

  /** BZ2_hbMakeCodeLengths. For every table of frequencies whose sum fits the packed weights, the loop
      ends, and the lengths are between 1 and maxLen and meet the Kraft inequality with equality. They are the best there
      are for the frequencies, or for the halved weights of the round that first kept to maxLen.
      The compressor asks for at most 17 bits; 12 would do. */
  method MakeCodeLengths(len: array<nat>, freq: seq<nat>, maxLen: nat)
    requires 2 <= |freq| <= MAX_ALPHA_SIZE && len.Length >= |freq| && maxLen >= 12
    requires FreqSum(freq) < WEIGHT_LIMIT
    modifies len
    ensures forall i :: 0 <= i < |freq| ==> 1 <= len[i] <= maxLen
    ensures KraftSum(len[..|freq|], maxLen) == Pow2(maxLen)
    ensures MadeFrom(len[..|freq|], freq, maxLen)
  {
    hide LeafSum, WeightOf, DepthOf, Depth, RootSum, ForestOk, KraftSum, Pow2, Rounds, LeastCost, Follows, LeafWeights,
         LeavesOk, IsTree, LengthsOf;
    var a := |freq|;
    var heap := new nat[HEAP_SIZE];
    var weight := new nat[NODES_SIZE];
    var parent := new int[NODES_SIZE];
    StartWeights(weight, freq);
    ghost var h: seq<Round> := [];
    NoRounds(freq, maxLen, LeafWeights(weight[..], a));
    while true
      invariant LeavesOk(weight[..], a) && Rounds(h, freq, maxLen)
      invariant Follows(h, freq, maxLen, LeafWeights(weight[..], a))
      decreases LeafSum(weight[..], a)
    {
      ghost var total := LeafSum(weight[..], a);
      ghost var w := weight[..];
      ghost var u := LeafWeights(w, a);
      ghost var f := GrowTree(heap, weight, parent, a);
      LeavesKept(w, weight[..], a);
      var tooLong := ReadLengths(len, parent, a, 2 * a - 1, maxLen, f);
      RoundCheapest(f, len[..a], u);
      OneMoreRound(h, freq, maxLen, u, len[..a]);
      h := h + [Round(u, len[..a])];
      if !tooLong {
        TreeIsComplete(f, maxLen, len[..a]);
        return;
      }
      ghost var i :| 0 <= i < a && len[i] > maxLen;
      DeepLeaf(f, len[..a], i);
      Flatten(weight, a);
      HalvedFollows(h, freq, maxLen, i, LeafWeights(weight[..], a));
    }
  }

  lemma NoRounds(freq: seq<nat>, maxLen: nat, u: seq<nat>)
    requires |u| == |freq| && forall i :: 0 <= i < |u| ==> u[i] == if freq[i] == 0 then 1 else freq[i]
    ensures Rounds([], freq, maxLen) && Follows([], freq, maxLen, u)
  {
  }

  lemma HalvedFollows(h: seq<Round>, freq: seq<nat>, maxLen: nat, i: nat, u: seq<nat>)
    requires h != [] && i < |h[|h| - 1].lens| && h[|h| - 1].lens[i] > maxLen && |u| == |freq| == |h[|h| - 1].weights|
    requires forall j :: 0 <= j < |u| ==> u[j] == 1 + h[|h| - 1].weights[j] / 2
    ensures Follows(h, freq, maxLen, u)
  {
  }

  lemma LeavesKept(w: seq<nat>, v: seq<nat>, a: nat)
    requires LeavesOk(w, a) && |v| == |w| && forall i :: 1 <= i <= a ==> v[i] == w[i]
    ensures LeavesOk(v, a) && LeafSum(v, a) == LeafSum(w, a) && LeafWeights(v, a) == LeafWeights(w, a)
  {
    hide WeightOf, DepthOf, LeafSum;
    LeafSumKept(w, v, a);
  }

  /** A leaf that is too deep means that some leaf is heavy enough to become lighter. */
  lemma DeepLeaf(f: Forest, len: seq<nat>, i: nat)
    requires IsTree(f) && LengthsOf(f, len) && i < |len| && len[i] > 12 && f.a <= MAX_ALPHA_SIZE
    requires RootSum(f, f.n) == LeafSum(f.w, f.a)
    ensures exists j :: 1 <= j <= f.a && WeightOf(f.w[j]) >= 3
  {
    hide ForestOk, RootSum, LeafSum, WeightOf, Depth;
    var j := TooDeepHasHeavyLeaf(f, i + 1);
  }
}
