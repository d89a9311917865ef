/** The binary heap of tree roots inside BZ2_hbMakeCodeLengths, ordered by packed weight.
    Entry 0 of the heap and of the weights is a sentinel. */
module HuffmanHeap {
  import opened Arrays

  /** Entries 1..n name nodes; entry 0 and weight 0 are sentinels. */
  predicate Slots(w: seq<nat>, g: seq<nat>, n: nat) {
    && n < |g| && |w| > 0 && g[0] == 0 && w[0] == 0
    && forall i :: 0 <= i <= n ==> g[i] < |w|
  }

  /** Entry i is no lighter than its parent. */
  predicate Ordered(w: seq<nat>, g: seq<nat>, n: nat, i: nat)
    requires Slots(w, g, n) && 1 <= i <= n
  {
    w[g[i / 2]] <= w[g[i]]
  }

  /** Entry i is no lighter than its parent's parent. */
  predicate OrderedTwice(w: seq<nat>, g: seq<nat>, n: nat, i: nat)
    requires Slots(w, g, n) && 1 <= i <= n
  {
    w[g[i / 2 / 2]] <= w[g[i]]
  }

  ghost predicate IsHeap(w: seq<nat>, g: seq<nat>, n: nat) {
    Slots(w, g, n) && forall i :: 1 <= i <= n ==> Ordered(w, g, n, i)
  }

  /** Only entry z may be lighter than its parent. */
  ghost predicate IsHeapButUp(w: seq<nat>, g: seq<nat>, n: nat, z: nat) {
    && Slots(w, g, n) && 1 <= z <= n
    && (forall i :: 1 <= i <= n && i != z ==> Ordered(w, g, n, i))
    && (forall i :: 1 <= i <= n && i / 2 == z ==> OrderedTwice(w, g, n, i))
  }

  /** Only the children of z may be lighter than it. */
  ghost predicate IsHeapButDown(w: seq<nat>, g: seq<nat>, n: nat, z: nat) {
    && Slots(w, g, n) && 1 <= z <= n
    && (forall i :: 1 <= i <= n && i / 2 != z ==> Ordered(w, g, n, i))
    && (forall i :: 1 <= i <= n && i / 2 == z ==> OrderedTwice(w, g, n, i))
  }

  ghost function Members(g: seq<nat>, n: nat): (s: set<nat>)
    requires n < |g|
    ensures forall i :: 1 <= i <= n ==> g[i] in s
    ensures forall x :: x in s ==> exists i :: 1 <= i <= n && g[i] == x
  {
    if n == 0 then {} else Members(g, n - 1) + {g[n]}
  }

  ghost predicate DistinctEntries(g: seq<nat>, n: nat)
    requires n < |g|
  {
    forall i, j :: 1 <= i < j <= n ==> g[i] != g[j]
  }

  lemma SwapMembers(g: seq<nat>, n: nat, i: nat, j: nat)
    requires n < |g| && 1 <= i <= n && 1 <= j <= n && DistinctEntries(g, n)
    ensures Members(Swap(g, i, j), n) == Members(g, n) && DistinctEntries(Swap(g, i, j), n)
  {
    hide Members;
    var r := Swap(g, i, j);
    assert r[i] == g[j] && r[j] == g[i];
    forall x ensures x in Members(r, n) <==> x in Members(g, n) {
      if x in Members(g, n) {
        var k :| 1 <= k <= n && g[k] == x;
        assert r[if k == i then j else if k == j then i else k] == x;
      }
      if x in Members(r, n) {
        var k :| 1 <= k <= n && r[k] == x;
        assert g[if k == i then j else if k == j then i else k] == x;
      }
    }
  }

  /** Moving a light entry up past its parent. */
  lemma SwapUp(w: seq<nat>, g: seq<nat>, n: nat, z: nat)
    requires IsHeapButUp(w, g, n, z) && w[g[z]] < w[g[z / 2]]
    ensures z / 2 >= 1 && IsHeapButUp(w, Swap(g, z, z / 2), n, z / 2)
  {
    var p := z / 2;
    var r := Swap(g, z, p);
    forall i | 1 <= i <= n && i != p ensures Ordered(w, r, n, i) {
      if i == z {
      } else if i / 2 == z {
        assert OrderedTwice(w, g, n, i);
      } else {
        assert Ordered(w, g, n, i);
      }
    }
    forall i | 1 <= i <= n && i / 2 == p ensures OrderedTwice(w, r, n, i) {
      if p == 1 {
      } else {
        assert Ordered(w, g, n, p);
        if i != z { assert Ordered(w, g, n, i); }
      }
    }
  }

  /** Moving a heavy entry down past the lighter of its children. */
  lemma SwapDown(w: seq<nat>, g: seq<nat>, n: nat, z: nat, y: nat)
    requires IsHeapButDown(w, g, n, z) && 1 <= y <= n && y / 2 == z && w[g[y]] <= w[g[z]]
    requires forall i :: 1 <= i <= n && i / 2 == z ==> w[g[y]] <= w[g[i]]
    ensures IsHeapButDown(w, Swap(g, z, y), n, y)
  {
    var r := Swap(g, z, y);
    forall i | 1 <= i <= n && i / 2 != y ensures Ordered(w, r, n, i) {
      if i == z {
        if z > 1 { assert OrderedTwice(w, g, n, y); }
      } else if i / 2 == z {
        assert w[g[y]] <= w[g[i]];
      } else {
        assert Ordered(w, g, n, i);
      }
    }
    forall i | 1 <= i <= n && i / 2 == y ensures OrderedTwice(w, r, n, i) {
      assert Ordered(w, g, n, i);
    }
  }

  /** The root of a heap is a lightest entry. */
  lemma {:induction false} RootLightest(w: seq<nat>, g: seq<nat>, n: nat, i: nat)
    requires IsHeap(w, g, n) && 1 <= i <= n
    ensures w[g[1]] <= w[g[i]]
    decreases i
  {
    if i > 1 {
      assert Ordered(w, g, n, i);
      RootLightest(w, g, n, i / 2);
    }
  }

  /** UPHEAP(n): the last entry rises to its place. */
  method UpHeap(heap: array<nat>, weight: array<nat>, n: nat)
    requires heap != weight && 1 <= n < heap.Length
    requires Slots(weight[..], heap[..], n) && IsHeap(weight[..], heap[..], n - 1) && DistinctEntries(heap[..], n)
    modifies heap
    ensures IsHeap(weight[..], heap[..], n) && DistinctEntries(heap[..], n)
    ensures Members(heap[..], n) == old(Members(heap[..], n))
  {
    hide Members, Ordered, OrderedTwice, DistinctEntries;
    ghost var w := weight[..];
    ghost var g := heap[..];
    LastMayBeLight(w, g, n);
    var zz := n;
    var tmp := heap[zz];
    while weight[tmp] < weight[heap[zz / 2]]
      invariant 1 <= zz <= n && g == heap[..][zz := tmp]
      invariant IsHeapButUp(w, g, n, zz) && DistinctEntries(g, n) && Members(g, n) == old(Members(heap[..], n))
      invariant weight[..] == w
      decreases zz
    {
      assert heap[zz / 2] == g[zz / 2] by { Halving(zz); }
      SwapUp(w, g, n, zz);
      SwapMembers(g, n, zz, zz / 2);
      g := Swap(g, zz, zz / 2);
      heap[zz] := heap[zz / 2];
      zz := zz / 2;
    }
    assert heap[zz / 2] == g[zz / 2] by { Halving(zz); }
    heap[zz] := tmp;
    Settled(w, g, n, zz);
  }

  lemma Halving(z: nat)
    requires z >= 1
    ensures z / 2 < z
  {
  }

  lemma LastMayBeLight(w: seq<nat>, g: seq<nat>, n: nat)
    requires n >= 1 && Slots(w, g, n) && IsHeap(w, g, n - 1)
    ensures IsHeapButUp(w, g, n, n)
  {
    forall i | 1 <= i <= n && i != n ensures Ordered(w, g, n, i) {
      assert Ordered(w, g, n - 1, i);
    }
  }

  lemma Settled(w: seq<nat>, g: seq<nat>, n: nat, z: nat)
    requires IsHeapButUp(w, g, n, z) && w[g[z / 2]] <= w[g[z]]
    ensures IsHeap(w, g, n)
  {
  }

  /** DOWNHEAP(1): the first entry sinks to its place. */
  method DownHeap(heap: array<nat>, weight: array<nat>, n: nat)
    requires heap != weight && 1 <= n < heap.Length
    requires IsHeapButDown(weight[..], heap[..], n, 1) && DistinctEntries(heap[..], n)
    modifies heap
    ensures IsHeap(weight[..], heap[..], n) && DistinctEntries(heap[..], n)
    ensures Members(heap[..], n) == old(Members(heap[..], n))
  {
    hide Members, Ordered, OrderedTwice, DistinctEntries;
    ghost var w := weight[..];
    ghost var g := heap[..];
    var zz := 1;
    var tmp := heap[zz];
    while true
      invariant 1 <= zz <= n && g == heap[..][zz := tmp]
      invariant IsHeapButDown(w, g, n, zz) && DistinctEntries(g, n) && Members(g, n) == old(Members(heap[..], n))
      invariant weight[..] == w
      decreases n - zz
    {
      var yy := 2 * zz;
      if yy > n { break; }
      assert heap[yy] == g[yy] && (yy < n ==> heap[yy + 1] == g[yy + 1]);
      if yy < n && weight[heap[yy + 1]] < weight[heap[yy]] {
        yy := yy + 1;
      }
      assert heap[yy] == g[yy];
      LighterChild(w, g, n, zz, yy);
      if weight[tmp] < weight[heap[yy]] { break; }
      SwapDown(w, g, n, zz, yy);
      SwapMembers(g, n, zz, yy);
      g := Swap(g, zz, yy);
      heap[zz] := heap[yy];
      zz := yy;
    }
    heap[zz] := tmp;
    Sunk(w, g, n, zz);
  }

  lemma LighterChild(w: seq<nat>, g: seq<nat>, n: nat, z: nat, y: nat)
    requires Slots(w, g, n) && 1 <= z && (y == 2 * z || y == 2 * z + 1) && y <= n
    requires y == 2 * z && y < n ==> w[g[y]] <= w[g[y + 1]]
    requires y == 2 * z + 1 ==> w[g[y]] <= w[g[y - 1]]
    ensures forall i :: 1 <= i <= n && i / 2 == z ==> w[g[y]] <= w[g[i]]
  {
  }

  lemma Sunk(w: seq<nat>, g: seq<nat>, n: nat, z: nat)
    requires IsHeapButDown(w, g, n, z) && forall i :: 1 <= i <= n && i / 2 == z ==> w[g[z]] <= w[g[i]]
    ensures IsHeap(w, g, n)
  {
  }

  /** Takes a lightest entry off the heap. */
  method RemoveLightest(heap: array<nat>, weight: array<nat>, n: nat) returns (x: nat)
    requires heap != weight && 1 <= n < heap.Length
    requires IsHeap(weight[..], heap[..], n) && DistinctEntries(heap[..], n)
    modifies heap
    ensures IsHeap(weight[..], heap[..], n - 1) && DistinctEntries(heap[..], n - 1)
    ensures x in old(Members(heap[..], n)) && x < weight.Length
    ensures Members(heap[..], n - 1) == old(Members(heap[..], n)) - {x}
    ensures forall y :: y in old(Members(heap[..], n)) ==> y < weight.Length && weight[x] <= weight[y]
  {
    hide Members, Ordered, OrderedTwice, DistinctEntries;
    ghost var w, g := weight[..], heap[..];
    x := heap[1];
    heap[1] := heap[n];
    FirstReplaced(w, g, n);
    if n > 1 {
      DownHeap(heap, weight, n - 1);
    }
  }

  lemma FirstReplaced(w: seq<nat>, g: seq<nat>, n: nat)
    requires n >= 1 && IsHeap(w, g, n) && DistinctEntries(g, n)
    ensures var r := g[1 := g[n]];
            Slots(w, r, n - 1) && DistinctEntries(r, n - 1) && Members(r, n - 1) == Members(g, n) - {g[1]}
            && (if n == 1 then IsHeap(w, r, n - 1) else IsHeapButDown(w, r, n - 1, 1))
    ensures g[1] in Members(g, n) && forall y :: y in Members(g, n) ==> y < |w| && w[g[1]] <= w[y]
  {
    hide Members, DistinctEntries, Ordered, OrderedTwice;
    var r := g[1 := g[n]];
    forall y | y in Members(g, n) ensures y < |w| && w[g[1]] <= w[y] {
      var i :| 1 <= i <= n && g[i] == y;
      RootLightest(w, g, n, i);
    }
    FirstReplacedMembers(g, n);
    forall i | 1 <= i <= n - 1 && i / 2 != 1 ensures Ordered(w, r, n - 1, i) {
      assert Ordered(w, g, n, i);
      OrderedKept(w, g, n, i);
    }
    forall i | 1 <= i <= n - 1 && i / 2 == 1 ensures OrderedTwice(w, r, n - 1, i) {
      OrderedTwiceKept(w, g, n, i);
    }
  }

  lemma OrderedKept(w: seq<nat>, g: seq<nat>, n: nat, i: nat)
    requires Slots(w, g, n) && 1 <= i <= n - 1 && i / 2 != 1 && Ordered(w, g, n, i)
    ensures Slots(w, g[1 := g[n]], n - 1) && Ordered(w, g[1 := g[n]], n - 1, i)
  {
  }

  lemma OrderedTwiceKept(w: seq<nat>, g: seq<nat>, n: nat, i: nat)
    requires Slots(w, g, n) && 1 <= i <= n - 1 && i / 2 == 1
    ensures Slots(w, g[1 := g[n]], n - 1) && OrderedTwice(w, g[1 := g[n]], n - 1, i)
  {
  }

  lemma FirstReplacedMembers(g: seq<nat>, n: nat)
    requires 1 <= n < |g| && DistinctEntries(g, n)
    ensures DistinctEntries(g[1 := g[n]], n - 1) && Members(g[1 := g[n]], n - 1) == Members(g, n) - {g[1]}
  {
    hide Members;
    var r := g[1 := g[n]];
    forall x ensures x in Members(r, n - 1) <==> x in Members(g, n) - {g[1]} {
      if x in Members(r, n - 1) {
        var k :| 1 <= k <= n - 1 && r[k] == x;
        assert g[if k == 1 then n else k] == x;
      }
      if x in Members(g, n) && x != g[1] {
        var k :| 1 <= k <= n && g[k] == x;
        assert r[if k == n then 1 else k] == x;
      }
    }
  }
}
