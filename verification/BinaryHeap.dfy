/**
 * The binary heap that both transaction heaps of the pool rely on: the nonce heap of a
 * sorted transaction map and the price heap of the priced list. Go keeps a heap as a
 * slice and repairs it with sift-up and sift-down; here the slice is a sequence that the
 * methods hand back, ordered by an integer rank.
 */
module BinaryHeap {

  function Parent(k: nat): nat
    requires 0 < k
  {
    (k - 1) / 2
  }

  ghost predicate Ordered<T>(h: seq<T>, rank: T -> int, k: nat)
    requires 0 < k < |h|
  {
    rank(h[Parent(k)]) <= rank(h[k])
  }

  /** Every node whose parent is at `lo` or later is no smaller than its parent. */
  ghost predicate HeapFrom<T>(h: seq<T>, rank: T -> int, lo: nat) {
    forall k :: 0 < k < |h| && lo <= Parent(k) ==> Ordered(h, rank, k)
  }

  ghost predicate IsHeap<T>(h: seq<T>, rank: T -> int) {
    HeapFrom(h, rank, 0)
  }

  /** A heap whose node `i` may be out of place with respect to its parent and children. */
  ghost predicate NearHeap<T>(h: seq<T>, rank: T -> int, lo: nat, i: nat) {
    && (forall k :: 0 < k < |h| && lo <= Parent(k) && k != i && Parent(k) != i ==> Ordered(h, rank, k))
    && (0 < i < |h| && lo <= Parent(i) ==>
          forall k :: 0 < k < |h| && Parent(k) == i ==> rank(h[Parent(i)]) <= rank(h[k]))
  }

  lemma {:induction false} RootIsLeast<T>(h: seq<T>, rank: T -> int, i: nat)
    requires IsHeap(h, rank) && i < |h|
    ensures rank(h[0]) <= rank(h[i])
    decreases i
  {
    if 0 < i {
      assert Ordered(h, rank, i);
      RootIsLeast(h, rank, Parent(i));
    }
  }

  lemma SwapKeepsContents<T>(h: seq<T>, i: nat, j: nat)
    requires i < |h| && j < |h|
    ensures multiset(h[i := h[j]][j := h[i]]) == multiset(h)
  {
  }

  /** Swapping an undersized node with its parent moves the misplaced node one level up. */
  lemma RiseStep<T>(h: seq<T>, rank: T -> int, j: nat)
    requires 0 < j < |h| && rank(h[j]) < rank(h[Parent(j)])
    requires forall k :: 0 < k < |h| && k != j ==> Ordered(h, rank, k)
    requires forall k :: 0 < k < |h| && Parent(k) == j ==> rank(h[Parent(j)]) <= rank(h[k])
    ensures var i, r := Parent(j), h[Parent(j) := h[j]][j := h[Parent(j)]];
            && (forall k :: 0 < k < |r| && k != i ==> Ordered(r, rank, k))
            && (forall k :: 0 < k < |r| && Parent(k) == i && 0 < i ==> rank(r[Parent(i)]) <= rank(r[k]))
  {
    var i, r := Parent(j), h[Parent(j) := h[j]][j := h[Parent(j)]];
    forall k | 0 < k < |r| && k != i ensures Ordered(r, rank, k) {
      if k != j { assert Ordered(h, rank, k); }
    }
    if 0 < i {
      assert Ordered(h, rank, i);
      forall k | 0 < k < |r| && Parent(k) == i ensures rank(r[Parent(i)]) <= rank(r[k]) {
        if k != j { assert Ordered(h, rank, k); }
      }
    }
  }

  method Up<T>(h: seq<T>, rank: T -> int, start: nat) returns (r: seq<T>)
    requires start < |h|
    requires NearHeap(h, rank, 0, start)
    requires forall k :: 0 < k < |h| && Parent(k) == start ==> Ordered(h, rank, k)
    ensures IsHeap(r, rank) && multiset(r) == multiset(h)
  {
    r := h;
    var j: nat := start;
    while 0 < j && rank(r[j]) < rank(r[Parent(j)])
      invariant j < |r| && multiset(r) == multiset(h)
      invariant forall k :: 0 < k < |r| && k != j ==> Ordered(r, rank, k)
      invariant 0 < j ==> forall k :: 0 < k < |r| && Parent(k) == j ==> rank(r[Parent(j)]) <= rank(r[k])
    {
      SwapKeepsContents(r, Parent(j), j);
      RiseStep(r, rank, j);
      r, j := r[Parent(j) := r[j]][j := r[Parent(j)]], Parent(j);
    }
  }

  /** Swapping an oversized node with its smallest child moves the misplaced node one level down. */
  lemma SinkStep<T>(h: seq<T>, rank: T -> int, lo: nat, start: nat, i: nat, j: nat)
    requires lo <= start <= i && i < j < |h| && Parent(j) == i
    requires NearHeap(h, rank, lo, i)
    requires i != start ==> 0 < i && Ordered(h, rank, i)
    requires forall k :: 0 < k < |h| && Parent(k) == i ==> rank(h[j]) <= rank(h[k])
    requires rank(h[j]) < rank(h[i])
    ensures var r := h[i := h[j]][j := h[i]]; NearHeap(r, rank, lo, j) && Ordered(r, rank, j)
  {
    var r := h[i := h[j]][j := h[i]];
    forall k | 0 < k < |r| && lo <= Parent(k) && k != j && Parent(k) != j ensures Ordered(r, rank, k) {
      if k != i && Parent(k) != i {
        assert Ordered(h, rank, k);
      }
    }
    forall k | 0 < k < |r| && Parent(k) == j ensures rank(r[Parent(j)]) <= rank(r[k]) {
      assert Ordered(h, rank, k);
    }
  }

  function SmallestChild<T>(h: seq<T>, rank: T -> int, i: nat): (j: nat)
    requires 2 * i + 1 < |h|
    ensures 0 < j < |h| && Parent(j) == i
    ensures forall k :: 0 < k < |h| && Parent(k) == i ==> rank(h[j]) <= rank(h[k])
  {
    if 2 * i + 2 < |h| && rank(h[2 * i + 2]) < rank(h[2 * i + 1]) then 2 * i + 2 else 2 * i + 1
  }

  method Down<T>(h: seq<T>, rank: T -> int, ghost lo: nat, start: nat) returns (r: seq<T>, moved: bool)
    requires lo <= start < |h|
    requires NearHeap(h, rank, lo, start)
    ensures multiset(r) == multiset(h) && |r| == |h|
    ensures moved ==> HeapFrom(r, rank, lo)
    ensures !moved ==> r == h && forall k :: 0 < k < |h| && Parent(k) == start ==> Ordered(h, rank, k)
  {
    r := h;
    var i: nat := start;
    while 2 * i + 1 < |r| && rank(r[SmallestChild(r, rank, i)]) < rank(r[i])
      invariant start <= i < |r| == |h| && multiset(r) == multiset(h)
      invariant NearHeap(r, rank, lo, i)
      invariant i != start ==> 0 < i && Ordered(r, rank, i)
      invariant i == start ==> r == h
      decreases |r| - i
    {
      var j := SmallestChild(r, rank, i);
      SwapKeepsContents(r, i, j);
      SinkStep(r, rank, lo, start, i, j);
      r, i := r[i := r[j]][j := r[i]], j;
    }
    moved := i != start;
    SinkDone(r, rank, lo, i);
  }

  lemma SinkDone<T>(h: seq<T>, rank: T -> int, lo: nat, i: nat)
    requires i < |h| && NearHeap(h, rank, lo, i)
    requires 2 * i + 1 < |h| ==> rank(h[i]) <= rank(h[SmallestChild(h, rank, i)])
    ensures forall k :: 0 < k < |h| && Parent(k) == i ==> Ordered(h, rank, k)
    ensures 0 < i && Ordered(h, rank, i) ==> HeapFrom(h, rank, lo)
  {
  }

  method Init<T>(h: seq<T>, rank: T -> int) returns (r: seq<T>)
    ensures IsHeap(r, rank) && multiset(r) == multiset(h)
  {
    r := h;
    var i: nat := |h| / 2;
    while 0 < i
      invariant i <= |h| && |r| == |h| && multiset(r) == multiset(h)
      invariant HeapFrom(r, rank, i)
    {
      i := i - 1;
      var moved;
      assert NearHeap(r, rank, i, i);
      ghost var before := r;
      r, moved := Down(r, rank, i, i);
      assert |multiset(r)| == |multiset(h)|;
      if !moved {
        assert HeapFrom(r, rank, i);
      }
    }
  }

  method Push<T>(h: seq<T>, rank: T -> int, x: T) returns (r: seq<T>)
    requires IsHeap(h, rank)
    ensures IsHeap(r, rank) && multiset(r) == multiset(h) + multiset{x}
  {
    var grown := h + [x];
    assert forall k :: 0 < k < |h| ==> Ordered(h, rank, k) ==> Ordered(grown, rank, k);
    r := Up(grown, rank, |h|);
  }

  method Pop<T>(h: seq<T>, rank: T -> int) returns (x: T, r: seq<T>)
    requires IsHeap(h, rank) && 0 < |h|
    ensures x == h[0] && forall y :: y in h ==> rank(x) <= rank(y)
    ensures IsHeap(r, rank) && multiset(r) == multiset(h) - multiset{x}
  {
    forall i | 0 <= i < |h| ensures rank(h[0]) <= rank(h[i]) { RootIsLeast(h, rank, i); }
    x, r := RemoveAt(h, rank, 0);
  }

  /** The slice after swapping node `i` with the last one and dropping the last. */
  function SwapOut<T>(h: seq<T>, i: nat): (r: seq<T>)
    requires i < |h|
    ensures |r| == |h| - 1
    ensures forall k :: 0 <= k < |r| ==> r[k] == if k == i then h[|h| - 1] else h[k]
  {
    h[i := h[|h| - 1]][..|h| - 1]
  }

  lemma SwapOutContents<T>(h: seq<T>, i: nat)
    requires i < |h|
    ensures multiset(SwapOut(h, i)) == multiset(h) - multiset{h[i]}
  {
    var n := |h| - 1;
    var swapped := h[i := h[n]][n := h[i]];
    SwapKeepsContents(h, i, n);
    assert swapped == SwapOut(h, i) + [h[i]];
  }

  lemma SwapOutIsNear<T>(h: seq<T>, rank: T -> int, i: nat)
    requires IsHeap(h, rank) && i < |h|
    ensures NearHeap(SwapOut(h, i), rank, 0, i)
    ensures i == |h| - 1 ==> IsHeap(SwapOut(h, i), rank)
  {
    var r := SwapOut(h, i);
    forall k | 0 < k < |r| && k != i && Parent(k) != i ensures Ordered(r, rank, k) {
      assert Ordered(h, rank, k);
    }
    if 0 < i < |r| {
      assert Ordered(h, rank, i);
      forall k | 0 < k < |r| && Parent(k) == i ensures rank(r[Parent(i)]) <= rank(r[k]) {
        assert Ordered(h, rank, k);
      }
    }
  }

  method RemoveAt<T>(h: seq<T>, rank: T -> int, i: nat) returns (x: T, r: seq<T>)
    requires IsHeap(h, rank) && i < |h|
    ensures x == h[i]
    ensures IsHeap(r, rank) && multiset(r) == multiset(h) - multiset{x}
  {
    x, r := h[i], SwapOut(h, i);
    SwapOutContents(h, i);
    SwapOutIsNear(h, rank, i);
    if i < |h| - 1 {
      var moved;
      r, moved := Down(r, rank, 0, i);
      if !moved {
        r := Up(r, rank, i);
      }
    }
  }
}
