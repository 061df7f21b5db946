/**
 The binary heap of Go's container/heap over a slice, as used by the nonce
 index and the price index of the transaction pool. The order is a parameter.
 */
module BinaryHeap {

  /** `less` is irreflexive and "not less" is transitive. */
  ghost predicate IsOrder<T(!new)>(less: (T, T) -> bool) {
    && (forall x :: !less(x, x))
    && (forall x, y :: less(x, y) ==> !less(y, x))
    && (forall x, y, z {:trigger less(y, x), less(z, y)} :: !less(y, x) && !less(z, y) ==> !less(z, x))
  }

  function Parent(k: nat): (p: nat)
    requires k > 0
    ensures p < k
  {
    (k - 1) / 2
  }

  ghost predicate Above<T>(less: (T, T) -> bool, h: seq<T>, k: nat)
    requires 0 < k < |h|
  {
    !less(h[k], h[Parent(k)])
  }

  ghost predicate IsHeap<T>(less: (T, T) -> bool, h: seq<T>) {
    forall k: nat :: 0 < k < |h| ==> Above(less, h, k)
  }

  /** Heap order for parents from `lo` on, not looking at edges that touch `hole`. */
  ghost predicate HeapExcept<T>(less: (T, T) -> bool, h: seq<T>, lo: nat, hole: nat) {
    && (forall k: nat :: 0 < k < |h| && Parent(k) >= lo && k != hole && Parent(k) != hole ==> Above(less, h, k))
    && (forall k: nat :: 0 < k < |h| && Parent(k) == hole && hole > 0 && Parent(hole) >= lo ==> !less(h[k], h[Parent(hole)]))
  }

  /** The root of a heap is a minimum. */
  lemma {:induction false} RootIsLeast<T(!new)>(less: (T, T) -> bool, h: seq<T>, k: nat)
    requires IsOrder(less) && IsHeap(less, h) && k < |h|
    ensures !less(h[k], h[0])
    decreases k
  {
    if k > 0 {
      RootIsLeast(less, h, Parent(k));
      assert Above(less, h, k);
    }
  }

  function Swap<T>(h: seq<T>, i: nat, j: nat): (r: seq<T>)
    requires i < |h| && j < |h|
    ensures |r| == |h| && r[i] == h[j] && r[j] == h[i]
    ensures forall k :: 0 <= k < |h| && k != i && k != j ==> r[k] == h[k]
    ensures multiset(r) == multiset(h)
  {
    h[i := h[j]][j := h[i]]
  }

  method Up<T(!new)>(less: (T, T) -> bool, h0: seq<T>, j0: nat) returns (h: seq<T>)
    requires IsOrder(less) && j0 < |h0|
    requires HeapExcept(less, h0, 0, j0)
    requires forall k: nat :: 0 < k < |h0| && Parent(k) == j0 ==> Above(less, h0, k)
    ensures IsHeap(less, h) && multiset(h) == multiset(h0)
  {
    h := h0;
    var j: nat := j0;
    while j > 0 && less(h[j], h[Parent(j)])
      invariant j < |h| == |h0| && multiset(h) == multiset(h0)
      invariant HeapExcept(less, h, 0, j)
      invariant forall k: nat :: 0 < k < |h| && Parent(k) == j ==> Above(less, h, k)
    {
      var i := Parent(j);
      var g := Swap(h, i, j);
      forall k: nat | 0 < k < |g| && k != i && Parent(k) != i
        ensures Above(less, g, k)
      {
        if k != j && Parent(k) != j {
          assert Above(less, h, k);
        }
      }
      forall k: nat | 0 < k < |g| && Parent(k) == i
        ensures Above(less, g, k) && (i > 0 ==> !less(g[k], g[Parent(i)]))
      {
        assert k == j || Above(less, h, k);
        assert i > 0 ==> Above(less, h, i);
      }
      h, j := g, i;
    }
  }

  /** Moving the smaller child `j` of `i` up leaves `j` as the only position out of order. */
  lemma DownStep<T(!new)>(less: (T, T) -> bool, h: seq<T>, i: nat, j: nat, lo: nat)
    requires IsOrder(less) && lo <= i
    requires j < |h| && (j == 2 * i + 1 || j == 2 * i + 2) && less(h[j], h[i])
    requires forall k: nat :: k < |h| && (k == 2 * i + 1 || k == 2 * i + 2) ==> !less(h[k], h[j])
    requires HeapExcept(less, h, lo, i)
    ensures HeapExcept(less, Swap(h, i, j), lo, j)
    ensures Above(less, Swap(h, i, j), j)
    ensures i > 0 && Parent(i) >= lo ==> Above(less, Swap(h, i, j), i)
  {
    var g := Swap(h, i, j);
    assert Parent(j) == i;
    forall k: nat | 0 < k < |h| && Parent(k) >= lo && k != j && Parent(k) != j
      ensures Above(less, g, k)
    {
      if k != i && Parent(k) != i {
        assert Above(less, h, k);
      }
    }
    forall k: nat | 0 < k < |h| && Parent(k) == j
      ensures !less(g[k], g[i])
    {
      assert Above(less, h, k);
    }
  }

  /** Heap order everywhere but above `i0`, once the hole `i` is no larger than its children. */
  lemma DownDone<T(!new)>(less: (T, T) -> bool, h: seq<T>, i: nat, lo: nat)
    requires HeapExcept(less, h, lo, i)
    requires forall k: nat :: k < |h| && (k == 2 * i + 1 || k == 2 * i + 2) ==> !less(h[k], h[i])
    ensures forall k: nat :: 0 < k < |h| && Parent(k) >= lo && k != i ==> Above(less, h, k)
  {
    forall k: nat | 0 < k < |h| && Parent(k) >= lo && k != i
      ensures Above(less, h, k)
    {
      if Parent(k) == i {
        assert k == 2 * i + 1 || k == 2 * i + 2;
      }
    }
  }

  /** What the sift-down from `i0` keeps while the hole is at `i`. */
  ghost predicate Sifting<T>(less: (T, T) -> bool, h: seq<T>, h0: seq<T>, i: nat, i0: nat, lo: nat) {
    && lo <= i0 <= i && |h| == |h0| && multiset(h) == multiset(h0)
    && HeapExcept(less, h, lo, i)
    && (i == i0 ==> h == h0)
    && (i > i0 ==> i < |h| && Above(less, h, i))
    && (i > i0 > 0 && Parent(i0) >= lo ==> Above(less, h, i0))
  }

  lemma SiftStep<T(!new)>(less: (T, T) -> bool, h: seq<T>, h0: seq<T>, i: nat, i0: nat, lo: nat, j: nat)
    requires IsOrder(less) && Sifting(less, h, h0, i, i0, lo)
    requires j < |h| && (j == 2 * i + 1 || j == 2 * i + 2) && less(h[j], h[i])
    requires forall k: nat :: k < |h| && (k == 2 * i + 1 || k == 2 * i + 2) ==> !less(h[k], h[j])
    ensures Sifting(less, Swap(h, i, j), h0, j, i0, lo)
  {
    DownStep(less, h, i, j, lo);
  }

  method Down<T(!new)>(less: (T, T) -> bool, h0: seq<T>, i0: nat, ghost lo: nat)
    returns (h: seq<T>, moved: bool)
    requires IsOrder(less) && lo <= i0 && i0 <= |h0|
    requires HeapExcept(less, h0, lo, i0)
    ensures |h| == |h0| && multiset(h) == multiset(h0)
    ensures forall k: nat :: 0 < k < |h| && Parent(k) >= lo && k != i0 ==> Above(less, h, k)
    ensures moved ==> i0 < |h|
    ensures moved && i0 > 0 && Parent(i0) >= lo ==> Above(less, h, i0)
    ensures !moved ==> h == h0
  {
    h := h0;
    var i: nat := i0;
    while 2 * i + 1 < |h|
      invariant Sifting(less, h, h0, i, i0, lo)
      decreases |h0| - i
    {
      var j := 2 * i + 1;
      if j + 1 < |h| && less(h[j + 1], h[j]) {
        j := j + 1;
      }
      if !less(h[j], h[i]) {
        break;
      }
      SiftStep(less, h, h0, i, i0, lo, j);
      h, i := Swap(h, i, j), j;
    }
    DownDone(less, h, i, lo);
    moved := i > i0;
  }

  method Init<T(!new)>(less: (T, T) -> bool, h0: seq<T>) returns (h: seq<T>)
    requires IsOrder(less)
    ensures IsHeap(less, h) && multiset(h) == multiset(h0)
  {
    h := h0;
    var i: nat := |h| / 2;
    while i > 0
      invariant 0 <= i <= |h| / 2 && |h| == |h0| && multiset(h) == multiset(h0)
      invariant forall k: nat :: 0 < k < |h| && Parent(k) >= i ==> Above(less, h, k)
    {
      i := i - 1;
      var moved;
      h, moved := Down(less, h, i, i);
    }
  }

  method Push<T(!new)>(less: (T, T) -> bool, h0: seq<T>, x: T) returns (h: seq<T>)
    requires IsOrder(less) && IsHeap(less, h0)
    ensures IsHeap(less, h) && multiset(h) == multiset(h0) + multiset{x}
  {
    var g := h0 + [x];
    forall k: nat | 0 < k < |g| && k != |h0|
      ensures Parent(k) != |h0| && Above(less, g, k)
    {
      assert Above(less, h0, k);
    }
    h := Up(less, g, |h0|);
  }

  /** The heap with its last entry put in place of entry `i`: only `i` can be out of order. */
  function CutAt<T>(h: seq<T>, i: nat): (r: seq<T>)
    requires i < |h|
    ensures multiset(h) == multiset(r) + multiset{h[i]}
  {
    var n := |h| - 1;
    assert Swap(h, i, n) == Swap(h, i, n)[..n] + [h[i]];
    Swap(h, i, n)[..n]
  }

  lemma CutOrder<T(!new)>(less: (T, T) -> bool, h: seq<T>, i: nat)
    requires IsOrder(less) && IsHeap(less, h) && i < |h|
    ensures HeapExcept(less, CutAt(h, i), 0, i)
    ensures i == |h| - 1 ==> IsHeap(less, CutAt(h, i))
  {
    var g := CutAt(h, i);
    forall k: nat | 0 < k < |g| && k != i && Parent(k) != i
      ensures Above(less, g, k)
    {
      assert Above(less, h, k);
    }
    forall k: nat | 0 < k < |g| && Parent(k) == i && i > 0
      ensures !less(g[k], g[Parent(i)])
    {
      assert Above(less, h, k) && Above(less, h, i);
    }
  }

  /** Removes the entry at position `i`: swap it to the end, cut, repair. */
  method Remove<T(!new)>(less: (T, T) -> bool, h0: seq<T>, i: nat) returns (x: T, h: seq<T>)
    requires IsOrder(less) && IsHeap(less, h0) && i < |h0|
    ensures x == h0[i]
    ensures IsHeap(less, h) && multiset(h0) == multiset(h) + multiset{x}
  {
    x := h0[i];
    h := CutAt(h0, i);
    CutOrder(less, h0, i);
    if i < |h| {
      var moved;
      h, moved := Down(less, h, i, 0);
      if !moved {
        h := Up(less, h, i);
      }
    }
  }

  method Pop<T(!new)>(less: (T, T) -> bool, h0: seq<T>) returns (x: T, h: seq<T>)
    requires IsOrder(less) && IsHeap(less, h0) && h0 != []
    ensures x == h0[0]
    ensures IsHeap(less, h) && multiset(h0) == multiset(h) + multiset{x}
    ensures forall y :: y in h0 ==> !less(y, x)
  {
    x, h := Remove(less, h0, 0);
    forall k | 0 <= k < |h0| ensures !less(h0[k], x) { RootIsLeast(less, h0, k); }
  }
}
