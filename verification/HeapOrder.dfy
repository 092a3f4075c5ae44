/** Binary-heap order on a plain sequence of priorities, and the single-swap facts that both
    in-place heaps of the repository rest on. */
module HeapOrder {

  /** `(j - 1) / 2` with Go's truncating division, which sends 0 to itself. */
  function Parent(j: nat): nat {
    if j == 0 then 0 else (j - 1) / 2
  }

  /** The first `n` priorities are in heap order. */
  ghost predicate Heap(p: seq<int>, n: nat) {
    n <= |p| && forall k {:trigger Parent(k)} :: 0 < k < n ==> p[Parent(k)] <= p[k]
  }

  /** Heap order except that slot `hole` may be smaller than its parent; its children are
      already no smaller than that parent. */
  ghost predicate SinkingUp(p: seq<int>, n: nat, hole: nat) {
    && n <= |p|
    && (forall k {:trigger Parent(k)} :: 0 < k < n && k != hole ==> p[Parent(k)] <= p[k])
    && (forall k {:trigger Parent(k)} :: 0 < k < n && Parent(k) == hole ==> p[Parent(hole)] <= p[k])
  }

  /** Heap order except around slot `hole`, which may be larger than its children and, while
      `top` is set, also smaller than its parent. */
  ghost predicate SinkingDown(p: seq<int>, n: nat, hole: nat, top: bool) {
    && hole <= n <= |p|
    && (forall k {:trigger Parent(k)} :: 0 < k < n && Parent(k) != hole && (k != hole || !top) ==> p[Parent(k)] <= p[k])
    && (0 < hole ==> forall k {:trigger Parent(k)} :: 0 < k < n && Parent(k) == hole ==> p[Parent(hole)] <= p[k])
  }

  function Swapped<T>(s: seq<T>, i: nat, j: nat): seq<T>
    requires i < |s| && j < |s|
  {
    s[i := s[j]][j := s[i]]
  }

  lemma {:induction false} RootIsLeast(p: seq<int>, n: nat, k: nat)
    requires Heap(p, n) && k < n
    ensures p[0] <= p[k]
  {
    if 0 < k {
      RootIsLeast(p, n, Parent(k));
    }
  }

  lemma {:induction false} SwapUp(p: seq<int>, n: nat, j: nat)
    requires SinkingUp(p, n, j) && 0 < j < n && p[j] < p[Parent(j)]
    ensures SinkingUp(Swapped(p, Parent(j), j), n, Parent(j))
  {
  }

  /** `j` is the smaller child of `i`. */
  lemma {:induction false} SwapDown(p: seq<int>, n: nat, i: nat, j: nat, top: bool)
    requires SinkingDown(p, n, i, top) && (j == 2 * i + 1 || j == 2 * i + 2) && j < n && p[j] < p[i]
    requires p[j] <= p[2 * i + 1] && (2 * i + 2 < n ==> p[j] <= p[2 * i + 2])
    ensures SinkingDown(Swapped(p, i, j), n, j, false)
  {
    var q := Swapped(p, i, j);
    forall k | 0 < k < n && Parent(k) != j
      ensures q[Parent(k)] <= q[k]
    {
      if k == i && 0 < i {
        assert p[Parent(i)] <= p[j];
      }
    }
  }

  /** Sinking stops at `i` when no child is smaller; only the starting slot may still have
      to rise. */
  lemma {:induction false} DownStops(p: seq<int>, n: nat, i: nat, start: nat)
    requires SinkingDown(p, n, i, i == start)
    requires 2 * i + 1 < n ==> p[i] <= p[2 * i + 1]
    requires 2 * i + 2 < n ==> p[i] <= p[2 * i + 2]
    ensures SinkingUp(p, n, start)
  {
    forall k | 0 < k < n && k != start ensures p[Parent(k)] <= p[k] {
      if Parent(k) == i {
        assert k == 2 * i + 1 || k == 2 * i + 2;
      }
    }
    if i != start && 0 < start < n {
      assert p[Parent(start)] <= p[start];
    }
  }

  lemma {:induction false} Appended(p: seq<int>, x: int)
    requires Heap(p, |p|)
    ensures SinkingUp(p + [x], |p| + 1, |p|)
  {
  }

  /** Moving the last priority into slot `i` leaves a hole there. */
  lemma {:induction false} LastInto(p: seq<int>, i: nat)
    requires Heap(p, |p|) && i < |p|
    ensures SinkingDown(Swapped(p, i, |p| - 1), |p| - 1, i, true)
  {
    var q := Swapped(p, i, |p| - 1);
    if 0 < i {
      forall k | 0 < k < |p| - 1 && Parent(k) == i ensures q[Parent(i)] <= q[k] {
        assert p[Parent(i)] <= p[i] <= p[k];
      }
    }
  }

  /** Sinking that has left its starting slot stops with everything in order. */
  lemma {:induction false} DownStopsLower(p: seq<int>, n: nat, i: nat)
    requires SinkingDown(p, n, i, false)
    requires 2 * i + 1 < n ==> p[i] <= p[2 * i + 1]
    requires 2 * i + 2 < n ==> p[i] <= p[2 * i + 2]
    ensures Heap(p, n)
  {
    forall k | 0 < k < n ensures p[Parent(k)] <= p[k] {
      if Parent(k) == i {
        assert k == 2 * i + 1 || k == 2 * i + 2;
      }
    }
  }

  /** Giving slot `i` a new priority leaves a hole there. */
  lemma {:induction false} ChangedAt(p: seq<int>, i: nat, x: int)
    requires Heap(p, |p|) && i < |p|
    ensures SinkingDown(p[i := x], |p|, i, true)
  {
    var q := p[i := x];
    if 0 < i {
      forall k | 0 < k < |p| && Parent(k) == i ensures q[Parent(i)] <= q[k] {
        assert p[Parent(i)] <= p[i] <= p[k];
      }
    }
  }
}
