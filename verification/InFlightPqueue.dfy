/** The hand-written binary heap of messages waiting for an acknowledgement
    (internal/manager/in_flight_pqueue.go). Messages are shared objects: a message
    knows the slot it occupies through its `index` field, and -1 means "not queued". */
module InFlightPqueue {
  import opened HeapOrder

  class RetryMessage {
    const fromNode: nat
    const connId: int
    const messageId: int
    var pri: int
    var index: int
    var retry: int
    // How often the message has been written to its connection again.
    ghost var sent: int

    constructor (fromNode: nat, connId: int, messageId: int)
      ensures this.fromNode == fromNode && this.connId == connId && this.messageId == messageId
      ensures pri == 0 && index == 0 && retry == 0 && sent == 0
    {
      this.fromNode, this.connId, this.messageId := fromNode, connId, messageId;
      pri, index, retry, sent := 0, 0, 0, 0;
    }
  }

  class Pqueue {
    var pq: seq<RetryMessage>
    var capacity: nat
    // The queued messages. `Indexed` forbids queueing one twice, so the set is the contents.
    ghost var members: set<RetryMessage>
    // Their priorities, slot by slot.
    ghost var pris: seq<int>

    /** Every message knows its own slot, and the slots hold exactly the members. */
    ghost predicate Indexed()
      reads this, members`index, members`pri
    {
      && |pris| == |pq| && (pq == [] ==> members == {})
      && (forall k :: 0 <= k < |pq| ==> pq[k] in members && pq[k].index == k && pq[k].pri == pris[k])
      && (forall m {:trigger m.index} :: m in members ==> 0 <= m.index < |pq| && pq[m.index] == m)
    }

    ghost predicate Valid()
      reads this, members`index, members`pri
    {
      0 < capacity && |pq| <= capacity && Indexed() && Heap(pris, |pq|)
    }

    constructor (capacity: nat)
      requires 0 < capacity
      ensures Valid() && members == {} && this.capacity == capacity
    {
      pq, this.capacity, members, pris := [], capacity, {}, [];
    }

    method Swap(i: nat, j: nat)
      requires i < |pq| && j < |pq| && Indexed()
      modifies this`pq, this`pris, members`index
      ensures pq == Swapped(old(pq), i, j) && Indexed()
      ensures pris == Swapped(old(pris), i, j)
    {
      pq, pris := Swapped(pq, i, j), Swapped(pris, i, j);
      pq[i].index := i;
      pq[j].index := j;
    }

    /** `n` is the part of the queue that is being put in order: `Remove` sifts up while
        the removed message still occupies the last slot. */
    method Up(start: nat, ghost n: nat)
      requires start < n <= |pq| && Indexed() && SinkingUp(pris, n, start)
      modifies this`pq, this`pris, members`index
      ensures Indexed() && |pq| == old(|pq|) && (n < |pq| ==> pq[n] == old(pq[n]))
      ensures Heap(pris, n)
    {
      var j: nat := start;
      while true
        invariant j < n <= |pq| == old(|pq|) && Indexed() && (n < |pq| ==> pq[n] == old(pq[n]))
        invariant SinkingUp(pris, n, j)
        decreases j
      {
        var i := Parent(j);
        if i == j || pq[j].pri >= pq[i].pri {
          break;
        }
        SwapUp(pris, n, j);
        Swap(i, j);
        j := i;
      }
    }

    method Down(start: nat, n: nat)
      requires start <= n <= |pq| && Indexed() && SinkingDown(pris, n, start, true)
      modifies this`pq, this`pris, members`index
      ensures Indexed() && |pq| == old(|pq|) && (n < |pq| ==> pq[n] == old(pq[n]))
      ensures SinkingUp(pris, n, start)
    {
      var i: nat := start;
      while true
        invariant start <= i <= n <= |pq| == old(|pq|) && Indexed() && (n < |pq| ==> pq[n] == old(pq[n]))
        invariant SinkingDown(pris, n, i, i == start)
        decreases n - i
      {
        var j1 := 2 * i + 1;
        if j1 >= n {
          DownStops(pris, n, i, start);
          break;
        }
        var j := j1;
        if j1 + 1 < n && pq[j1].pri >= pq[j1 + 1].pri {
          j := j1 + 1;
        }
        assert pris[j] <= pris[j1] && (j1 + 1 < n ==> pris[j] <= pris[j1 + 1]);
        if pq[j].pri >= pq[i].pri {
          DownStops(pris, n, i, start);
          break;
        }
        SwapDown(pris, n, i, j, i == start);
        Swap(i, j);
        i := j;
      }
    }

    /** The message takes the first free slot; only its own place may be wrong. */
    method Append(x: RetryMessage)
      requires Indexed() && Heap(pris, |pq|) && x !in members
      modifies this`pq, this`pris, this`members, x`index
      ensures Indexed() && |pq| == old(|pq|) + 1 && members == old(members) + {x}
      ensures SinkingUp(pris, |pq|, |pq| - 1)
    {
      Appended(pris, x.pri);
      x.index := |pq|;
      pq, pris, members := pq + [x], pris + [x.pri], members + {x};
    }

    method Push(x: RetryMessage)
      requires Valid() && x !in members
      modifies this, members`index, x`index
      ensures Valid() && members == old(members) + {x}
    {
      var n := |pq|;
      if n + 1 > capacity {
        capacity := capacity * 2;
      }
      Append(x);
      Up(n, n + 1);
    }

    /** The common start of `Pop` and `Remove`: slot `i` and the last slot trade places and
        the message that came from the end sinks. */
    method MoveToEnd(i: nat)
      requires Valid() && i < |pq|
      modifies this`pq, this`pris, members`index
      ensures Indexed() && |pq| == old(|pq|) && pq[|pq| - 1] == old(pq[i])
      ensures SinkingUp(pris, |pq| - 1, i)
    {
      hide Heap, SinkingUp, SinkingDown;
      var n := |pq|;
      LastInto(pris, i);
      Swap(i, n - 1);
      assert SinkingDown(pris, n - 1, i, true);
      Down(i, n - 1);
    }

    /** The common end of `Pop` and `Remove`: the message in the last slot leaves. */
    method DropLast() returns (x: RetryMessage)
      requires pq != [] && Indexed() && Heap(pris, |pq| - 1)
      modifies this`pq, this`pris, this`members, members`index
      ensures Indexed() && Heap(pris, |pq|) && |pq| == old(|pq|) - 1
      ensures x == old(pq[|pq| - 1]) && x.index == -1 && members == old(members) - {x}
    {
      var n := |pq|;
      if n == 1 {
        forall m | m in members ensures m == pq[0] {
          assert 0 <= m.index < |pq|;
        }
      }
      x := pq[n - 1];
      x.index := -1;
      pq := pq[..n - 1];
      members, pris := members - {x}, pris[..n - 1];
    }

    method Pop() returns (x: RetryMessage)
      requires Valid() && pq != []
      modifies this, members`index
      ensures Valid() && x == old(pq[0]) && x.index == -1 && members == old(members) - {x}
    {
      var n := |pq|;
      MoveToEnd(0);
      if n < capacity / 2 && capacity > 25 {
        capacity := capacity / 2;
      }
      x := DropLast();
    }

    method Remove(i: nat) returns (x: RetryMessage)
      requires Valid() && i < |pq|
      modifies this, members`index
      ensures Valid() && x == old(pq[i]) && x.index == -1 && members == old(members) - {x}
    {
      var n := |pq|;
      if n - 1 != i {
        MoveToEnd(i);
        Up(i, n - 1);
      }
      x := DropLast();
    }

    method PeekAndShift(max: int) returns (x: RetryMessage?, wait: int)
      requires Valid()
      modifies this, members`index
      ensures Valid()
      ensures x == null <==> forall m :: m in old(members) ==> max < m.pri
      ensures x == null ==> unchanged(this) && unchanged(old(members))
      ensures x == null ==> wait == if pq == [] then 0 else pq[0].pri - max
      ensures x != null ==> x in old(members) && x.pri <= max && x.index == -1 && wait == 0
      ensures x != null ==> members == old(members) - {x} && forall m :: m in members ==> x.pri <= m.pri
    {
      if |pq| == 0 {
        return null, 0;
      }
      var head := pq[0];
      forall m | m in members ensures head.pri <= m.pri {
        RootIsLeast(pris, |pq|, m.index);
      }
      if head.pri > max {
        return null, head.pri - max;
      }
      var _ := Pop();
      return head, 0;
    }
  }
}
