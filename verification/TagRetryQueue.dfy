/** The state of the channel-tag invalidation queue (internal/api/channel_tag_retry.go): the
    due-time heap with back-indices, and the three mutex regions on it. Each region is proved
    to be the corresponding atomic step of `TagRetryProtocol`. */
module TagRetryQueue {
  import opened Common
  import opened HeapOrder
  import opened TagRetryProtocol

  class RetryItem {
    const target: Chan
    var generation: nat
    var attempts: nat
    var due: int
    var inFlight: bool
    var index: int

    constructor (target: Chan, now: int)
      ensures this.target == target && generation == 1 && attempts == 0 && due == now && !inFlight && index == -1
    {
      this.target, generation, attempts, due, inFlight, index := target, 1, 0, now, false, -1;
    }

    ghost function Value(): Item
      reads this
    {
      Item(generation, attempts, due, inFlight)
    }
  }

  class DueHeap {
    var pending: seq<RetryItem>
    // The items in the heap; `Indexed` forbids holding one twice.
    ghost var members: set<RetryItem>
    // Their due times, slot by slot.
    ghost var dues: seq<int>

    ghost predicate Indexed()
      reads this, members`index, members`due
    {
      && |dues| == |pending| && (pending == [] ==> members == {})
      && (forall k :: 0 <= k < |pending| ==>
            pending[k] in members && pending[k].index == k && pending[k].due == dues[k])
      && (forall m {:trigger m.index} :: m in members ==> 0 <= m.index < |pending| && pending[m.index] == m)
    }

    ghost predicate Valid()
      reads this, members`index, members`due
    {
      Indexed() && Heap(dues, |pending|)
    }

    constructor ()
      ensures Valid() && members == {}
    {
      pending, members, dues := [], {}, [];
    }

    method Swap(i: nat, j: nat)
      requires i < |pending| && j < |pending| && Indexed()
      modifies this`pending, this`dues, members`index
      ensures pending == Swapped(old(pending), i, j) && dues == Swapped(old(dues), i, j) && Indexed()
    {
      pending, dues := Swapped(pending, i, j), Swapped(dues, i, j);
      pending[i].index := i;
      pending[j].index := j;
    }

    method Up(start: nat)
      requires start < |pending| && Indexed() && SinkingUp(dues, |pending|, start)
      modifies this`pending, this`dues, members`index
      ensures Valid()
    {
      var j: nat := start;
      while true
        invariant j < |pending| && Indexed() && SinkingUp(dues, |pending|, j)
        decreases j
      {
        var i := Parent(j);
        if i == j || !(pending[j].due < pending[i].due) {
          break;
        }
        SwapUp(dues, |pending|, j);
        Swap(i, j);
        j := i;
      }
    }

    method Down(start: nat, n: nat) returns (moved: bool)
      requires start <= n <= |pending| && Indexed() && SinkingDown(dues, n, start, true)
      modifies this`pending, this`dues, members`index
      ensures Indexed() && |pending| == old(|pending|) && (n < |pending| ==> pending[n] == old(pending[n]))
      ensures SinkingUp(dues, n, start) && (moved ==> Heap(dues, n))
    {
      var i: nat := start;
      while true
        invariant start <= i <= n <= |pending| == old(|pending|) && Indexed()
        invariant n < |pending| ==> pending[n] == old(pending[n])
        invariant SinkingDown(dues, n, i, i == start)
        decreases n - i
      {
        var j1 := 2 * i + 1;
        if j1 >= n {
          break;
        }
        var j := j1;
        if j1 + 1 < n && pending[j1 + 1].due < pending[j1].due {
          j := j1 + 1;
        }
        assert dues[j] <= dues[j1] && (j1 + 1 < n ==> dues[j] <= dues[j1 + 1]);
        if !(pending[j].due < pending[i].due) {
          break;
        }
        SwapDown(dues, n, i, j, i == start);
        Swap(i, j);
        i := j;
      }
      DownStops(dues, n, i, start);
      if i > start {
        DownStopsLower(dues, n, i);
      }
      return i > start;
    }

    method Push(item: RetryItem)
      requires Valid() && item !in members
      modifies this, members`index, item`index
      ensures Valid() && members == old(members) + {item}
    {
      Appended(dues, item.due);
      item.index := |pending|;
      pending, dues, members := pending + [item], dues + [item.due], members + {item};
      assert Indexed();
      Up(|pending| - 1);
    }

    method Pop() returns (item: RetryItem)
      requires Valid() && pending != []
      modifies this, members`index
      ensures Valid() && item == old(pending[0]) && item.index == -1 && members == old(members) - {item}
    {
      var n := |pending| - 1;
      LastInto(dues, 0);
      Swap(0, n);
      var _ := Down(0, n);
      item := DropLast();
    }

    method DropLast() returns (item: RetryItem)
      requires pending != [] && Indexed() && Heap(dues, |pending| - 1)
      modifies this, members`index
      ensures Valid() && item == old(pending[|pending| - 1]) && item.index == -1 && members == old(members) - {item}
    {
      var last := |pending| - 1;
      if last == 0 {
        forall m | m in members ensures m == pending[0] {
          assert 0 <= m.index < |pending|;
        }
      }
      item := pending[last];
      item.index := -1;
      pending, dues, members := pending[..last], dues[..last], members - {item};
    }

    /** The item in slot `i` has been given another due time and has to move. */
    ghost predicate ChangedIn(i: nat)
      reads this, members`index, members`due
    {
      && i < |pending| == |dues| && Heap(dues, |pending|)
      && (forall k :: 0 <= k < |pending| ==>
            pending[k] in members && pending[k].index == k && (k != i ==> pending[k].due == dues[k]))
      && (forall m {:trigger m.index} :: m in members ==> 0 <= m.index < |pending| && pending[m.index] == m)
    }

    method Fix(i: nat)
      requires ChangedIn(i)
      modifies this`pending, this`dues, members`index
      ensures Valid()
    {
      ChangedAt(dues, i, pending[i].due);
      dues := dues[i := pending[i].due];
      var moved := Down(i, |pending|);
      if !moved {
        Up(i);
      }
    }
  }

  /** What the dispatcher learns in its mutex region. */
  datatype Glance = Empty | NotBefore(due: int) | Popped(job: Job)

  class Queue {
    const heap: DueHeap
    var items: map<Chan, RetryItem>
    var stopped: bool
    // The item objects in the table.
    ghost var owned: set<RetryItem>

    ghost function Table(): Items
      reads this, owned
      requires Filed()
    {
      map t | t in items :: items[t].Value()
    }

    /** Each item is filed under its own target. */
    ghost predicate Filed()
      reads this
    {
      && (forall t :: t in items ==> items[t] in owned && items[t].target == t)
      && (forall m :: m in owned ==> m.target in items && items[m.target] == m)
    }

    /** Each item is either in the heap at its own index or in flight with index -1. */
    ghost predicate Valid()
      reads this, heap, owned, heap.members
    {
      && heap.Valid() && Filed() && heap.members <= owned
      && (forall m :: m in owned ==> if m.inFlight then m !in heap.members && m.index == -1 else m in heap.members)
    }

    constructor ()
      ensures Valid() && Table() == map[] && !stopped && fresh(heap)
    {
      heap := new DueHeap();
      items, stopped, owned := map[], false, {};
    }

    method Enqueue(target: Chan, now: int)
      requires Valid()
      modifies this, heap, owned
      ensures Valid() && stopped == old(stopped)
      ensures Table() == if stopped then old(Table()) else Enqueued(old(Table()), target, now)
    {
      if stopped {
        return;
      }
      if target !in items {
        Add(target, now);
      } else {
        Renew(items[target], now);
      }
    }

    method Add(target: Chan, now: int)
      requires Valid() && target !in items
      modifies this`items, this`owned, heap, owned`index
      ensures Valid() && Table() == old(Table())[target := Item(1, 0, now, false)]
    {
      var item := new RetryItem(target, now);
      items, owned := items[target := item], owned + {item};
      heap.Push(item);
    }

    /** An item that is not in flight is always in the heap, so it is moved, never pushed again. */
    method Renew(item: RetryItem, now: int)
      requires Valid() && item in owned
      modifies heap, owned
      ensures Valid()
      ensures Table() == old(Table())[item.target := Item(old(item.generation) + 1, 0, now, old(item.inFlight))]
    {
      item.generation := item.generation + 1;
      item.attempts := 0;
      item.due := now;
      if !item.inFlight {
        heap.Fix(item.index);
      }
    }

    /** The dispatcher's mutex region. */
    method Look(clock: int) returns (r: Glance)
      requires Valid()
      modifies heap, owned
      ensures Valid()
      ensures match r
        case Empty => Table() == old(Table()) && forall t :: !Pending(Table(), t)
        case NotBefore(due) =>
          && Table() == old(Table()) && clock < due
          && exists head :: IsHead(Table(), head) && Table()[head].due == due
        case Popped(job) =>
          && IsHead(old(Table()), job.target) && old(Table())[job.target].due <= clock
          && job.generation == old(Table())[job.target].generation
          && Table() == Dispatched(old(Table()), job.target)
    {
      if |heap.pending| == 0 {
        return Empty;
      }
      var item := heap.pending[0];
      forall m | m in heap.members ensures item.due <= m.due {
        RootIsLeast(heap.dues, |heap.pending|, m.index);
      }
      assert IsHead(Table(), item.target);
      if item.due > clock {
        return NotBefore(item.due);
      }
      var popped := heap.Pop();
      item.inFlight := true;
      return Popped(Job(item.target, item.generation));
    }

    /** The end of a job. A target whose item is gone is ignored. */
    method Complete(job: Job, ok: bool, now: int)
      requires Valid() && (job.target in items ==> items[job.target].inFlight)
      modifies this`items, this`owned, heap, owned
      ensures Valid() && Table() == Completed(old(Table()), job, ok, now)
    {
      if job.target !in items {
        return;
      }
      var item := items[job.target];
      if item.generation != job.generation {
        Requeue(item, 0, now);
      } else if ok {
        item.inFlight := false;
        items, owned := items - {job.target}, owned - {item};
      } else {
        Requeue(item, item.attempts + 1, now + Backoff(item.attempts + 1));
      }
    }

    method Requeue(item: RetryItem, attempts: nat, due: int)
      requires Valid() && item in owned && item.inFlight
      modifies heap, owned
      ensures Valid()
      ensures Table() == old(Table())[item.target := Item(old(item.generation), attempts, due, false)]
    {
      item.inFlight, item.attempts, item.due := false, attempts, due;
      heap.Push(item);
    }
  }
}
