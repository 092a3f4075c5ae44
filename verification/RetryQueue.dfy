/** One message-retry worker (internal/manager/retry_queue.go) and the routing and retry step
    of its manager (internal/manager/manager_retry.go): a keyed map and a heap that must hold
    the same messages, and a drain loop that re-inserts what it pops. The lock regions of the
    worker are methods of their own; `RetryProtocol` interleaves them freely. */
module RetryQueue {
  import opened HeapOrder
  import opened InFlightPqueue
  import opened Keys

  /** What the textual key `fromNode:connId:messageId` says; `Keys.InFlightKeyInjective` shows
      that the text stands for these three numbers and nothing else. */
  function KeyOf(m: RetryMessage): Key {
    Key(m.fromNode, m.connId, m.messageId)
  }

  /** Go's `%` keeps the sign of the dividend, so a negative id gives an index that the
      queue slice rejects unless it divides evenly: that is the -1 here. */
  function Route(messageId: int, queues: nat): int
    requires 0 < queues
  {
    if 0 <= messageId then messageId % queues
    else if (-messageId) % queues == 0 then 0
    else -1
  }

  /** The map holds exactly the messages `ms`, each under its own key. */
  ghost predicate Keyed(messages: map<Key, RetryMessage>, ms: set<RetryMessage>) {
    && (forall k :: k in messages ==> messages[k] in ms && KeyOf(messages[k]) == k)
    && (forall m :: m in ms ==> KeyOf(m) in messages && messages[KeyOf(m)] == m)
  }

  /** A key that is already taken keeps its entry, so a new message is filed only under a
      free key. */
  lemma {:induction false} KeyedAdd(messages: map<Key, RetryMessage>, ms: set<RetryMessage>, m: RetryMessage)
    requires Keyed(messages, ms) && m !in ms
    ensures KeyOf(m) in messages ==> !Keyed(messages, ms + {m})
    ensures KeyOf(m) !in messages ==> Keyed(messages[KeyOf(m) := m], ms + {m})
  {
    if KeyOf(m) in messages {
      assert messages[KeyOf(m)] in ms && m in ms + {m};
    }
  }

  lemma {:induction false} KeyedRemove(messages: map<Key, RetryMessage>, ms: set<RetryMessage>, key: Key)
    requires Keyed(messages, ms) && key in messages
    ensures Keyed(messages - {key}, ms - {messages[key]})
  {
  }

  // ---------- What a scan does to the queue, as a value ----------

  /** The mutable part of a message at one moment; `sent` counts its re-sends. */
  datatype Snapshot = Snapshot(pri: int, retry: int, sent: int)

  type View = map<RetryMessage, Snapshot>

  ghost function ViewOf(ms: set<RetryMessage>): (v: View)
    reads ms`pri, ms`retry, ms`sent
  {
    map m | m in ms :: Snapshot(m.pri, m.retry, m.sent)
  }

  /** One round: a most urgent message due by `t` is popped. With a try left and its
      connection online it returns with deadline `due` and is re-sent; otherwise it is dropped. */
  ghost predicate RoundStep(v: View, m: RetryMessage, v': View, t: int, due: int, online: bool, maxCount: nat) {
    && m in v && v[m].pri <= t
    && (forall x :: x in v ==> v[m].pri <= v[x].pri)
    && v' == if v[m].retry + 1 <= maxCount && online
             then v[m := Snapshot(due, v[m].retry + 1, v[m].sent + 1)]
             else v - {m}
  }

  /** A round in which the message is acknowledged after it was popped: it leaves, and the scan
      ends there. */
  ghost predicate BrokenStep(v: View, m: RetryMessage, v': View, t: int) {
    m in v && v[m].pri <= t && (forall x :: x in v ==> v[m].pri <= v[x].pri) && v' == v - {m}
  }

  lemma {:induction false} PopThenRetry(v: View, m: RetryMessage, taken: View, v': View, t: int, due: int,
        online: bool, maxCount: nat)
    requires m in v && v[m].pri <= t && taken == v - {m} && forall x :: x in taken ==> v[m].pri <= taken[x].pri
    requires v' == if v[m].retry + 1 <= maxCount && online
                   then taken[m := Snapshot(due, v[m].retry + 1, v[m].sent + 1)]
                   else taken
    ensures RoundStep(v, m, v', t, due, online, maxCount)
  {
    forall x | x in v ensures v[m].pri <= v[x].pri {
      assert x != m ==> x in taken;
    }
  }

  lemma {:induction false} PopThenBreak(v: View, m: RetryMessage, v': View, t: int)
    requires m in v && v[m].pri <= t && v' == v - {m} && forall x :: x in v' ==> v[m].pri <= v'[x].pri
    ensures BrokenStep(v, m, v', t)
  {
    forall x | x in v ensures v[m].pri <= v[x].pri {
      assert x != m ==> x in v';
    }
  }

  /** The tries each queued message still has, as a set so that using one up shrinks it. */
  ghost function TriesLeft(v: View, maxCount: nat): set<(RetryMessage, int)> {
    set m, n | m in v.Keys && v[m].retry <= n <= (if v[m].retry <= maxCount then maxCount else v[m].retry) :: (m, n)
  }

  lemma {:induction false} RoundUsesATry(v: View, m: RetryMessage, v': View, t: int, due: int, online: bool,
        maxCount: nat)
    requires RoundStep(v, m, v', t, due, online, maxCount)
    ensures TriesLeft(v', maxCount) < TriesLeft(v, maxCount)
  {
    var used := (m, v[m].retry);
    assert used in TriesLeft(v, maxCount) && used !in TriesLeft(v', maxCount);
  }

  /** A whole scan: round `k` pops `drained[k]` and takes `views[k]` to `views[k + 1]`. */
  ghost predicate Scan(views: seq<View>, drained: seq<RetryMessage>, t: int, now: nat -> int, interval: int,
        online: nat -> bool, maxCount: nat) {
    && |views| == |drained| + 1
    && forall k :: 0 <= k < |drained| ==>
         RoundStep(views[k], drained[k], views[k + 1], t, now(k) + interval, online(k), maxCount)
  }

  /** How far a scan has come: `done` lists messages of `v0` due by `t`, each once and in order
      of urgency; the others are queued as before, no more urgent than any of `done`; and what
      came back lies beyond `t`. */
  ghost predicate Progress(v0: View, done: seq<RetryMessage>, v: View, t: int) {
    && (forall k :: 0 <= k < |done| ==> done[k] in v0 && v0[done[k]].pri <= t)
    && (forall j, k :: 0 <= j < k < |done| ==> done[j] != done[k] && v0[done[j]].pri <= v0[done[k]].pri)
    && (forall x :: x in v0 && x !in done ==> x in v && v[x] == v0[x])
    && (forall k, x :: 0 <= k < |done| && x in v0 && x !in done ==> v0[done[k]].pri <= v0[x].pri)
    && (forall x :: x in v ==> x in v0 && (x in done ==> t < v[x].pri))
  }

  lemma {:induction false} ProgressStep(v0: View, done: seq<RetryMessage>, v: View, m: RetryMessage, v': View,
        t: int, due: int, online: bool, maxCount: nat)
    requires Progress(v0, done, v, t) && RoundStep(v, m, v', t, due, online, maxCount) && t < due
    ensures Progress(v0, done + [m], v', t)
  {
    assert m !in done;
    assert forall x :: x in done + [m] <==> x in done || x == m;
  }

  /** Whenever a message comes back it is due after `t`. */
  ghost predicate ComesBackLater(t: int, now: nat -> int, interval: int) {
    forall k :: t < now(k) + interval
  }

  lemma {:induction false} DrainPrefix(views: seq<View>, drained: seq<RetryMessage>, t: int, now: nat -> int,
        interval: int, online: nat -> bool, maxCount: nat, n: nat)
    requires Scan(views, drained, t, now, interval, online, maxCount) && n <= |drained|
    requires ComesBackLater(t, now, interval)
    ensures Progress(views[0], drained[..n], views[n], t)
    decreases n
  {
    if n > 0 {
      DrainPrefix(views, drained, t, now, interval, online, maxCount, n - 1);
      assert drained[..n] == drained[..n - 1] + [drained[n - 1]];
      var due := now(n - 1) + interval;
      ProgressStep(views[0], drained[..n - 1], views[n - 1], drained[n - 1], views[n], t, due, online(n - 1), maxCount);
    }
  }

  ghost predicate NothingDue(v: View, t: int) {
    forall x :: x in v ==> t < v[x].pri
  }

  /** Each once, in order of urgency. */
  ghost predicate MostUrgentFirst(v: View, ms: seq<RetryMessage>) {
    && (forall k :: 0 <= k < |ms| ==> ms[k] in v)
    && (forall j, k :: 0 <= j < k < |ms| ==> ms[j] != ms[k] && v[ms[j]].pri <= v[ms[k]].pri)
  }

  ghost predicate OthersUntouched(v: View, v': View, t: int) {
    forall x :: x in v && t < v[x].pri ==> x in v' && v'[x] == v[x]
  }

  /** A scan that runs until nothing due is left drains exactly the messages that were due by
      `t`, most urgent first and each once; everything else is untouched. */
  lemma {:induction false} DrainsExactlyTheDue(views: seq<View>, drained: seq<RetryMessage>, t: int, now: nat -> int,
        interval: int, online: nat -> bool, maxCount: nat)
    requires Scan(views, drained, t, now, interval, online, maxCount) && ComesBackLater(t, now, interval)
    requires NothingDue(views[|drained|], t)
    ensures forall x :: x in drained <==> x in views[0] && views[0][x].pri <= t
    ensures MostUrgentFirst(views[0], drained)
    ensures OthersUntouched(views[0], views[|drained|], t)
  {
    DrainPrefix(views, drained, t, now, interval, online, maxCount, |drained|);
    assert drained[..|drained|] == drained;
  }

  /** A message that was due is re-sent, due again later, if it has a try left and its connection is
      online; otherwise it is given up. */
  ghost predicate Handled(v0: View, m: RetryMessage, v: View, due: int, online: bool, maxCount: nat) {
    && m in v0
    && if online && v0[m].retry < maxCount
       then m in v && v[m].pri == due && v[m].retry == v0[m].retry + 1 && v[m].sent == v0[m].sent + 1
       else m !in v
  }

  /** Each message that a scan drains is handled so, by the clock and the connection of its own round. */
  lemma {:induction false} DrainedAreHandled(views: seq<View>, drained: seq<RetryMessage>, t: int, now: nat -> int,
        interval: int, online: nat -> bool, maxCount: nat, k: nat, n: nat)
    requires Scan(views, drained, t, now, interval, online, maxCount) && k < n <= |drained|
    requires ComesBackLater(t, now, interval)
    ensures Handled(views[0], drained[k], views[n], now(k) + interval, online(k), maxCount)
    decreases n
  {
    DrainPrefix(views, drained, t, now, interval, online, maxCount, n - 1);
    var v, m := views[n - 1], drained[n - 1];
    assert RoundStep(v, m, views[n], t, now(n - 1) + interval, online(n - 1), maxCount);
    if k < n - 1 {
      DrainedAreHandled(views, drained, t, now, interval, online, maxCount, k, n - 1);
      assert drained[..n - 1][k] == drained[k];
    }
  }

  // ---------- The queue object ----------

  /** How a scan ended: nothing due was left, it was told to stop, or the message it had taken
      off the heap was acknowledged before it could take it out of the map. */
  datatype ScanEnd = Emptied | Stopped | Broken(msg: RetryMessage)

  class Queue {
    const slot: nat
    const slots: nat
    const maxCount: nat
    const heap: Pqueue
    var messages: map<Key, RetryMessage>
    // Every message ever added, whether still queued or not.
    ghost var known: set<RetryMessage>

    ghost function Queued(): View
      reads heap, heap.members`pri, heap.members`retry, heap.members`sent
    {
      ViewOf(heap.members)
    }

    /** In its whole life no message is re-sent more than `maxCount` times. */
    ghost predicate Bounded()
      reads this, heap, known`retry, known`sent
    {
      && heap.members <= known
      && (forall m :: m in known ==> 0 <= m.sent <= m.retry && m.sent <= maxCount)
      && (forall m :: m in heap.members ==> m.retry <= maxCount)
    }

    /** The heap is in order, the map holds the same messages, they were routed here, and none
        has been re-sent too often. */
    ghost predicate Valid()
      reads this, heap, heap.members`index, heap.members`pri, known`retry, known`sent
    {
      && heap.Valid() && Keyed(messages, heap.members) && Bounded()
      && 0 < slots && forall m :: m in heap.members ==> Route(m.messageId, slots) == slot
    }

    constructor (slot: nat, slots: nat, maxCount: nat)
      requires slot < slots
      ensures Valid() && heap.members == known == {} && fresh(heap)
      ensures this.slot == slot && this.slots == slots && this.maxCount == maxCount
    {
      this.slot, this.slots, this.maxCount := slot, slots, maxCount;
      heap := new Pqueue(4056);
      messages, known := map[], {};
    }

    // ---------- The lock regions ----------

    /** A key that is already in flight keeps its old entry. */
    method PushInFlightMessage(msg: RetryMessage)
      modifies this`messages
      ensures messages == if KeyOf(msg) in old(messages) then old(messages) else old(messages)[KeyOf(msg) := msg]
    {
      if KeyOf(msg) !in messages {
        messages := messages[KeyOf(msg) := msg];
      }
    }

    method PopInFlightMessage(key: Key) returns (msg: RetryMessage?)
      modifies this`messages
      ensures msg == null <==> key !in old(messages)
      ensures messages == old(messages) - {key} && (msg != null ==> msg == old(messages)[key])
    {
      if key !in messages {
        return null;
      }
      msg := messages[key];
      messages := messages - {key};
    }

    /** The region trusts the slot number that the message carries. It is right for a queued
        message, and -1 for one that was queued before. A message that never was carries 0, and
        the region then removes a most urgent message instead; on an empty heap there is none,
        and the source fails with an index out of range. */
    method RemoveFromInFlightPQ(msg: RetryMessage)
      requires heap.Valid() && (msg in heap.members || msg.index == -1 || (msg.index == 0 && heap.pq != []))
      modifies heap, heap.members`index
      ensures heap.Valid()
      ensures msg in old(heap.members) ==> heap.members == old(heap.members) - {msg} && msg.index == -1
      ensures msg !in old(heap.members) && old(msg.index) == -1 ==>
        unchanged(heap) && unchanged(old(heap.members)) && msg.index == -1
      ensures msg !in old(heap.members) && old(msg.index) == 0 ==>
        exists head :: head in old(heap.members) && heap.members == old(heap.members) - {head} &&
                       forall m :: m in old(heap.members) ==> head.pri <= m.pri
    {
      if msg.index == -1 {
        return;
      }
      if msg !in heap.members {
        forall m | m in heap.members ensures heap.pq[0].pri <= m.pri {
          RootIsLeast(heap.pris, |heap.pq|, m.index);
        }
      }
      var _ := heap.Remove(msg.index);
    }

    // ---------- The calls ----------

    /** A key that is already in flight keeps its old entry in the map, while the heap takes
        the new message as well: the two agree afterwards exactly when the key was free. */
    method StartInFlightTimeout(msg: RetryMessage, now: int, interval: int)
      requires heap.Valid() && Keyed(messages, heap.members) && msg !in heap.members
      modifies this`messages, heap, heap.members`index, msg`index, msg`pri
      ensures heap.Valid() && heap.members == old(heap.members) + {msg} && msg.pri == now + interval
      ensures messages == if KeyOf(msg) in old(messages) then old(messages) else old(messages)[KeyOf(msg) := msg]
      ensures Keyed(messages, heap.members) <==> KeyOf(msg) !in old(messages)
    {
      KeyedAdd(messages, heap.members, msg);
      msg.pri := now + interval;
      PushInFlightMessage(msg);
      heap.Push(msg);
    }

    /** A message enters with no try used. The bound on re-sends holds even if its key is taken;
        the rest of the invariant exactly if it is not. */
    method AddRetry(msg: RetryMessage, now: int, interval: int)
      requires Valid() && msg !in known && msg.retry == 0 && msg.sent == 0
      requires Route(msg.messageId, slots) == slot
      modifies this`messages, this`known, heap, heap.members`index, msg`index, msg`pri
      ensures heap.members == old(heap.members) + {msg} && known == old(known) + {msg} && Bounded()
      ensures msg.pri == now + interval && KeyOf(msg) in messages
      ensures messages[KeyOf(msg)] == if KeyOf(msg) in old(messages) then old(messages)[KeyOf(msg)] else msg
      ensures Valid() <==> KeyOf(msg) !in old(messages)
    {
      known := known + {msg};
      StartInFlightTimeout(msg, now, interval);
    }

    /** `ms` is what the map holds: the queued messages, plus what a scan has already taken off
        the heap. */
    method FinishMessage(key: Key, ghost ms: set<RetryMessage>) returns (err: bool)
      requires heap.Valid() && Keyed(messages, ms) && heap.members <= ms
      requires forall m :: m in ms && m !in heap.members ==> m.index == -1
      modifies this`messages, heap, heap.members`index
      ensures heap.Valid()
      ensures err <==> forall m :: m in ms ==> KeyOf(m) != key
      ensures err ==> messages == old(messages) && heap.members == old(heap.members)
      ensures !err ==>
        var msg := old(messages)[key];
        && msg in ms && KeyOf(msg) == key && msg.index == -1
        && messages == old(messages) - {key} && heap.members == old(heap.members) - {msg}
        && Keyed(messages, ms - {msg})
    {
      if key in messages {
        KeyedRemove(messages, ms, key);
      }
      var msg := PopInFlightMessage(key);
      if msg == null {
        assert messages == old(messages);
        return true;
      }
      RemoveFromInFlightPQ(msg);
      err := false;
    }

    /** An acknowledgement between two scans. */
    method RemoveRetry(key: Key) returns (err: bool)
      requires Valid()
      modifies this`messages, heap, heap.members`index
      ensures Valid()
      ensures err <==> forall m :: m in old(heap.members) ==> KeyOf(m) != key
      ensures heap.members == set m | m in old(heap.members) && KeyOf(m) != key
    {
      err := FinishMessage(key, heap.members);
    }

    /** The second region of a round, for a message that is already off the heap. `acked` says
        that it is acknowledged first: the lookup fails in that case and in no other. */
    method FinishShifted(msg: RetryMessage, acked: bool) returns (err: bool)
      requires heap.Valid() && msg !in heap.members && msg.index == -1 && Keyed(messages, heap.members + {msg})
      modifies this`messages, heap, heap.members`index
      ensures heap.Valid() && heap.members == old(heap.members) && Keyed(messages, heap.members)
      ensures KeyOf(msg) !in messages && (err <==> acked)
    {
      ghost var ms := heap.members + {msg};
      assert messages[KeyOf(msg)] == msg;
      if acked {
        var _ := FinishMessage(KeyOf(msg), ms);
        ms := ms - {msg};
        assert ms == heap.members;
      }
      err := FinishMessage(KeyOf(msg), ms);
      assert heap.members + {msg} - {msg} == heap.members;
    }

    /** Takes the most urgent message due by `t` off the heap and then out of the map. */
    method Take(t: int, acked: bool) returns (msg: RetryMessage?, err: bool)
      requires Valid()
      modifies this`messages, heap, heap.members`index
      ensures Valid()
      ensures msg == null ==> heap.members == old(heap.members) && Queued() == old(Queued())
      ensures msg == null ==> forall m :: m in Queued() ==> t < Queued()[m].pri
      ensures msg != null ==>
        && msg in old(heap.members) && heap.members == old(heap.members) - {msg} && KeyOf(msg) !in messages
        && msg.pri <= t && Queued() == old(Queued()) - {msg} && forall m :: m in Queued() ==> msg.pri <= Queued()[m].pri
      ensures err <==> msg != null && acked
    {
      var wait;
      msg, wait := heap.PeekAndShift(t);
      err := false;
      if msg != null {
        assert heap.members + {msg} == old(heap.members);
        err := FinishShifted(msg, acked);
      }
    }

    method Retry(msg: RetryMessage, interval: int, now: int, online: bool)
      requires Valid() && msg in known && msg !in heap.members && msg.retry <= maxCount
      requires KeyOf(msg) !in messages && Route(msg.messageId, slots) == slot
      modifies this`messages, heap, heap.members`index, msg
      ensures Valid()
      ensures var kept := old(msg.retry) + 1 <= maxCount && online;
        && heap.members == old(heap.members) + (if kept then {msg} else {})
        && Queued() == if kept
                       then old(Queued())[msg := Snapshot(now + interval, old(msg.retry) + 1, old(msg.sent) + 1)]
                       else old(Queued())
    {
      hide Keyed, Route;
      msg.retry := msg.retry + 1;
      if msg.retry > maxCount {
        return;
      }
      if !online {
        return;
      }
      StartInFlightTimeout(msg, now, interval);
      msg.sent := msg.sent + 1;
    }

    method Round(t: int, interval: int, now: int, online: bool, acked: bool) returns (msg: RetryMessage?, err: bool)
      requires Valid()
      modifies this`messages, heap, heap.members
      ensures Valid() && heap.members <= old(heap.members)
      ensures msg == null ==> Queued() == old(Queued()) && forall m :: m in Queued() ==> t < Queued()[m].pri
      ensures msg != null && !err ==> RoundStep(old(Queued()), msg, Queued(), t, now + interval, online, maxCount)
      ensures msg != null && err ==> BrokenStep(old(Queued()), msg, Queued(), t)
      ensures err <==> msg != null && acked
    {
      hide RoundStep, BrokenStep, Keyed;
      msg, err := Take(t, acked);
      if err {
        PopThenBreak(old(Queued()), msg, Queued(), t);
      } else if msg != null {
        ghost var taken := Queued();
        Retry(msg, interval, now, online);
        PopThenRetry(old(Queued()), msg, taken, Queued(), t, now + interval, online, maxCount);
      }
    }

    /** One scan at time `t`. `now`, `online`, `stopped` and `acked` are what the clock, the
        connection table, the stop flag and the client of the message just shifted do in each
        round. The scan ends whatever they do, and it ends early exactly when it is stopped or
        the message it shifted is acknowledged before it is finished. */
    method ProcessInFlightQueue(t: int, interval: int, now: nat -> int, online: nat -> bool, stopped: nat -> bool,
          acked: nat -> bool)
      returns (ghost drained: seq<RetryMessage>, ghost views: seq<View>, ghost end: ScanEnd)
      requires Valid()
      modifies this`messages, heap, heap.members
      ensures Valid() && heap.members <= old(heap.members)
      ensures Scan(views, drained, t, now, interval, online, maxCount) && views[0] == old(Queued())
      ensures var last := views[|drained|];
        && (end.Stopped? <==> stopped(|drained|))
        && (end.Broken? <==> !stopped(|drained|) && acked(|drained|) && exists m :: m in last && last[m].pri <= t)
        && (end.Emptied? ==> forall m :: m in last ==> t < last[m].pri)
        && (if end.Broken? then BrokenStep(last, end.msg, Queued(), t) else Queued() == last)
    {
      hide RoundStep, Keyed, Bounded, ViewOf, TriesLeft;
      drained, views, end := [], [Queued()], Stopped;
      var round := 0;
      while !stopped(round)
        invariant round == |drained| && end == Stopped && Valid() && heap.members <= old(heap.members)
        invariant Scan(views, drained, t, now, interval, online, maxCount)
        invariant views[0] == old(Queued()) && views[|drained|] == Queued()
        decreases TriesLeft(Queued(), maxCount)
      {
        ghost var before := Queued();
        var msg, err := Round(t, interval, now(round), online(round), acked(round));
        if msg == null {
          end := Emptied;
          break;
        }
        if err {
          end := Broken(msg);
          break;
        }
        RoundUsesATry(before, msg, Queued(), t, now(round) + interval, online(round), maxCount);
        drained, views := drained + [msg], views + [Queued()];
        round := round + 1;
      }
    }
  }
}
