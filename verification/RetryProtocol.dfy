/** The lock regions of one message-retry worker, interleaved (internal/manager/retry_queue.go,
    internal/manager/manager_retry.go). Additions, acknowledgements and scans run on different
    goroutines and take the worker's mutex once per region, so every other goroutine may act
    between two regions of one call. A state holds both containers, what each goroutine is in
    the middle of, and what has happened to each message. */
module RetryProtocol {
  import opened Keys

  /** Where a scan stands. The regions of one round are: shift the most urgent due message off
      the heap; finish it, that is, take it out of the table; file it in the table again; push
      it on the heap again; and write it to its connection. */
  datatype Scanner =
    | Off
    | Looking(t: int)
    | Shifted(t: int, k: Key)
    | Retrying(t: int, k: Key)
    | Requeued(t: int, k: Key)
    | Writing(t: int, k: Key)

  datatype State = State(
    table: set<Key>, heap: map<Key, int>,   // the two containers; the heap with due times
    adding: set<Key>,                       // filed in the table, first push on the heap to come
    acking: set<Key>,                       // taken out by an acknowledgement, heap region to come
    scanners: seq<Scanner>,
    retry: map<Key, nat>,                   // the message's own counter
    known: set<Key>, acked: set<Key>,       // ever added; ever taken out by an acknowledgement
    sent: map<Key, nat>)                    // how often written again

  datatype Event =
    | AddTable(k: Key) | AddHeap(k: Key, due: int)
    | Ack(k: Key) | Unheap(k: Key, head: Key)
    | Begin(i: nat, t: int) | Shift(i: nat, k: Key) | EndScan(i: nat) | StopScan(i: nat)
    | Finish(i: nat) | Retry(i: nat, online: bool) | PushHeap(i: nat, due: int) | WriteConn(i: nat)

  predicate MostUrgent(heap: map<Key, int>, k: Key) {
    k in heap && forall x :: x in heap ==> heap[k] <= heap[x]
  }

  predicate At(s: State, i: nat) {
    i < |s.scanners|
  }

  /** A message is added once, under its own key. An acknowledgement may name anything. Its heap
      region trusts the message's slot number, which is 0 until the first push: for a message
      still being added it removes whatever is at the head, and on an empty heap the process ends. */
  predicate Enabled(s: State, e: Event) {
    match e
    case AddTable(k) => k !in s.known
    case AddHeap(k, _) => k in s.adding
    case Ack(_) => true
    case Unheap(k, head) => k in s.acking && (k in s.adding ==> MostUrgent(s.heap, head))
    case Begin(i, _) => At(s, i) && s.scanners[i].Off?
    case Shift(i, k) => At(s, i) && s.scanners[i].Looking? && MostUrgent(s.heap, k) && s.heap[k] <= s.scanners[i].t
    case EndScan(i) => At(s, i) && s.scanners[i].Looking? && forall k :: k in s.heap ==> s.scanners[i].t < s.heap[k]
    case StopScan(i) => At(s, i) && s.scanners[i].Looking?
    case Finish(i) => At(s, i) && s.scanners[i].Shifted?
    case Retry(i, _) => At(s, i) && s.scanners[i].Retrying? && s.scanners[i].k in s.retry
    case PushHeap(i, _) => At(s, i) && s.scanners[i].Requeued?
    case WriteConn(i) => At(s, i) && s.scanners[i].Writing? && s.scanners[i].k in s.sent
  }

  function Move(s: State, i: nat, c: Scanner): State
    requires At(s, i)
  {
    s.(scanners := s.scanners[i := c])
  }

  /** A step of a scan, as opposed to one of an addition or an acknowledgement. */
  predicate Scans(e: Event) {
    !e.AddTable? && !e.AddHeap? && !e.Ack? && !e.Unheap?
  }

  function CallStep(s: State, e: Event): State
    requires Enabled(s, e) && !Scans(e)
  {
    match e
    case AddTable(k) =>
      s.(table := s.table + {k}, adding := s.adding + {k}, known := s.known + {k},
         retry := s.retry[k := 0], sent := s.sent[k := 0])
    case AddHeap(k, due) => s.(adding := s.adding - {k}, heap := s.heap[k := due])
    case Ack(k) =>
      if k in s.table then s.(table := s.table - {k}, acking := s.acking + {k}, acked := s.acked + {k}) else s
    case Unheap(k, head) =>
      s.(acking := s.acking - {k},
         heap := if k in s.heap then s.heap - {k} else if k in s.adding then s.heap - {head} else s.heap)
  }

  function ScanStep(s: State, e: Event, maxCount: nat): State
    requires Enabled(s, e) && Scans(e)
  {
    var c := s.scanners[e.i];
    match e
    case Begin(i, t) => Move(s, i, Looking(t))
    case Shift(i, k) => Move(s, i, Shifted(c.t, k)).(heap := s.heap - {k})
    case EndScan(i) => Move(s, i, Off)
    case StopScan(i) => Move(s, i, Off)
    case Finish(i) =>
      if c.k in s.table then Move(s, i, Retrying(c.t, c.k)).(table := s.table - {c.k}) else Move(s, i, Off)
    case Retry(i, online) =>
      var tried := s.(retry := s.retry[c.k := s.retry[c.k] + 1]);
      if s.retry[c.k] + 1 <= maxCount && online
      then Move(tried, i, Requeued(c.t, c.k)).(table := s.table + {c.k})
      else Move(tried, i, Looking(c.t))
    case PushHeap(i, due) => Move(s, i, Writing(c.t, c.k)).(heap := s.heap[c.k := due])
    case WriteConn(i) => Move(s, i, Looking(c.t)).(sent := s.sent[c.k := s.sent[c.k] + 1])
  }

  function After(s: State, e: Event, maxCount: nat): State
    requires Enabled(s, e)
  {
    if Scans(e) then ScanStep(s, e, maxCount) else CallStep(s, e)
  }

  ghost predicate Steps(ss: seq<State>, es: seq<Event>, maxCount: nat) {
    && |ss| == |es| + 1
    && forall i :: 0 <= i < |es| ==> Enabled(ss[i], es[i]) && ss[i + 1] == After(ss[i], es[i], maxCount)
  }

  ghost predicate Initial(s: State) {
    && s.table == {} && s.heap == map[] && s.adding == {} && s.acking == {} && s.retry == map[]
    && s.known == {} && s.acked == {} && s.sent == map[] && forall i :: 0 <= i < |s.scanners| ==> s.scanners[i].Off?
  }

  ghost predicate Run(ss: seq<State>, es: seq<Event>, maxCount: nat) {
    Steps(ss, es, maxCount) && Initial(ss[0])
  }

  // ---------- The invariant ----------

  /** The scan is in the middle of handling `k`, which is not on the heap meanwhile. */
  predicate Holds(c: Scanner, k: Key) {
    (c.Shifted? || c.Retrying? || c.Requeued?) && c.k == k
  }

  predicate Held(s: State, k: Key) {
    exists i :: 0 <= i < |s.scanners| && Holds(s.scanners[i], k)
  }

  predicate Placed(s: State, k: Key) {
    k in s.heap || k in s.adding || Held(s, k)
  }

  /** The scan has committed itself to write `k`. */
  predicate WillWrite(c: Scanner, k: Key) {
    (c.Requeued? || c.Writing?) && c.k == k
  }

  function Writer(c: Scanner, k: Key): nat {
    if WillWrite(c, k) then 1 else 0
  }

  function Pending(cs: seq<Scanner>, k: Key): nat {
    if cs == [] then 0
    else Pending(cs[..|cs| - 1], k) + Writer(cs[|cs| - 1], k)
  }

  ghost predicate Registered(s: State) {
    && s.retry.Keys == s.known && s.sent.Keys == s.known
    && s.table <= s.known && s.heap.Keys <= s.known && s.adding <= s.known && s.acking <= s.acked <= s.known
    && forall i :: 0 <= i < |s.scanners| ==>
         s.scanners[i].Off? || s.scanners[i].Looking? || s.scanners[i].k in s.known
  }

  /** The message is in one place: being added, on the heap, or held by one scan. */
  ghost predicate InOnePlace(s: State, k: Key) {
    && !(k in s.adding && k in s.heap)
    && (forall i :: 0 <= i < |s.scanners| && Holds(s.scanners[i], k) ==> k !in s.adding && k !in s.heap)
    && (forall i, j ::
          0 <= i < j < |s.scanners| ==> !(Holds(s.scanners[i], k) && Holds(s.scanners[j], k)))
  }

  ghost predicate OnePlace(s: State) {
    forall k :: InOnePlace(s, k)
  }

  /** Wherever the message is, it is filed in the table unless it was acknowledged; only a scan
      that is retrying it has it out of the table, and then it was not acknowledged. */
  ghost predicate IsFiled(s: State, k: Key) {
    && !(k in s.table && k in s.acked)
    && (k in s.heap || k in s.adding ==> k in s.table || k in s.acked)
    && (forall i :: 0 <= i < |s.scanners| && Holds(s.scanners[i], k) ==>
          if s.scanners[i].Retrying? then k !in s.table && k !in s.acked else k in s.table || k in s.acked)
  }

  ghost predicate Filed(s: State) {
    forall k :: IsFiled(s, k)
  }

  /** Writes done and writes to come never exceed the tries used, nor the maximum. */
  ghost predicate Counted(s: State, maxCount: nat) {
    && (forall k :: k in s.sent && k in s.retry ==>
          s.sent[k] + Pending(s.scanners, k) <= s.retry[k] && s.sent[k] + Pending(s.scanners, k) <= maxCount)
    && (forall k :: k in s.retry && Placed(s, k) ==> s.retry[k] <= maxCount)
  }

  ghost predicate Inv(s: State, maxCount: nat) {
    Registered(s) && OnePlace(s) && Filed(s) && Counted(s, maxCount)
  }

  lemma {:induction false} PendingMove(cs: seq<Scanner>, i: nat, c: Scanner, k: Key)
    requires i < |cs|
    ensures Pending(cs[i := c], k) ==
      Pending(cs, k) - Writer(cs[i], k) + Writer(c, k)
    decreases |cs|
  {
    var n := |cs| - 1;
    if i == n {
      assert cs[i := c][..n] == cs[..n];
    } else {
      PendingMove(cs[..n], i, c, k);
      assert cs[i := c][..n] == cs[..n][i := c];
    }
  }

  lemma {:induction false} PendingUnknown(s: State, n: nat, k: Key)
    requires Registered(s) && k !in s.known && n <= |s.scanners|
    ensures Pending(s.scanners[..n], k) == 0
  {
    if n > 0 {
      assert s.scanners[..n][..n - 1] == s.scanners[..n - 1];
      PendingUnknown(s, n - 1, k);
    }
  }

  lemma {:induction false} KeepsRegistered(s: State, e: Event, maxCount: nat)
    requires Registered(s) && Enabled(s, e)
    ensures Registered(After(s, e, maxCount))
  {
  }

  lemma {:induction false} KnownIfPlaced(s: State, k: Key)
    requires Registered(s)
    ensures k in s.heap || k in s.adding || Held(s, k) ==> k in s.known
  {
  }

  /** How one step of a scan moves a message from place to place. */
  lemma {:induction false} ScanMoves(s: State, e: Event, maxCount: nat, k: Key)
    requires Enabled(s, e) && Scans(e)
    ensures var s' := ScanStep(s, e, maxCount);
      && s'.known == s.known && s'.adding == s.adding
      && At(s, e.i) && At(s', e.i) && s'.scanners == s.scanners[e.i := s'.scanners[e.i]]
      && (k in s'.heap ==>
            k in s.heap || (e.PushHeap? && Holds(s.scanners[e.i], k) && !Holds(s'.scanners[e.i], k)))
      && (Holds(s'.scanners[e.i], k) ==>
            Holds(s.scanners[e.i], k) || (e == Shift(e.i, k) && k in s.heap && k !in s'.heap))
  {
  }

  lemma {:induction false} CallMoves(s: State, e: Event, k: Key)
    requires Enabled(s, e) && !Scans(e)
    ensures var s' := CallStep(s, e);
      && s'.scanners == s.scanners
      && (k in s'.adding ==> (k in s.adding && !(e.AddHeap? && e.k == k)) || e == AddTable(k))
      && (k in s'.heap ==> k in s.heap || (e.AddHeap? && e.k == k && k in s.adding))
  {
  }

  lemma {:induction false} KeepsOnePlace(s: State, e: Event, maxCount: nat, k: Key)
    requires Registered(s) && InOnePlace(s, k) && Enabled(s, e)
    ensures InOnePlace(After(s, e, maxCount), k)
  {
    hide ScanStep, CallStep, Holds;
    KnownIfPlaced(s, k);
    if Scans(e) {
      ScanMoves(s, e, maxCount, k);
    } else {
      CallMoves(s, e, k);
    }
  }

  lemma {:induction false} ScanKeepsFiled(s: State, e: Event, maxCount: nat, k: Key)
    requires InOnePlace(s, k) && IsFiled(s, k) && Enabled(s, e) && Scans(e)
    ensures IsFiled(ScanStep(s, e, maxCount), k)
  {
    hide CallStep, InOnePlace;
    var s', c := ScanStep(s, e, maxCount), s.scanners[e.i];
    if Holds(c, k) {
      OnlyHolder(s, e.i, k);
    }
    assert s'.acked == s.acked && s'.adding == s.adding;
    assert forall i :: 0 <= i < |s.scanners| && i != e.i ==> s'.scanners[i] == s.scanners[i];
  }

  lemma {:induction false} OnlyHolder(s: State, i: nat, k: Key)
    requires InOnePlace(s, k) && At(s, i) && Holds(s.scanners[i], k)
    ensures k !in s.heap && k !in s.adding
    ensures forall j :: 0 <= j < |s.scanners| && j != i ==> !Holds(s.scanners[j], k)
  {
  }

  lemma {:induction false} CallKeepsFiled(s: State, e: Event, k: Key)
    requires Registered(s) && IsFiled(s, k) && Enabled(s, e) && !Scans(e)
    ensures IsFiled(CallStep(s, e), k)
  {
    hide ScanStep;
    assert CallStep(s, e).scanners == s.scanners;
  }

  lemma {:induction false} PlacedBefore(s: State, e: Event, maxCount: nat, k: Key)
    requires Enabled(s, e) && Placed(After(s, e, maxCount), k) && e != AddTable(k)
    ensures Placed(s, k)
  {
    hide ScanStep, CallStep, Holds;
    if Scans(e) {
      ScanMoves(s, e, maxCount, k);
    } else {
      CallMoves(s, e, k);
    }
  }

  /** A message that has used up its tries, or whose connection is gone, is nowhere any more. */
  lemma {:induction false} DroppedIsNowhere(s: State, e: Event, maxCount: nat)
    requires Enabled(s, e) && e.Retry? && InOnePlace(s, s.scanners[e.i].k)
    requires After(s, e, maxCount).scanners[e.i].Looking?
    ensures !Placed(After(s, e, maxCount), s.scanners[e.i].k)
  {
    assert Holds(s.scanners[e.i], s.scanners[e.i].k);
  }

  lemma {:induction false} KeepsTries(s: State, e: Event, maxCount: nat, k: Key)
    requires Registered(s) && InOnePlace(s, k) && Counted(s, maxCount) && Enabled(s, e)
    requires k in After(s, e, maxCount).retry && Placed(After(s, e, maxCount), k)
    ensures After(s, e, maxCount).retry[k] <= maxCount
  {
    hide Placed, InOnePlace, Held, Pending;
    if e != AddTable(k) {
      PlacedBefore(s, e, maxCount, k);
    }
    if e.Retry? && After(s, e, maxCount).scanners[e.i].Looking? && s.scanners[e.i].k == k {
      DroppedIsNowhere(s, e, maxCount);
    }
  }

  /** A scan commits itself to a write only by using up a try. */
  lemma {:induction false} ScanCounts(s: State, e: Event, maxCount: nat, k: Key)
    requires Enabled(s, e) && Scans(e) && k in s.sent && k in s.retry
    ensures var s' := ScanStep(s, e, maxCount);
      && s'.known == s.known && k in s'.sent && k in s'.retry
      && At(s, e.i) && At(s', e.i) && s'.scanners == s.scanners[e.i := s'.scanners[e.i]]
      && var more := s'.sent[k] + Writer(s'.scanners[e.i], k) - s.sent[k] - Writer(s.scanners[e.i], k);
         more <= s'.retry[k] - s.retry[k] <= 1 && s.retry[k] <= s'.retry[k] && (more > 0 ==> s'.retry[k] <= maxCount)
  {
  }

  lemma {:induction false} KeepsWrites(s: State, e: Event, maxCount: nat, k: Key)
    requires Registered(s) && Counted(s, maxCount) && Enabled(s, e) && k in After(s, e, maxCount).known
    ensures var s' := After(s, e, maxCount);
      && k in s'.sent && k in s'.retry
      && s'.sent[k] + Pending(s'.scanners, k) <= s'.retry[k] && s'.sent[k] + Pending(s'.scanners, k) <= maxCount
  {
    hide ScanStep, Placed, Held, Pending;
    var s' := After(s, e, maxCount);
    if Scans(e) {
      ScanMoves(s, e, maxCount, k);
      ScanCounts(s, e, maxCount, k);
      PendingMove(s.scanners, e.i, s'.scanners[e.i], k);
    } else if e.AddTable? {
      PendingUnknown(s, |s.scanners|, e.k);
      assert s.scanners[..|s.scanners|] == s.scanners;
    }
  }

  lemma {:induction false} StepKeepsInv(s: State, e: Event, maxCount: nat)
    requires Inv(s, maxCount) && Enabled(s, e)
    ensures Inv(After(s, e, maxCount), maxCount)
  {
    hide ScanStep, CallStep, Enabled, InOnePlace, IsFiled, Placed, Pending;
    var s' := After(s, e, maxCount);
    KeepsRegistered(s, e, maxCount);
    forall k ensures InOnePlace(s', k) && IsFiled(s', k) {
      KeepsOnePlace(s, e, maxCount, k);
      if Scans(e) {
        ScanKeepsFiled(s, e, maxCount, k);
      } else {
        CallKeepsFiled(s, e, k);
      }
    }
    forall k | k in s'.sent && k in s'.retry
      ensures s'.sent[k] + Pending(s'.scanners, k) <= s'.retry[k] && s'.sent[k] + Pending(s'.scanners, k) <= maxCount
    {
      KeepsWrites(s, e, maxCount, k);
    }
    forall k | k in s'.retry && Placed(s', k) ensures s'.retry[k] <= maxCount {
      KeepsTries(s, e, maxCount, k);
    }
  }

  lemma {:induction false} ReachableInv(ss: seq<State>, es: seq<Event>, maxCount: nat, n: nat)
    requires Run(ss, es, maxCount) && n < |ss|
    ensures Inv(ss[n], maxCount)
    decreases n
  {
    hide ScanStep, CallStep, Enabled;
    if n == 0 {
      forall k ensures Pending(ss[0].scanners, k) == 0 {
        assert ss[0].scanners[..|ss[0].scanners|] == ss[0].scanners;
        PendingUnknown(ss[0], |ss[0].scanners|, k);
      }
    } else {
      ReachableInv(ss, es, maxCount, n - 1);
      StepKeepsInv(ss[n - 1], es[n - 1], maxCount);
    }
  }

  // ---------- Re-sends are bounded ----------

  ghost predicate Resends(s: State, e: Event, k: Key) {
    e.WriteConn? && At(s, e.i) && s.scanners[e.i].Writing? && s.scanners[e.i].k == k
  }

  /** How often `k` is written again in the first `n` steps. */
  ghost function ResendCount(ss: seq<State>, es: seq<Event>, k: Key, n: nat): nat
    requires n <= |es| < |ss|
  {
    if n == 0 then 0 else ResendCount(ss, es, k, n - 1) + (if Resends(ss[n - 1], es[n - 1], k) then 1 else 0)
  }

  ghost function SentSoFar(s: State, k: Key): nat {
    if k in s.sent then s.sent[k] else 0
  }

  lemma {:induction false} SentStep(s: State, e: Event, maxCount: nat, k: Key)
    requires Registered(s) && Enabled(s, e)
    ensures SentSoFar(After(s, e, maxCount), k) == SentSoFar(s, k) + (if Resends(s, e, k) then 1 else 0)
  {
  }

  lemma {:induction false} SentIsResendCount(ss: seq<State>, es: seq<Event>, maxCount: nat, k: Key, n: nat)
    requires Run(ss, es, maxCount) && n <= |es|
    ensures ResendCount(ss, es, k, n) == SentSoFar(ss[n], k)
    decreases n
  {
    hide After, Enabled, Registered, OnePlace, Filed, Counted, Resends;
    if n > 0 {
      SentIsResendCount(ss, es, maxCount, k, n - 1);
      ReachableInv(ss, es, maxCount, n - 1);
      SentStep(ss[n - 1], es[n - 1], maxCount, k);
    }
  }

  /** However additions, acknowledgements and scans interleave, and whatever the clock says, no
      message is written again more often than the maximum in its whole life. */
  lemma {:induction false} ResendsAreBounded(ss: seq<State>, es: seq<Event>, maxCount: nat, k: Key)
    requires Run(ss, es, maxCount)
    ensures ResendCount(ss, es, k, |es|) <= maxCount
  {
    SentIsResendCount(ss, es, maxCount, k, |es|);
    ReachableInv(ss, es, maxCount, |es|);
  }

  // ---------- When a scan stops early ----------

  /** An acknowledgement that finds its message. */
  predicate Accepted(s: State, e: Event, k: Key) {
    e == Ack(k) && k in s.table
  }

  lemma {:induction false} AckedStep(s: State, e: Event, maxCount: nat, k: Key)
    requires Enabled(s, e)
    ensures k in After(s, e, maxCount).acked <==> k in s.acked || Accepted(s, e, k)
  {
  }

  lemma {:induction false} AckedIff(ss: seq<State>, es: seq<Event>, maxCount: nat, k: Key, n: nat)
    requires Run(ss, es, maxCount) && n <= |es|
    ensures k in ss[n].acked <==> exists a :: 0 <= a < n && Accepted(ss[a], es[a], k)
    decreases n
  {
    hide After, Enabled, Accepted;
    if n > 0 {
      AckedIff(ss, es, maxCount, k, n - 1);
      AckedStep(ss[n - 1], es[n - 1], maxCount, k);
    }
  }

  /** A scan cannot finish the message it has shifted if and only if an acknowledgement has taken
      it out before: since the shift, or while it was last being filed. The scan then ends. */
  lemma {:induction false} FinishFailsIff(ss: seq<State>, es: seq<Event>, maxCount: nat, n: nat, i: nat)
    requires Run(ss, es, maxCount) && n < |es| && es[n] == Finish(i)
    ensures At(ss[n], i) && ss[n].scanners[i].Shifted? && At(ss[n + 1], i)
    ensures ss[n + 1].scanners[i].Off? <==> exists a :: 0 <= a < n && Accepted(ss[a], es[a], ss[n].scanners[i].k)
  {
    ReachableInv(ss, es, maxCount, n);
    var k := ss[n].scanners[i].k;
    AckedIff(ss, es, maxCount, k, n);
    assert IsFiled(ss[n], k) && Holds(ss[n].scanners[i], k);
  }

  /** A scan ends in three ways only: nothing due is left, it is told to stop, or the message it
      has shifted was acknowledged. */
  lemma {:induction false} ScanEndsIff(ss: seq<State>, es: seq<Event>, maxCount: nat, n: nat, i: nat)
    requires Run(ss, es, maxCount) && n < |es| && At(ss[n], i) && !ss[n].scanners[i].Off?
    ensures At(ss[n + 1], i)
    ensures ss[n + 1].scanners[i].Off? <==>
      || (es[n] == EndScan(i) && forall k :: k in ss[n].heap ==> ss[n].scanners[i].t < ss[n].heap[k])
      || es[n] == StopScan(i)
      || (es[n] == Finish(i) && exists a :: 0 <= a < n && Accepted(ss[a], es[a], ss[n].scanners[i].k))
  {
    if es[n] == Finish(i) {
      FinishFailsIff(ss, es, maxCount, n, i);
    }
  }

  lemma {:induction false} Extend(ss: seq<State>, es: seq<Event>, e: Event, maxCount: nat)
    requires Steps(ss, es, maxCount) && Enabled(ss[|es|], e)
    ensures Steps(ss + [After(ss[|es|], e, maxCount)], es + [e], maxCount)
  {
    hide After, Enabled;
  }

  /** A run that adds two messages. */
  lemma {:induction false} AddBoth(a: Key, b: Key, t: int, maxCount: nat) returns (ss: seq<State>, es: seq<Event>)
    requires a != b
    ensures Run(ss, es, maxCount) && |ss| == 5 && es == [AddTable(a), AddHeap(a, t - 1), AddTable(b), AddHeap(b, t)]
    ensures var s := ss[4];
      && s.scanners == [Off] && s.table == {a, b} && s.acking == s.adding == {}
      && s.heap == map[a := t - 1, b := t] && s.retry == s.sent == map[a := 0, b := 0]
  {
    hide ScanStep;
    var s0 := State({}, map[], {}, {}, [Off], map[], {}, {}, map[]);
    var s1 := CallStep(s0, AddTable(a));
    var s2 := CallStep(s1, AddHeap(a, t - 1));
    var s3 := CallStep(s2, AddTable(b));
    ss := [s0, s1, s2, s3, CallStep(s3, AddHeap(b, t))];
    es := [AddTable(a), AddHeap(a, t - 1), AddTable(b), AddHeap(b, t)];
  }

  /** So a scan may leave due messages behind, though nobody stopped it. */
  lemma {:induction false} BreakLeavesDue(a: Key, b: Key, t: int, maxCount: nat)
    returns (ss: seq<State>, es: seq<Event>)
    requires a != b
    ensures Run(ss, es, maxCount) && |es| == 8 && (forall n :: 0 <= n < |es| ==> !es[n].StopScan?)
    ensures ss[6].scanners == [Shifted(t, a)] && es[6] == Ack(a) && es[7] == Finish(0) && ss[8].scanners == [Off]
    ensures b in ss[8].table && b in ss[8].heap && ss[8].heap[b] <= t
  {
    hide Steps;
    ss, es := AddBoth(a, b, t, maxCount);
    var s5 := ScanStep(ss[4], Begin(0, t), maxCount);
    Extend(ss, es, Begin(0, t), maxCount);
    var s6 := ScanStep(s5, Shift(0, a), maxCount);
    Extend(ss + [s5], es + [Begin(0, t)], Shift(0, a), maxCount);
    var s7 := CallStep(s6, Ack(a));
    Extend(ss + [s5] + [s6], es + [Begin(0, t)] + [Shift(0, a)], Ack(a), maxCount);
    var s8 := ScanStep(s7, Finish(0), maxCount);
    Extend(ss + [s5] + [s6] + [s7], es + [Begin(0, t)] + [Shift(0, a)] + [Ack(a)], Finish(0), maxCount);
    ss, es := ss + [s5] + [s6] + [s7] + [s8], es + [Begin(0, t)] + [Shift(0, a)] + [Ack(a)] + [Finish(0)];
  }

  // ---------- Re-sends after an acknowledgement ----------

  /** Some scan will write `k`, or is past finishing it with a try left. */
  ghost predicate MayResend(s: State, k: Key, maxCount: nat) {
    exists i :: 0 <= i < |s.scanners| && Committed(s, s.scanners[i], k, maxCount)
  }

  ghost predicate Committed(s: State, c: Scanner, k: Key, maxCount: nat) {
    WillWrite(c, k) || (c.Retrying? && c.k == k && k in s.retry && s.retry[k] < maxCount)
  }

  ghost predicate Quiet(s: State, k: Key, maxCount: nat) {
    k in s.known && k !in s.table && !MayResend(s, k, maxCount)
  }

  lemma {:induction false} QuietStays(s: State, e: Event, k: Key, maxCount: nat)
    requires Inv(s, maxCount) && Enabled(s, e) && Quiet(s, k, maxCount)
    ensures Quiet(After(s, e, maxCount), k, maxCount) && !Resends(s, e, k)
  {
    hide InOnePlace, IsFiled, Counted, Pending;
    var s' := After(s, e, maxCount);
    forall i | 0 <= i < |s'.scanners| ensures !Committed(s', s'.scanners[i], k, maxCount) {
      assert !Committed(s, s.scanners[i], k, maxCount);
    }
  }

  ghost predicate Resent(ss: seq<State>, es: seq<Event>, k: Key) {
    exists n :: 0 <= n < |es| && n < |ss| && Resends(ss[n], es[n], k)
  }

  lemma {:induction false} QuietForGood(ss: seq<State>, es: seq<Event>, k: Key, maxCount: nat, n: nat)
    requires Steps(ss, es, maxCount) && Inv(ss[0], maxCount) && Quiet(ss[0], k, maxCount) && n < |ss|
    ensures Inv(ss[n], maxCount) && Quiet(ss[n], k, maxCount) && (n < |es| ==> !Resends(ss[n], es[n], k))
    decreases n
  {
    hide After, Inv, Quiet, Enabled;
    if n > 0 {
      QuietForGood(ss, es, k, maxCount, n - 1);
      StepKeepsInv(ss[n - 1], es[n - 1], maxCount);
      QuietStays(ss[n - 1], es[n - 1], k, maxCount);
    }
    if n < |es| {
      QuietStays(ss[n], es[n], k, maxCount);
    }
  }

  /** What a committed scan does next. */
  ghost function NextOf(c: Scanner, i: nat): Event {
    if c.Retrying? then Retry(i, true) else if c.Requeued? then PushHeap(i, 0) else WriteConn(i)
  }

  lemma {:induction false} StaysCommitted(s: State, i: nat, k: Key, maxCount: nat)
    requires Registered(s) && At(s, i) && Committed(s, s.scanners[i], k, maxCount)
    ensures var e := NextOf(s.scanners[i], i);
      && Enabled(s, e) && At(After(s, e, maxCount), i) && (e.WriteConn? ==> Resends(s, e, k))
      && var c' := After(s, e, maxCount).scanners[i];
         e.WriteConn? || ((if e.Retry? then c'.Requeued? else c'.Writing?) && c'.k == k)
  {
  }

  /** A scan that is committed can go on to write. */
  lemma {:induction false} CommittedWrites(s: State, i: nat, k: Key, maxCount: nat)
    returns (ss: seq<State>, es: seq<Event>)
    requires Registered(s) && At(s, i) && Committed(s, s.scanners[i], k, maxCount)
    ensures Steps(ss, es, maxCount) && ss[0] == s && Resent(ss, es, k)
    decreases if s.scanners[i].Retrying? then 2 else if s.scanners[i].Requeued? then 1 else 0
  {
    hide After, Enabled, Registered, Resends;
    var e := NextOf(s.scanners[i], i);
    StaysCommitted(s, i, k, maxCount);
    var s' := After(s, e, maxCount);
    if e.WriteConn? {
      ss, es := [s, s'], [e];
      assert Resends(ss[0], es[0], k);
    } else {
      KeepsRegistered(s, e, maxCount);
      var ss', es' := CommittedWrites(s', i, k, maxCount);
      ss, es := [s] + ss', [e] + es';
      var n :| 0 <= n < |es'| && n < |ss'| && Resends(ss'[n], es'[n], k);
      assert Resends(ss[n + 1], es[n + 1], k);
    }
  }

  /** Can anything still be written again from here? */
  ghost predicate CanResend(s: State, k: Key, maxCount: nat) {
    exists ss, es :: Steps(ss, es, maxCount) && ss[0] == s && Resent(ss, es, k)
  }

  /** "Nothing is re-sent once it is acknowledged" fails exactly when the acknowledgement arrives
      while a scan is between finishing the message, with a try left, and writing it: if the
      message is not yet filed again the acknowledgement is refused, otherwise the write follows. */
  lemma {:induction false} ResentAfterAckIff(ss: seq<State>, es: seq<Event>, maxCount: nat, n: nat, k: Key)
    requires Run(ss, es, maxCount) && n < |es| && es[n] == Ack(k) && k in ss[n].known
    ensures CanResend(ss[n + 1], k, maxCount) <==> MayResend(ss[n], k, maxCount)
  {
    ReachableInv(ss, es, maxCount, n);
    ReachableInv(ss, es, maxCount, n + 1);
    var s' := ss[n + 1];
    assert s'.scanners == ss[n].scanners && s'.retry == ss[n].retry && s'.known == ss[n].known && k !in s'.table;
    if MayResend(ss[n], k, maxCount) {
      var i :| 0 <= i < |s'.scanners| && Committed(ss[n], s'.scanners[i], k, maxCount);
      var ss', es' := CommittedWrites(s', i, k, maxCount);
    } else {
      assert Quiet(s', k, maxCount);
      forall ss', es' | Steps(ss', es', maxCount) && ss'[0] == s' ensures !Resent(ss', es', k) {
        forall m | 0 <= m < |es'| && m < |ss'| ensures !Resends(ss'[m], es'[m], k) {
          QuietForGood(ss', es', k, maxCount, m);
        }
      }
    }
  }

  /** Such acknowledgements arrive: here one finds nothing to take out, since a scan has the
      message, and the message can be written again afterwards. */
  lemma {:induction false} AckDuringRetry(a: Key, t: int, maxCount: nat) returns (ss: seq<State>, es: seq<Event>)
    requires 0 < maxCount
    ensures Run(ss, es, maxCount) && |es| == 6 && es[5] == Ack(a) && a in ss[5].known
    ensures MayResend(ss[5], a, maxCount) && CanResend(ss[6], a, maxCount)
  {
    var s0 := State({}, map[], {}, {}, [Off], map[], {}, {}, map[]);
    var s1 := CallStep(s0, AddTable(a));
    var s2 := CallStep(s1, AddHeap(a, t));
    var s3 := ScanStep(s2, Begin(0, t), maxCount);
    var s4 := ScanStep(s3, Shift(0, a), maxCount);
    var s5 := ScanStep(s4, Finish(0), maxCount);
    ss := [s0, s1, s2, s3, s4, s5, CallStep(s5, Ack(a))];
    es := [AddTable(a), AddHeap(a, t), Begin(0, t), Shift(0, a), Finish(0), Ack(a)];
    assert Committed(s5, s5.scanners[0], a, maxCount);
    ResentAfterAckIff(ss, es, maxCount, 5, a);
  }

  // ---------- No message is lost ----------

  /** Filed, but neither on the heap nor on its way there: no scan will ever see it. */
  ghost predicate Lost(s: State, k: Key) {
    k in s.table && !Placed(s, k)
  }

  /** The heap region of an acknowledgement, of a message not yet pushed, that removes another. */
  ghost predicate Steals(s: State, e: Event) {
    e.Unheap? && e.k in s.adding && e.head in s.heap && e.head in s.table
  }

  lemma {:induction false} ScanKeepsPlaced(s: State, e: Event, maxCount: nat, k: Key)
    requires Enabled(s, e) && Scans(e) && IsFiled(s, k) && !Lost(s, k) && k in ScanStep(s, e, maxCount).table
    ensures Placed(ScanStep(s, e, maxCount), k)
  {
    var s' := ScanStep(s, e, maxCount);
    if k !in s.table || e == Shift(e.i, k) {
      assert Holds(s'.scanners[e.i], k);
    } else if Held(s, k) {
      var i :| 0 <= i < |s.scanners| && Holds(s.scanners[i], k);
      assert Holds(s'.scanners[i], k) || k in s'.heap;
    }
  }

  lemma {:induction false} CallKeepsPlaced(s: State, e: Event, k: Key)
    requires Enabled(s, e) && !Scans(e) && Registered(s) && OnePlace(s) && IsFiled(s, k) && !Lost(s, k)
    ensures Lost(CallStep(s, e), k) <==> Steals(s, e) && e.head == k
  {
    hide ScanStep;
    assert CallStep(s, e).scanners == s.scanners;
    assert InOnePlace(s, k) && (e.Unheap? ==> InOnePlace(s, e.k));
  }

  lemma {:induction false} LosingStep(s: State, e: Event, maxCount: nat, k: Key)
    requires Inv(s, maxCount) && Enabled(s, e) && !Lost(s, k)
    ensures Lost(After(s, e, maxCount), k) <==> Steals(s, e) && e.head == k
  {
    hide ScanStep, CallStep, Registered, Counted, Placed, Enabled, InOnePlace, IsFiled;
    assert IsFiled(s, k);
    if !Scans(e) {
      CallKeepsPlaced(s, e, k);
    } else if k in After(s, e, maxCount).table {
      ScanKeepsPlaced(s, e, maxCount, k);
    }
  }

  lemma {:induction false} NothingLostYet(ss: seq<State>, es: seq<Event>, maxCount: nat, n: nat, k: Key)
    requires Run(ss, es, maxCount) && n < |ss| && forall m :: 0 <= m < |es| ==> !Steals(ss[m], es[m])
    ensures !Lost(ss[n], k)
    decreases n
  {
    hide After, Inv, Enabled, Placed;
    if n > 0 {
      NothingLostYet(ss, es, maxCount, n - 1, k);
      ReachableInv(ss, es, maxCount, n - 1);
      LosingStep(ss[n - 1], es[n - 1], maxCount, k);
    }
  }

  /** The two containers agree up to what is under way, in every state, if and only if no
      acknowledgement removes an unacknowledged message from the heap by a stale slot number. */
  lemma {:induction false} NothingLostIff(ss: seq<State>, es: seq<Event>, maxCount: nat)
    requires Run(ss, es, maxCount)
    ensures (forall n, k :: 0 <= n < |ss| ==> !Lost(ss[n], k)) <==>
            (forall n :: 0 <= n < |es| ==> !Steals(ss[n], es[n]))
  {
    hide After, Inv, Enabled, Lost;
    if forall n :: 0 <= n < |es| ==> !Steals(ss[n], es[n]) {
      forall n, k | 0 <= n < |ss| ensures !Lost(ss[n], k) {
        NothingLostYet(ss, es, maxCount, n, k);
      }
    } else {
      var n :| 0 <= n < |es| && Steals(ss[n], es[n]);
      StealingLoses(ss, es, maxCount, n);
      assert 0 <= n + 1 < |ss| && Lost(ss[n + 1], es[n].head);
    }
  }

  lemma {:induction false} StealingLoses(ss: seq<State>, es: seq<Event>, maxCount: nat, n: nat)
    requires Run(ss, es, maxCount) && n < |es| && Steals(ss[n], es[n])
    ensures Lost(ss[n + 1], es[n].head)
  {
    hide After, Inv, Enabled;
    ReachableInv(ss, es, maxCount, n);
    LosingStep(ss[n], es[n], maxCount, es[n].head);
  }

  /** It happens: `b` is acknowledged between the two regions of its addition, and `a` is lost. */
  lemma {:induction false} StaleSlotLosesAnother(a: Key, b: Key, t: int, maxCount: nat)
    returns (ss: seq<State>, es: seq<Event>)
    requires a != b
    ensures Run(ss, es, maxCount) && |es| == 5 && es[3] == Ack(b) && Steals(ss[4], es[4])
    ensures a !in ss[5].acked && Lost(ss[5], a)
  {
    hide ScanStep;
    var s0 := State({}, map[], {}, {}, [Off], map[], {}, {}, map[]);
    var s1 := CallStep(s0, AddTable(a));
    var s2 := CallStep(s1, AddHeap(a, t));
    var s3 := CallStep(s2, AddTable(b));
    var s4 := CallStep(s3, Ack(b));
    ss := [s0, s1, s2, s3, s4, CallStep(s4, Unheap(b, a))];
    es := [AddTable(a), AddHeap(a, t), AddTable(b), Ack(b), Unheap(b, a)];
    StealingLoses(ss, es, maxCount, 4);
  }

  ghost predicate AtRest(s: State) {
    s.adding == {} && forall i, k :: 0 <= i < |s.scanners| ==> !Holds(s.scanners[i], k)
  }

  /** When no addition or scan is under way, the table holds exactly the messages on the heap that
      were not acknowledged. */
  lemma {:induction false} AgreeAtRest(ss: seq<State>, es: seq<Event>, maxCount: nat, n: nat)
    requires Run(ss, es, maxCount) && n < |ss| && AtRest(ss[n])
    requires forall m :: 0 <= m < |es| ==> !Steals(ss[m], es[m])
    ensures ss[n].table == ss[n].heap.Keys - ss[n].acked
  {
    ReachableInv(ss, es, maxCount, n);
    forall k ensures k in ss[n].table <==> k in ss[n].heap && k !in ss[n].acked {
      NothingLostYet(ss, es, maxCount, n, k);
      assert IsFiled(ss[n], k);
    }
  }
}
