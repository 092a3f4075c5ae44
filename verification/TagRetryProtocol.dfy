/** The channel-tag invalidation queue (internal/api/channel_tag_retry.go) as a concurrent
    protocol: callers of `Enqueue`, one dispatcher and a fixed number of workers, interleaved
    at the granularity of the mutex regions and channel operations. */
module TagRetryProtocol {
  import opened Common

  /** An invalidation that is still owed. Items that are not in flight are the heap. */
  datatype Item = Item(generation: nat, attempts: nat, due: int, inFlight: bool)

  datatype Job = Job(target: Chan, generation: nat)

  type Items = map<Chan, Item>

  /** Delay before the next attempt, in milliseconds. */
  function Backoff(attempt: nat): nat {
    match attempt
    case 1 => 200
    case 2 => 1000
    case 3 => 3000
    case 4 => 10000
    case _ => 30000
  }

  // ---------- The three mutex regions, on the item table ----------

  function Enqueued(items: Items, t: Chan, now: int): Items {
    if t !in items then items[t := Item(1, 0, now, false)]
    else items[t := items[t].(generation := items[t].generation + 1, attempts := 0, due := now)]
  }

  predicate Pending(items: Items, t: Chan) {
    t in items && !items[t].inFlight
  }

  /** `t` may be at the top of the heap. */
  ghost predicate IsHead(items: Items, t: Chan) {
    Pending(items, t) && forall u :: Pending(items, u) ==> items[t].due <= items[u].due
  }

  function Dispatched(items: Items, t: Chan): Items
    requires t in items
  {
    items[t := items[t].(inFlight := true)]
  }

  function Completed(items: Items, job: Job, ok: bool, now: int): Items {
    var t := job.target;
    if t !in items then items
    else if items[t].generation != job.generation then
      items[t := items[t].(inFlight := false, attempts := 0, due := now)]
    else if ok then items - {t}
    else
      var n := items[t].attempts + 1;
      items[t := items[t].(inFlight := false, attempts := n, due := now + Backoff(n))]
  }

  // ---------- The threads ----------

  datatype Dispatcher =
    | Looking                     // about to take the mutex
    | WaitingForWork              // saw an empty heap, blocked on wake or stop
    | WaitingUntil(due: int)      // saw a later head, blocked on timer, wake or stop
    | Sending(job: Job)           // popped a job, blocked on the job channel or stop
    | DispatcherGone

  /** `began` and `ended` are the steps at which the invalidation call started and returned. */
  datatype Worker =
    | Ready
    | Invalidating(job: Job, began: nat)
    | Returned(job: Job, ok: bool, began: nat, ended: nat)
    | Notifying                   // left the mutex, has not called notify yet
    | WorkerGone

  datatype State = State(
    items: Items,
    stopped: bool,                // set under the mutex
    closed: bool,                 // the stop channel is closed
    wake: bool,                   // the one-element wake channel holds a token
    notifying: nat,               // callers of Enqueue between unlock and notify
    clock: int,
    dispatcher: Dispatcher,
    jobs: seq<Job>,               // the job channel, with one slot per worker
    workers: seq<Worker>,
    step: nat,                    // history: how many steps were taken
    lastEnqueue: map<Chan, nat> // history: the step of the last accepted Enqueue
  )

  /** Steps of callers, of the code that stops the queue, and of time itself. */
  datatype CallerStep =
    | Enqueue(target: Chan, now: int)
    | EnqueueRefused(target: Chan)
    | Notify
    | MarkStopped
    | CloseStop
    | Tick(clock: int)

  datatype DispatcherStep =
    | Look(head: Chan)
    | LookEmpty
    | TakeWake
    | TimerFires
    | Send
    | Stop

  datatype WorkerStep =
    | Receive(job: Job)
    | Return(ok: bool)
    | Complete
    | NotifyDone
    | Leave

  datatype Event = Caller(c: CallerStep) | Dispatch(d: DispatcherStep) | Work(id: nat, w: WorkerStep)

  ghost predicate CallerCan(s: State, c: CallerStep) {
    match c
    case Enqueue(_, now) => !s.stopped && now <= s.clock
    case EnqueueRefused(_) => s.stopped
    case Notify => 0 < s.notifying
    case MarkStopped => true
    case CloseStop => s.stopped
    case Tick(clock) => s.clock <= clock
  }

  ghost function CallerDoes(s: State, c: CallerStep): (s': State)
    requires CallerCan(s, c)
    ensures s'.workers == s.workers && s'.dispatcher == s.dispatcher && s'.jobs == s.jobs && s'.step == s.step
  {
    match c
    case Enqueue(t, now) =>
      s.(items := Enqueued(s.items, t, now), notifying := s.notifying + 1, lastEnqueue := s.lastEnqueue[t := s.step])
    case EnqueueRefused(_) => s
    case Notify => s.(notifying := s.notifying - 1, wake := true)
    case MarkStopped => s.(stopped := true)
    case CloseStop => s.(closed := true)
    case Tick(clock) => s.(clock := clock)
  }

  ghost predicate DispatcherCan(s: State, d: DispatcherStep) {
    match d
    case Look(head) => s.dispatcher.Looking? && IsHead(s.items, head)
    case LookEmpty => s.dispatcher.Looking? && forall t :: !Pending(s.items, t)
    case TakeWake => (s.dispatcher.WaitingForWork? || s.dispatcher.WaitingUntil?) && s.wake
    case TimerFires => s.dispatcher.WaitingUntil? && s.dispatcher.due <= s.clock
    case Send => s.dispatcher.Sending? && |s.jobs| < |s.workers|
    case Stop => s.closed && !s.dispatcher.Looking? && !s.dispatcher.DispatcherGone?
  }

  ghost function DispatcherDoes(s: State, d: DispatcherStep): (s': State)
    requires DispatcherCan(s, d)
    ensures s'.workers == s.workers && s'.lastEnqueue == s.lastEnqueue && s'.step == s.step
  {
    match d
    case Look(head) =>
      if s.clock < s.items[head].due then s.(dispatcher := WaitingUntil(s.items[head].due))
      else s.(items := Dispatched(s.items, head), dispatcher := Sending(Job(head, s.items[head].generation)))
    case LookEmpty => s.(dispatcher := WaitingForWork)
    case TakeWake => s.(wake := false, dispatcher := Looking)
    case TimerFires => s.(dispatcher := Looking)
    case Send => s.(jobs := s.jobs + [s.dispatcher.job], dispatcher := Looking)
    case Stop => s.(dispatcher := DispatcherGone)
  }

  ghost predicate WorkerCan(s: State, id: nat, w: WorkerStep) {
    id < |s.workers| &&
    match w
    case Receive(job) => s.workers[id].Ready? && s.jobs != [] && s.jobs[0] == job
    case Return(_) => s.workers[id].Invalidating?
    case Complete => s.workers[id].Returned?
    case NotifyDone => s.workers[id].Notifying?
    case Leave => s.workers[id].Ready? && s.closed
  }

  ghost function WorkerDoes(s: State, id: nat, w: WorkerStep): (s': State)
    requires WorkerCan(s, id, w)
    ensures |s'.workers| == |s.workers| && s'.workers == s.workers[id := s'.workers[id]]
    ensures s'.dispatcher == s.dispatcher && s'.lastEnqueue == s.lastEnqueue && s'.step == s.step
  {
    match w
    case Receive(job) => s.(jobs := s.jobs[1..], workers := s.workers[id := Invalidating(job, s.step)])
    case Return(ok) =>
      s.(workers := s.workers[id := Returned(s.workers[id].job, ok, s.workers[id].began, s.step)])
    case Complete =>
      var job := s.workers[id].job;
      s.(items := Completed(s.items, job, s.workers[id].ok, s.clock),
         workers := s.workers[id := if job.target in s.items then Notifying else Ready])
    case NotifyDone => s.(wake := true, workers := s.workers[id := Ready])
    case Leave => s.(workers := s.workers[id := WorkerGone])
  }

  ghost predicate Enabled(s: State, e: Event) {
    match e
    case Caller(c) => CallerCan(s, c)
    case Dispatch(d) => DispatcherCan(s, d)
    case Work(id, w) => WorkerCan(s, id, w)
  }

  ghost function Next(s: State, e: Event): State
    requires Enabled(s, e)
  {
    var s' := match e
      case Caller(c) => CallerDoes(s, c)
      case Dispatch(d) => DispatcherDoes(s, d)
      case Work(id, w) => WorkerDoes(s, id, w);
    s'.(step := s.step + 1)
  }

  ghost predicate Init(s: State) {
    && s.items == map[] && !s.stopped && !s.closed && !s.wake && s.notifying == 0
    && s.dispatcher.Looking? && s.jobs == [] && 0 < |s.workers|
    && (forall w :: 0 <= w < |s.workers| ==> s.workers[w].Ready?)
    && s.step == 0 && s.lastEnqueue == map[]
  }

  // ---------- Outstanding jobs ----------

  /** The places where a popped job can be. */
  datatype Slot = AtDispatcher | InChannel(i: nat) | AtWorker(w: nat)

  ghost function JobAt(s: State, p: Slot): Maybe<Job> {
    match p
    case AtDispatcher => if s.dispatcher.Sending? then Some(s.dispatcher.job) else None
    case InChannel(i) => if i < |s.jobs| then Some(s.jobs[i]) else None
    case AtWorker(w) =>
      if w < |s.workers| && (s.workers[w].Invalidating? || s.workers[w].Returned?) then Some(s.workers[w].job) else None
  }

  ghost predicate JobFor(s: State, p: Slot, t: Chan) {
    JobAt(s, p).Some? && JobAt(s, p).value.target == t
  }

  /** Every outstanding job belongs to an item in flight, and no two to the same item. */
  ghost predicate JobsOwnItems(s: State) {
    && (forall p :: JobAt(s, p).Some? ==>
          var job := JobAt(s, p).value;
          job.target in s.items && s.items[job.target].inFlight && job.generation <= s.items[job.target].generation)
    && (forall p, q, t :: JobFor(s, p, t) && JobFor(s, q, t) ==> p == q)
  }

  /** Until the dispatcher has stopped, every item in flight has its job somewhere. */
  ghost predicate NoJobLost(s: State) {
    !s.dispatcher.DispatcherGone? ==>
      forall t :: t in s.items && s.items[t].inFlight ==> exists p :: JobFor(s, p, t)
  }

  /** An invalidation whose generation is still current began after the last Enqueue. */
  ghost predicate CurrentIsRecent(s: State) {
    && (forall t :: t in s.items ==> t in s.lastEnqueue)
    && (forall t :: t in s.lastEnqueue ==> s.lastEnqueue[t] < s.step)
    && (forall w :: 0 <= w < |s.workers| && (s.workers[w].Invalidating? || s.workers[w].Returned?) ==>
          var job := s.workers[w].job;
          && s.workers[w].began < s.step
          && (job.target in s.items && job.generation == s.items[job.target].generation ==>
                s.lastEnqueue[job.target] < s.workers[w].began))
  }

  /** Someone will put a token into the wake channel, or one is there. */
  ghost predicate WakeComing(s: State) {
    s.wake || 0 < s.notifying || exists w :: 0 <= w < |s.workers| && s.workers[w].Notifying?
  }

  /** A dispatcher asleep on an outdated view of the heap is about to be woken. */
  ghost predicate NoLostWakeup(s: State) {
    && (s.dispatcher.WaitingForWork? && (exists t :: Pending(s.items, t)) ==> WakeComing(s))
    && (s.dispatcher.WaitingUntil? && (exists t :: Pending(s.items, t) && s.items[t].due < s.dispatcher.due) ==>
          WakeComing(s))
  }

  /** The job channel never holds more than one job per worker, and threads leave only after
      the stop channel is closed. */
  ghost predicate Sizes(s: State) {
    && 0 < |s.workers| && |s.jobs| <= |s.workers| && (s.dispatcher.DispatcherGone? ==> s.closed)
    && (forall w :: 0 <= w < |s.workers| && s.workers[w].WorkerGone? ==> s.closed)
  }

  ghost predicate Inv(s: State) {
    Sizes(s) && JobsOwnItems(s) && NoJobLost(s) && CurrentIsRecent(s) && NoLostWakeup(s)
  }

  // ---------- Every step keeps the invariant ----------

  lemma {:induction false} CallerKeepsJobs(s: State, c: CallerStep)
    requires JobsOwnItems(s) && NoJobLost(s) && CallerCan(s, c)
    ensures var s' := Next(s, Caller(c)); JobsOwnItems(s') && NoJobLost(s')
  {
    var s' := Next(s, Caller(c));
    assert forall p :: JobAt(s', p) == JobAt(s, p);
    assert forall p, t :: JobFor(s', p, t) == JobFor(s, p, t);
  }

  lemma {:induction false} CallerKeepsRest(s: State, c: CallerStep)
    requires JobsOwnItems(s) && CurrentIsRecent(s) && NoLostWakeup(s) && CallerCan(s, c)
    ensures var s' := Next(s, Caller(c)); CurrentIsRecent(s') && NoLostWakeup(s')
  {
    var s' := Next(s, Caller(c));
    forall w | 0 <= w < |s.workers| && (s.workers[w].Invalidating? || s.workers[w].Returned?)
      ensures var job := s.workers[w].job;
        job.target in s'.items && job.generation == s'.items[job.target].generation ==>
          s'.lastEnqueue[job.target] < s.workers[w].began
    {
      assert JobAt(s, AtWorker(w)).Some?;
    }
  }

  ghost predicate Pops(s: State, d: DispatcherStep)
    requires DispatcherCan(s, d)
  {
    d.Look? && s.items[d.head].due <= s.clock
  }

  lemma {:induction false} DispatcherMovesJobs(s: State, d: DispatcherStep, p: Slot)
    requires DispatcherCan(s, d) && JobAt(Next(s, Dispatch(d)), p).Some? && !(Pops(s, d) && p.AtDispatcher?)
    ensures JobAt(Next(s, Dispatch(d)), p) == JobAt(s, if d.Send? && p == InChannel(|s.jobs|) then AtDispatcher else p)
  {
  }

  lemma {:induction false} DispatcherKeepsOwners(s: State, d: DispatcherStep)
    requires JobsOwnItems(s) && DispatcherCan(s, d)
    ensures JobsOwnItems(Next(s, Dispatch(d)))
  {
    var s' := Next(s, Dispatch(d));
    forall p | JobAt(s', p).Some?
      ensures var job := JobAt(s', p).value;
        job.target in s'.items && s'.items[job.target].inFlight && job.generation <= s'.items[job.target].generation
    {
      if !(Pops(s, d) && p.AtDispatcher?) {
        DispatcherMovesJobs(s, d, p);
      }
    }
    forall p, q, t | JobFor(s', p, t) && JobFor(s', q, t) ensures p == q {
      if !(Pops(s, d) && p.AtDispatcher?) {
        DispatcherMovesJobs(s, d, p);
        assert JobFor(s, if d.Send? && p == InChannel(|s.jobs|) then AtDispatcher else p, t);
      }
      if !(Pops(s, d) && q.AtDispatcher?) {
        DispatcherMovesJobs(s, d, q);
        assert JobFor(s, if d.Send? && q == InChannel(|s.jobs|) then AtDispatcher else q, t);
      }
    }
  }

  lemma {:induction false} DispatcherKeepsNoJobLost(s: State, d: DispatcherStep)
    requires NoJobLost(s) && DispatcherCan(s, d)
    ensures NoJobLost(Next(s, Dispatch(d)))
  {
    var s' := Next(s, Dispatch(d));
    if !s'.dispatcher.DispatcherGone? {
      forall t | t in s'.items && s'.items[t].inFlight ensures exists p :: JobFor(s', p, t) {
        if Pops(s, d) && t == d.head {
          assert JobFor(s', AtDispatcher, t);
        } else {
          var p :| JobFor(s, p, t);
          assert JobFor(s', if d.Send? && p.AtDispatcher? then InChannel(|s.jobs|) else p, t);
        }
      }
    }
  }

  lemma {:induction false} DispatcherKeepsRecent(s: State, d: DispatcherStep)
    requires CurrentIsRecent(s) && DispatcherCan(s, d)
    ensures CurrentIsRecent(Next(s, Dispatch(d)))
  {
  }

  lemma {:induction false} DispatcherKeepsWakeups(s: State, d: DispatcherStep)
    requires NoLostWakeup(s) && DispatcherCan(s, d)
    ensures NoLostWakeup(Next(s, Dispatch(d)))
  {
  }

  /** Where the job that is at `p` after the worker's step was before it. */
  ghost function BeforeReceive(id: nat, w: WorkerStep, p: Slot): Slot {
    if !w.Receive? then p
    else if p == AtWorker(id) then InChannel(0)
    else if p.InChannel? then InChannel(p.i + 1)
    else p
  }

  lemma {:induction false} WorkerMovesJobs(s: State, id: nat, w: WorkerStep, p: Slot)
    requires WorkerCan(s, id, w) && JobAt(Next(s, Work(id, w)), p).Some?
    ensures JobAt(Next(s, Work(id, w)), p) == JobAt(s, BeforeReceive(id, w, p))
    ensures w.Complete? ==> p != AtWorker(id)
  {
  }

  lemma {:induction false} WorkerKeepsOwners(s: State, id: nat, w: WorkerStep)
    requires JobsOwnItems(s) && WorkerCan(s, id, w)
    ensures JobsOwnItems(Next(s, Work(id, w)))
  {
    var s' := Next(s, Work(id, w));
    forall p | JobAt(s', p).Some?
      ensures var job := JobAt(s', p).value;
        job.target in s'.items && s'.items[job.target].inFlight && job.generation <= s'.items[job.target].generation
    {
      WorkerMovesJobs(s, id, w, p);
      if w.Complete? {
        assert JobFor(s, p, JobAt(s, p).value.target) && JobFor(s, AtWorker(id), s.workers[id].job.target);
      }
    }
    forall p, q, t | JobFor(s', p, t) && JobFor(s', q, t) ensures p == q {
      WorkerMovesJobs(s, id, w, p);
      WorkerMovesJobs(s, id, w, q);
      assert JobFor(s, BeforeReceive(id, w, p), t) && JobFor(s, BeforeReceive(id, w, q), t);
    }
  }

  lemma {:induction false} WorkerKeepsNoJobLost(s: State, id: nat, w: WorkerStep)
    requires JobsOwnItems(s) && NoJobLost(s) && WorkerCan(s, id, w)
    ensures NoJobLost(Next(s, Work(id, w)))
  {
    var s' := Next(s, Work(id, w));
    if !s'.dispatcher.DispatcherGone? {
      forall t | t in s'.items && s'.items[t].inFlight ensures exists p :: JobFor(s', p, t) {
        var p :| JobFor(s, p, t);
        var q := if !w.Receive? || !p.InChannel? then p else if p.i == 0 then AtWorker(id) else InChannel(p.i - 1);
        assert JobFor(s', q, t);
      }
    }
  }

  lemma {:induction false} WorkerKeepsRecent(s: State, id: nat, w: WorkerStep)
    requires JobsOwnItems(s) && CurrentIsRecent(s) && WorkerCan(s, id, w)
    ensures CurrentIsRecent(Next(s, Work(id, w)))
  {
    if w.Complete? {
      forall v | 0 <= v < |s.workers| && v != id && (s.workers[v].Invalidating? || s.workers[v].Returned?)
        ensures s.workers[v].job.target != s.workers[id].job.target
      {
        assert JobFor(s, AtWorker(v), s.workers[v].job.target) && JobFor(s, AtWorker(id), s.workers[id].job.target);
      }
    }
  }

  lemma {:induction false} WorkerKeepsWakeups(s: State, id: nat, w: WorkerStep)
    requires JobsOwnItems(s) && NoLostWakeup(s) && WorkerCan(s, id, w)
    ensures NoLostWakeup(Next(s, Work(id, w)))
  {
    var s' := Next(s, Work(id, w));
    if v :| 0 <= v < |s.workers| && s.workers[v].Notifying? {
      assert v == id || s'.workers[v].Notifying?;
    }
    if w.Complete? {
      assert JobAt(s, AtWorker(id)).Some?;
      assert s'.workers[id].Notifying?;
    }
  }

  lemma {:induction false} CallerKeepsSizes(s: State, c: CallerStep)
    requires Sizes(s) && CallerCan(s, c)
    ensures var s' := Next(s, Caller(c));
      Sizes(s') && |s'.workers| == |s.workers| && s'.step == s.step + 1
  {
  }

  lemma {:induction false} CallerKeepsInv(s: State, c: CallerStep)
    requires Inv(s) && CallerCan(s, c)
    ensures var s' := Next(s, Caller(c)); Inv(s') && |s'.workers| == |s.workers| && s'.step == s.step + 1
  {
    CallerKeepsSizes(s, c);
    CallerKeepsJobs(s, c);
    CallerKeepsRest(s, c);
  }

  lemma {:induction false} DispatcherKeepsSizes(s: State, d: DispatcherStep)
    requires Sizes(s) && DispatcherCan(s, d)
    ensures var s' := Next(s, Dispatch(d));
      Sizes(s') && |s'.workers| == |s.workers| && s'.step == s.step + 1
  {
  }

  lemma {:induction false} DispatcherKeepsInv(s: State, d: DispatcherStep)
    requires Inv(s) && DispatcherCan(s, d)
    ensures var s' := Next(s, Dispatch(d)); Inv(s') && |s'.workers| == |s.workers| && s'.step == s.step + 1
  {
    DispatcherKeepsSizes(s, d);
    DispatcherKeepsOwners(s, d);
    DispatcherKeepsNoJobLost(s, d);
    DispatcherKeepsRecent(s, d);
    DispatcherKeepsWakeups(s, d);
  }

  lemma {:induction false} WorkerKeepsSizes(s: State, id: nat, w: WorkerStep)
    requires Sizes(s) && WorkerCan(s, id, w)
    ensures var s' := Next(s, Work(id, w));
      Sizes(s') && |s'.workers| == |s.workers| && s'.step == s.step + 1
  {
  }

  lemma {:induction false} WorkerKeepsInv(s: State, id: nat, w: WorkerStep)
    requires Inv(s) && WorkerCan(s, id, w)
    ensures var s' := Next(s, Work(id, w)); Inv(s') && |s'.workers| == |s.workers| && s'.step == s.step + 1
  {
    WorkerKeepsSizes(s, id, w);
    WorkerKeepsOwners(s, id, w);
    WorkerKeepsNoJobLost(s, id, w);
    WorkerKeepsRecent(s, id, w);
    WorkerKeepsWakeups(s, id, w);
  }

  lemma {:induction false} StepKeepsInv(s: State, e: Event)
    requires Inv(s) && Enabled(s, e)
    ensures var s' := Next(s, e); Inv(s') && |s'.workers| == |s.workers| && s'.step == s.step + 1
  {
    match e
    case Caller(c) => CallerKeepsInv(s, c);
    case Dispatch(d) => DispatcherKeepsInv(s, d);
    case Work(id, w) => WorkerKeepsInv(s, id, w);
  }

  /** A failed invalidation is tried again, later each time up to half a minute. */
  lemma {:induction false} FailureIsRetried(items: Items, job: Job, now: int)
    requires job.target in items && items[job.target].generation == job.generation
    ensures var was, next := items[job.target], Completed(items, job, false, now)[job.target];
      && !next.inFlight && next.attempts == was.attempts + 1 && next.generation == was.generation
      && now + 200 <= next.due <= now + 30000
      && (0 < was.attempts ==> now + Backoff(was.attempts) <= next.due)
  {
  }

  // ---------- Whole runs ----------

  ghost predicate Run(ss: seq<State>, es: seq<Event>) {
    && |ss| == |es| + 1 && Init(ss[0])
    && forall i :: 0 <= i < |es| ==> Enabled(ss[i], es[i]) && ss[i + 1] == Next(ss[i], es[i])
  }

  /** Every state of every interleaving satisfies the invariant: jobs and items in flight
      correspond one to one, and no wakeup is lost. */
  lemma {:induction false} ReachableInv(ss: seq<State>, es: seq<Event>, i: nat)
    requires Run(ss, es) && i < |ss|
    ensures Inv(ss[i]) && |ss[i].workers| == |ss[0].workers| && ss[i].step == i
    decreases i
  {
    if i > 0 {
      ReachableInv(ss, es, i - 1);
      StepKeepsInv(ss[i - 1], es[i - 1]);
    }
  }

  ghost predicate IsEnqueue(e: Event, t: Chan) {
    e.Caller? && e.c.Enqueue? && e.c.target == t
  }

  ghost predicate IsWorkOf(e: Event, w: nat) {
    e.Work? && e.id == w
  }

  /** The recorded step of the last Enqueue of `t` is what the events say. */
  ghost predicate LastEnqueueAt(es: seq<Event>, t: Chan, k: nat) {
    k < |es| && IsEnqueue(es[k], t) && forall j :: k < j < |es| ==> !IsEnqueue(es[j], t)
  }

  /** What worker `w` remembers about its invalidation is what the events say. */
  ghost predicate Remembers(es: seq<Event>, w: nat, worker: Worker) {
    match worker
    case Invalidating(job, b) =>
      b < |es| && es[b] == Work(w, Receive(job)) && forall j :: b < j < |es| ==> !IsWorkOf(es[j], w)
    case Returned(job, ok, b, r) =>
      && b < r < |es| && es[b] == Work(w, Receive(job)) && es[r] == Work(w, Return(ok))
      && forall j :: b < j < |es| && j != r ==> !IsWorkOf(es[j], w)
    case _ => true
  }

  ghost predicate Honest(es: seq<Event>, s: State) {
    && |es| == s.step
    && (forall t :: t in s.lastEnqueue ==> LastEnqueueAt(es, t, s.lastEnqueue[t]))
    && (forall w :: 0 <= w < |s.workers| ==> Remembers(es, w, s.workers[w]))
  }

  /** A step counts itself, and changes only its own thread's part of the history. */
  lemma {:induction false} StepRecords(s: State, e: Event)
    requires Enabled(s, e)
    ensures var s' := Next(s, e);
      && s'.step == s.step + 1 && |s'.workers| == |s.workers|
      && (forall w :: 0 <= w < |s.workers| && !IsWorkOf(e, w) ==> s'.workers[w] == s.workers[w])
      && (s'.lastEnqueue == if e.Caller? && e.c.Enqueue? then s.lastEnqueue[e.c.target := s.step] else s.lastEnqueue)
  {
    match e
    case Caller(c) =>
    case Dispatch(d) =>
    case Work(id, w) =>
  }

  lemma {:induction false} WorkerRemembers(es: seq<Event>, s: State, id: nat, w: WorkerStep)
    requires WorkerCan(s, id, w) && |es| == s.step && Remembers(es, id, s.workers[id])
    ensures Remembers(es + [Work(id, w)], id, Next(s, Work(id, w)).workers[id])
  {
  }

  lemma {:induction false} StepKeepsHonest(es: seq<Event>, s: State, e: Event)
    requires Honest(es, s) && Enabled(s, e)
    ensures Honest(es + [e], Next(s, e))
  {
    var es', s' := es + [e], Next(s, e);
    StepRecords(s, e);
    forall t | t in s'.lastEnqueue ensures LastEnqueueAt(es', t, s'.lastEnqueue[t]) {
      if !IsEnqueue(e, t) {
        assert LastEnqueueAt(es, t, s.lastEnqueue[t]);
      }
    }
    forall w | 0 <= w < |s'.workers| ensures Remembers(es', w, s'.workers[w]) {
      assert Remembers(es, w, s.workers[w]);
      if IsWorkOf(e, w) {
        WorkerRemembers(es, s, w, e.w);
      }
    }
  }

  lemma {:induction false} RunIsHonest(ss: seq<State>, es: seq<Event>, i: nat)
    requires Run(ss, es) && i < |ss|
    ensures Honest(es[..i], ss[i])
    decreases i
  {
    if i > 0 {
      RunIsHonest(ss, es, i - 1);
      StepKeepsHonest(es[..i - 1], ss[i - 1], es[i - 1]);
      assert es[..i] == es[..i - 1] + [es[i - 1]];
    }
  }

  lemma {:induction false} WorkerRemoves(s: State, id: nat, w: WorkerStep, t: Chan)
    requires JobsOwnItems(s) && CurrentIsRecent(s) && WorkerCan(s, id, w)
    requires t in s.items && t !in Next(s, Work(id, w)).items
    ensures w.Complete? && s.workers[id].Returned? && s.workers[id].ok && s.workers[id].job.target == t
    ensures s.lastEnqueue[t] < s.workers[id].began
  {
  }

  /** Only a worker whose invalidation succeeded at the current generation removes an item. */
  lemma {:induction false} OnlyCompleteRemoves(s: State, e: Event, t: Chan)
    requires Inv(s) && Enabled(s, e) && t in s.items && t !in Next(s, e).items
    ensures e.Work? && e.w.Complete?
    ensures var w := s.workers[e.id];
      w.Returned? && w.ok && w.job.target == t && s.lastEnqueue[t] < w.began
  {
    hide WorkerDoes, JobsOwnItems, NoJobLost, CurrentIsRecent, NoLostWakeup;
    match e
    case Caller(c) =>
    case Dispatch(d) =>
    case Work(id, w) => WorkerRemoves(s, id, w, t);
  }

  /** A worker goes on holding its job as long as it takes no step but returning. */
  lemma {:induction false} WorkerHoldsJob(ss: seq<State>, es: seq<Event>, w: nat, b: nat, job: Job, i: nat)
    requires Run(ss, es) && b < i < |ss| && es[b] == Work(w, Receive(job))
    requires forall j :: b < j < i && IsWorkOf(es[j], w) ==> es[j].w.Return?
    ensures w < |ss[i].workers| && JobAt(ss[i], AtWorker(w)) == Some(job)
    decreases i
  {
    assert Enabled(ss[i - 1], es[i - 1]) && ss[i] == Next(ss[i - 1], es[i - 1]);
    StepRecords(ss[i - 1], es[i - 1]);
    if b < i - 1 {
      WorkerHoldsJob(ss, es, w, b, job, i - 1);
    }
  }

  /** Step `i` removes `t` on the strength of an invalidation of `t` by worker `w` that was
      received at step `b` and returned nil at step `r`. */
  ghost predicate Justifies(es: seq<Event>, i: nat, t: Chan, w: nat, b: nat, r: nat)
    requires i < |es|
  {
    && b < r < i && es[i] == Work(w, Complete) && es[r] == Work(w, Return(true))
    && es[b].Work? && es[b].id == w && es[b].w.Receive? && es[b].w.job.target == t
    && (forall j :: b < j < i && j != r ==> !IsWorkOf(es[j], w))
    && (forall j :: b <= j < i ==> !IsEnqueue(es[j], t))
  }

  /** No membership change is ever discarded: in every interleaving a target stops being owed
      only after an invalidation of it that began after its last Enqueue returned nil, and the
      item was owed throughout that call, so no stale job completes against a later item. */
  lemma {:induction false} OwedUntilInvalidated(ss: seq<State>, es: seq<Event>, i: nat, t: Chan)
      returns (w: nat, b: nat, r: nat)
    requires Run(ss, es) && i < |es| && t in ss[i].items && t !in ss[i + 1].items
    ensures Justifies(es, i, t, w, b, r)
    ensures forall j :: b < j <= i ==> t in ss[j].items && ss[j].items[t].inFlight
  {
    var s := ss[i];
    ReachableInv(ss, es, i);
    RunIsHonest(ss, es, i);
    assert Enabled(s, es[i]) && ss[i + 1] == Next(s, es[i]);
    OnlyCompleteRemoves(s, es[i], t);
    w := es[i].id;
    assert Remembers(es[..i], w, s.workers[w]);
    assert LastEnqueueAt(es[..i], t, s.lastEnqueue[t]);
    b, r := s.workers[w].began, s.workers[w].ended;
    assert forall j :: 0 <= j < i ==> es[..i][j] == es[j];
    forall j | b < j <= i ensures t in ss[j].items && ss[j].items[t].inFlight {
      WorkerHoldsJob(ss, es, w, b, s.workers[w].job, j);
      ReachableInv(ss, es, j);
    }
  }

  /** Whatever completes finds its own item, in flight: neither the lookup that finds nothing
      nor a second push of a queued item can happen. */
  lemma {:induction false} CompleteFindsItsItem(ss: seq<State>, es: seq<Event>, i: nat)
    requires Run(ss, es) && i < |es| && es[i].Work? && es[i].w.Complete?
    ensures var job := ss[i].workers[es[i].id].job;
      job.target in ss[i].items && ss[i].items[job.target].inFlight
  {
    ReachableInv(ss, es, i);
    assert Enabled(ss[i], es[i]);
    assert JobAt(ss[i], AtWorker(es[i].id)).Some?;
  }

  // ---------- Bounded work ----------

  lemma {:induction false} ImageSize<T>(f: nat -> T, n: nat)
    ensures |set i | 0 <= i < n :: f(i)| <= n
    decreases n
  {
    if n > 0 {
      ImageSize(f, n - 1);
      assert (set i | 0 <= i < n :: f(i)) == (set i | 0 <= i < n - 1 :: f(i)) + {f(n - 1)};
    }
  }

  ghost function InFlight(s: State): set<Chan> {
    set t | t in s.items && s.items[t].inFlight
  }

  /** While the dispatcher runs, the slots that a job can be in are counted. */
  lemma {:induction false} InFlightHaveSlots(s: State)
    requires Inv(s) && !s.dispatcher.DispatcherGone?
    ensures |InFlight(s)| <= 2 * |s.workers| + 1
  {
    var n := |s.workers|;
    var slot := (k: nat) => if k == 0 then AtDispatcher else if k <= n then InChannel(k - 1) else AtWorker(k - 1 - n);
    var at := (k: nat) => if JobAt(s, slot(k)).Some? then JobAt(s, slot(k)).value.target else Chan("", 0);
    var all := set k | 0 <= k < 2 * n + 1 :: at(k);
    ImageSize(at, 2 * n + 1);
    forall t | t in InFlight(s) ensures t in all {
      var p :| JobFor(s, p, t);
      var k := match p case AtDispatcher => 0 case InChannel(j) => j + 1 case AtWorker(w) => w + 1 + n;
      assert slot(k) == p && at(k) == t;
    }
    SubsetSize(InFlight(s), all);
  }

  lemma {:induction false} WorkerAddsNothing(s: State, id: nat, w: WorkerStep)
    requires WorkerCan(s, id, w)
    ensures InFlight(Next(s, Work(id, w))) <= InFlight(s)
  {
  }

  lemma {:induction false} CallerAddsNothing(s: State, c: CallerStep)
    requires CallerCan(s, c)
    ensures InFlight(Next(s, Caller(c))) <= InFlight(s)
  {
  }

  /** Only the dispatcher puts items in flight. */
  lemma {:induction false} GoneAddsNothing(s: State, e: Event)
    requires Enabled(s, e) && Next(s, e).dispatcher.DispatcherGone?
    ensures InFlight(Next(s, e)) <= InFlight(s)
  {
    hide WorkerDoes, CallerDoes;
    match e
    case Caller(c) => CallerAddsNothing(s, c);
    case Dispatch(d) => assert d.Stop?;
    case Work(id, w) => WorkerAddsNothing(s, id, w);
  }

  /** However many channels are queued, at most two jobs per worker and one at the dispatcher
      are under way; and after the dispatcher has stopped, no more than were then. */
  lemma {:induction false} InFlightIsBounded(ss: seq<State>, es: seq<Event>, i: nat)
    requires Run(ss, es) && i < |ss|
    ensures |InFlight(ss[i])| <= 2 * |ss[0].workers| + 1
    decreases i
  {
    ReachableInv(ss, es, i);
    if !ss[i].dispatcher.DispatcherGone? {
      InFlightHaveSlots(ss[i]);
    } else {
      InFlightIsBounded(ss, es, i - 1);
      GoneAddsNothing(ss[i - 1], es[i - 1]);
      SubsetSize(InFlight(ss[i]), InFlight(ss[i - 1]));
    }
  }

  lemma {:induction false} SubsetSize<T>(a: set<T>, b: set<T>)
    requires a <= b
    ensures |a| <= |b|
    decreases a
  {
    if x :| x in a {
      SubsetSize(a - {x}, b - {x});
    }
  }

  // ---------- No deadlock ----------

  /** A step of the queue itself, as opposed to its users and the passing of time. */
  ghost predicate IsInternal(e: Event) {
    !e.Caller? || e.c.Notify?
  }

  /** While anything that is owed is due or in flight and the queue is not being stopped, some
      thread can take a step. */
  lemma {:induction false} NeverStuck(ss: seq<State>, es: seq<Event>, i: nat, t: Chan) returns (e: Event)
    requires Run(ss, es) && i < |ss| && !ss[i].closed
    requires t in ss[i].items && (ss[i].items[t].inFlight || ss[i].items[t].due <= ss[i].clock)
    ensures IsInternal(e) && Enabled(ss[i], e)
  {
    ReachableInv(ss, es, i);
    var s := ss[i];
    if 0 < s.notifying {
      return Caller(Notify);
    }
    if w :| 0 <= w < |s.workers| && !s.workers[w].Ready? {
      var step := match s.workers[w]
        case Invalidating(_, _) => Return(true)
        case Returned(_, _, _, _) => Complete
        case _ => NotifyDone;
      return Work(w, step);
    }
    if s.jobs != [] {
      return Work(0, Receive(s.jobs[0]));
    }
    if s.dispatcher.Sending? {
      return Dispatch(Send);
    }
    if s.items[t].inFlight {
      var p :| JobFor(s, p, t);
    }
    assert Pending(s.items, t);
    match s.dispatcher
    case Looking =>
      var head := FindHead(s.items, t);
      e := Dispatch(Look(head));
    case WaitingUntil(due) => e := if due <= s.clock then Dispatch(TimerFires) else Dispatch(TakeWake);
    case WaitingForWork => e := Dispatch(TakeWake);
  }

  lemma {:induction false} FindHead(items: Items, t: Chan) returns (head: Chan)
    requires Pending(items, t)
    ensures IsHead(items, head) && items[head].due <= items[t].due
  {
    var rest := items - {t};
    if u :| Pending(rest, u) {
      var h := FindHead(rest, u);
      head := if items[h].due <= items[t].due then h else t;
      forall v | Pending(items, v) ensures items[head].due <= items[v].due {
        assert v == t || Pending(rest, v);
      }
    } else {
      head := t;
      forall v | Pending(items, v) ensures v == t {
        assert v != t ==> Pending(rest, v);
      }
    }
  }

  // ---------- Progress ----------

  /** What could be popped now. */
  ghost function Due(s: State): set<Chan> {
    set t | t in s.items && !s.items[t].inFlight && s.items[t].due <= s.clock
  }

  /** `t` was enqueued again after its job was popped, so it will be due when the job completes. */
  ghost predicate Outdated(s: State, t: Chan) {
    t in s.items && exists p :: JobFor(s, p, t) && JobAt(s, p).value.generation != s.items[t].generation
  }

  ghost function Stale(s: State): set<Chan> {
    set t | t in s.items && s.items[t].inFlight && Outdated(s, t)
  }

  /** How many more times an item can be popped before time passes or somebody enqueues. */
  ghost function Rounds(s: State): nat {
    |Due(s)| + |Stale(s)|
  }

  ghost function DispatcherRank(s: State): nat {
    match s.dispatcher
    case Sending(_) => 15
    case WaitingUntil(due) => if due <= s.clock then 3 else 1
    case Looking => 2
    case WaitingForWork => 1
    case DispatcherGone => 0
  }

  ghost function WorkerRank(w: Worker): nat {
    match w
    case Invalidating(_, _) => 9
    case Returned(_, _, _, _) => 6
    case Notifying => 5
    case Ready => 1
    case WorkerGone => 0
  }

  ghost function WorkersRank(ws: seq<Worker>): nat {
    if ws == [] then 0 else WorkersRank(ws[..|ws| - 1]) + WorkerRank(ws[|ws| - 1])
  }

  /** A bound on the steps that the queue can take by itself. */
  ghost function Potential(s: State): nat {
    14 * Rounds(s) + DispatcherRank(s) + 12 * |s.jobs| + WorkersRank(s.workers) +
    4 * s.notifying + (if s.wake then 3 else 0)
  }

  lemma {:induction false} WorkersRankUpdate(ws: seq<Worker>, id: nat, w: Worker)
    requires id < |ws|
    ensures WorkersRank(ws[id := w]) == WorkersRank(ws) - WorkerRank(ws[id]) + WorkerRank(w)
    decreases |ws|
  {
    var n := |ws| - 1;
    if id == n {
      assert ws[id := w][..n] == ws[..n];
    } else {
      WorkersRankUpdate(ws[..n], id, w);
      assert ws[id := w][..n] == ws[..n][id := w];
    }
  }

  lemma {:induction false} DispatcherStale(s: State, d: DispatcherStep)
    requires JobsOwnItems(s) && DispatcherCan(s, d)
    ensures Stale(Next(s, Dispatch(d))) <= Stale(s)
  {
    var s' := Next(s, Dispatch(d));
    forall t | t in Stale(s') ensures t in Stale(s) {
      var p :| JobFor(s', p, t) && JobAt(s', p).value.generation != s'.items[t].generation;
      assert !(Pops(s, d) && p.AtDispatcher?);
      DispatcherMovesJobs(s, d, p);
      var q := if d.Send? && p == InChannel(|s.jobs|) then AtDispatcher else p;
      assert JobFor(s, q, t);
    }
  }

  lemma {:induction false} DispatcherRounds(s: State, d: DispatcherStep)
    requires JobsOwnItems(s) && DispatcherCan(s, d)
    ensures Rounds(Next(s, Dispatch(d))) <= Rounds(s) - (if Pops(s, d) then 1 else 0)
  {
    hide Stale, JobsOwnItems;
    var s' := Next(s, Dispatch(d));
    DispatcherStale(s, d);
    SubsetSize(Stale(s'), Stale(s));
    if Pops(s, d) {
      assert Due(s') == Due(s) - {d.head} && d.head in Due(s);
    } else {
      assert Due(s') == Due(s);
    }
  }

  lemma {:induction false} WorkerStale(s: State, id: nat, w: WorkerStep)
    requires JobsOwnItems(s) && WorkerCan(s, id, w)
    ensures Stale(Next(s, Work(id, w))) <= Stale(s)
    ensures w.Complete? ==> s.workers[id].job.target !in Stale(Next(s, Work(id, w)))
  {
    hide CurrentIsRecent;
    var s' := Next(s, Work(id, w));
    if w.Complete? {
      assert JobFor(s, AtWorker(id), s.workers[id].job.target);
    }
    forall t | t in Stale(s') ensures t in Stale(s) && !(w.Complete? && t == s.workers[id].job.target) {
      var p :| JobFor(s', p, t) && JobAt(s', p).value.generation != s'.items[t].generation;
      WorkerMovesJobs(s, id, w, p);
      assert JobFor(s, BeforeReceive(id, w, p), t);
    }
  }

  /** A worker makes an item due only by completing an outdated job of it. */
  lemma {:induction false} WorkerDue(s: State, id: nat, w: WorkerStep)
    requires JobsOwnItems(s) && WorkerCan(s, id, w)
    ensures Due(Next(s, Work(id, w))) <= Due(s) ||
      (w.Complete? && s.workers[id].job.target in Stale(s) &&
       Due(Next(s, Work(id, w))) <= Due(s) + {s.workers[id].job.target})
  {
    if w.Complete? {
      var t := s.workers[id].job.target;
      assert JobFor(s, AtWorker(id), t);
    }
  }

  lemma {:induction false} WorkerRounds(s: State, id: nat, w: WorkerStep)
    requires JobsOwnItems(s) && WorkerCan(s, id, w)
    ensures Rounds(Next(s, Work(id, w))) <= Rounds(s)
  {
    hide Next, JobsOwnItems, Due, Stale;
    var s' := Next(s, Work(id, w));
    WorkerStale(s, id, w);
    WorkerDue(s, id, w);
    if Due(s') <= Due(s) {
      SubsetSize(Due(s'), Due(s));
      SubsetSize(Stale(s'), Stale(s));
    } else {
      var t := s.workers[id].job.target;
      SubsetSize(Due(s'), Due(s) + {t});
      SubsetSize(Stale(s'), Stale(s) - {t});
    }
  }

  lemma {:induction false} WorkerDescends(s: State, id: nat, w: WorkerStep)
    requires JobsOwnItems(s) && WorkerCan(s, id, w)
    ensures Potential(Next(s, Work(id, w))) < Potential(s)
  {
    hide Rounds, JobsOwnItems;
    WorkerRounds(s, id, w);
    WorkersRankUpdate(s.workers, id, Next(s, Work(id, w)).workers[id]);
  }

  lemma {:induction false} DispatcherDescends(s: State, d: DispatcherStep)
    requires JobsOwnItems(s) && DispatcherCan(s, d)
    ensures Potential(Next(s, Dispatch(d))) < Potential(s)
  {
    hide Rounds, JobsOwnItems, WorkersRank;
    DispatcherRounds(s, d);
  }

  lemma {:induction false} NotifyDescends(s: State)
    requires CallerCan(s, Notify)
    ensures Potential(Next(s, Caller(Notify))) < Potential(s)
  {
    hide WorkersRank;
    var s' := Next(s, Caller(Notify));
    assert Due(s') == Due(s);
    assert forall p :: JobAt(s', p) == JobAt(s, p);
    assert forall p, t :: JobFor(s', p, t) == JobFor(s, p, t);
    assert Stale(s') == Stale(s);
  }

  /** Every step that the queue takes by itself uses up some of its potential. */
  lemma {:induction false} InternalStepsDescend(s: State, e: Event)
    requires JobsOwnItems(s) && Enabled(s, e) && IsInternal(e)
    ensures Potential(Next(s, e)) < Potential(s)
  {
    hide Next, Potential, JobsOwnItems;
    match e
    case Caller(c) => NotifyDescends(s);
    case Dispatch(d) => DispatcherDescends(s, d);
    case Work(id, w) => WorkerDescends(s, id, w);
  }

  lemma {:induction false} InternalStepsEnd(ss: seq<State>, es: seq<Event>, i: nat, j: nat)
    requires Run(ss, es) && i <= j < |ss| && forall k :: i <= k < j ==> IsInternal(es[k])
    ensures j - i <= Potential(ss[i]) - Potential(ss[j])
    decreases j
  {
    hide Next, Potential, Enabled, JobsOwnItems, NoJobLost, CurrentIsRecent, NoLostWakeup, Sizes;
    if i < j {
      InternalStepsEnd(ss, es, i, j - 1);
      ReachableInv(ss, es, j - 1);
      InternalStepsDescend(ss[j - 1], es[j - 1]);
    }
  }

  /** Nothing is put off for ever: left to itself the queue takes a bounded number of steps, in
      whatever order its threads run and whatever the invalidations answer; and when it can take
      no more, unless it is being stopped, nothing that is owed is in flight or due. */
  lemma {:induction false} Settles(ss: seq<State>, es: seq<Event>, i: nat, j: nat)
    requires Run(ss, es) && i <= j < |ss| && forall k :: i <= k < j ==> IsInternal(es[k])
    ensures j - i <= Potential(ss[i])
    ensures !ss[j].closed && (forall e :: IsInternal(e) ==> !Enabled(ss[j], e)) ==>
      forall t :: t in ss[j].items ==> !ss[j].items[t].inFlight && ss[j].clock < ss[j].items[t].due
  {
    hide Next, Potential, Enabled, Inv;
    InternalStepsEnd(ss, es, i, j);
    if !ss[j].closed && forall e :: IsInternal(e) ==> !Enabled(ss[j], e) {
      forall t | t in ss[j].items ensures !ss[j].items[t].inFlight && ss[j].clock < ss[j].items[t].due {
        if ss[j].items[t].inFlight || ss[j].items[t].due <= ss[j].clock {
          var e := NeverStuck(ss, es, j, t);
          assert false;
        }
      }
    }
  }

  // ---------- What is enqueued is served ----------

  ghost predicate IsReceiveOf(e: Event, t: Chan) {
    e.Work? && e.w.Receive? && e.w.job.target == t
  }

  /** `t` waits for an invalidation: it is due or in flight, and what workers still do for it was
      popped before it was enqueued last. */
  ghost predicate Waits(s: State, t: Chan) {
    && t in s.items && (s.items[t].inFlight || s.items[t].due <= s.clock)
    && (forall w :: 0 <= w < |s.workers| && JobFor(s, AtWorker(w), t) ==>
          JobAt(s, AtWorker(w)).value.generation < s.items[t].generation)
  }

  lemma {:induction false} EnqueueWaits(s: State, t: Chan, now: int)
    requires JobsOwnItems(s) && CallerCan(s, Enqueue(t, now))
    ensures Waits(Next(s, Caller(Enqueue(t, now))), t)
  {
    var s' := Next(s, Caller(Enqueue(t, now)));
    forall w | 0 <= w < |s'.workers| && JobFor(s', AtWorker(w), t)
      ensures JobAt(s', AtWorker(w)).value.generation < s'.items[t].generation
    {
      assert JobAt(s', AtWorker(w)) == JobAt(s, AtWorker(w)) && JobAt(s, AtWorker(w)).Some?;
    }
  }

  lemma {:induction false} WorkerKeepsWaiting(s: State, id: nat, w: WorkerStep, t: Chan)
    requires Waits(s, t) && WorkerCan(s, id, w) && !IsReceiveOf(Work(id, w), t)
    ensures Waits(Next(s, Work(id, w)), t)
  {
    var s' := Next(s, Work(id, w));
    if w.Complete? && s.workers[id].job.target == t {
      assert JobFor(s, AtWorker(id), t);
    }
    forall v | 0 <= v < |s'.workers| && JobFor(s', AtWorker(v), t)
      ensures JobFor(s, AtWorker(v), t) && JobAt(s', AtWorker(v)) == JobAt(s, AtWorker(v))
    {
      WorkerMovesJobs(s, id, w, AtWorker(v));
    }
  }

  lemma {:induction false} DispatcherKeepsWaiting(s: State, d: DispatcherStep, t: Chan)
    requires Waits(s, t) && DispatcherCan(s, d)
    ensures Waits(Next(s, Dispatch(d)), t)
  {
    var s' := Next(s, Dispatch(d));
    assert forall w :: JobAt(s', AtWorker(w)) == JobAt(s, AtWorker(w));
    assert forall w :: JobFor(s', AtWorker(w), t) == JobFor(s, AtWorker(w), t);
  }

  lemma {:induction false} KeepsWaiting(s: State, e: Event, t: Chan)
    requires Waits(s, t) && Enabled(s, e) && IsInternal(e) && !IsReceiveOf(e, t)
    ensures Waits(Next(s, e), t)
  {
    match e
    case Caller(c) =>
      assert forall w :: JobAt(Next(s, e), AtWorker(w)) == JobAt(s, AtWorker(w));
      assert forall w :: JobFor(Next(s, e), AtWorker(w), t) == JobFor(s, AtWorker(w), t);
    case Dispatch(d) => DispatcherKeepsWaiting(s, d, t);
    case Work(id, w) => WorkerKeepsWaiting(s, id, w, t);
  }

  lemma {:induction false} WaitsUntilReceived(ss: seq<State>, es: seq<Event>, i: nat, j: nat, t: Chan)
    requires Run(ss, es) && i < j < |ss| && IsEnqueue(es[i], t)
    requires forall k :: i < k < j ==> IsInternal(es[k]) && !IsReceiveOf(es[k], t)
    ensures Waits(ss[j], t)
    decreases j
  {
    hide Next, Waits, JobsOwnItems, NoJobLost, CurrentIsRecent, NoLostWakeup;
    if i == j - 1 {
      ReachableInv(ss, es, i);
      EnqueueWaits(ss[i], t, es[i].c.now);
    } else {
      WaitsUntilReceived(ss, es, i, j - 1, t);
      KeepsWaiting(ss[j - 1], es[j - 1], t);
    }
  }

  /** An enqueued target is invalidated without waiting for time to pass: once the queue, left to
      itself and not being stopped, can take no more steps, a worker has received a job for it. */
  lemma {:induction false} EnqueuedIsReceived(ss: seq<State>, es: seq<Event>, i: nat, j: nat, t: Chan) returns (b: nat)
    requires Run(ss, es) && i < j < |ss| && IsEnqueue(es[i], t) && forall k :: i < k < j ==> IsInternal(es[k])
    requires !ss[j].closed && forall e :: IsInternal(e) ==> !Enabled(ss[j], e)
    ensures i < b < j && IsReceiveOf(es[b], t)
  {
    hide Next, Potential, Enabled, Inv;
    if k :| i < k < j && IsReceiveOf(es[k], t) {
      b := k;
    } else {
      Settles(ss, es, i + 1, j);
      WaitsUntilReceived(ss, es, i, j, t);
      assert false;
    }
  }

  // ---------- How long a failure is put off ----------

  /** The step completes a failed invalidation of `t` that nothing has overtaken. */
  ghost predicate Fails(s: State, e: Event, t: Chan) {
    && e.Work? && e.w.Complete? && e.id < |s.workers| && s.workers[e.id].Returned? && !s.workers[e.id].ok
    && t in s.items && s.workers[e.id].job == Job(t, s.items[t].generation)
  }

  /** How many invalidations of `t` failed from step `i` up to `j`. */
  ghost function Failures(ss: seq<State>, es: seq<Event>, t: Chan, i: nat, j: nat): nat
    requires i <= j <= |es| < |ss|
  {
    if i == j then 0 else Failures(ss, es, t, i, j - 1) + (if Fails(ss[j - 1], es[j - 1], t) then 1 else 0)
  }

  /** `t` has failed `n` times since it was enqueued last, and never while a job for an earlier
      Enqueue was under way. */
  ghost predicate Attempted(s: State, t: Chan, n: nat) {
    t in s.items ==> s.items[t].attempts == n && (t in Stale(s) ==> n == 0)
  }

  lemma {:induction false} WorkerCountsAttempts(s: State, id: nat, w: WorkerStep, t: Chan, n: nat)
    requires JobsOwnItems(s) && WorkerCan(s, id, w) && Attempted(s, t, n)
    ensures Attempted(Next(s, Work(id, w)), t, n + (if Fails(s, Work(id, w), t) then 1 else 0))
  {
    hide Stale, CurrentIsRecent;
    WorkerStale(s, id, w);
    if w.Complete? && s.workers[id].job.target == t {
      CompletesStale(s, id, t);
    }
  }

  lemma {:induction false} CompletesStale(s: State, id: nat, t: Chan)
    requires JobsOwnItems(s) && WorkerCan(s, id, Complete) && s.workers[id].job.target == t
    ensures t in s.items && (t in Stale(s) <==> s.workers[id].job.generation != s.items[t].generation)
  {
    assert JobFor(s, AtWorker(id), t);
  }

  lemma {:induction false} CountsAttempts(s: State, e: Event, t: Chan, n: nat)
    requires JobsOwnItems(s) && Enabled(s, e) && Attempted(s, t, n) && !IsEnqueue(e, t)
    ensures Attempted(Next(s, e), t, n + (if Fails(s, e, t) then 1 else 0))
  {
    match e
    case Caller(c) => CallerStale(s, c, t);
    case Dispatch(d) => DispatcherStale(s, d);
    case Work(id, w) => WorkerCountsAttempts(s, id, w, t, n);
  }

  lemma {:induction false} CallerStale(s: State, c: CallerStep, t: Chan)
    requires CallerCan(s, c) && !IsEnqueue(Caller(c), t)
    ensures t in Stale(Next(s, Caller(c))) <==> t in Stale(s)
  {
    var s' := Next(s, Caller(c));
    assert forall p :: JobAt(s', p) == JobAt(s, p);
    assert forall p :: JobFor(s', p, t) == JobFor(s, p, t);
  }

  lemma {:induction false} AttemptsAreFailures(ss: seq<State>, es: seq<Event>, i: nat, j: nat, t: Chan)
    requires Run(ss, es) && i < j < |ss| && IsEnqueue(es[i], t) && forall k :: i < k < j ==> !IsEnqueue(es[k], t)
    ensures Attempted(ss[j], t, Failures(ss, es, t, i + 1, j))
    decreases j
  {
    hide Next, Stale, JobsOwnItems, NoJobLost, CurrentIsRecent, NoLostWakeup, Fails;
    ReachableInv(ss, es, j - 1);
    if i == j - 1 {
      EnqueueForgetsAttempts(ss[i], t, es[i].c.now);
    } else {
      AttemptsAreFailures(ss, es, i, j - 1, t);
      CountsAttempts(ss[j - 1], es[j - 1], t, Failures(ss, es, t, i + 1, j - 1));
    }
  }

  lemma {:induction false} EnqueueForgetsAttempts(s: State, t: Chan, now: int)
    requires CallerCan(s, Enqueue(t, now))
    ensures Attempted(Next(s, Caller(Enqueue(t, now))), t, 0)
  {
  }

  /** A failed invalidation is due again 200 milliseconds after it is completed the first time after
      an Enqueue, and 1, 3, 10 and then always 30 seconds the next times. */
  lemma {:induction false} FailureIsPutOff(ss: seq<State>, es: seq<Event>, i: nat, j: nat, t: Chan)
    requires Run(ss, es) && i < j < |es| && IsEnqueue(es[i], t) && forall k :: i < k < j ==> !IsEnqueue(es[k], t)
    requires Fails(ss[j], es[j], t)
    ensures t in ss[j + 1].items && !ss[j + 1].items[t].inFlight
    ensures var n := Failures(ss, es, t, i + 1, j);
      ss[j + 1].items[t].due - ss[j].clock ==
      if n == 0 then 200 else if n == 1 then 1000 else if n == 2 then 3000 else if n == 3 then 10000 else 30000
  {
    hide Stale, Failures;
    AttemptsAreFailures(ss, es, i, j, t);
  }

  /** A target is owed after the completion of an invalidation if and only if that failed or the
      target was enqueued again after the invalidation began to be dispatched. */
  lemma {:induction false} OwedAfterCompletionIff(ss: seq<State>, es: seq<Event>, i: nat)
    requires Run(ss, es) && i < |es| && es[i].Work? && es[i].w.Complete?
    ensures es[i].id < |ss[i].workers| && ss[i].workers[es[i].id].Returned?
    ensures var w := ss[i].workers[es[i].id];
      && w.job.target in ss[i].items
      && (w.job.target in ss[i + 1].items <==>
            !w.ok || w.job.generation < ss[i].items[w.job.target].generation)
      && (forall t :: t != w.job.target ==>
            (t in ss[i + 1].items <==> t in ss[i].items) && (t in ss[i].items ==> ss[i + 1].items[t] == ss[i].items[t]))
  {
    ReachableInv(ss, es, i);
    assert Enabled(ss[i], es[i]) && ss[i + 1] == Next(ss[i], es[i]);
    assert JobAt(ss[i], AtWorker(es[i].id)).Some?;
  }
}
