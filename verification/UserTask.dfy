/** A task handed to a user's event queue (internal/eventbus/user_task.go): one caller that may
    give up, and any number of queue threads that may try to execute it, synchronised by a
    compare-and-swap word, a once-guard and a one-element result channel. */
module UserTask {

  /** What the caller is told. `Nil` is success. */
  datatype Result = Nil | Failed(code: int) | Panicked | ContextEnded | NotLeader | QueueStopped

  datatype Caller =
    | Starting
    | Waiting                       // queued, blocked on result, context or stop
    | GivingUp(answer: Result)      // saw the context end or the queue stop, about to swap 0 -> 2
    | Done(answer: Result)

  /** `leader` is what the queue thread passed to Execute. */
  datatype Executor =
    | Arriving(leader: bool)
    | Checking(leader: bool)        // won the swap 0 -> 1
    | Cleared(leader: bool)         // found the context alive
    | Running(leader: bool)         // inside the function
    | Finishing(answer: Result)     // about to enter the once-guard
    | Sending(answer: Result)       // inside the once-guard, about to send
    | Left

  datatype State = State(
    leaderOnly: bool,
    word: nat,                      // 0 untouched, 1 claimed, 2 cancelled
    contextEnded: bool,
    queueStopped: bool,
    onceUsed: bool,
    channel: seq<Result>,           // capacity one
    caller: Caller,
    executors: seq<Executor>,
    queued: bool,
    runs: nat,                      // history: how often the function was entered
    outcome: seq<Result>,           // history: what the function came back with
    ranAsLeader: bool               // history: the leader flag of the thread that entered it
  )

  datatype CallerStep = Refuse(answer: Result) | Submit | TakeResult | SeeContext | SeeStop | Swap

  datatype ExecutorStep =
    | TrySwap | FindContextEnded | PassContext | FindNotLeader | Enter | ComeBack(answer: Result) | Guard | Send

  datatype Event =
    | CallerDoes(c: CallerStep)
    | Arrive(leader: bool)
    | ExecutorDoes(x: nat, e: ExecutorStep)
    | EndContext
    | StopQueue

  ghost predicate CallerCan(s: State, c: CallerStep) {
    match c
    case Refuse(answer) =>
      s.caller.Starting? && ((s.contextEnded && answer.ContextEnded?) || (s.queueStopped && answer.QueueStopped?))
    case Submit => s.caller.Starting? && !s.contextEnded && !s.queueStopped
    case TakeResult => s.caller.Waiting? && s.channel != []
    case SeeContext => s.caller.Waiting? && s.contextEnded
    case SeeStop => s.caller.Waiting? && s.queueStopped
    case Swap => s.caller.GivingUp?
  }

  ghost function CallerStepped(s: State, c: CallerStep): (s': State)
    requires CallerCan(s, c)
    ensures s'.executors == s.executors && s'.runs == s.runs && s'.outcome == s.outcome
    ensures s'.ranAsLeader == s.ranAsLeader && s'.leaderOnly == s.leaderOnly && s'.onceUsed == s.onceUsed
    ensures s'.contextEnded == s.contextEnded
    ensures s.word != 0 ==> s'.word == s.word
  {
    match c
    case Refuse(answer) => s.(caller := Done(answer))
    case Submit => s.(caller := Waiting, queued := true)
    case TakeResult => s.(caller := Done(s.channel[0]), channel := s.channel[1..])
    case SeeContext => s.(caller := GivingUp(ContextEnded))
    case SeeStop => s.(caller := GivingUp(QueueStopped))
    case Swap => s.(caller := Done(s.caller.answer), word := if s.word == 0 then 2 else s.word)
  }

  ghost predicate ExecutorCan(s: State, x: nat, e: ExecutorStep) {
    x < |s.executors| &&
    match e
    case TrySwap => s.executors[x].Arriving?
    case FindContextEnded => s.executors[x].Checking? && s.contextEnded
    case PassContext => s.executors[x].Checking? && !s.contextEnded
    case FindNotLeader => s.executors[x].Cleared? && s.leaderOnly && !s.executors[x].leader
    case Enter => s.executors[x].Cleared? && (s.leaderOnly ==> s.executors[x].leader)
    case ComeBack(answer) => s.executors[x].Running? && (answer.Nil? || answer.Failed? || answer.Panicked?)
    case Guard => s.executors[x].Finishing?
    case Send => s.executors[x].Sending? && s.channel == []
  }

  ghost function ExecutorStepped(s: State, x: nat, e: ExecutorStep): (s': State)
    requires ExecutorCan(s, x, e)
    ensures |s'.executors| == |s.executors| && s'.executors == s.executors[x := s'.executors[x]]
    ensures s'.caller == s.caller && s'.leaderOnly == s.leaderOnly && s'.queued == s.queued
    ensures s.word != 0 ==> s'.word == s.word
  {
    var me := s.executors[x];
    match e
    case TrySwap =>
      if s.word == 0 then s.(word := 1, executors := s.executors[x := Checking(me.leader)])
      else s.(executors := s.executors[x := Left])
    case FindContextEnded => s.(executors := s.executors[x := Finishing(ContextEnded)])
    case PassContext => s.(executors := s.executors[x := Cleared(me.leader)])
    case FindNotLeader => s.(executors := s.executors[x := Finishing(NotLeader)])
    case Enter => s.(executors := s.executors[x := Running(me.leader)], runs := s.runs + 1, ranAsLeader := me.leader)
    case ComeBack(answer) => s.(executors := s.executors[x := Finishing(answer)], outcome := s.outcome + [answer])
    case Guard =>
      if s.onceUsed then s.(executors := s.executors[x := Left])
      else s.(onceUsed := true, executors := s.executors[x := Sending(me.answer)])
    case Send => s.(channel := [me.answer], executors := s.executors[x := Left])
  }

  ghost predicate Enabled(s: State, e: Event) {
    match e
    case CallerDoes(c) => CallerCan(s, c)
    case Arrive(_) => s.queued
    case ExecutorDoes(x, step) => ExecutorCan(s, x, step)
    case EndContext => true
    case StopQueue => true
  }

  ghost function Next(s: State, e: Event): State
    requires Enabled(s, e)
  {
    match e
    case CallerDoes(c) => CallerStepped(s, c)
    case Arrive(leader) => s.(executors := s.executors + [Arriving(leader)])
    case ExecutorDoes(x, step) => ExecutorStepped(s, x, step)
    case EndContext => s.(contextEnded := true)
    case StopQueue => s.(queueStopped := true)
  }

  ghost predicate Init(s: State) {
    && s.word == 0 && !s.onceUsed && s.channel == [] && s.caller.Starting? && s.executors == []
    && !s.queued && s.runs == 0 && s.outcome == []
  }

  // ---------- Invariant ----------

  /** The thread won the swap and has not finished yet. */
  ghost predicate Claims(x: Executor) {
    x.Checking? || x.Cleared? || x.Running? || x.Finishing? || x.Sending?
  }

  /** `answer` is a truthful report of this task's fate. */
  ghost predicate Truthful(s: State, answer: Result) {
    && (answer.Nil? || answer.Failed? || answer.Panicked? ==> s.runs == 1 && s.outcome == [answer])
    && (answer.ContextEnded? || answer.NotLeader? ==> s.runs == 0)
  }

  /** What each stage of the claiming thread knows. */
  ghost predicate StageOk(s: State, x: Executor) {
    match x
    case Checking(_) => s.runs == 0 && !s.onceUsed
    case Cleared(_) => s.runs == 0 && !s.onceUsed
    case Running(leader) => s.runs == 1 && s.outcome == [] && !s.onceUsed && s.ranAsLeader == leader
    case Finishing(answer) => Truthful(s, answer) && !s.onceUsed
    case Sending(answer) => Truthful(s, answer) && s.channel == [] && s.onceUsed
    case _ => true
  }

  ghost predicate ExecutorsOk(s: State) {
    && (forall x :: 0 <= x < |s.executors| ==> StageOk(s, s.executors[x]) && (Claims(s.executors[x]) ==> s.word == 1))
    && (forall x, y :: 0 <= x < |s.executors| && 0 <= y < |s.executors| ==>
          (Claims(s.executors[x]) && Claims(s.executors[y]) ==> x == y))
  }

  ghost predicate HistoryOk(s: State) {
    && s.word <= 2 && (s.word != 1 ==> s.runs == 0 && !s.onceUsed)
    && s.runs <= 1 && (s.runs == 0 ==> s.outcome == []) && (s.runs == 1 && s.leaderOnly ==> s.ranAsLeader)
    && |s.channel| <= 1 && (s.channel != [] ==> s.onceUsed && Truthful(s, s.channel[0]))
    && (s.caller.GivingUp? ==> s.caller.answer.ContextEnded? || s.caller.answer.QueueStopped?)
    && (s.caller.GivingUp? && s.caller.answer.ContextEnded? ==> s.contextEnded)
    && (s.caller.Done? ==>
          match s.caller.answer
          case ContextEnded => true
          case QueueStopped => true
          case NotLeader => s.runs == 0 && s.onceUsed
          case ran => s.runs == 1 && s.outcome == [ran] && s.onceUsed)
  }

  ghost predicate Inv(s: State) {
    ExecutorsOk(s) && HistoryOk(s)
  }

  lemma {:induction false} CallerKeepsInv(s: State, c: CallerStep)
    requires Inv(s) && CallerCan(s, c)
    ensures Inv(CallerStepped(s, c))
  {
    var s' := CallerStepped(s, c);
    forall x | 0 <= x < |s.executors| ensures StageOk(s', s.executors[x]) {
      assert StageOk(s, s.executors[x]);
    }
  }

  lemma {:induction false} ExecutorKeepsHistory(s: State, x: nat, e: ExecutorStep)
    requires Inv(s) && ExecutorCan(s, x, e)
    ensures HistoryOk(ExecutorStepped(s, x, e))
  {
    assert StageOk(s, s.executors[x]);
  }

  lemma {:induction false} ExecutorKeepsStages(s: State, x: nat, e: ExecutorStep)
    requires Inv(s) && ExecutorCan(s, x, e)
    ensures var s' := ExecutorStepped(s, x, e);
      StageOk(s', s'.executors[x]) && (Claims(s'.executors[x]) ==> s'.word == 1)
  {
    assert StageOk(s, s.executors[x]);
  }

  lemma {:induction false} ExecutorSparesOthers(s: State, x: nat, e: ExecutorStep, y: nat)
    requires Inv(s) && ExecutorCan(s, x, e) && y < |s.executors| && y != x
    ensures var s' := ExecutorStepped(s, x, e);
      && StageOk(s', s.executors[y])
      && (Claims(s.executors[y]) ==> s'.word == 1 && !Claims(s'.executors[x]))
  {
    assert StageOk(s, s.executors[x]) && StageOk(s, s.executors[y]);
  }

  lemma {:induction false} ExecutorKeepsExecutors(s: State, x: nat, e: ExecutorStep)
    requires Inv(s) && ExecutorCan(s, x, e)
    ensures ExecutorsOk(ExecutorStepped(s, x, e))
  {
    var s' := ExecutorStepped(s, x, e);
    ExecutorKeepsStages(s, x, e);
    forall y | 0 <= y < |s.executors| && y != x
      ensures StageOk(s', s.executors[y]) && (Claims(s.executors[y]) ==> s'.word == 1 && !Claims(s'.executors[x]))
    {
      ExecutorSparesOthers(s, x, e, y);
    }
  }

  lemma {:induction false} EnvironmentKeepsInv(s: State, e: Event)
    requires Inv(s) && Enabled(s, e) && (e.Arrive? || e.EndContext? || e.StopQueue?)
    ensures Inv(Next(s, e))
  {
    var s' := Next(s, e);
    forall x | 0 <= x < |s'.executors| ensures StageOk(s', s'.executors[x]) {
      assert x < |s.executors| ==> StageOk(s, s.executors[x]);
    }
  }

  lemma {:induction false} StepKeepsInv(s: State, e: Event)
    requires Inv(s) && Enabled(s, e)
    ensures Inv(Next(s, e))
  {
    match e
    case CallerDoes(c) => CallerKeepsInv(s, c);
    case ExecutorDoes(x, step) =>
      ExecutorKeepsHistory(s, x, step);
      ExecutorKeepsExecutors(s, x, step);
    case _ => EnvironmentKeepsInv(s, e);
  }

  // ---------- Whole runs ----------

  ghost predicate Run(ss: seq<State>, es: seq<Event>) {
    && |ss| == |es| + 1 && Init(ss[0])
    && forall i :: 0 <= i < |es| ==> Enabled(ss[i], es[i]) && ss[i + 1] == Next(ss[i], es[i])
  }

  lemma {:induction false} ReachableInv(ss: seq<State>, es: seq<Event>, i: nat)
    requires Run(ss, es) && i < |ss|
    ensures Inv(ss[i])
    decreases i
  {
    if i > 0 {
      ReachableInv(ss, es, i - 1);
      StepKeepsInv(ss[i - 1], es[i - 1]);
    }
  }

  /** In every interleaving the function is entered at most once, and, for a task that only the
      leader may run, by a thread that was told it is the leader. */
  lemma {:induction false} RunsAtMostOnce(ss: seq<State>, es: seq<Event>, i: nat)
    requires Run(ss, es) && i < |ss|
    ensures ss[i].runs <= 1 && (ss[i].runs == 1 && ss[i].leaderOnly ==> ss[i].ranAsLeader)
  {
    ReachableInv(ss, es, i);
  }

  lemma {:induction false} WordStays(ss: seq<State>, es: seq<Event>, i: nat, j: nat)
    requires Run(ss, es) && i <= j < |ss| && ss[i].word == 2
    ensures ss[j].word == 2
    decreases j
  {
    if i < j {
      WordStays(ss, es, i, j - 1);
      assert Enabled(ss[j - 1], es[j - 1]) && ss[j] == Next(ss[j - 1], es[j - 1]);
    }
  }

  /** Once the caller's swap 0 -> 2 has won, the function has not run and never will. */
  lemma {:induction false} CancelledNeverRuns(ss: seq<State>, es: seq<Event>, i: nat, j: nat)
    requires Run(ss, es) && i < |es| && i < j < |ss|
    requires es[i] == CallerDoes(Swap) && ss[i].word == 0
    ensures ss[j].runs == 0
  {
    assert Enabled(ss[i], es[i]) && ss[i + 1] == Next(ss[i], es[i]);
    WordStays(ss, es, i + 1, j);
    ReachableInv(ss, es, j);
  }

  /** A thread inside the once-guard always finds room in the result channel. */
  lemma {:induction false} FinishNeverBlocks(ss: seq<State>, es: seq<Event>, i: nat, x: nat)
    requires Run(ss, es) && i < |ss| && x < |ss[i].executors| && ss[i].executors[x].Sending?
    ensures Enabled(ss[i], ExecutorDoes(x, Send))
  {
    ReachableInv(ss, es, i);
  }

  /** A caller that is told an outcome had its function run once and come back with just that
      outcome, on the leader if it asked for that; a caller that is told "not the leader" had it
      not run at all. */
  lemma {:induction false} AnswerIsTruthful(ss: seq<State>, es: seq<Event>, i: nat)
    requires Run(ss, es) && i < |ss| && ss[i].caller.Done?
    ensures var answer := ss[i].caller.answer;
      && (answer.Nil? || answer.Failed? || answer.Panicked? ==>
            ss[i].runs == 1 && ss[i].outcome == [answer] && (ss[i].leaderOnly ==> ss[i].ranAsLeader))
      && (answer.NotLeader? ==> ss[i].runs == 0)
  {
    ReachableInv(ss, es, i);
  }

  // ---------- The answer comes ----------

  ghost predicate Claimed(s: State) {
    exists x :: 0 <= x < |s.executors| && Claims(s.executors[x])
  }

  /** While the caller waits for a claimed task, its answer is there or some thread is working on it. */
  ghost predicate OnItsWay(s: State) {
    && (s.caller.Starting? ==> !s.queued && s.executors == [] && s.word == 0)
    && (s.word == 1 && s.caller.Waiting? ==> s.channel != [] || Claimed(s))
  }

  lemma {:induction false} ExecutorKeepsOnItsWay(s: State, x: nat, e: ExecutorStep)
    requires Inv(s) && OnItsWay(s) && ExecutorCan(s, x, e)
    ensures OnItsWay(ExecutorStepped(s, x, e))
  {
    hide HistoryOk;
    var s' := ExecutorStepped(s, x, e);
    assert StageOk(s, s.executors[x]);
    if y :| 0 <= y < |s.executors| && y != x && Claims(s.executors[y]) {
      assert Claims(s'.executors[y]);
    } else if s'.channel == [] && Claims(s.executors[x]) {
      assert Claims(s'.executors[x]);
    } else if e.TrySwap? && s.word == 0 {
      assert Claims(s'.executors[x]);
    }
  }

  lemma {:induction false} StepKeepsOnItsWay(s: State, e: Event)
    requires Inv(s) && OnItsWay(s) && Enabled(s, e)
    ensures OnItsWay(Next(s, e))
  {
    hide ExecutorStepped, StageOk, Claims, ExecutorsOk, HistoryOk, ExecutorCan;
    if e.ExecutorDoes? {
      ExecutorKeepsOnItsWay(s, e.x, e.e);
    } else if Claimed(s) {
      var x :| 0 <= x < |s.executors| && Claims(s.executors[x]);
      assert Next(s, e).executors[x] == s.executors[x];
    }
  }

  /** In every interleaving: a task that was claimed while the caller waits is answered, or has a
      thread that works on it. */
  lemma {:induction false} AnswerIsOnItsWay(ss: seq<State>, es: seq<Event>, i: nat)
    requires Run(ss, es) && i < |ss|
    ensures OnItsWay(ss[i])
    decreases i
  {
    hide Next, Enabled, Inv;
    if i > 0 {
      AnswerIsOnItsWay(ss, es, i - 1);
      ReachableInv(ss, es, i - 1);
      StepKeepsOnItsWay(ss[i - 1], es[i - 1]);
    }
  }

  /** How many steps a thread has before it at most. */
  ghost function StepsLeft(x: Executor): nat {
    match x
    case Arriving(_) => 6
    case Checking(_) => 5
    case Cleared(_) => 4
    case Running(_) => 3
    case Finishing(_) => 2
    case Sending(_) => 1
    case Left => 0
  }

  lemma {:induction false} ClaimantStep(s: State, x: nat, e: ExecutorStep)
    requires Inv(s) && ExecutorCan(s, x, e) && Claims(s.executors[x])
    ensures var s' := ExecutorStepped(s, x, e);
      && StepsLeft(s'.executors[x]) < StepsLeft(s.executors[x]) && (s'.executors[x].Left? ==> s'.channel != [])
  {
    hide HistoryOk, Truthful;
    assert StageOk(s, s.executors[x]);
  }

  lemma {:induction false} ClaimantCan(s: State, x: nat) returns (e: ExecutorStep)
    requires Inv(s) && x < |s.executors| && Claims(s.executors[x])
    ensures ExecutorCan(s, x, e)
  {
    hide HistoryOk, Truthful;
    assert StageOk(s, s.executors[x]);
    e := match s.executors[x]
      case Checking(_) => if s.contextEnded then FindContextEnded else PassContext
      case Cleared(leader) => if s.leaderOnly && !leader then FindNotLeader else Enter
      case Running(_) => ComeBack(Nil)
      case Finishing(_) => Guard
      case _ => Send;
  }

  /** That thread is never blocked, apart from the function itself, and every step of it brings it
      nearer to its end, where the answer is sent; no other thread can set it back. */
  lemma {:induction false} ClaimantGoesOn(ss: seq<State>, es: seq<Event>, i: nat, x: nat) returns (e: ExecutorStep)
    requires Run(ss, es) && i < |es| && x < |ss[i].executors| && Claims(ss[i].executors[x])
    ensures Enabled(ss[i], ExecutorDoes(x, e)) && x < |ss[i + 1].executors|
    ensures if es[i].ExecutorDoes? && es[i].x == x
      then && StepsLeft(ss[i + 1].executors[x]) < StepsLeft(ss[i].executors[x])
           && (ss[i + 1].executors[x].Left? ==> ss[i + 1].channel != [])
      else ss[i + 1].executors[x] == ss[i].executors[x]
  {
    hide Inv, ExecutorStepped, CallerStepped, StepsLeft, ExecutorCan, CallerCan, Claims;
    ReachableInv(ss, es, i);
    e := ClaimantCan(ss[i], x);
    assert Enabled(ss[i], es[i]) && ss[i + 1] == Next(ss[i], es[i]);
    if es[i].ExecutorDoes? && es[i].x == x {
      ClaimantStep(ss[i], x, es[i].e);
    }
  }

  lemma {:induction false} RunsAlone(s0: State) returns (ss: seq<State>, es: seq<Event>)
    requires Init(s0) && !s0.contextEnded && !s0.queueStopped
    ensures Run(ss, es) && ss[0] == s0 && |es| == 5
    ensures var s := ss[5];
      s.caller.Waiting? && s.executors == [Running(true)] && !s.onceUsed && s.channel == [] && s.runs == 1
  {
    var s1 := Next(s0, CallerDoes(Submit));
    var s2 := Next(s1, Arrive(true));
    var s3 := Next(s2, ExecutorDoes(0, TrySwap));
    var s4 := Next(s3, ExecutorDoes(0, PassContext));
    ss := [s0, s1, s2, s3, s4, Next(s4, ExecutorDoes(0, Enter))];
    es := [CallerDoes(Submit), Arrive(true), ExecutorDoes(0, TrySwap), ExecutorDoes(0, PassContext),
           ExecutorDoes(0, Enter)];
  }

  /** Undisturbed, the caller gets what the function came back with. */
  lemma {:induction false} OutcomeIsDelivered(s0: State, answer: Result) returns (ss: seq<State>, es: seq<Event>)
    requires Init(s0) && !s0.contextEnded && !s0.queueStopped && (answer.Nil? || answer.Failed? || answer.Panicked?)
    ensures Run(ss, es) && ss[0] == s0 && |es| == 9 && es[5] == ExecutorDoes(0, ComeBack(answer))
    ensures ss[9].caller == Done(answer) && ss[9].runs == 1
  {
    hide Run;
    ss, es := RunsAlone(s0);
    ss, es := Extend(ss, es, ExecutorDoes(0, ComeBack(answer)));
    ss, es := Extend(ss, es, ExecutorDoes(0, Guard));
    ss, es := Extend(ss, es, ExecutorDoes(0, Send));
    ss, es := Extend(ss, es, CallerDoes(TakeResult));
  }

  // ---------- Giving up ----------

  /** A caller that gave up learns nothing when its swap loses: here the function has run and
      succeeded by the time the caller reports that the context ended. */
  lemma {:induction false} GivingUpMayComeTooLate(s0: State) returns (ss: seq<State>, es: seq<Event>)
    requires Init(s0) && !s0.contextEnded && !s0.queueStopped && !s0.leaderOnly
    ensures Run(ss, es) && ss[0] == s0
    ensures var s := ss[|es|]; s.caller == Done(ContextEnded) && s.runs == 1 && s.outcome == [Nil]
  {
    var s1 := Next(s0, CallerDoes(Submit));
    var s2 := Next(s1, Arrive(true));
    var s3 := Next(s2, ExecutorDoes(0, TrySwap));
    var s4 := Next(s3, ExecutorDoes(0, PassContext));
    var s5 := Next(s4, ExecutorDoes(0, Enter));
    var s6 := Next(s5, ExecutorDoes(0, ComeBack(Nil)));
    var s7 := Next(s6, EndContext);
    var s8 := Next(s7, CallerDoes(SeeContext));
    var s9 := Next(s8, CallerDoes(Swap));
    ss := [s0, s1, s2, s3, s4, s5, s6, s7, s8, s9];
    es := [CallerDoes(Submit), Arrive(true),
           ExecutorDoes(0, TrySwap), ExecutorDoes(0, PassContext), ExecutorDoes(0, Enter),
           ExecutorDoes(0, ComeBack(Nil)), EndContext, CallerDoes(SeeContext), CallerDoes(Swap)];
  }

  /** The thread can still come to enter the function: it has found the context alive, or will
      if it looks now, and is not turned away for not being the leader. */
  ghost predicate MayEnter(s: State, x: Executor) {
    (x.Cleared? || (x.Checking? && !s.contextEnded)) && (s.leaderOnly ==> x.leader)
  }

  /** The function has not run, and no thread is on its way into it. */
  ghost predicate Prevented(s: State) {
    s.runs == 0 && forall x :: 0 <= x < |s.executors| ==> !MayEnter(s, s.executors[x])
  }

  lemma {:induction false} ExecutorStaysPrevented(s: State, x: nat, e: ExecutorStep)
    requires ExecutorCan(s, x, e) && Prevented(s) && s.word != 0
    ensures var s' := ExecutorStepped(s, x, e);
      s'.runs == 0 && s'.word == s.word && s'.contextEnded == s.contextEnded && !MayEnter(s', s'.executors[x])
  {
    assert !MayEnter(s, s.executors[x]);
  }

  lemma {:induction false} StaysPrevented(s: State, e: Event)
    requires Enabled(s, e) && Prevented(s) && s.word != 0
    ensures Prevented(Next(s, e)) && Next(s, e).word != 0
  {
    hide CallerStepped, ExecutorStepped, CallerCan, ExecutorCan;
    match e
    case ExecutorDoes(x, step) =>
      ExecutorStaysPrevented(s, x, step);
      var s' := ExecutorStepped(s, x, step);
      forall y | 0 <= y < |s.executors| && y != x ensures !MayEnter(s', s'.executors[y]) {
        assert !MayEnter(s, s.executors[y]);
      }
    case CallerDoes(c) =>
      forall y | 0 <= y < |s.executors| ensures !MayEnter(CallerStepped(s, c), s.executors[y]) {
        assert !MayEnter(s, s.executors[y]);
      }
    case _ =>
      var s' := Next(s, e);
      forall y | 0 <= y < |s'.executors| ensures !MayEnter(s', s'.executors[y]) {
        assert y < |s.executors| ==> !MayEnter(s, s.executors[y]);
      }
  }

  lemma {:induction false} PreventedForGood(ss: seq<State>, es: seq<Event>, i: nat, j: nat)
    requires Run(ss, es) && i <= j < |ss| && Prevented(ss[i]) && ss[i].word != 0
    ensures ss[j].runs == 0 && Prevented(ss[j]) && ss[j].word != 0
    decreases j
  {
    hide Enabled, Next, Init;
    if i < j {
      PreventedForGood(ss, es, i, j - 1);
      assert Enabled(ss[j - 1], es[j - 1]) && ss[j] == Next(ss[j - 1], es[j - 1]);
      StaysPrevented(ss[j - 1], es[j - 1]);
    }
  }

  /** The run goes on with these events. */
  ghost predicate Extends(ss: seq<State>, es: seq<Event>, ss': seq<State>, es': seq<Event>) {
    Run(ss', es') && ss <= ss' && es <= es'
  }

  lemma {:induction false} Extend(ss: seq<State>, es: seq<Event>, e: Event) returns (ss': seq<State>, es': seq<Event>)
    requires Run(ss, es) && Enabled(ss[|es|], e)
    ensures Extends(ss, es, ss', es') && es' == es + [e] && |ss'| == |es'| + 1 && ss'[|es'|] == Next(ss[|es|], e)
  {
    ss', es' := ss + [Next(ss[|es|], e)], es + [e];
  }

  /** A thread that may enter does so in some continuation. */
  lemma {:induction false} Entering(ss: seq<State>, es: seq<Event>, x: nat) returns (ss': seq<State>, es': seq<Event>)
    requires Run(ss, es) && x < |ss[|es|].executors| && MayEnter(ss[|es|], ss[|es|].executors[x])
    ensures Extends(ss, es, ss', es') && ss'[|es'|].runs > 0
  {
    ss', es' := ss, es;
    if ss[|es|].executors[x].Checking? {
      ss', es' := Extend(ss', es', ExecutorDoes(x, PassContext));
    }
    ss', es' := Extend(ss', es', ExecutorDoes(x, Enter));
  }

  /** In every continuation of the run the function has not run. */
  ghost predicate NeverRuns(ss: seq<State>, es: seq<Event>) {
    forall ss': seq<State>, es': seq<Event> :: Extends(ss, es, ss', es') ==> ss'[|es'|].runs == 0
  }

  /** Giving up, because the context ended or because the queue stopped, keeps the function from
      ever running if and only if it has not run by the time of the swap and no thread is on its
      way into it. */
  lemma {:induction false} GivingUpPreventsIff(ss: seq<State>, es: seq<Event>)
    requires Run(ss, es) && es != [] && es[|es| - 1] == CallerDoes(Swap)
    ensures NeverRuns(ss, es) <==> Prevented(ss[|es| - 1])
  {
    var i := |es| - 1;
    var s := ss[i];
    assert Enabled(s, es[i]) && ss[i + 1] == Next(s, es[i]);
    assert Prevented(s) <==> Prevented(ss[i + 1]);
    if Prevented(s) {
      forall ss': seq<State>, es': seq<Event> | Extends(ss, es, ss', es') ensures ss'[|es'|].runs == 0 {
        PreventedForGood(ss', es', i + 1, |es'|);
      }
    } else if ss[i + 1].runs > 0 {
      assert Extends(ss, es, ss, es);
    } else {
      var x :| 0 <= x < |s.executors| && MayEnter(s, s.executors[x]);
      var ss', es' := Entering(ss, es, x);
    }
  }

  /** When the context ended, only a thread that had already found it alive can still enter; a
      thread that has claimed the function but not looked yet will not. */
  lemma {:induction false} GivingUpOnContextPreventsIff(ss: seq<State>, es: seq<Event>)
    requires Run(ss, es) && es != [] && es[|es| - 1] == CallerDoes(Swap)
    requires ss[|es| - 1].caller == GivingUp(ContextEnded)
    ensures var s := ss[|es| - 1];
      NeverRuns(ss, es) <==> s.runs == 0 && forall x :: 0 <= x < |s.executors| ==>
        !(s.executors[x].Cleared? && (s.leaderOnly ==> s.executors[x].leader))
  {
    GivingUpPreventsIff(ss, es);
    var s := ss[|es| - 1];
    ReachableInv(ss, es, |es| - 1);
    assert forall x :: 0 <= x < |s.executors| ==> (MayEnter(s, s.executors[x]) <==>
      s.executors[x].Cleared? && (s.leaderOnly ==> s.executors[x].leader));
  }

  /** A claim alone is not enough: here the swap loses to a thread that then finds the context
      ended, and the function never runs. */
  lemma {:induction false} LosingTheSwapMayStillPrevent(s0: State) returns (ss: seq<State>, es: seq<Event>)
    requires Init(s0) && !s0.contextEnded && !s0.queueStopped
    ensures Run(ss, es) && ss[0] == s0 && es != [] && es[|es| - 1] == CallerDoes(Swap)
    ensures ss[|es|].word == 1 && NeverRuns(ss, es)
  {
    var s1 := Next(s0, CallerDoes(Submit));
    var s2 := Next(s1, Arrive(true));
    var s3 := Next(s2, ExecutorDoes(0, TrySwap));
    var s4 := Next(s3, EndContext);
    var s5 := Next(s4, CallerDoes(SeeContext));
    var s6 := Next(s5, CallerDoes(Swap));
    ss := [s0, s1, s2, s3, s4, s5, s6];
    es := [CallerDoes(Submit), Arrive(true), ExecutorDoes(0, TrySwap), EndContext,
           CallerDoes(SeeContext), CallerDoes(Swap)];
    assert Prevented(s5);
    GivingUpPreventsIff(ss, es);
  }
}
