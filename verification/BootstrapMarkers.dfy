/** The marker files of the search-source bootstrap (internal/plugin/search_source_bootstrap.go).
    A startup attempt is given by the durable states it passes through, so that a crash is a stop
    at any one of them; runs are sequences of crashed and completed startups, of operators placing
    or removing authorisation files, and of service in between, during which channels grow, the
    configuration table changes and watermarks follow behind. */
module BootstrapMarkers {
  import opened Common
  import opened SearchSource
  import opened BootstrapPass

  /** A marker file: missing, unusable (wrong mode, owner, content or node), or usable. */
  datatype File = Absent | Broken | Good

  datatype Files = Files(
    marker: File, applying: File, consumed: File, closed: File,
    recovery: File, recoveryApplying: File, recoveryConsumed: File)

  datatype Durable = Durable(files: Files, marks: Marks)

  /** What a pass did, had it been allowed to run to its end: the table at the revision it ran
      under, the watermark states it went through, its writes, the ends it read, and its result. */
  datatype PassRun = PassRun(cs: seq<Config>, trail: seq<Marks>, log: seq<Write>, ends: Ends, result: Result)

  datatype Answer = Ready | Required | Refused

  datatype Attempt = Attempt(states: seq<Durable>, answer: Answer)

  predicate Has(f: File) {
    f != Absent
  }

  function Count(f: File): nat {
    if Has(f) then 1 else 0
  }

  predicate HasRecovery(f: Files) {
    Has(f.recovery) || Has(f.recoveryApplying) || Has(f.recoveryConsumed)
  }

  /** Marker sets that no sequence of startups produces. */
  predicate Conflicting(f: Files) {
    || (HasRecovery(f) && !Has(f.closed))
    || (Has(f.closed) && (Has(f.marker) || Has(f.applying) || Has(f.consumed)))
    || (Has(f.consumed) && (Has(f.marker) || Has(f.applying)))
    || (Has(f.marker) && Has(f.applying))
    || Count(f.recovery) + Count(f.recoveryApplying) + Count(f.recoveryConsumed) > 1
  }

  // ---------- One attempt ----------

  function WithMarks(files: Files, trail: seq<Marks>): seq<Durable> {
    seq(|trail|, i requires 0 <= i < |trail| => Durable(files, trail[i]))
  }

  function Refuse(d: Durable): Attempt {
    Attempt([d], Refused)
  }

  /** Bring the watermarks up to date under a marker that was consumed earlier. */
  function Reconcile(d: Durable, consumed: File, pass: PassRun): Attempt {
    if consumed == Broken then Refuse(d)
    else Attempt(WithMarks(d.files, pass.trail), if pass.result.Done? then Ready else Refused)
  }

  /** Claim the authorisation unless an earlier attempt did, run the pass under the claimed
      marker, and consume the marker only if the pass succeeded. */
  function Authorised(d: Durable, claim: bool, claimed: Files, finished: Files, pass: PassRun): Attempt {
    var under := (if claim then [d] else []) + WithMarks(claimed, pass.trail);
    if pass.result.Done? && pass.trail != [] then
      Attempt(under + [Durable(finished, pass.trail[|pass.trail| - 1])], Ready)
    else Attempt(under, Refused)
  }

  /** No marker at all closes the window: the file is created empty and then filled. */
  function Close(d: Durable): Attempt {
    Attempt([d, Durable(d.files.(closed := Broken), d.marks), Durable(d.files.(closed := Good), d.marks)], Required)
  }

  function ClosedWindow(d: Durable, pass: PassRun): Attempt {
    var f := d.files;
    if f.closed == Broken then Refuse(d)
    else if Count(f.recovery) + Count(f.recoveryApplying) + Count(f.recoveryConsumed) > 1 then Refuse(d)
    else if Has(f.recoveryConsumed) then Reconcile(d, f.recoveryConsumed, pass)
    else if !Has(f.recovery) && !Has(f.recoveryApplying) then Attempt([d], Required)
    else if f.recovery == Broken || f.recoveryApplying == Broken then Refuse(d)
    else
      var claimed := f.(recovery := Absent, recoveryApplying := Good);
      Authorised(d, Has(f.recovery), claimed, claimed.(recoveryApplying := Absent, recoveryConsumed := Good), pass)
  }

  function Start(d: Durable, pass: PassRun): Attempt {
    var f := d.files;
    if HasRecovery(f) && !Has(f.closed) then Refuse(d)
    else if Has(f.closed) then
      if Has(f.marker) || Has(f.applying) || Has(f.consumed) then Refuse(d) else ClosedWindow(d, pass)
    else if !Has(f.marker) && !Has(f.applying) then
      if Has(f.consumed) then Reconcile(d, f.consumed, pass) else Close(d)
    else if Has(f.consumed) then Refuse(d)
    else if Has(f.marker) && Has(f.applying) then Refuse(d)
    else if f.marker == Broken || f.applying == Broken then Refuse(d)
    else
      var claimed := f.(marker := Absent, applying := Good);
      Authorised(d, Has(f.marker), claimed, claimed.(applying := Absent, consumed := Good), pass)
  }

  /** A first-start or recovery pass would run here, as opposed to a reconciliation. */
  predicate Bootstraps(f: Files) {
    !Has(f.consumed) && !Has(f.recoveryConsumed)
  }

  // ---------- Runs ----------

  type Tails = Chan -> nat

  /** No tail leaves these bounds while the pass runs. */
  ghost predicate Within(env: Env, low: Tails, high: Tails) {
    forall t: nat, ch :: low(ch) <= env.physical(t, ch) <= high(ch)
  }

  /** What `BootstrapPass.Store.RunPass` guarantees about a pass from `m`, during which the tails
      move from `low` to `high` at most. */
  ghost predicate PassFrom(node: nat, m: Marks, low: Tails, high: Tails, pass: PassRun, fromZero: bool) {
    && Trail(pass.trail, pass.log, fromZero) && pass.trail[0] == m
    && (forall ch :: ch in pass.ends ==> low(ch) <= pass.ends[ch] <= high(ch))
    && (forall k :: 0 <= k < |pass.log| ==> low(pass.log[k].ch) <= pass.log[k].end <= high(pass.log[k].ch))
    && (pass.result.Done? ==> AllApplied(pass.trail[|pass.log|], pass.cs, node, pass.ends))
    && (pass.result == Failed(Partial) ==> fromZero)
    && (pass.result == Failed(Partial) && (forall ch :: low(ch) == high(ch)) ==> exists ch :: PartialAt(m, low, ch))
  }

  /** The pass that the code runs has just these guarantees. */
  method PassOf(node: nat, marks: Marks, env: Env, firstStart: bool, ghost low: Tails, ghost high: Tails)
    returns (ok: bool, after: Marks, ghost pass: PassRun)
    requires Fenced(env.view) && Within(env, low, high)
    ensures PassFrom(node, marks, low, high, pass, firstStart) && pass.cs == env.view(1).configs
    ensures ok == pass.result.Done? && after == pass.trail[|pass.log|]
    ensures Serene(env, node, low, marks, firstStart) ==> ok
    ensures ok ==> forall c :: c in env.view(1).configs && HasReplica(c, node) ==>
      low(ChanOf(c)) <= Mark(after, ChanOf(c)) <= high(ChanOf(c))
  {
    var store := new Store(marks);
    var r, roster := store.RunPass(node, env, firstStart, low);
    ok, after := r.Done?, store.marks;
    pass := PassRun(env.view(1).configs, store.trail, store.log, store.ends, r);
    if forall ch :: low(ch) == high(ch) {
      assert Still(env, low);
    }
    if ok {
      forall c | c in pass.cs && HasReplica(c, node)
        ensures ChanOf(c) in pass.ends && Mark(after, ChanOf(c)) == pass.ends[ChanOf(c)]
      {
        assert Finished(store.ends, c, node, roster);
      }
    }
  }

  /** What survives a crash, and where the channels end. */
  datatype State = State(d: Durable, tails: Tails)

  datatype Event =
    | Operator                            // places or removes an authorisation
    | Serve                               // channels grow, watermarks rise, by any amounts
    | Startup(pass: PassRun, stop: nat)   // stopped in durable state number `stop`

  ghost predicate Next(node: nat, s: State, e: Event, s': State) {
    match e
    case Operator =>
      s' == s.(d := Durable(s.d.files.(marker := s'.d.files.marker, recovery := s'.d.files.recovery), s.d.marks))
    case Serve =>
      s'.d.files == s.d.files &&
      forall ch :: s.tails(ch) <= s'.tails(ch) && Mark(s.d.marks, ch) <= Mark(s'.d.marks, ch)
    case Startup(pass, stop) =>
      && (forall ch :: s.tails(ch) <= s'.tails(ch))
      && PassFrom(node, s.d.marks, s.tails, s'.tails, pass, Bootstraps(s.d.files))
      && stop < |Start(s.d, pass).states| && s'.d == Start(s.d, pass).states[stop]
  }

  const EMPTY := Files(Absent, Absent, Absent, Absent, Absent, Absent, Absent)

  ghost predicate Run(node: nat, ss: seq<State>, es: seq<Event>) {
    && |ss| == |es| + 1 && ss[0].d.files.(marker := Absent, recovery := Absent) == EMPTY
    && forall i :: 0 <= i < |es| ==> Next(node, ss[i], es[i], ss[i + 1])
  }

  // ---------- What every run keeps ----------

  ghost predicate Inv(f: Files) {
    && !(Has(f.closed) && (Has(f.applying) || Has(f.consumed)))
    && !(Has(f.applying) && Has(f.consumed))
    && !(Has(f.recoveryApplying) && Has(f.recoveryConsumed))
    && (Has(f.recoveryApplying) || Has(f.recoveryConsumed) ==> Has(f.closed))
  }

  /** A conflicting set of markers is refused before anything is touched. */
  lemma {:induction false} ConflictsChangeNothing(d: Durable, pass: PassRun)
    requires Conflicting(d.files)
    ensures Start(d, pass) == Attempt([d], Refused)
  {
  }

  /** The marker files of a startup that may run a pass, and those it leaves if the pass succeeds. */
  predicate Authorises(f: Files, f': Files) {
    || (f == EMPTY.(marker := Good) && f' == EMPTY.(consumed := Good))
    || (f == EMPTY.(applying := Good) && f' == EMPTY.(consumed := Good))
    || (f == EMPTY.(consumed := Good) && f' == f)
    || (f == EMPTY.(closed := Good, recovery := Good) && f' == EMPTY.(closed := Good, recoveryConsumed := Good))
    || (f == EMPTY.(closed := Good, recoveryApplying := Good) && f' == EMPTY.(closed := Good, recoveryConsumed := Good))
    || (f == EMPTY.(closed := Good, recoveryConsumed := Good) && f' == f)
  }

  /** A startup says it is ready if and only if one of six marker sets lets it run a pass and the pass
      succeeds; it asks for a bootstrap if and only if there is no marker but at most that of the
      closed window, which it then leaves; anything else is refused. */
  lemma {:induction false} AnswerIff(d: Durable, pass: PassRun)
    requires pass.trail != []
    ensures var a := Start(d, pass);
      && a.states != []
      && (a.answer.Ready? <==> pass.result.Done? && exists f' :: Authorises(d.files, f'))
      && (a.answer.Ready? ==> Authorises(d.files, a.states[|a.states| - 1].files))
      && (a.answer.Required? <==> d.files == EMPTY || d.files == EMPTY.(closed := Good))
      && (a.answer.Required? ==> a.states[|a.states| - 1] == Durable(EMPTY.(closed := Good), d.marks))
  {
    var f := d.files;
    assert Authorises(EMPTY.(marker := Good), EMPTY.(consumed := Good));
    assert Authorises(EMPTY.(applying := Good), EMPTY.(consumed := Good));
    assert Authorises(EMPTY.(consumed := Good), EMPTY.(consumed := Good));
    var done := EMPTY.(closed := Good, recoveryConsumed := Good);
    assert Authorises(EMPTY.(closed := Good, recovery := Good), done);
    assert Authorises(EMPTY.(closed := Good, recoveryApplying := Good), done);
    assert Authorises(done, done);
  }

  lemma {:induction false} AuthorisedStates(d: Durable, claim: bool, claimed: Files, finished: Files, pass: PassRun,
        stop: nat) returns (k: nat)
    requires pass.trail != [] && pass.trail[0] == d.marks
    requires stop < |Authorised(d, claim, claimed, finished, pass).states|
    ensures var states := Authorised(d, claim, claimed, finished, pass).states;
      var last := |states| - 1;
      && k < |pass.trail| && states[stop].marks == pass.trail[k]
      && (|| states[stop].files in {d.files, claimed}
          || (&& pass.result.Done? && stop == last > 0 && k == |pass.trail| - 1
              && states[last] == Durable(finished, pass.trail[k])
              && states[last - 1] == Durable(claimed, pass.trail[k])))
  {
    var n := |pass.trail|;
    var first := if claim then 1 else 0;
    k := if stop < first then 0 else if stop - first < n then stop - first else n - 1;
  }

  /** Every durable state of an attempt carries watermarks of the pass, and a consumed marker
      appears only in the last state, after a successful pass under the claimed authorisation. */
  lemma {:induction false} AttemptStates(d: Durable, pass: PassRun, stop: nat) returns (k: nat)
    requires pass.trail != [] && pass.trail[0] == d.marks && stop < |Start(d, pass).states|
    ensures var d' := Start(d, pass).states[stop];
      && k < |pass.trail| && d'.marks == pass.trail[k]
      && (d'.files.consumed != d.files.consumed ==>
            && pass.result.Done? && k == |pass.trail| - 1 && stop == |Start(d, pass).states| - 1
            && (d.files.marker == Good || d.files.applying == Good) && !Has(d.files.closed) && !Has(d.files.consumed)
            && Start(d, pass).states[stop - 1] == Durable(d.files.(marker := Absent, applying := Good), d'.marks))
      && (d'.files.recoveryConsumed != d.files.recoveryConsumed ==>
            && pass.result.Done? && k == |pass.trail| - 1 && stop == |Start(d, pass).states| - 1
            && (d.files.recovery == Good || d.files.recoveryApplying == Good)
            && d.files.closed == Good && !Has(d.files.recoveryConsumed)
            && Start(d, pass).states[stop - 1] ==
               Durable(d.files.(recovery := Absent, recoveryApplying := Good), d'.marks))
  {
    var f, a := d.files, Start(d, pass);
    if |a.states| == 1 || a.answer == Required {
      k := 0;
    } else if Has(f.consumed) || Has(f.recoveryConsumed) {
      k := stop;
    } else if Has(f.closed) {
      var claimed := f.(recovery := Absent, recoveryApplying := Good);
      var finished := claimed.(recoveryApplying := Absent, recoveryConsumed := Good);
      k := AuthorisedStates(d, Has(f.recovery), claimed, finished, pass, stop);
    } else {
      var claimed := f.(marker := Absent, applying := Good);
      k := AuthorisedStates(d, Has(f.marker), claimed, claimed.(applying := Absent, consumed := Good), pass, stop);
    }
  }

  lemma {:induction false} AuthorisedPass(d: Durable, claim: bool, claimed: Files, finished: Files, pass: PassRun,
        k: nat)
    requires k < |pass.trail| && pass.result.Done?
    ensures var states := Authorised(d, claim, claimed, finished, pass).states;
      |pass.trail| < |states| && states[|states| - 1 - |pass.trail| + k] == Durable(claimed, pass.trail[k])
  {
  }

  /** State number `k` of the pass of a startup that ends by consuming its marker. */
  ghost function PassState(d: Durable, pass: PassRun, k: nat): Durable
    requires k < |pass.trail| < |Start(d, pass).states|
  {
    Start(d, pass).states[|Start(d, pass).states| - 1 - |pass.trail| + k]
  }

  /** Before a consumed marker appears, the whole pass runs under the claimed authorisation. */
  lemma {:induction false} PassRunsUnderClaim(d: Durable, pass: PassRun, k: nat)
    requires k < |pass.trail| && pass.result.Done? && Start(d, pass).answer.Ready? && Bootstraps(d.files)
    ensures |pass.trail| < |Start(d, pass).states|
    ensures PassState(d, pass, k) ==
      if Has(d.files.closed) then Durable(d.files.(recovery := Absent, recoveryApplying := Good), pass.trail[k])
      else Durable(d.files.(marker := Absent, applying := Good), pass.trail[k])
  {
    hide Authorised;
    var f := d.files;
    if Has(f.closed) {
      var claimed := f.(recovery := Absent, recoveryApplying := Good);
      var finished := claimed.(recoveryApplying := Absent, recoveryConsumed := Good);
      AuthorisedPass(d, Has(f.recovery), claimed, finished, pass, k);
    } else {
      var claimed := f.(marker := Absent, applying := Good);
      AuthorisedPass(d, Has(f.marker), claimed, claimed.(applying := Absent, consumed := Good), pass, k);
    }
  }

  lemma {:induction false} StepKeepsInv(node: nat, s: State, e: Event, s': State)
    requires Inv(s.d.files) && Next(node, s, e, s')
    ensures Inv(s'.d.files)
  {
    if e.Startup? {
      var k := AttemptStates(s.d, e.pass, e.stop);
    }
  }

  /** Over any sequence of startups, crashed at any point, of operator actions and of service: the
      closed window and a normal consumed marker never coexist, nor do the stages of one kind. */
  lemma {:induction false} ReachableInv(node: nat, ss: seq<State>, es: seq<Event>, i: nat)
    requires Run(node, ss, es) && i < |ss|
    ensures Inv(ss[i].d.files)
    decreases i
  {
    if i > 0 {
      ReachableInv(node, ss, es, i - 1);
      StepKeepsInv(node, ss[i - 1], es[i - 1], ss[i]);
    }
  }

  /** Every channel of the table that is replicated here is applied at least to where it ended
      before, and at most to where it ends after. */
  ghost predicate AppliedBetween(m: Marks, cs: seq<Config>, node: nat, low: Tails, high: Tails) {
    forall c :: c in cs && HasReplica(c, node) ==> low(ChanOf(c)) <= Mark(m, ChanOf(c)) <= high(ChanOf(c))
  }

  /** A consumed marker appears only at the end of a startup whose pass succeeded, by renaming the
      applying marker of the same kind, under which all of the pass had run; and at that moment
      every channel of the pass's table that is replicated here is applied. */
  lemma {:induction false} ConsumedOnlyAfterPass(node: nat, ss: seq<State>, es: seq<Event>, i: nat)
    requires Run(node, ss, es) && i < |es|
    requires || (Has(ss[i + 1].d.files.consumed) && !Has(ss[i].d.files.consumed))
             || (Has(ss[i + 1].d.files.recoveryConsumed) && !Has(ss[i].d.files.recoveryConsumed))
    ensures es[i].Startup? && es[i].pass.result.Done?
    ensures AppliedBetween(ss[i + 1].d.marks, es[i].pass.cs, node, ss[i].tails, ss[i + 1].tails)
    ensures es[i].stop == |Start(ss[i].d, es[i].pass).states| - 1 && 0 < |es[i].pass.trail| <= es[i].stop
    ensures ss[i + 1].d.marks == es[i].pass.trail[|es[i].pass.trail| - 1]
    ensures forall k :: 0 <= k < |es[i].pass.trail| ==>
      var d := PassState(ss[i].d, es[i].pass, k);
      && d.marks == es[i].pass.trail[k]
      && (Has(ss[i + 1].d.files.consumed) && !Has(ss[i].d.files.consumed) ==>
            d.files.applying == Good && !Has(d.files.closed))
      && (Has(ss[i + 1].d.files.recoveryConsumed) && !Has(ss[i].d.files.recoveryConsumed) ==>
            d.files.recoveryApplying == Good && d.files.closed == Good)
  {
    hide Start;
    assert Next(node, ss[i], es[i], ss[i + 1]);
    var d, pass := ss[i].d, es[i].pass;
    var last := AttemptStates(d, pass, es[i].stop);
    ReachableInv(node, ss, es, i);
    ConsumingAnswer(d, pass);
    forall k | 0 <= k < |pass.trail| ensures |pass.trail| < |Start(d, pass).states| && PassState(d, pass, k) ==
      if Has(d.files.closed) then Durable(d.files.(recovery := Absent, recoveryApplying := Good), pass.trail[k])
      else Durable(d.files.(marker := Absent, applying := Good), pass.trail[k])
    {
      PassRunsUnderClaim(d, pass, k);
    }
    assert |pass.trail| < |Start(d, pass).states| by { PassRunsUnderClaim(d, pass, 0); }
  }

  lemma {:induction false} ConsumingAnswer(d: Durable, pass: PassRun)
    requires Start(d, pass).states != [] && Inv(d.files)
    requires var f := Start(d, pass).states[|Start(d, pass).states| - 1].files;
      (Has(f.consumed) && !Has(d.files.consumed)) || (Has(f.recoveryConsumed) && !Has(d.files.recoveryConsumed))
    ensures Start(d, pass).answer.Ready? && Bootstraps(d.files)
  {
  }

  /** A startup that was not stopped on the way. */
  ghost predicate RanToItsEnd(s: State, e: Event) {
    e.Startup? && e.stop == |Start(s.d, e.pass).states| - 1
  }

  /** The startup ran to its end and said that the source is ready. */
  ghost predicate SaidReady(s: State, e: Event) {
    RanToItsEnd(s, e) && Start(s.d, e.pass).answer.Ready?
  }

  lemma {:induction false} ReadyHasFinalMarks(d: Durable, pass: PassRun)
    requires pass.trail != [] && Start(d, pass).answer.Ready?
    ensures var states := Start(d, pass).states;
      pass.result.Done? && states != [] && states[|states| - 1].marks == pass.trail[|pass.trail| - 1]
  {
  }

  lemma {:induction false} TrailRises(trail: seq<Marks>, log: seq<Write>, fromZero: bool, k: nat, ch: Chan)
    requires Trail(trail, log, fromZero) && k < |trail|
    ensures Mark(trail[0], ch) <= Mark(trail[k], ch)
    decreases k
  {
    if k > 0 {
      TrailRises(trail, log, fromZero, k - 1, ch);
      assert Raises(trail[k - 1], trail[k], log[k - 1], fromZero);
    }
  }

  /** No watermark ever falls: what was applied stays applied, whatever crashes. */
  lemma {:induction false} MarksOnlyRise(node: nat, ss: seq<State>, es: seq<Event>, i: nat, j: nat, ch: Chan)
    requires Run(node, ss, es) && i <= j < |ss|
    ensures Mark(ss[i].d.marks, ch) <= Mark(ss[j].d.marks, ch)
    decreases j
  {
    hide Start;
    if i < j {
      MarksOnlyRise(node, ss, es, i, j - 1, ch);
      var s, e := ss[j - 1], es[j - 1];
      assert Next(node, s, e, ss[j]);
      if e.Startup? {
        var k := AttemptStates(s.d, e.pass, e.stop);
        TrailRises(e.pass.trail, e.pass.log, Bootstraps(s.d.files), k, ch);
      }
    }
  }

  /** Whether it bootstrapped or reconciled, a startup that says it is ready leaves every channel
      of its table that is replicated here applied: to its end, if the channel does not grow
      meanwhile, and otherwise at least as far as it reached when the startup began. What was
      there then stays applied, whatever is started, crashes or grows later. */
  lemma {:induction false} ReadyMeansApplied(node: nat, ss: seq<State>, es: seq<Event>, i: nat)
    requires Run(node, ss, es) && i < |es| && SaidReady(ss[i], es[i])
    ensures AppliedBetween(ss[i + 1].d.marks, es[i].pass.cs, node, ss[i].tails, ss[i + 1].tails)
    ensures forall j, c :: i < j < |ss| && c in es[i].pass.cs && HasReplica(c, node) ==>
      ss[i].tails(ChanOf(c)) <= Mark(ss[j].d.marks, ChanOf(c))
  {
    hide Start;
    assert Next(node, ss[i], es[i], ss[i + 1]);
    ReadyHasFinalMarks(ss[i].d, es[i].pass);
    forall j, c | i < j < |ss| && c in es[i].pass.cs && HasReplica(c, node)
      ensures ss[i].tails(ChanOf(c)) <= Mark(ss[j].d.marks, ChanOf(c))
    {
      MarksOnlyRise(node, ss, es, i + 1, j, ChanOf(c));
    }
  }

  /** A pass over one channel that has grown. */
  ghost function OneWrite(c: Config, m: Marks, end: nat): PassRun {
    var ch := ChanOf(c);
    PassRun([c], [m, m[ch := end]], [Write(ch, end)], map[ch := end], Done)
  }

  lemma {:induction false} OneWriteIsPass(node: nat, c: Config, m: Marks, tails: Tails, fromZero: bool)
    requires Mark(m, ChanOf(c)) < tails(ChanOf(c)) && (fromZero ==> Mark(m, ChanOf(c)) == 0)
    ensures PassFrom(node, m, tails, tails, OneWrite(c, m, tails(ChanOf(c))), fromZero)
  {
    var pass := OneWrite(c, m, tails(ChanOf(c)));
    assert Raises(pass.trail[0], pass.trail[1], pass.log[0], fromZero);
  }

  /** A consumed marker alone says nothing about the present: a channel may have grown since. Here
      one has, and the next startup reconciles it with one write. */
  lemma {:induction false} ConsumedMayLag(node: nat) returns (ss: seq<State>, es: seq<Event>)
    requires node != 0
    ensures Run(node, ss, es) && |es| == 3 && SaidReady(ss[2], es[2]) && es[2].pass.log != []
    ensures Has(ss[2].d.files.consumed)
    ensures exists c ::
      c in es[2].pass.cs && HasReplica(c, node) && Mark(ss[2].d.marks, ChanOf(c)) < ss[2].tails(ChanOf(c))
  {
    hide PassFrom;
    var c := Config(1, "c", 1, true, node, 1, [node], [], 0, 0, 1, 1);
    var ch := ChanOf(c);
    var two, five := (x: Chan) => if x == ch then 2 else 0, (x: Chan) => if x == ch then 5 else 0;
    var start := Durable(EMPTY.(marker := Good), map[]);
    var pass := OneWrite(c, start.marks, 2);
    OneWriteIsPass(node, c, start.marks, two, true);
    var done := Durable(EMPTY.(consumed := Good), pass.trail[1]);
    var pass' := OneWrite(c, done.marks, 5);
    OneWriteIsPass(node, c, done.marks, five, false);
    ss := [State(start, two), State(done, two), State(done, five), State(Durable(done.files, pass'.trail[1]), five)];
    es := [Startup(pass, 3), Serve, Startup(pass', 1)];
    assert Next(node, ss[0], es[0], ss[1]) && Next(node, ss[1], es[1], ss[2]) && Next(node, ss[2], es[2], ss[3]);
    assert c in es[2].pass.cs;
  }

  // ---------- Repeating an interrupted pass ----------

  ghost predicate NoPartial(m: Marks, tails: Tails) {
    forall ch :: !PartialAt(m, tails, ch)
  }

  lemma {:induction false} TrailKeepsNoPartial(node: nat, m: Marks, tails: Tails, pass: PassRun, fromZero: bool, k: nat)
    requires PassFrom(node, m, tails, tails, pass, fromZero) && k < |pass.trail| && NoPartial(m, tails)
    ensures NoPartial(pass.trail[k], tails)
    decreases k
  {
    if k > 0 {
      TrailKeepsNoPartial(node, m, tails, pass, fromZero, k - 1);
      var w := pass.log[k - 1];
      assert Raises(pass.trail[k - 1], pass.trail[k], w, fromZero);
      forall ch ensures !PartialAt(pass.trail[k], tails, ch) {
        assert !PartialAt(pass.trail[k - 1], tails, ch);
      }
    }
  }

  /** Nothing but operators and startups, and no tail moves. */
  ghost predicate StandsStill(ss: seq<State>, es: seq<Event>) {
    && (forall i :: 0 <= i < |es| ==> !es[i].Serve?)
    && (forall i :: 0 <= i < |ss| ==> ss[i].tails == ss[0].tails)
  }

  /** With unchanged tails, passes that are interrupted anywhere and started again never meet a
      partial watermark of their own making: none is ever refused for one. */
  lemma {:induction false} NeverPartial(node: nat, ss: seq<State>, es: seq<Event>, i: nat)
    requires Run(node, ss, es) && |ss| == |es| + 1 && StandsStill(ss, es) && i < |ss|
    requires NoPartial(ss[0].d.marks, ss[0].tails)
    ensures NoPartial(ss[i].d.marks, ss[0].tails)
    ensures i < |es| && es[i].Startup? ==> es[i].pass.result != Failed(Partial)
    decreases i
  {
    hide Start;
    if i > 0 {
      NeverPartial(node, ss, es, i - 1);
      var s, e := ss[i - 1], es[i - 1];
      assert Next(node, s, e, ss[i]);
      if e.Startup? {
        var k := AttemptStates(s.d, e.pass, e.stop);
        TrailKeepsNoPartial(node, s.d.marks, ss[0].tails, e.pass, Bootstraps(s.d.files), k);
      }
    }
    if i < |es| && es[i].Startup? {
      assert Next(node, ss[i], es[i], ss[i + 1]);
    }
  }

  // ---------- Crashes are survived ----------

  /** A normal bootstrap is under way: exactly one of its three markers is there. */
  predicate UnderWay(f: Files) {
    f == EMPTY.(marker := Good) || f == EMPTY.(applying := Good) || f == EMPTY.(consumed := Good)
  }

  lemma {:induction false} AttemptStaysUnderWay(d: Durable, pass: PassRun, stop: nat)
    requires UnderWay(d.files) && pass.trail != [] && stop < |Start(d, pass).states|
    ensures UnderWay(Start(d, pass).states[stop].files)
    ensures d.files.consumed == Good ==> Start(d, pass).states[stop].files.consumed == Good
    ensures pass.result.Done? && stop == |Start(d, pass).states| - 1 ==>
      Start(d, pass).states[stop].files.consumed == Good && Start(d, pass).answer.Ready?
  {
  }

  /** However often startups crash, and whatever happens in between, a normal bootstrap that the
      operator leaves alone stays under way; as soon as one startup is allowed to finish a
      successful pass it is consumed, and stays so. */
  lemma {:induction false} BootstrapSurvivesCrashes(node: nat, ss: seq<State>, es: seq<Event>, i: nat)
    requires Run(node, ss, es) && UnderWay(ss[0].d.files) && i < |ss|
    requires forall k :: 0 <= k < |es| ==> !es[k].Operator?
    ensures UnderWay(ss[i].d.files)
    ensures (exists k :: 0 <= k < i && SaidReady(ss[k], es[k])) ==> ss[i].d.files.consumed == Good
    ensures i < |es| && RanToItsEnd(ss[i], es[i]) && es[i].pass.result.Done? ==> SaidReady(ss[i], es[i])
    decreases i
  {
    hide Start;
    if i > 0 {
      BootstrapSurvivesCrashes(node, ss, es, i - 1);
      assert Next(node, ss[i - 1], es[i - 1], ss[i]);
      if es[i - 1].Startup? {
        AttemptStaysUnderWay(ss[i - 1].d, es[i - 1].pass, es[i - 1].stop);
        if SaidReady(ss[i - 1], es[i - 1]) {
          ReadyHasFinalMarks(ss[i - 1].d, es[i - 1].pass);
        }
      }
    }
    if i < |es| && es[i].Startup? {
      assert Next(node, ss[i], es[i], ss[i + 1]);
      AttemptStaysUnderWay(ss[i].d, es[i].pass, es[i].stop);
    }
  }

  /** Closing the window is not crash-safe: stopped between creating and filling the file, it
      leaves a state that every later startup refuses until somebody removes the file. The next
      startup asks for a bootstrap exactly when the crash was not at that point. */
  lemma {:induction false} ClosingSurvivesIff(d: Durable, pass: PassRun, pass': PassRun, stop: nat)
    requires d.files == EMPTY && stop < |Start(d, pass).states|
    ensures |Start(d, pass).states| == 3
    ensures Start(Start(d, pass).states[stop], pass').answer == Required <==> stop != 1
    ensures stop == 1 ==> Start(Start(d, pass).states[stop], pass') == Refuse(Start(d, pass).states[stop])
  {
  }
}
