/** One pass over the channels replicated on this node (internal/plugin/search_source_bootstrap.go,
    the offline bootstrap and the reconciliation of a consumed one): it pages through the
    configuration table under the revision and roster fence and moves applied watermarks. */
module BootstrapPass {
  import opened Common
  import opened SearchSource

  const PAGE_SIZE := 500
  const MAX_SEQUENCE := 0xFFFF_FFFF

  function ChanOf(c: Config): Chan {
    Chan(c.channelId, c.channelType)
  }

  datatype Error = Cancelled | BadRoster | Fence | ReadFailed | BadWatermarks | Partial | UpdateFailed | NotDurable

  datatype Result = Done | Failed(error: Error)

  type Marks = map<Chan, nat>

  function Mark(m: Marks, ch: Chan): nat {
    if ch in m then m[ch] else 0
  }

  // ---------- What a pass writes ----------

  /** One durable write: the watermark of a channel is raised to `end`, the end of the channel that
      the pass has read. */
  datatype Write = Write(ch: Chan, end: nat)

  /** A first-start pass raises a watermark only from zero. */
  ghost predicate Raises(m: Marks, m': Marks, w: Write, fromZero: bool) {
    Mark(m, w.ch) < w.end && (fromZero ==> Mark(m, w.ch) == 0) && m' == m[w.ch := w.end]
  }

  /** The durable states of a pass, one after each write; a crash leaves any one of them. */
  ghost predicate Trail(trail: seq<Marks>, log: seq<Write>, fromZero: bool) {
    && |trail| == |log| + 1
    && forall k :: 0 <= k < |log| ==> Raises(trail[k], trail[k + 1], log[k], fromZero)
  }

  /** A watermark strictly between zero and the physical end. */
  ghost predicate PartialAt(m: Marks, physical: Chan -> nat, ch: Chan) {
    0 < Mark(m, ch) < physical(ch)
  }

  predicate HasReplica(c: Config, node: nat) {
    node in c.replicas
  }

  /** The ends of channels, as the pass last read them. */
  type Ends = map<Chan, nat>

  /** Every channel of the table that is replicated here is applied to the end that was read. */
  ghost predicate AllApplied(m: Marks, cs: seq<Config>, node: nat, ends: Ends) {
    forall c :: c in cs && HasReplica(c, node) ==> ChanOf(c) in ends && Mark(m, ChanOf(c)) == ends[ChanOf(c)]
  }

  datatype Update = Stored | StoredButFailed | NotStored | Ignored

  /** What the pass meets outside: successive views of the world, the authority's answers, the
      physical ends at each moment, and which reads fail, which updates take hold and when the
      context is cancelled. */
  datatype Env = Env(
    view: View, authority: (nat, Chan) -> Maybe<Config>, physical: (nat, Chan) -> nat,
    readFails: nat -> bool, update: nat -> Update, cancelled: nat -> bool)

  /** The channel ended there at some moment of the pass. */
  ghost predicate Seen(env: Env, ch: Chan, end: nat) {
    exists t: nat :: end == env.physical(t, ch)
  }

  /** No tail moves during the pass. */
  ghost predicate Still(env: Env, tails: Chan -> nat) {
    forall t: nat, ch :: env.physical(t, ch) == tails(ch)
  }

  /** The snapshot check made before every page, after every channel and at the end. */
  function Check(env: Env, node: nat, roster: seq<nat>, revision: nat, t: nat): Result {
    if env.readFails(t) || Canonical(node, env.view(t).roster) != Some(roster) then Failed(BadRoster)
    else if !Stable(env.view(t + 1).revision) || env.view(t + 1).revision != revision then Failed(Fence)
    else Done
  }

  /** All reads before `now` saw the table `cs`. */
  ghost predicate Steady(view: View, now: nat, cs: seq<Config>) {
    forall k: nat :: 1 <= k < now ==> view(k).configs == cs
  }

  // ---------- A pass that nothing disturbs ----------

  /** No read fails, nothing is cancelled, and every update is stored. */
  ghost predicate Untroubled(env: Env) {
    forall t: nat :: !env.readFails(t) && !env.cancelled(t) && env.update(t).Stored?
  }

  /** The configuration is valid, its authority confirms it, and its channel is not too long. */
  ghost predicate Confirmed(env: Env, c: Config, roster: seq<nat>, tails: Chan -> nat) {
    ValidConfig(c, roster) && tails(ChanOf(c)) <= MAX_SEQUENCE &&
    forall t: nat :: env.authority(t, ChanOf(c)) == Some(c)
  }

  /** Roster and revision stand still. */
  ghost predicate Unmoved(env: Env, node: nat, roster: seq<nat>, revision: nat) {
    && Stable(revision)
    && forall t: nat :: Canonical(node, env.view(t).roster) == Some(roster) && env.view(t).revision == revision
  }

  /** The pass accepts this watermark: it is not above the end, and on a first start not partial. */
  ghost predicate Acceptable(m: Marks, tails: Chan -> nat, c: Config, firstStart: bool) {
    var mark, end := Mark(m, ChanOf(c)), tails(ChanOf(c));
    mark <= end && (firstStart ==> mark == 0 || mark == end)
  }

  /** Nothing outside keeps the channel from being handled. */
  ghost predicate Favourable(env: Env, node: nat, roster: seq<nat>, c: Config, tails: Chan -> nat) {
    Untroubled(env) && Still(env, tails) && Confirmed(env, c, roster, tails) && node in c.replicas
  }

  /** The ids rise from `after` on. */
  ghost predicate Rising(after: nat, page: seq<Config>) {
    forall i :: 0 <= i < |page| ==> LastId(after, page[..i]) < page[i].id
  }

  ghost predicate CalmPage(env: Env, node: nat, roster: seq<nat>, revision: nat, after: nat, page: seq<Config>,
        tails: Chan -> nat) {
    && Untroubled(env) && Unmoved(env, node, roster, revision) && Still(env, tails)
    && Rising(after, page) && (forall c :: c in page ==> Confirmed(env, c, roster, tails))
  }

  /** A mark that moves only to its end stays acceptable. */
  lemma {:induction false} StaysAcceptable(m: Marks, m': Marks, env: Env, tails: Chan -> nat, c: Config,
        firstStart: bool)
    requires Still(env, tails) && Acceptable(m, tails, c, firstStart)
    requires Mark(m', ChanOf(c)) == Mark(m, ChanOf(c)) || Seen(env, ChanOf(c), Mark(m', ChanOf(c)))
    ensures Acceptable(m', tails, c, firstStart)
  {
  }

  lemma {:induction false} PageRises(cs: seq<Config>, after: nat, limit: nat)
    requires Keyed(cs)
    ensures Rising(after, PageOf(cs, after, limit)) && forall c :: c in PageOf(cs, after, limit) ==> c in cs
  {
    var page, j := PageOf(cs, after, limit), IndexAfter(cs, after);
    PageIsTheSmallest(cs, after, limit);
    forall i | 0 <= i < |page| ensures LastId(after, page[..i]) < page[i].id {
      assert page[i] == cs[j + i] && (i > 0 ==> page[i - 1] == cs[j + i - 1]);
    }
  }

  /** All of it together, for the table `cs`. */
  ghost predicate Calm(env: Env, node: nat, roster: seq<nat>, revision: nat, cs: seq<Config>, tails: Chan -> nat) {
    && Untroubled(env) && Unmoved(env, node, roster, revision) && Still(env, tails)
    && (forall t: nat :: env.view(t).configs == cs) && (forall c :: c in cs ==> Confirmed(env, c, roster, tails))
  }

  /** The pass meets nothing but calm, under the roster, revision and table it starts with. */
  ghost predicate Serene(env: Env, node: nat, tails: Chan -> nat, m: Marks, firstStart: bool) {
    && Canonical(node, env.view(0).roster).Some?
    && Calm(env, node, Canonical(node, env.view(0).roster).value, env.view(1).revision, env.view(1).configs, tails)
    && AllAcceptable(m, tails, env.view(1).configs, node, firstStart)
  }

  /** Such a pass exists for every node: here one channel of any length waits for its first start. */
  lemma {:induction false} SerenePassExists(node: nat, end: nat) returns (env: Env, tails: Chan -> nat, c: Config)
    requires 0 < node && end <= MAX_SEQUENCE
    ensures Fenced(env.view) && Serene(env, node, tails, map[], true)
    ensures env.view(1).configs == [c] && node in c.replicas && tails(ChanOf(c)) == end
  {
    c := Config(1, "c", 1, true, node, 1, [node], [], 0, 0, 1, 1);
    var world, answer := World(2, [c], [node]), Some(c);
    tails := (ch: Chan) => end;
    env := Env((t: nat) => world, (t: nat, ch: Chan) => answer, (t: nat, ch: Chan) => end,
               (t: nat) => false, (t: nat) => Stored, (t: nat) => false);
    assert Sort([node]) == Insert(node, []) == [node];
    assert "c"[0] == 'c' && 'c' in "c" && !Blank("c");
    assert Confirmed(env, c, [node], tails);
  }

  lemma {:induction false} AllStayAcceptable(m: Marks, m': Marks, env: Env, tails: Chan -> nat, cs: seq<Config>,
        node: nat, firstStart: bool)
    requires Still(env, tails) && AllAcceptable(m, tails, cs, node, firstStart)
    requires forall ch :: Mark(m', ch) == Mark(m, ch) || Seen(env, ch, Mark(m', ch))
    ensures AllAcceptable(m', tails, cs, node, firstStart)
  {
    forall c | c in cs && node in c.replicas ensures Acceptable(m', tails, c, firstStart) {
      StaysAcceptable(m, m', env, tails, c, firstStart);
    }
  }

  ghost predicate AllAcceptable(m: Marks, tails: Chan -> nat, cs: seq<Config>, node: nat, firstStart: bool) {
    forall c :: c in cs && node in c.replicas ==> Acceptable(m, tails, c, firstStart)
  }

  class Store {
    var marks: Marks
    // History: every durable state since the start, what was written, and the ends last read.
    ghost var trail: seq<Marks>
    ghost var log: seq<Write>
    ghost var ends: Ends

    ghost predicate Valid(fromZero: bool)
      reads this
    {
      && Trail(trail, log, fromZero) && trail[|log|] == marks
      && (forall ch :: ch in ends ==> Mark(marks, ch) == ends[ch])
    }

    /** The ends are ends that channels had, and every write is to such an end. */
    ghost predicate Read(env: Env)
      reads this
    {
      && (forall ch :: ch in ends ==> Seen(env, ch, ends[ch]))
      && (forall k :: 0 <= k < |log| ==> Seen(env, log[k].ch, log[k].end))
    }

    /** A pass may write this: an end that the channel had, and on a first start only over zero. */
    ghost predicate Fits(ch: Chan, index: nat, env: Env, fromZero: bool)
      reads this
    {
      && Valid(fromZero) && Read(env) && Seen(env, ch, index)
      && (fromZero && Mark(marks, ch) < index ==> Mark(marks, ch) == 0)
    }

    /** What a step of the pass may do: go on with the trail and read more ends. */
    twostate predicate Onward(env: Env, fromZero: bool)
      reads this
    {
      && Valid(fromZero) && Read(env) && old(trail) <= trail && old(log) <= log && old(ends.Keys) <= ends.Keys
      && (forall ch :: Mark(marks, ch) == old(Mark(marks, ch)) || Seen(env, ch, Mark(marks, ch)))
    }

    constructor (marks: Marks)
      ensures this.marks == marks && trail == [marks] && log == [] && ends == map[]
      ensures Valid(true) && Valid(false)
    {
      this.marks, trail, log, ends := marks, [marks], [], map[];
    }

    /** The store's own rule: an index that is not above the watermark is accepted and ignored. With
        an end that the channel had, the pass goes on. */
    method UpdateApplied(ch: Chan, index: nat, outcome: Update, ghost env: Env, ghost fromZero: bool)
      returns (err: bool)
      modifies this
      ensures old(Fits(ch, index, env, fromZero)) ==> Onward(env, fromZero)
      ensures var done := (outcome.Stored? || outcome.StoredButFailed?) && Mark(old(marks), ch) < index;
        && marks == (if done then old(marks)[ch := index] else old(marks))
        && ends == (if done then old(ends)[ch := index] else old(ends))
      ensures err == (outcome.StoredButFailed? || outcome.NotStored?)
    {
      if (outcome.Stored? || outcome.StoredButFailed?) && Mark(marks, ch) < index {
        marks := marks[ch := index];
        trail, log, ends := trail + [marks], log + [Write(ch, index)], ends[ch := index];
      }
      err := outcome.StoredButFailed? || outcome.NotStored?;
    }

    /** The watermark is found at the end that was just read. */
    ghost method Note(ch: Chan, end: nat, env: Env, fromZero: bool)
      requires Valid(fromZero) && Read(env) && Mark(marks, ch) == end && Seen(env, ch, end)
      modifies this`ends
      ensures Onward(env, fromZero) && ch in ends
    {
      ends := ends[ch := end];
    }

    /** First start: a channel without a watermark gets its physical end, a finished one is left
        alone, and a partial one is refused. */
    method InitChannel(node: nat, roster: seq<nat>, before: Config, env: Env, t0: nat, ghost tails: Chan -> nat)
      returns (r: Result, t: nat)
      requires Valid(true) && Read(env)
      modifies this
      ensures Favourable(env, node, roster, before, tails) && Acceptable(old(marks), tails, before, true) ==> r.Done?
      ensures Onward(env, true) && t0 <= t
      ensures r.Done? ==> ChanOf(before) in ends
      ensures r == Failed(Partial) ==> marks == old(marks) && exists end ::
        Seen(env, ChanOf(before), end) && 0 < Mark(marks, ChanOf(before)) < end
    {
      var ch := ChanOf(before);
      t := t0 + 2;
      if env.readFails(t0) || env.readFails(t0 + 1) {
        return Failed(ReadFailed), t;
      }
      var applied, end := Mark(marks, ch), env.physical(t0 + 1, ch);
      assert Seen(env, ch, end);
      if applied > end || end > MAX_SEQUENCE {
        return Failed(BadWatermarks), t;
      }
      var first := env.authority(t, ch);
      t := t + 1;
      if first.None? {
        return Failed(ReadFailed), t;
      }
      if !ValidConfig(first.value, roster) || !HasReplica(first.value, node) || before != first.value {
        return Failed(Fence), t;
      }
      if 0 < applied < end {
        return Failed(Partial), t;
      }
      if applied == 0 && end > 0 {
        var err := UpdateApplied(ch, end, env.update(t), env, true);
        if err {
          return Failed(UpdateFailed), t;
        }
        t := t + 1;
        if env.readFails(t) {
          return Failed(ReadFailed), t;
        }
        if Mark(marks, ch) != end {
          return Failed(NotDurable), t;
        }
      }
      Note(ch, end, env, true);
      var second := env.authority(t, ch);
      t := t + 1;
      if second.None? {
        return Failed(ReadFailed), t;
      }
      if first.value != second.value {
        return Failed(Fence), t;
      }
      return Done, t;
    }

    /** After a consumed bootstrap: whatever is missing below the physical end is what an observer
        had not yet written when it crashed, and is filled in. The end may move on meanwhile; the
        loop goes on until it finds the watermark at the end, which takes finitely many rounds
        because every round raises the watermark. */
    method ReconcileChannel(node: nat, roster: seq<nat>, before: Config, env: Env, t0: nat, ghost tails: Chan -> nat)
      returns (r: Result, t: nat)
      requires Valid(false) && Read(env)
      modifies this
      ensures Favourable(env, node, roster, before, tails) && Acceptable(old(marks), tails, before, false) ==> r.Done?
      ensures Onward(env, false) && t0 <= t
      ensures r.Done? ==> ChanOf(before) in ends
      ensures r != Failed(Partial)
    {
      var ch := ChanOf(before);
      var first := env.authority(t0, ch);
      t := t0 + 1;
      if first.None? {
        return Failed(ReadFailed), t;
      }
      if before != first.value || !ValidConfig(first.value, roster) || !HasReplica(first.value, node) {
        return Failed(Fence), t;
      }
      while true
        invariant t0 <= t && Onward(env, false)
        invariant Still(env, tails) && Acceptable(old(marks), tails, before, false) ==>
          Acceptable(marks, tails, before, false)
        decreases MAX_SEQUENCE - Mark(marks, ch)
      {
        if env.cancelled(t) {
          return Failed(Cancelled), t;
        }
        if env.readFails(t) || env.readFails(t + 1) {
          return Failed(ReadFailed), t;
        }
        var applied, end := Mark(marks, ch), env.physical(t + 1, ch);
        assert Seen(env, ch, end);
        if applied > end || end > MAX_SEQUENCE {
          return Failed(BadWatermarks), t;
        }
        if applied == end {
          Note(ch, end, env, false);
          break;
        }
        var err := UpdateApplied(ch, end, env.update(t), env, false);
        if err {
          return Failed(UpdateFailed), t;
        }
        t := t + 2;
        if env.readFails(t) {
          return Failed(ReadFailed), t;
        }
        if Mark(marks, ch) < end {
          return Failed(NotDurable), t;
        }
      }
      var second := env.authority(t, ch);
      t := t + 1;
      if second.None? {
        return Failed(ReadFailed), t;
      }
      if first.value != second.value {
        return Failed(Fence), t;
      }
      return Done, t;
    }

    /** One channel that is replicated here, and the snapshot check after it. */
    method DoChannel(node: nat, roster: seq<nat>, revision: nat, before: Config, env: Env, t0: nat, firstStart: bool,
                     ghost tails: Chan -> nat)
      returns (r: Result, t: nat)
      requires Valid(firstStart) && Read(env)
      modifies this
      ensures Onward(env, firstStart) && t0 <= t
      ensures r.Done? ==> ChanOf(before) in ends
      ensures r == Failed(Partial) ==> firstStart
      ensures r == Failed(Partial) && Still(env, tails) ==> PartialAt(old(marks), tails, ChanOf(before))
      ensures (&& Favourable(env, node, roster, before, tails) && Unmoved(env, node, roster, revision)
               && Acceptable(old(marks), tails, before, firstStart)) ==> r.Done?
    {
      if firstStart {
        r, t := InitChannel(node, roster, before, env, t0, tails);
      } else {
        r, t := ReconcileChannel(node, roster, before, env, t0, tails);
      }
      if r.Done? {
        r := Check(env, node, roster, revision, t);
        t := t + 2;
      }
    }

    /** One page of configurations, in the order of the table. */
    method DoPage(node: nat, roster: seq<nat>, revision: nat, page: seq<Config>, after0: nat, env: Env, t0: nat,
                  firstStart: bool, ghost tails: Chan -> nat)
      returns (r: Result, after: nat, t: nat)
      requires Valid(firstStart) && Read(env)
      modifies this
      ensures Onward(env, firstStart) && t0 <= t
      ensures r.Done? ==> after == LastId(after0, page) && after0 <= after && (page != [] ==> after0 < after)
      ensures r.Done? ==> forall c :: c in page ==> Finished(ends, c, node, roster)
      ensures r == Failed(Partial) ==> firstStart
      ensures r == Failed(Partial) && Still(env, tails) ==> exists ch :: PartialAt(old(marks), tails, ch)
      ensures (&& CalmPage(env, node, roster, revision, after0, page, tails)
               && AllAcceptable(old(marks), tails, page, node, firstStart)) ==> r.Done?
    {
      hide Trail, Canonical, Stable, ValidConfig, Acceptable, Unmoved;
      ghost var calm := CalmPage(env, node, roster, revision, after0, page, tails) &&
                        AllAcceptable(marks, tails, page, node, firstStart);
      after, t := after0, t0;
      for i := 0 to |page|
        invariant t0 <= t && Onward(env, firstStart)
        invariant after == LastId(after0, page[..i]) && after0 <= after && (i > 0 ==> after0 < after)
        invariant forall k :: 0 <= k < i ==> Finished(ends, page[k], node, roster)
      {
        var before := page[i];
        assert calm ==> LastId(after0, page[..i]) < before.id && Confirmed(env, before, roster, tails);
        if env.cancelled(t) {
          return Failed(Cancelled), after, t;
        }
        if before.id <= after || !ValidConfig(before, roster) {
          return Failed(Fence), after, t;
        }
        after := before.id;
        if HasReplica(before, node) {
          if calm {
            StaysAcceptable(old(marks), marks, env, tails, before, firstStart);
          }
          ghost var marks0 := marks;
          r, t := DoChannel(node, roster, revision, before, env, t, firstStart, tails);
          if r.Failed? {
            if r == Failed(Partial) && Still(env, tails) {
              assert PartialAt(marks0, tails, ChanOf(before));
              assert PartialAt(old(marks), tails, ChanOf(before));
            }
            return;
          }
        }
      }
      r := Done;
      assert page[..|page|] == page;
    }

    /** One round of the paging loop: the snapshot check, the next page, and its channels. `short`
        says that it was the last page. */
    method NextPage(node: nat, roster: seq<nat>, revision: nat, env: Env, ghost cs: seq<Config>, firstStart: bool,
                    ghost tails: Chan -> nat, after0: nat, t0: nat)
      returns (r: Result, after: nat, t: nat, short: bool)
      requires Valid(firstStart) && Read(env) && Keyed(cs) && forall k: nat :: Keyed(env.view(k).configs)
      requires 2 <= t0
      modifies this
      ensures Onward(env, firstStart) && t0 <= t
      ensures r.Done? && !short ==> after0 < after <= MAX_ID
      ensures r.Done? && Steady(env.view, t, cs) ==>
        old(FinishedUpTo(ends, cs, IndexAfter(cs, after0), node, roster)) ==>
        FinishedUpTo(ends, cs, if short then |cs| else IndexAfter(cs, after), node, roster)
      ensures r == Failed(Partial) ==> firstStart
      ensures r == Failed(Partial) && Still(env, tails) ==> exists ch :: PartialAt(old(marks), tails, ch)
      ensures Calm(env, node, roster, revision, cs, tails) && AllAcceptable(old(marks), tails, cs, node, firstStart) ==>
        r.Done?
    {
      hide Trail, Finished, Canonical, Stable, FinishedUpTo, Confirmed, Acceptable;
      after, t, short := after0, t0, false;
      if env.cancelled(t) {
        return Failed(Cancelled), after, t, short;
      }
      r := Check(env, node, roster, revision, t);
      t := t + 2;
      if r.Failed? {
        return;
      }
      if env.readFails(t) {
        return Failed(ReadFailed), after, t, short;
      }
      var page := PageOf(env.view(t).configs, after, PAGE_SIZE);
      LastIdBound(env.view(t).configs, after, PAGE_SIZE);
      PageRises(env.view(t).configs, after, PAGE_SIZE);
      ghost var read := t;
      t := t + 1;
      if |page| > 0 {
        r, after, t := DoPage(node, roster, revision, page, after, env, t, firstStart, tails);
        if r.Failed? {
          return;
        }
      }
      short := |page| < PAGE_SIZE;
      if Steady(env.view, t, cs) && old(FinishedUpTo(ends, cs, IndexAfter(cs, after0), node, roster)) {
        assert env.view(read).configs == cs;
        PageStep(old(ends), ends, cs, after0, node, roster);
      }
    }

    /** The paging loop. If all its reads saw the table `cs`, then all of `cs` is finished. */
    method DoPages(node: nat, roster: seq<nat>, revision: nat, env: Env, ghost cs: seq<Config>, firstStart: bool,
                   ghost tails: Chan -> nat)
      returns (r: Result, t: nat)
      requires Valid(firstStart) && Read(env) && Keyed(cs) && forall k: nat :: Keyed(env.view(k).configs)
      modifies this
      ensures Onward(env, firstStart) && 2 <= t
      ensures r.Done? && Steady(env.view, t, cs) ==> FinishedUpTo(ends, cs, |cs|, node, roster)
      ensures r == Failed(Partial) ==> firstStart
      ensures r == Failed(Partial) && Still(env, tails) ==> exists ch :: PartialAt(old(marks), tails, ch)
      ensures Calm(env, node, roster, revision, cs, tails) && AllAcceptable(old(marks), tails, cs, node, firstStart) ==>
        r.Done?
    {
      hide Trail, Finished, Canonical, Stable, Untroubled, Unmoved, Confirmed, Acceptable;
      ghost var calm := Calm(env, node, roster, revision, cs, tails) &&
                        AllAcceptable(marks, tails, cs, node, firstStart);
      var after := 0;
      t := 2;
      IndexAfterSplits(cs, 0);
      while true
        invariant 2 <= t && 0 <= after && Onward(env, firstStart)
        invariant Steady(env.view, t, cs) ==> FinishedUpTo(ends, cs, IndexAfter(cs, after), node, roster)
        decreases MAX_ID - after
      {
        ghost var marks0 := marks;
        if calm {
          AllStayAcceptable(old(marks), marks, env, tails, cs, node, firstStart);
        }
        var short;
        r, after, t, short := NextPage(node, roster, revision, env, cs, firstStart, tails, after, t);
        if r.Failed? {
          if r == Failed(Partial) && Still(env, tails) {
            var ch :| PartialAt(marks0, tails, ch);
            assert PartialAt(old(marks), tails, ch);
          }
          return;
        }
        if short {
          return Done, t;
        }
      }
    }

    /** A whole pass. When it succeeds it has visited every configuration of the table at the
        revision it started from, and every channel replicated here is applied to the end that the
        pass found. If no tail moves, a partial watermark that it refuses was there before it began. */
    method RunPass(node: nat, env: Env, firstStart: bool, ghost tails: Chan -> nat)
      returns (r: Result, ghost roster: seq<nat>)
      requires Valid(firstStart) && Read(env) && Fenced(env.view)
      modifies this
      ensures Onward(env, firstStart)
      ensures r.Done? ==> Stable(env.view(1).revision)
      ensures r.Done? ==> FinishedUpTo(ends, env.view(1).configs, |env.view(1).configs|, node, roster)
      ensures r == Failed(Partial) ==> firstStart
      ensures r == Failed(Partial) && Still(env, tails) ==> exists ch :: PartialAt(old(marks), tails, ch)
      ensures Serene(env, node, tails, old(marks), firstStart) ==> r.Done?
      ensures Serene(env, node, tails, old(marks), firstStart) ==>
        forall c :: c in env.view(1).configs && node in c.replicas ==> Mark(marks, ChanOf(c)) == tails(ChanOf(c))
    {
      roster := [];
      if env.readFails(0) {
        return Failed(BadRoster), roster;
      }
      var expected := Canonical(node, env.view(0).roster);
      if expected.None? {
        return Failed(BadRoster), roster;
      }
      roster := expected.value;
      var revision := env.view(1).revision;
      if !Stable(revision) {
        return Failed(Fence), roster;
      }
      ghost var cs := env.view(1).configs;
      var t;
      r, t := DoPages(node, expected.value, revision, env, cs, firstStart, tails);
      if r.Done? {
        r := Check(env, node, expected.value, revision, t);
        assert r.Done? ==> Steady(env.view, t, cs);
      }
      if Serene(env, node, tails, old(marks), firstStart) {
        assert r.Done?;
        forall c | c in cs && node in c.replicas ensures Mark(marks, ChanOf(c)) == tails(ChanOf(c)) {
          assert Finished(ends, c, node, roster);
        }
      }
    }
  }

  lemma {:induction false} LastIdBound(cs: seq<Config>, after: nat, limit: nat)
    requires Keyed(cs)
    ensures PageOf(cs, after, limit) != [] ==> after < LastId(after, PageOf(cs, after, limit)) <= MAX_ID
  {
    PageIsTheSmallest(cs, after, limit);
  }

  /** A finished page moves the frontier to its end; a short page moves it to the end of the table. */
  lemma {:induction false} PageStep(ends: Ends, ends': Ends, cs: seq<Config>, after: nat, node: nat, roster: seq<nat>)
    requires Keyed(cs) && ends.Keys <= ends'.Keys && FinishedUpTo(ends, cs, IndexAfter(cs, after), node, roster)
    requires forall c :: c in PageOf(cs, after, PAGE_SIZE) ==> Finished(ends', c, node, roster)
    ensures var page := PageOf(cs, after, PAGE_SIZE);
      var n := IndexAfter(cs, LastId(after, page));
      FinishedUpTo(ends', cs, n, node, roster) && (|page| < PAGE_SIZE ==> n == |cs|)
  {
    var page, j := PageOf(cs, after, PAGE_SIZE), IndexAfter(cs, after);
    NextPageStart(cs, after, PAGE_SIZE);
    PageIsTheSmallest(cs, after, PAGE_SIZE);
    forall k | 0 <= k < j + |page| ensures Finished(ends', cs[k], node, roster) {
      if j <= k {
        assert cs[k] == page[k - j];
      } else {
        assert Finished(ends, cs[k], node, roster);
      }
    }
  }

  /** The configuration is valid, and if its channel is replicated here, the watermark of the
      channel was found at the end of the channel. */
  ghost predicate Finished(ends: Ends, c: Config, node: nat, roster: seq<nat>) {
    ValidConfig(c, roster) && (HasReplica(c, node) ==> ChanOf(c) in ends)
  }

  ghost predicate FinishedUpTo(ends: Ends, cs: seq<Config>, n: nat, node: nat, roster: seq<nat>) {
    n <= |cs| && forall k :: 0 <= k < n ==> Finished(ends, cs[k], node, roster)
  }
}
