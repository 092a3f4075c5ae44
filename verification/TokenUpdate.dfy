/** Updating and clearing a device token on the user's leader, from the decision to the answer
    (internal/api/user.go): the row is proposed and read back, and only then are the sessions that
    it makes stale closed; the leader is checked in between. */
module TokenUpdate {
  import opened Common
  import opened TokenFence
  import opened SessionSweep

  datatype Outcome = Success | Refused(why: Decision) | NotAdmitted | NotLeader | StoreFailed | Unconfirmed | NotSwept

  /** What happens to a proposal: it takes hold, it is lost, or it fails with or without effect. */
  datatype Fate = TakesHold | Lost | FailsAfter | FailsBefore

  /** What the cluster answers on the way. `late` are commands of earlier attempts that the store
      applies before the row is read back, `during` those it applies while sessions are closed. */
  datatype Course = Course(
    admitted: bool, leads: nat -> bool, fate: Fate, late: seq<Command>, during: seq<Command>,
    leader: seq<Conn>, answers: seq<SessionSweep.Answer>, flag: nat, cancelled: nat -> bool, closes: Conn -> bool)

  predicate Wellformed(course: Course) {
    && (forall c :: c in course.late ==> c.row.Row?)
    && (forall c :: c in course.during ==> c.row.Row?)
  }

  ghost function AllReports(course: Course): set<Conn> {
    Reported(course.leader, course.answers, course.flag)
  }

  /** Whom an update is aimed at: a conditional one at its target, any other at all sessions that
      the token it installs does not cover. */
  function AimOf(row: Row, req: Request, expected: Maybe<Target>, fp: Fingerprint): Aim {
    var changed := UpdateRequired(row, req) &&
                   (row.NoRow? || row.token != req.token || row.level != req.level) && req.level == MASTER;
    if expected.Some? then Exactly(expected.value.version, expected.value.hash) else AllBut(fp(req.token), changed)
  }

  /** The sweep meets no trouble. */
  ghost predicate GoesWell(aim: Aim, course: Course) {
    Smooth(aim, course.leader, course.answers, course.flag, course.cancelled, course.closes)
  }

  /** Reports of one session agree on its credential, and on its version where both know it. */
  ghost predicate SameCredential(all: set<Conn>) {
    forall a, b :: a in all && b in all && a.session == b.session ==>
      a.hash == b.hash && (a.known && b.known ==> a.version == b.version)
  }

  /** And on whether and how it is logged in. */
  ghost predicate SameLogin(all: set<Conn>) {
    forall a, b :: a in all && b in all && a.session == b.session ==> a.auth == b.auth && a.level == b.level
  }

  /** The node leads throughout, and the store takes the proposal and nothing else before it is read. */
  ghost predicate Prompt(course: Course) {
    course.admitted && (forall n :: course.leads(n)) && course.fate.TakesHold? && course.late == []
  }

  ghost predicate Closed(closed: seq<Conn>, x: Conn) {
    exists c :: c in closed && c.session == x.session
  }

  /** The request changes the token or the level, to a login as master. */
  predicate NewMaster(row: Row, req: Request) {
    req.level == MASTER && (row.NoRow? || row.token != req.token || row.level != req.level)
  }

  /** No new master login ends this session. */
  predicate SparedLogin(row: Row, req: Request, x: Conn) {
    !NewMaster(row, req) || !x.auth || x.level == MASTER
  }

  /** The session holds the target's credential, and is known not to be of a later version. */
  predicate OfTarget(t: Target, x: Conn) {
    x.hash == t.hash && x.known && x.version <= t.version
  }

  predicate NotOfTarget(t: Target, x: Conn) {
    x.hash != t.hash || (x.known && t.version < x.version)
  }

  /** Whom an update without a condition ends. */
  lemma {:induction false} UpdateEnds(row: Row, req: Request, fp: Fingerprint, closed: seq<Conn>, x: Conn,
        all: set<Conn>)
    requires x in all && SameCredential(all) && Settled(AimOf(row, req, None, fp), closed, x, all)
    ensures x.hash != fp(req.token) ==> Closed(closed, x)
    ensures SameLogin(all) && NewMaster(row, req) && x.auth && x.level != MASTER ==> Closed(closed, x)
  {
    var aim := AimOf(row, req, None, fp);
    var c :| c in all && c.session == x.session && !Unclear(aim, c) && (Doomed(aim, c) ==> c in closed);
  }

  /** And whom it leaves alone. */
  lemma {:induction false} UpdateSpares(row: Row, req: Request, fp: Fingerprint, x: Conn, all: set<Conn>)
    requires x in all && SameCredential(all)
    ensures SameLogin(all) && fp(req.token) != "" && x.hash == fp(req.token) && SparedLogin(row, req, x) ==>
      x !in Touchable(AimOf(row, req, None, fp), all)
  {
  }

  lemma {:induction false} ConditionalEnds(row: Row, req: Request, t: Target, fp: Fingerprint, closed: seq<Conn>,
        x: Conn, all: set<Conn>)
    requires x in all && SameCredential(all)
    ensures Settled(AimOf(row, req, Some(t), fp), closed, x, all) && OfTarget(t, x) ==> Closed(closed, x)
    ensures NotOfTarget(t, x) ==> x !in Touchable(AimOf(row, req, Some(t), fp), all)
  {
    var aim := AimOf(row, req, Some(t), fp);
    if Settled(aim, closed, x, all) {
      var c :| c in all && c.session == x.session && (aim.Exactly? && x.known ==> c.known) &&
               !Unclear(aim, c) && (Doomed(aim, c) ==> c in closed);
    }
  }

  lemma {:induction false} DoomedIsOfTarget(row: Row, req: Request, t: Target, fp: Fingerprint, x: Conn)
    ensures AimOf(row, req, Some(t), fp).Exactly?
    ensures Doomed(AimOf(row, req, Some(t), fp), x) <==> OfTarget(t, x)
  {
  }

  const QUIT_AIM := AllBut("", true)

  class Register {
    var row: Row

    constructor ()
      ensures row == NoRow
    {
      row := NoRow;
    }

    method Propose(c: Command, fate: Fate, fp: Fingerprint) returns (err: bool)
      requires c.row.Row?
      modifies this`row
      ensures row == if fate.TakesHold? || fate.FailsAfter? then Applied(old(row), c, fp) else old(row)
      ensures err == (fate.FailsAfter? || fate.FailsBefore?) && NoOlder(old(row), row)
    {
      ApplyIsMonotone(row, c, fp);
      if fate.TakesHold? || fate.FailsAfter? {
        row := Applied(row, c, fp);
      }
      err := fate.FailsAfter? || fate.FailsBefore?;
    }

    method ApplyAll(commands: seq<Command>, fp: Fingerprint)
      requires forall c :: c in commands ==> c.row.Row?
      modifies this`row
      ensures NoOlder(old(row), row) && (commands == [] ==> row == old(row))
    {
      for i := 0 to |commands|
        invariant NoOlder(old(row), row) && (i == 0 ==> row == old(row))
      {
        assert commands[i] in commands;
        ApplyIsMonotone(row, commands[i], fp);
        row := Applied(row, commands[i], fp);
      }
    }

    /** Closing the stale sessions. The lead is checked before anything is closed and at the end. */
    method Close(aim: Aim, course: Course, ghost all: set<Conn>, fp: Fingerprint)
      returns (r: Outcome, closed: seq<Conn>)
      requires Wellformed(course) && all == AllReports(course)
      modifies this`row, Touchable(aim, all)`revoked
      ensures NoOlder(old(row), row)
      ensures forall c :: c in closed ==> c in all && c.revoked && (aim.Exactly? ==> Doomed(aim, c))
      ensures r.Success? ==> course.leads(2) && AllAnswer(course.answers)
      ensures r.Success? ==> forall x :: x in all ==> Settled(aim, closed, x, all)
      ensures r.Success? || r.NotLeader? || r.NotSwept?
      ensures course.leads(1) && course.leads(2) && GoesWell(aim, course) ==> r.Success?
    {
      ApplyAll(course.during, fp);
      var ok;
      ok, closed :=
        Sweep(aim, course.leader, course.answers, course.flag, course.cancelled, course.leads(1), course.closes);
      if !ok {
        return NotSwept, closed;
      }
      if !course.leads(2) {
        return NotLeader, closed;
      }
      r := Success;
    }

    /** Up to the row that is read back: admission, decision, proposal. `None` means that the row is
        the requested one. */
    method UpdateRow(req: Request, expected: Maybe<Target>, course: Course, fp: Fingerprint) returns (r: Maybe<Outcome>)
      requires Wellformed(course)
      modifies this`row
      ensures NoOlder(old(row), row) && (r.None? ==> row == RowOf(req) && course.admitted)
      ensures r.Some? ==> !r.value.Success?
      ensures r.Some? && r.value.Refused? ==>
        row == old(row) && DecideUpdate(old(row), req, expected, fp) == r.value.why
      ensures course.admitted ==>
        var d := DecideUpdate(old(row), req, expected, fp);
        (r.Some? && r.value.Refused? <==> !d.Propose? && !d.NothingToWrite?)
      ensures Prompt(course) && r.Some? ==> r.value.Refused?
    {
      if !course.admitted {
        return Some(NotAdmitted);
      }
      var d := DecideUpdate(row, req, expected, fp);
      if d.NothingToWrite? {
        return None;
      }
      if !d.Propose? {
        return Some(Refused(d));
      }
      if !course.leads(3) {
        return Some(NotLeader);
      }
      ProposalTakesHold(row, req, expected, fp);
      var err := Propose(d.command, course.fate, fp);
      if err {
        return Some(StoreFailed);
      }
      ApplyAll(course.late, fp);
      if row != RowOf(req) {
        return Some(Unconfirmed);
      }
      r := None;
    }

    /** Success means that the requested row was read back and is still the newest, and that every
        report of every node is settled. Whatever is answered, no version is lost, a refusal writes
        nothing and touches no session, and no session is touched before the row was read back. */
    method Update(req: Request, expected: Maybe<Target>, course: Course, ghost all: set<Conn>, fp: Fingerprint)
      returns (r: Outcome, closed: seq<Conn>, ghost confirmed: bool)
      requires Accepted(req) && Wellformed(course) && all == AllReports(course)
      modifies this`row, Touchable(AimOf(row, req, expected, fp), all)`revoked
      ensures NoOlder(old(row), row) && (confirmed ==> NoOlder(RowOf(req), row))
      ensures r.Success? || closed != [] ==> confirmed
      ensures r.Success? ==> course.admitted && course.leads(0) && course.leads(2)
      ensures !confirmed ==> forall c :: c in all ==> c.revoked == old(c.revoked)
      ensures r.Success? ==> AllAnswer(course.answers) && forall x :: x in all ==>
        Settled(AimOf(old(row), req, expected, fp), closed, x, all)
      ensures forall c :: c in closed ==> c in all && c.revoked
      ensures expected.Some? ==> forall c :: c in closed ==> OfTarget(expected.value, c)
      ensures r.Refused? ==> row == old(row) && !confirmed && DecideUpdate(old(row), req, expected, fp) == r.why
      ensures course.admitted ==>
        var d := DecideUpdate(old(row), req, expected, fp);
        (r.Refused? <==> !d.Propose? && !d.NothingToWrite?)
      ensures Prompt(course) && GoesWell(AimOf(old(row), req, expected, fp), course) ==> r.Refused? || r.Success?
      // In terms of credentials. Without a condition everybody who does not hold the new token goes,
      // and with a new master login everybody else who is logged in without being a master; the
      // other holders of the token are left alone.
      ensures expected.None? && SameCredential(all) && r.Success? ==>
        forall x :: x in all && x.hash != fp(req.token) ==> Closed(closed, x)
      ensures expected.None? && SameCredential(all) && SameLogin(all) && r.Success? && NewMaster(old(row), req) ==>
        forall x :: x in all && x.auth && x.level != MASTER ==> Closed(closed, x)
      ensures expected.None? && SameCredential(all) && SameLogin(all) && fp(req.token) != "" ==>
        forall x :: x in all && x.hash == fp(req.token) && SparedLogin(old(row), req, x) ==> x.revoked == old(x.revoked)
      // With a condition exactly the known sessions of the target go, up to its version.
      ensures expected.Some? && SameCredential(all) && r.Success? ==>
        forall x :: x in all && OfTarget(expected.value, x) ==> Closed(closed, x)
      ensures expected.Some? && SameCredential(all) ==>
        forall x :: x in all && NotOfTarget(expected.value, x) ==> x.revoked == old(x.revoked)
    {
      hide DecideUpdate, Settled, Smooth, Touchable, AllReports, SameCredential, SameLogin, NewMaster, Closed, AimOf,
           SparedLogin, OfTarget, NotOfTarget;
      closed, confirmed := [], false;
      var aim := AimOf(row, req, expected, fp);
      var refusal := UpdateRow(req, expected, course, fp);
      if refusal.Some? {
        return refusal.value, closed, false;
      }
      confirmed := true;
      if !course.leads(0) {
        return NotLeader, closed, true;
      }
      r, closed := Close(aim, course, all, fp);
      ghost var was := old(row);
      if expected.Some? {
        forall c | c in closed ensures OfTarget(expected.value, c) {
          DoomedIsOfTarget(was, req, expected.value, fp, c);
        }
      }
      if SameCredential(all) && expected.Some? {
        forall x | x in all
          ensures r.Success? && OfTarget(expected.value, x) ==> Closed(closed, x)
          ensures NotOfTarget(expected.value, x) ==> x.revoked == old(x.revoked)
        {
          ConditionalEnds(was, req, expected.value, fp, closed, x, all);
        }
      }
      if SameCredential(all) && expected.None? {
        if r.Success? {
          forall x | x in all
            ensures x.hash != fp(req.token) ==> Closed(closed, x)
            ensures SameLogin(all) && NewMaster(was, req) && x.auth && x.level != MASTER ==> Closed(closed, x)
          {
            UpdateEnds(was, req, fp, closed, x, all);
          }
        }
        forall x | x in all && SameLogin(all) && fp(req.token) != "" && x.hash == fp(req.token) &&
                   SparedLogin(was, req, x)
          ensures x.revoked == old(x.revoked)
        {
          UpdateSpares(was, req, fp, x, all);
        }
      }
    }

    /** Quitting clears the token: success means that a row without a token was read back, one
        version further if it had one, that nothing older is stored, and that the sessions of the
        device are settled. No session is touched before that. `read` is the row read back. */
    method Quit(course: Course, ghost all: set<Conn>, fp: Fingerprint)
      returns (r: Outcome, closed: seq<Conn>, ghost read: Row)
      requires Wellformed(course) && all == AllReports(course)
      modifies this`row, Touchable(QUIT_AIM, all)`revoked
      ensures NoOlder(old(row), row)
      ensures r.Success? && old(row).Row? ==> read.Row? && course.leads(3) && course.leads(2)
      ensures read.Row? ==> NoOlder(read, row) && read.token == ""
      ensures read.Row? ==> read.version == Version(old(row)) + (if Version(old(row)) == 0 then 0 else 1)
      ensures read.NoRow? ==> closed == [] && forall c :: c in all ==> c.revoked == old(c.revoked)
      ensures r.Success? && old(row).Row? ==> AllAnswer(course.answers) && forall x :: x in all ==>
        Closed(closed, x)
      ensures forall c :: c in closed ==> c in all && c.revoked
      ensures Prompt(course) && GoesWell(QUIT_AIM, course) ==> r.Refused? || r.Success?
      ensures r.Refused? <==> MAX_VERSION <= Version(old(row))
    {
      closed, read := [], NoRow;
      var d := DecideQuit(row);
      if !d.Propose? {
        return if d.NothingToWrite? then Success else Refused(d), closed, NoRow;
      }
      var err := Propose(d.command, course.fate, fp);
      if err {
        return StoreFailed, closed, NoRow;
      }
      if !course.leads(3) {
        return NotLeader, closed, NoRow;
      }
      ApplyAll(course.late, fp);
      if row.NoRow? || row.version != d.command.row.version || row.token != "" {
        return Unconfirmed, closed, NoRow;
      }
      read := row;
      r, closed := Close(QUIT_AIM, course, all, fp);
    }
  }
}
