/** The versioned device-token register: the decisions taken on a user's leader
    (internal/api/user.go, internal/api/user_session_revoke.go) and the rule with which the
    replicated store applies their commands (pkg/wkdb/device.go). Commands may be applied late,
    out of order and more than once. */
module TokenFence {
  import opened Common

  /** 2^53 - 2, the largest version a number in a JSON client represents with room for one more. */
  const MAX_VERSION: nat := 9007199254740990

  datatype Row = NoRow | Row(token: string, version: nat, level: nat)

  /** An empty row counts as version zero with an empty token. */
  function Version(r: Row): nat {
    if r.Row? then r.version else 0
  }

  function Token(r: Row): string {
    if r.Row? then r.token else ""
  }

  function Level(r: Row): nat {
    if r.Row? then r.level else 0
  }

  datatype Target = Target(version: nat, hash: string)

  /** The fingerprint is SHA-256 in the source; nothing here depends on which function it is. */
  type Fingerprint = string -> string

  predicate Matches(t: Target, r: Row, fp: Fingerprint) {
    r.Row? && r.version == t.version && fp(r.token) == t.hash
  }

  // ---------- The store ----------

  datatype Command = Put(row: Row) | PutIf(row: Row, target: Target)

  /** Old versions are ignored, and a version that is set cannot be set differently. */
  predicate WriteAllowed(was: Row, next: Row) {
    if Version(was) == 0 && Version(next) == 0 then true
    else if Version(next) != Version(was) then Version(next) > Version(was)
    else Token(next) == Token(was) && Level(next) == Level(was)
  }

  function Applied(was: Row, c: Command, fp: Fingerprint): Row {
    if c.PutIf? && !Matches(c.target, was, fp) &&
       !(Version(was) == Version(c.row) && Token(was) == Token(c.row) && Level(was) == Level(c.row)) then was
    else if !WriteAllowed(was, c.row) then was
    else c.row
  }

  // ---------- Decisions on the leader ----------

  datatype Request = Request(token: string, version: nat, level: nat)

  /** What request validation lets through. */
  predicate Accepted(req: Request) {
    req.token != "" && req.version <= MAX_VERSION
  }

  /** What validation of a conditional revocation lets through. */
  predicate AcceptedRevoke(req: Request, t: Target, fp: Fingerprint) {
    Accepted(req) && 0 < req.version && t.version < req.version && req.level == MASTER && fp(req.token) != t.hash
  }

  function RowOf(req: Request): Row {
    Row(req.token, req.version, req.level)
  }

  predicate VersionMatches(r: Row, req: Request) {
    if Version(r) == 0 && req.version == 0 then true
    else if req.version != Version(r) then req.version > Version(r)
    else Token(r) == req.token && Level(r) == req.level
  }

  predicate UpdateRequired(r: Row, req: Request) {
    r.NoRow? || r.token != req.token || r.level != req.level || r.version != req.version
  }

  datatype Decision = Superseded | Conflict | OutOfRange | NothingToWrite | Propose(command: Command)

  function DecideUpdate(r: Row, req: Request, expected: Maybe<Target>, fp: Fingerprint): Decision {
    if expected.Some? && !Matches(expected.value, r, fp) &&
       !(Version(r) == req.version && Token(r) == req.token && Level(r) == req.level) then Superseded
    else if !VersionMatches(r, req) then Conflict
    else if !UpdateRequired(r, req) then NothingToWrite
    else if expected.Some? && r.Row? then Propose(PutIf(RowOf(req), expected.value))
    else Propose(Put(RowOf(req)))
  }

  /** Quitting clears the token; a versioned row moves to the next version. */
  function DecideQuit(r: Row): Decision {
    if r.NoRow? then NothingToWrite
    else if r.version == 0 then Propose(Put(Row("", 0, MASTER)))
    else if r.version >= MAX_VERSION then OutOfRange
    else Propose(Put(Row("", r.version + 1, MASTER)))
  }

  /** A conditional revocation writes exactly when the row is its target; the row it has already
      written is left alone; anything else is superseded. */
  lemma {:induction false} RevokeDecision(r: Row, req: Request, t: Target, fp: Fingerprint)
    requires AcceptedRevoke(req, t, fp)
    ensures DecideUpdate(r, req, Some(t), fp) ==
      if Matches(t, r, fp) then Propose(PutIf(RowOf(req), t))
      else if r == RowOf(req) then NothingToWrite
      else Superseded
  {
  }

  /** What was decided to be written is what the store takes: on the row it was decided on, the
      command leaves exactly the requested row. */
  lemma {:induction false} ProposalTakesHold(r: Row, req: Request, expected: Maybe<Target>, fp: Fingerprint)
    requires DecideUpdate(r, req, expected, fp).Propose?
    ensures Applied(r, DecideUpdate(r, req, expected, fp).command, fp) == Row(req.token, req.version, req.level)
    ensures RowOf(req) == Row(req.token, req.version, req.level)
  {
  }

  lemma {:induction false} QuitTakesHold(r: Row, fp: Fingerprint)
    requires r.Row? && r.version < MAX_VERSION
    ensures DecideQuit(r).Propose?
    ensures var r' := Applied(r, DecideQuit(r).command, fp);
      r'.Row? && r'.token == "" && r'.version == r.version + (if r.version == 0 then 0 else 1)
  {
  }

  /** An unconditional request is refused if and only if its version is older than the stored one, or
      the same positive version with another token or level. */
  lemma {:induction false} UpdateRefusedIff(r: Row, req: Request, fp: Fingerprint)
    ensures var d := DecideUpdate(r, req, None, fp);
      !d.Propose? && !d.NothingToWrite? <==>
        || req.version < Version(r)
        || (0 < req.version == Version(r) && (req.token != Token(r) || req.level != Level(r)))
  {
  }

  /** Which commands change a row, by their versions: a newer one does, an older one never, and of the
      same version only one without a version. */
  lemma {:induction false} VersionsDecide(was: Row, row: Row, fp: Fingerprint)
    requires row.Row?
    ensures Version(was) < row.version ==> Applied(was, Put(row), fp) == row
    ensures row.version < Version(was) ==> Applied(was, Put(row), fp) == was
    ensures row.version == Version(was) == 0 ==> Applied(was, Put(row), fp) == row
    ensures 0 < row.version == Version(was) && row != was ==> Applied(was, Put(row), fp) == was
  {
  }

  // ---------- Runs ----------

  /** `proposed` are all commands ever handed to the store; any of them may be applied now. */
  datatype State = State(row: Row, proposed: set<Command>)

  datatype Event =
    | Update(req: Request)
    | Revoke(req: Request, target: Target)
    | Quit
    | Apply(command: Command)

  function Proposal(d: Decision): set<Command> {
    if d.Propose? then {d.command} else {}
  }

  ghost predicate Next(s: State, e: Event, s': State, fp: Fingerprint) {
    match e
    case Update(req) =>
      Accepted(req) && s' == s.(proposed := s.proposed + Proposal(DecideUpdate(s.row, req, None, fp)))
    case Revoke(req, t) =>
      AcceptedRevoke(req, t, fp) && s' == s.(proposed := s.proposed + Proposal(DecideUpdate(s.row, req, Some(t), fp)))
    case Quit => s' == s.(proposed := s.proposed + Proposal(DecideQuit(s.row)))
    case Apply(c) => c in s.proposed && s' == s.(row := Applied(s.row, c, fp))
  }

  ghost predicate Run(ss: seq<State>, es: seq<Event>, fp: Fingerprint) {
    && |ss| == |es| + 1 && ss[0] == State(NoRow, {})
    && forall i :: 0 <= i < |es| ==> Next(ss[i], es[i], ss[i + 1], fp)
  }

  ghost predicate Inv(s: State) {
    && Version(s.row) <= MAX_VERSION
    && forall c :: c in s.proposed ==> c.row.Row? && c.row.version <= MAX_VERSION
  }

  lemma {:induction false} ReachableInv(ss: seq<State>, es: seq<Event>, fp: Fingerprint, i: nat)
    requires Run(ss, es, fp) && i < |ss|
    ensures Inv(ss[i])
    decreases i
  {
    if i > 0 {
      ReachableInv(ss, es, fp, i - 1);
      assert Next(ss[i - 1], es[i - 1], ss[i], fp);
    }
  }

  /** `b` is at least as new as `a`, and equal to it at the same positive version. */
  predicate NoOlder(a: Row, b: Row) {
    && Version(a) <= Version(b)
    && (0 < Version(a) && Version(b) == Version(a) ==> b == a)
  }

  lemma {:induction false} ApplyIsMonotone(r: Row, c: Command, fp: Fingerprint)
    requires c.row.Row?
    ensures NoOlder(r, Applied(r, c, fp))
  {
  }

  /** Over any run, with commands applied in any order and any number of times, the stored version
      never falls, never exceeds 2^53 - 2, and what is stored at a positive version never changes. */
  lemma {:induction false} RegisterIsFenced(ss: seq<State>, es: seq<Event>, fp: Fingerprint, i: nat, j: nat)
    requires Run(ss, es, fp) && i <= j < |ss|
    ensures NoOlder(ss[i].row, ss[j].row) && Version(ss[j].row) <= MAX_VERSION
    decreases j
  {
    ReachableInv(ss, es, fp, j);
    if i < j {
      RegisterIsFenced(ss, es, fp, i, j - 1);
      ReachableInv(ss, es, fp, j - 1);
      assert Next(ss[j - 1], es[j - 1], ss[j], fp);
      if es[j - 1].Apply? {
        ApplyIsMonotone(ss[j - 1].row, es[j - 1].command, fp);
      }
    }
  }

  /** A conditional command changes the row only if the row is its target at that very moment. */
  lemma {:induction false} ConditionalHitsOnlyItsTarget(ss: seq<State>, es: seq<Event>, fp: Fingerprint, i: nat)
    requires Run(ss, es, fp) && i < |es| && es[i].Apply? && es[i].command.PutIf? && ss[i + 1].row != ss[i].row
    ensures Matches(es[i].command.target, ss[i].row, fp) && ss[i + 1].row == es[i].command.row
    ensures Version(ss[i].row) < Version(ss[i + 1].row)
  {
    assert Next(ss[i], es[i], ss[i + 1], fp);
    ReachableInv(ss, es, fp, i);
    CommandsComeFromRequests(ss, es, fp, i);
  }

  /** Conditional commands come from accepted revocations. */
  lemma {:induction false} CommandsComeFromRequests(ss: seq<State>, es: seq<Event>, fp: Fingerprint, i: nat)
    requires Run(ss, es, fp) && i < |ss|
    ensures forall c :: c in ss[i].proposed && c.PutIf? ==> c.row.Row? && c.target.version < c.row.version
    decreases i
  {
    if i > 0 {
      CommandsComeFromRequests(ss, es, fp, i - 1);
      assert Next(ss[i - 1], es[i - 1], ss[i], fp);
    }
  }

  /** An update that was confirmed by reading its own versioned row back stays in force until a
      strictly newer version is stored: no command still under way can bring an older one back. */
  lemma {:induction false} ConfirmedStaysUntilNewer(ss: seq<State>, es: seq<Event>, fp: Fingerprint, i: nat, j: nat,
        req: Request)
    requires Run(ss, es, fp) && i <= j < |ss| && ss[i].row == RowOf(req) && 0 < req.version
    ensures ss[j].row == RowOf(req) || req.version < Version(ss[j].row)
  {
    RegisterIsFenced(ss, es, fp, i, j);
  }

  /** Two different unversioned requests can be applied in the opposite order: the newer one is in
      force, and then an older one that is applied late overwrites it. */
  lemma {:induction false} UnversionedIsNotFenced(fp: Fingerprint, older: Request, newer: Request)
      returns (ss: seq<State>, es: seq<Event>)
    requires Accepted(older) && Accepted(newer) && older != newer && older.version == 0 && newer.version == 0
    ensures Run(ss, es, fp) && |ss| == 5
    ensures ss[3].row == RowOf(newer) && ss[4].row == RowOf(older)
  {
    var a, b := Put(RowOf(older)), Put(RowOf(newer));
    es := [Update(older), Update(newer), Apply(b), Apply(a)];
    ss := [State(NoRow, {}), State(NoRow, {a}), State(NoRow, {a, b}),
           State(RowOf(newer), {a, b}), State(RowOf(older), {a, b})];
    assert DecideUpdate(NoRow, older, None, fp) == Propose(a) && DecideUpdate(NoRow, newer, None, fp) == Propose(b);
    assert {a} + {b} == {a, b};
  }

  /** Once the request's own row has been read back, it is in force until something newer is. */
  ghost predicate StaysInForce(req: Request, fp: Fingerprint) {
    forall ss: seq<State>, es: seq<Event>, i: nat, j: nat ::
      Run(ss, es, fp) && i <= j < |ss| && ss[i].row == RowOf(req) ==>
        ss[j].row == RowOf(req) || req.version < Version(ss[j].row)
  }

  /** A confirmed request stays in force until something newer is stored, in every run, if and
      only if its version is positive. */
  lemma {:induction false} FencedIffVersioned(req: Request, fp: Fingerprint)
    requires Accepted(req)
    ensures StaysInForce(req, fp) <==> 0 < req.version
  {
    if 0 < req.version {
      forall ss: seq<State>, es: seq<Event>, i: nat, j: nat
        | Run(ss, es, fp) && i <= j < |ss| && ss[i].row == RowOf(req)
        ensures ss[j].row == RowOf(req) || req.version < Version(ss[j].row)
      {
        ConfirmedStaysUntilNewer(ss, es, fp, i, j, req);
      }
    } else {
      var other := req.(token := req.token + "x");
      var ss, es := UnversionedIsNotFenced(fp, other, req);
      assert ss[4].row != RowOf(req);
    }
  }
}
