/** Closing the connections of a revoked or replaced token (internal/api/user.go,
    revokeTokenConnections): the leader's index and every source node report connections, stale
    ones are marked at once, and only then closed one by one. */
module SessionSweep {
  import opened Common

  /** What identifies one physical session: every field compared by `Conn.SameSession`. */
  datatype Session = Session(
    sessionId: string, uid: string, nodeId: nat, connId: int, uptime: nat, deviceId: string, deviceFlag: nat,
    jsonRpc: bool, protoVersion: nat, aesIV: seq<bv8>, aesKey: seq<bv8>)

  /** One report of a session, by the leader's index or by a source node. */
  class Conn {
    const session: Session
    const auth: bool
    const level: nat
    const hash: string
    const version: nat
    const known: bool
    var revoked: bool

    constructor (session: Session, auth: bool, level: nat, hash: string, version: nat, known: bool)
      ensures this.session == session && this.auth == auth && this.level == level
      ensures this.hash == hash && this.version == version && this.known == known && !revoked
    {
      this.session, this.auth, this.level := session, auth, level;
      this.hash, this.version, this.known, revoked := hash, version, known, false;
    }
  }

  /** Either exactly the sessions of one credential generation, or everything that the current
      token does not cover. */
  datatype Aim = Exactly(version: nat, hash: string) | AllBut(currentHash: string, changed: bool)

  /** The sweep is meant to end this session. */
  predicate Doomed(aim: Aim, c: Conn) {
    match aim
    case Exactly(version, hash) => c.hash == hash && c.known && c.version <= version
    case AllBut(currentHash, changed) =>
      c.hash != currentHash || (changed && (currentHash == "" || (c.auth && c.level != MASTER)))
  }

  /** An authenticated session of the credential whose generation is not known. */
  predicate Unclear(aim: Aim, c: Conn) {
    aim.Exactly? && c.auth && c.hash == aim.hash && !c.known
  }

  datatype Answer = Unreachable | Reports(conns: seq<Conn>)

  /** Reports of one session agree on what the aim looks at: on the credential, on its generation
      where both know it, and for a sweep that looks at them on authentication and level. */
  ghost predicate Consistent(aim: Aim, conns: set<Conn>) {
    forall a, b :: a in conns && b in conns && a.session == b.session ==>
      && a.hash == b.hash && (a.known && b.known ==> a.version == b.version)
      && (aim.AllBut? && aim.changed && aim.currentHash != "" ==> a.auth == b.auth && a.level == b.level)
  }

  /** The reports of one node for the device in question. */
  ghost function Flagged(conns: seq<Conn>, flag: nat): set<Conn> {
    set c | c in conns && c.session.deviceFlag == flag
  }

  ghost function Answered(answers: seq<Answer>, flag: nat): set<Conn> {
    if answers == [] then {}
    else
      var last := answers[|answers| - 1];
      Answered(answers[..|answers| - 1], flag) + if last.Reports? then Flagged(last.conns, flag) else {}
  }

  predicate AllAnswer(answers: seq<Answer>) {
    forall a :: a in answers ==> a.Reports?
  }

  /** All reports: those of the leader's index and those of the nodes that answered. */
  ghost function Reported(leader: seq<Conn>, answers: seq<Answer>, flag: nat): set<Conn> {
    (set c | c in leader) + Answered(answers, flag)
  }

  lemma {:induction false} AnsweredHas(answers: seq<Answer>, flag: nat, n: nat)
    requires n <= |answers|
    ensures Answered(answers[..n], flag) <= Answered(answers, flag)
    decreases |answers|
  {
    if n < |answers| {
      AnsweredHas(answers[..|answers| - 1], flag, n);
      assert answers[..|answers| - 1][..n] == answers[..n];
    } else {
      assert answers[..n] == answers;
    }
  }

  /** The list has an entry for the session of `x` that knows its generation if `x` does. */
  ghost predicate Represented(aim: Aim, conns: seq<Conn>, x: Conn) {
    exists k :: 0 <= k < |conns| && conns[k].session == x.session && (aim.Exactly? && x.known ==> conns[k].known)
  }

  /** The sessions that may be marked: doomed ones, and entries that do not know the generation
      of the same session when another report shows that it is doomed. */
  ghost function Touchable(aim: Aim, all: set<Conn>): set<Conn> {
    set c | c in all &&
            (Doomed(aim, c) || (!c.known && exists x :: x in all && x.session == c.session && Doomed(aim, x)))
  }

  /** The list covers the reports `done`, and the doomed sessions in it are marked. */
  ghost predicate Covers(aim: Aim, conns: seq<Conn>, done: set<Conn>, all: set<Conn>)
    reads all`revoked
  {
    && (forall c :: c in conns ==> c in all && (Doomed(aim, c) ==> c.revoked))
    && (forall x :: x in done ==> Represented(aim, conns, x))
  }

  /** A newly found report is merged into the list of sessions: a known session is not listed
      twice, but a source that knows the generation replaces an entry that does not. */
  method Merge(aim: Aim, conns: seq<Conn>, source: Conn, ghost done: set<Conn>, ghost all: set<Conn>)
      returns (merged: seq<Conn>)
    requires source in all && Covers(aim, conns, done, all)
    modifies Touchable(aim, all)`revoked
    ensures Covers(aim, merged, done + {source}, all)
    ensures forall c :: c in all && old(c.revoked) ==> c.revoked
  {
    if Doomed(aim, source) {
      source.revoked := true;
    }
    for index := 0 to |conns|
      invariant forall k :: 0 <= k < index ==> conns[k].session != source.session
    {
      var existing := conns[index];
      if existing.session == source.session {
        merged := conns;
        if aim.Exactly? && !existing.known && source.known {
          merged := conns[index := source];
          if Doomed(aim, source) {
            existing.revoked := true;
          }
        }
        RepresentedAfter(aim, conns, merged, done);
        assert merged[index].session == source.session;
        return;
      }
    }
    merged := conns + [source];
    RepresentedAfter(aim, conns, merged, done);
    assert merged[|conns|] == source;
  }

  /** Replacing an entry by a better informed one of the same session, or adding one, loses no
      representation. */
  lemma {:induction false} RepresentedAfter(aim: Aim, conns: seq<Conn>, merged: seq<Conn>, done: set<Conn>)
    requires |conns| <= |merged|
    requires forall k :: 0 <= k < |conns| ==>
      merged[k].session == conns[k].session && (aim.Exactly? && conns[k].known ==> merged[k].known)
    ensures forall x :: x in done && Represented(aim, conns, x) ==> Represented(aim, merged, x)
  {
    forall x | x in done && Represented(aim, conns, x) ensures Represented(aim, merged, x) {
      var k :| 0 <= k < |conns| && conns[k].session == x.session && (aim.Exactly? && x.known ==> conns[k].known);
      assert merged[k].session == x.session;
    }
  }

  method MergeAll(aim: Aim, conns: seq<Conn>, sources: seq<Conn>, flag: nat, ghost done: set<Conn>,
        ghost all: set<Conn>)
    returns (merged: seq<Conn>)
    requires Covers(aim, conns, done, all) && Flagged(sources, flag) <= all
    modifies Touchable(aim, all)`revoked
    ensures Covers(aim, merged, done + Flagged(sources, flag), all)
    ensures forall c :: c in all && old(c.revoked) ==> c.revoked
  {
    merged := conns;
    for i := 0 to |sources|
      invariant Covers(aim, merged, done + Flagged(sources[..i], flag), all)
      invariant forall c :: c in all && old(c.revoked) ==> c.revoked
    {
      var source := sources[i];
      assert sources[..i + 1] == sources[..i] + [source];
      if source.session.deviceFlag == flag {
        assert source in Flagged(sources, flag);
        merged := Merge(aim, merged, source, done + Flagged(sources[..i], flag), all);
        assert done + Flagged(sources[..i + 1], flag) == done + Flagged(sources[..i], flag) + {source};
      } else {
        assert Flagged(sources[..i + 1], flag) == Flagged(sources[..i], flag);
      }
    }
    assert sources[..|sources|] == sources;
  }

  /** Closing: `closes` tells whether the owner of the connection confirms. */
  method CloseAll(aim: Aim, conns: seq<Conn>, cancelled: nat -> bool, closes: Conn -> bool)
      returns (ok: bool, closed: seq<Conn>)
    ensures forall c :: c in closed ==> c in conns && c.revoked && (aim.Exactly? ==> Doomed(aim, c))
    ensures ok ==> forall c :: c in conns && c.revoked && (aim.Exactly? ==> Doomed(aim, c)) ==> c in closed
    ensures ok ==> forall c :: c in conns ==> !Unclear(aim, c)
    ensures (forall n :: !cancelled(n)) && (forall c :: c in conns ==> closes(c) && !Unclear(aim, c)) ==> ok
  {
    closed := [];
    var unknownTarget := false;
    for i := 0 to |conns|
      invariant forall c :: c in closed ==> c in conns && c.revoked && (aim.Exactly? ==> Doomed(aim, c))
      invariant forall k :: 0 <= k < i ==>
        (conns[k].revoked && (aim.Exactly? ==> Doomed(aim, conns[k])) ==> conns[k] in closed)
      invariant !unknownTarget ==> forall k :: 0 <= k < i ==> !Unclear(aim, conns[k])
      invariant unknownTarget ==> exists c :: c in conns && Unclear(aim, c)
    {
      var conn := conns[i];
      if cancelled(i) {
        return false, closed;
      }
      if Unclear(aim, conn) {
        unknownTarget := true;
      }
      if conn.revoked && (aim.Exactly? ==> Doomed(aim, conn)) {
        if !closes(conn) {
          return false, closed;
        }
        closed := closed + [conn];
      }
    }
    ok := !unknownTarget;
  }

  /** What the leader already knows is marked before any source is asked. */
  method MarkAll(aim: Aim, leader: seq<Conn>, ghost all: set<Conn>)
    requires forall c :: c in leader ==> c in all
    modifies Touchable(aim, all)`revoked
    ensures Covers(aim, leader, (set c | c in leader), all)
  {
    for i := 0 to |leader|
      invariant forall k :: 0 <= k < i && Doomed(aim, leader[k]) ==> leader[k].revoked
    {
      if Doomed(aim, leader[i]) {
        leader[i].revoked := true;
      }
    }
    forall x | x in leader ensures Represented(aim, leader, x) {
      var k :| 0 <= k < |leader| && leader[k] == x;
    }
  }

  /** Nothing goes wrong outside: nobody cancels, every node answers, every owner confirms, and every
      session of the credential is known with its generation. */
  ghost predicate Smooth(aim: Aim, leader: seq<Conn>, answers: seq<Answer>, flag: nat, cancelled: nat -> bool,
        closes: Conn -> bool) {
    && (forall n :: !cancelled(n)) && AllAnswer(answers)
    && (forall c :: c in Reported(leader, answers, flag) ==> closes(c) && !Unclear(aim, c))
  }

  /** The whole sweep. `answers` are the nodes' reports in the order asked, `cancelled` and
      `stillLeader` what the context and the cluster say on the way. Only sessions that the sweep
      may touch are marked, only those it is aimed at are closed, the sessions the leader knows
      are blocked before anything can fail, and success covers every report of every node. */
  method Sweep(aim: Aim, leader: seq<Conn>, answers: seq<Answer>, flag: nat,
               cancelled: nat -> bool, stillLeader: bool, closes: Conn -> bool)
    returns (ok: bool, closed: seq<Conn>)
    modifies Touchable(aim, Reported(leader, answers, flag))`revoked
    ensures forall c :: c in closed ==>
      c in Reported(leader, answers, flag) && c.revoked && (aim.Exactly? ==> Doomed(aim, c))
    ensures !cancelled(0) ==> forall c :: c in leader && Doomed(aim, c) ==> c.revoked
    ensures ok ==> AllAnswer(answers)
    ensures ok ==> forall x :: x in Reported(leader, answers, flag) ==>
      Settled(aim, closed, x, Reported(leader, answers, flag))
    ensures Smooth(aim, leader, answers, flag, cancelled, closes) && stillLeader ==> ok
  {
    ghost var all := Reported(leader, answers, flag);
    closed := [];
    if cancelled(0) {
      return false, closed;
    }
    MarkAll(aim, leader, all);
    ghost var done := set c | c in leader;
    var conns;
    ok, conns := Gather(aim, leader, answers, flag, cancelled, done, all);
    if !ok || !stillLeader {
      return false, closed;
    }
    ok, closed := CloseAll(aim, conns, cancelled, closes);
    if ok {
      AllSettled(aim, conns, closed, all);
    }
  }

  /** Every source node is asked; one that does not answer ends the sweep. */
  method Gather(aim: Aim, leader: seq<Conn>, answers: seq<Answer>, flag: nat, cancelled: nat -> bool,
        ghost done: set<Conn>, ghost all: set<Conn>)
    returns (ok: bool, conns: seq<Conn>)
    requires Covers(aim, leader, done, all) && all == done + Answered(answers, flag)
    modifies Touchable(aim, all)`revoked
    ensures forall c :: c in all && old(c.revoked) ==> c.revoked
    ensures ok ==> Covers(aim, conns, all, all) && AllAnswer(answers)
    ensures (forall n :: !cancelled(n)) && AllAnswer(answers) ==> ok
  {
    hide Covers;
    conns := leader;
    assert done + Answered(answers[..0], flag) == done;
    for n := 0 to |answers|
      invariant Covers(aim, conns, done + Answered(answers[..n], flag), all)
      invariant forall c :: c in all && old(c.revoked) ==> c.revoked
      invariant AllAnswer(answers[..n])
    {
      if cancelled(n + 1) || answers[n].Unreachable? {
        assert answers[n] in answers;
        return false, conns;
      }
      ghost var upTo := answers[..n + 1];
      assert upTo == answers[..n] + [answers[n]] && upTo[..n] == answers[..n];
      AnsweredHas(answers, flag, n + 1);
      conns := MergeAll(aim, conns, answers[n].conns, flag, done + Answered(answers[..n], flag), all);
      assert done + Answered(answers[..n], flag) + Flagged(answers[n].conns, flag) == done + Answered(upTo, flag);
    }
    assert answers[..|answers|] == answers;
    ok := true;
  }

  lemma {:induction false} AllSettled(aim: Aim, conns: seq<Conn>, closed: seq<Conn>, all: set<Conn>)
    requires forall x :: x in all ==> Represented(aim, conns, x)
    requires forall c :: c in conns ==> c in all && !Unclear(aim, c) && (Doomed(aim, c) ==> c in closed)
    ensures forall x :: x in all ==> Settled(aim, closed, x, all)
  {
    forall x | x in all ensures Settled(aim, closed, x, all) {
      var k :| 0 <= k < |conns| && conns[k].session == x.session && (aim.Exactly? && x.known ==> conns[k].known);
      assert conns[k] in conns;
    }
  }

  /** A report is settled when its session has an entry that was closed if it had to be, and that
      leaves no doubt about its generation. */
  ghost predicate Settled(aim: Aim, closed: seq<Conn>, x: Conn, all: set<Conn>) {
    exists c :: c in all && c.session == x.session && (aim.Exactly? && x.known ==> c.known) &&
                !Unclear(aim, c) && (Doomed(aim, c) ==> c in closed)
  }

  /** As long as the reports of one session agree, a successful sweep has closed every session it
      was aimed at, whoever reported it; and where a report of the credential did not know its
      generation, another report of the session does, or says that it is not authenticated. */
  lemma {:induction false} SettledIsClosed(aim: Aim, closed: seq<Conn>, x: Conn, all: set<Conn>)
    requires x in all && Consistent(aim, all) && Settled(aim, closed, x, all)
    ensures Doomed(aim, x) ==> exists c :: c in closed && c.session == x.session
    ensures Unclear(aim, x) ==> exists c :: c in all && c.session == x.session && (c.known || !c.auth)
  {
    var c :| c in all && c.session == x.session && (aim.Exactly? && x.known ==> c.known) &&
             !Unclear(aim, c) && (Doomed(aim, c) ==> c in closed);
  }

  /** A session of a newer generation, or of another credential, is neither closed nor marked:
      no report of it is doomed. */
  lemma {:induction false} NewerIsSpared(aim: Aim, c: Conn, all: set<Conn>)
    requires aim.Exactly? && c in all && Consistent(aim, all)
    requires c.hash != aim.hash || (c.known && aim.version < c.version)
    ensures !Doomed(aim, c) && c !in Touchable(aim, all)
  {
  }
}
