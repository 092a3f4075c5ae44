/** The message side of the fenced reader (internal/plugin/rpc_search_source.go): one page of a
    channel's applied messages, the bound on the size of the reply, and what a client obtains by
    following the next sequence number. */
module SearchMessages {
  import opened Common
  import opened SearchSource
  import opened SearchReader

  datatype Request = Request(
    version: nat, channelId: string, channelType: nat, leader: nat, term: nat, configVersion: nat,
    roster: seq<nat>, revision: nat, nextSeq: nat, limit: int)

  /** A stored message as the range read returns it. */
  datatype Row = Row(sequence: nat, channelType: nat, noPersist: bool, payload: seq<bv8>, omitted: bool)

  datatype Message = Message(sequence: nat, payload: seq<bv8>, omitted: bool)

  datatype Response = Response(
    revision: nat, roster: seq<nat>, leader: nat, term: nat, configVersion: nat, tail: Tail, applyPending: bool,
    nextSeq: nat, caughtUp: bool, notOwner: bool, retryable: bool, messages: seq<Message>)

  // ---------- Validation ----------

  /** The channel types between the personal and the agent-group channel are accepted. */
  function ValidateRequest(req: Request, maxChannelType: nat): Maybe<Error> {
    if req.version != PROTOCOL_VERSION then Some(BadVersion)
    else if Blank(req.channelId) || |req.channelId| > MAX_CHANNEL_ID_BYTES then Some(BadChannelId)
    else if req.channelType < MIN_CHANNEL_TYPE || req.channelType > maxChannelType then Some(BadChannelType)
    else if req.limit <= 0 || req.limit > MAX_MESSAGE_LIMIT then Some(BadLimit)
    else if req.leader == 0 || req.term == 0 || req.configVersion == 0 then Some(BadGeneration)
    else if req.nextSeq > MAX_MESSAGE_SEQUENCE + 1 then Some(BadSequence)
    else None
  }

  /** The rows are the applied messages from `next` on, without a gap. */
  predicate Expected(sequence: nat, channelType: nat, applied: nat, row: Row) {
    row.sequence == sequence <= applied && row.channelType == channelType && !row.noPersist
  }

  predicate Contiguous(next: nat, channelType: nat, applied: nat, rows: seq<Row>) {
    rows != [] && forall i :: 0 <= i < |rows| ==> Expected(next + i, channelType, applied, rows[i])
  }

  method ValidateStoredPage(next: nat, channelType: nat, applied: nat, rows: seq<Row>) returns (ok: bool)
    ensures ok <==> Contiguous(next, channelType, applied, rows)
  {
    if |rows| == 0 {
      return false;
    }
    var expected := next;
    for i := 0 to |rows|
      invariant expected == next + i
      invariant forall k :: 0 <= k < i ==> Expected(next + k, channelType, applied, rows[k])
    {
      assert Contiguous(next, channelType, applied, rows) ==> Expected(next + i, channelType, applied, rows[i]);
      if rows[i].noPersist {
        return false;
      }
      if rows[i].sequence != expected || rows[i].sequence > applied || rows[i].channelType != channelType {
        return false;
      }
      expected := expected + 1;
    }
    return true;
  }

  predicate Owns(cfg: Config, node: nat, roster: seq<nat>, req: Request) {
    && ValidConfig(cfg, roster) && cfg.leader == node && cfg.channelId == req.channelId
    && cfg.channelType == req.channelType && cfg.leader == req.leader
    && cfg.term == req.term && cfg.version == req.configVersion
  }

  // ---------- Bounding the reply ----------

  predicate HasPayload(m: Message) {
    !m.omitted && m.payload != []
  }

  /** How many messages still carry a payload. */
  function Payloads(ms: seq<Message>): nat {
    if ms == [] then 0 else Payloads(ms[..|ms| - 1]) + if HasPayload(ms[|ms| - 1]) then 1 else 0
  }

  /** The last payload is given up. */
  function OmitLast(ms: seq<Message>): (r: seq<Message>)
    ensures |r| == |ms|
  {
    if ms == [] then []
    else
      var n := |ms| - 1;
      if HasPayload(ms[n]) then ms[..n] + [Message(ms[n].sequence, [], true)] else OmitLast(ms[..n]) + [ms[n]]
  }

  /** The last `k` payloads are given up. */
  function OmitLastN(ms: seq<Message>, k: nat): seq<Message> {
    if k == 0 then ms else OmitLast(OmitLastN(ms, k - 1))
  }

  lemma {:induction false} OmitLastAt(ms: seq<Message>, i: nat)
    requires i < |ms| && HasPayload(ms[i]) && forall j :: i < j < |ms| ==> !HasPayload(ms[j])
    ensures OmitLast(ms) == ms[i := Message(ms[i].sequence, [], true)]
    decreases |ms|
  {
    var n := |ms| - 1;
    if i < n {
      OmitLastAt(ms[..n], i);
      assert ms == ms[..n] + [ms[n]];
    }
  }

  lemma {:induction false} NoPayloads(ms: seq<Message>)
    ensures Payloads(ms) == 0 <==> forall i :: 0 <= i < |ms| ==> !HasPayload(ms[i])
    decreases |ms|
  {
    if ms != [] {
      NoPayloads(ms[..|ms| - 1]);
    }
  }

  lemma {:induction false} OmitLastCounts(ms: seq<Message>)
    ensures Payloads(OmitLast(ms)) == if Payloads(ms) == 0 then 0 else Payloads(ms) - 1
    decreases |ms|
  {
    if ms != [] {
      var n := |ms| - 1;
      OmitLastCounts(ms[..n]);
      assert OmitLast(ms)[..n] == if HasPayload(ms[n]) then ms[..n] else OmitLast(ms[..n]);
    }
  }

  lemma {:induction false} OmitLastNCounts(ms: seq<Message>, k: nat)
    requires k <= Payloads(ms)
    ensures Payloads(OmitLastN(ms, k)) == Payloads(ms) - k
    decreases k
  {
    if k > 0 {
      OmitLastNCounts(ms, k - 1);
      OmitLastCounts(OmitLastN(ms, k - 1));
    }
  }

  /** The first of the replies with `k`, `k + 1`, ... payloads given up that fits; `None` when
      even the reply without payloads does not. */
  ghost function FirstFit(ms: seq<Message>, size: seq<Message> -> nat, max: nat, k: nat): Maybe<seq<Message>>
    requires k <= Payloads(ms)
    decreases Payloads(ms) - k
  {
    if size(OmitLastN(ms, k)) <= max then Some(OmitLastN(ms, k))
    else if k == Payloads(ms) then None
    else FirstFit(ms, size, max, k + 1)
  }

  lemma {:induction false} FirstFitIsFirst(ms: seq<Message>, size: seq<Message> -> nat, max: nat, k: nat)
      returns (n: nat)
    requires k <= Payloads(ms)
    ensures k <= n <= Payloads(ms) && forall j :: k <= j < n ==> size(OmitLastN(ms, j)) > max
    ensures match FirstFit(ms, size, max, k)
      case Some(r) => r == OmitLastN(ms, n) && size(r) <= max
      case None => n == Payloads(ms) && size(OmitLastN(ms, n)) > max
    decreases Payloads(ms) - k
  {
    n := k;
    if size(OmitLastN(ms, k)) > max && k < Payloads(ms) {
      n := FirstFitIsFirst(ms, size, max, k + 1);
    }
  }

  /** Gives up the last payload there is. */
  method OmitOne(ms: seq<Message>) returns (omitted: bool, r: seq<Message>)
    ensures omitted <==> Payloads(ms) > 0
    ensures r == if omitted then OmitLast(ms) else ms
  {
    NoPayloads(ms);
    var index := |ms| - 1;
    while index >= 0
      invariant -1 <= index < |ms|
      invariant forall j :: index < j < |ms| ==> !HasPayload(ms[j])
    {
      if !ms[index].omitted && |ms[index].payload| > 0 {
        OmitLastAt(ms, index);
        return true, ms[index := Message(ms[index].sequence, [], true)];
      }
      index := index - 1;
    }
    return false, ms;
  }

  /** Drops payloads from the tail until the reply, whose encoded size is `size`, fits. */
  method BoundMessages(ms: seq<Message>, size: seq<Message> -> nat, max: nat) returns (r: Maybe<seq<Message>>)
    ensures r == FirstFit(ms, size, max, 0)
  {
    hide Payloads, OmitLast;
    var out := ms;
    ghost var k := 0;
    while true
      invariant k <= Payloads(ms) && out == OmitLastN(ms, k)
      invariant FirstFit(ms, size, max, k) == FirstFit(ms, size, max, 0)
      decreases Payloads(ms) - k
    {
      if size(out) <= max {
        return Some(out);
      }
      OmitLastNCounts(ms, k);
      var omitted;
      omitted, out := OmitOne(out);
      if !omitted {
        return None;
      }
      k := k + 1;
    }
  }

  /** `r` is `ms` with some payloads given up, and behind such a message none is left. */
  ghost predicate EmptiedFromTheTail(ms: seq<Message>, r: seq<Message>) {
    && |r| == |ms|
    && (forall i :: 0 <= i < |r| ==>
          r[i] == ms[i] || (HasPayload(ms[i]) && r[i] == Message(ms[i].sequence, [], true)))
    && (forall i, j :: 0 <= i < j < |r| && r[i] != ms[i] ==> !HasPayload(r[j]))
  }

  /** Bounding keeps every message and its sequence number, and gives up payloads only from the
      tail: behind a message that lost its payload none is left. */
  lemma {:induction false} BoundingKeepsMessages(ms: seq<Message>, k: nat)
    ensures EmptiedFromTheTail(ms, OmitLastN(ms, k))
    decreases k
  {
    hide EmptiedFromTheTail, OmitLast, Payloads;
    if k == 0 {
      EmptiedNot(ms);
    } else {
      BoundingKeepsMessages(ms, k - 1);
      OmitLastDropsOne(OmitLastN(ms, k - 1));
      EmptiedTwice(ms, OmitLastN(ms, k - 1), OmitLastN(ms, k));
    }
  }

  lemma {:induction false} EmptiedNot(ms: seq<Message>)
    ensures EmptiedFromTheTail(ms, ms)
  {
  }

  lemma {:induction false} EmptiedTwice(ms: seq<Message>, r: seq<Message>, r': seq<Message>)
    requires EmptiedFromTheTail(ms, r) && EmptiedFromTheTail(r, r')
    ensures EmptiedFromTheTail(ms, r')
  {
  }

  lemma {:induction false} OmitLastEmpties(ms: seq<Message>)
    ensures EmptiedFromTheTail(ms, OmitLast(ms))
    decreases |ms|
  {
    if ms != [] {
      OmitLastEmpties(ms[..|ms| - 1]);
    }
  }

  /** One round empties exactly one payload if there is one, and no payload stands behind it. */
  lemma {:induction false} OmitLastDropsOne(ms: seq<Message>)
    ensures EmptiedFromTheTail(ms, OmitLast(ms))
    ensures Payloads(OmitLast(ms)) == if Payloads(ms) == 0 then 0 else Payloads(ms) - 1
  {
    hide OmitLast, EmptiedFromTheTail, Payloads;
    OmitLastEmpties(ms);
    OmitLastCounts(ms);
  }

  // ---------- One reply ----------

  datatype MessageReads = MessageReads(
    ready: bool, roster: Maybe<seq<nat>>, revision: nat, before: Maybe<Config>, tail: Maybe<Tail>,
    rows: Maybe<seq<Row>>, after: Maybe<Config>, finalRevision: nat, finalRoster: Maybe<seq<nat>>)

  function FromRow(r: Row): Message {
    Message(r.sequence, if r.omitted then [] else r.payload, r.omitted)
  }

  function FromRows(rows: seq<Row>): seq<Message> {
    seq(|rows|, i requires 0 <= i < |rows| => FromRow(rows[i]))
  }

  function NotOwner(resp: Response, cfg: Config): Response {
    resp.(leader := cfg.leader, term := cfg.term, configVersion := cfg.version, notOwner := true, retryable := true,
          tail := Tail(0, 0), applyPending := false, caughtUp := false, messages := [])
  }

  /** The last fence: revision and roster are read once more and must not have moved. */
  function Finalize(node: nat, resp: Response, r: MessageReads): Result<Response> {
    if !Stable(r.finalRevision) || r.finalRevision != resp.revision then Err(Fence)
    else if RosterOf(node, r.finalRoster) != Some(resp.roster) then Err(BadRoster)
    else Ok(resp)
  }

  /** From the first ownership check on. `next` is the requested sequence number, at least 1. */
  ghost function OwnerReply(node: nat, req: Request, next: nat, resp: Response, r: MessageReads,
        size: seq<Message> -> nat): Result<Response> {
    var before := r.before.GetOr(Nobody);
    var after := r.after.GetOr(Nobody);
    if !Owns(before, node, resp.roster, req) then Finalize(node, NotOwner(resp, before), r)
    else if r.tail.None? then Err(StoreFailed)
    else if !TailOk(r.tail.value) then Err(BadWatermarks)
    else
      var tail := r.tail.value;
      var told := resp.(tail := tail, applyPending := tail.applied < tail.physical);
      var reading := !told.applyPending && next <= tail.applied;
      if reading && r.rows.None? then Err(StoreFailed)
      else if reading && !Contiguous(next, req.channelType, tail.applied, r.rows.value) then Err(BadPage)
      else if r.after.None? then Err(StoreFailed)
      else if !ValidConfig(after, resp.roster) then Err(Fence)
      else if !Owns(after, node, resp.roster, req) || before != after then Finalize(node, NotOwner(told, after), r)
      else if told.applyPending then Ok(told.(retryable := true))
      else
        var ms := if reading then FromRows(r.rows.value) else [];
        match FirstFit(ms, size, MAX_RESPONSE_BYTES, 0)
        case None => Err(OverBudget)
        case Some(kept) =>
          var nextSeq := if kept == [] then next else kept[|kept| - 1].sequence + 1;
          Finalize(node, told.(messages := kept, nextSeq := nextSeq, caughtUp := nextSeq > tail.applied), r)
  }

  const Nobody := Config(0, "", 0, false, 0, 0, [], [], 0, 0, 0, 0)

  ghost function MessagesReply(node: nat, req: Request, maxChannelType: nat, r: MessageReads,
        size: seq<Message> -> nat): Result<Response> {
    var next := if req.nextSeq == 0 then 1 else req.nextSeq;
    if !r.ready then Err(Unavailable)
    else if ValidateRequest(req, maxChannelType).Some? then Err(ValidateRequest(req, maxChannelType).value)
    else if RosterOf(node, r.roster).None? then Err(BadRoster)
    else if Canonical(node, req.roster) != Some(req.roster) || RosterOf(node, r.roster).value != req.roster then
      Err(BadRoster)
    else if !Stable(r.revision) || req.revision != r.revision then Err(Fence)
    else if r.before.None? then Err(StoreFailed)
    else if !ValidConfig(r.before.value, req.roster) then Err(Fence)
    else
      var resp := Response(r.revision, req.roster, req.leader, req.term, req.configVersion, Tail(0, 0), false, next,
                           false, false, false, []);
      OwnerReply(node, req, next, resp, r, size)
  }

  /** What the reply's own fields say: the guards it passed. */
  lemma {:induction false} GuardsPassed(node: nat, req: Request, maxChannelType: nat, r: MessageReads,
      size: seq<Message> -> nat)
    requires MessagesReply(node, req, maxChannelType, r, size).Ok?
    ensures var resp := MessagesReply(node, req, maxChannelType, r, size).value;
      && Stable(req.revision) && resp.revision == r.revision == req.revision
      && RosterOf(node, r.roster) == Some(req.roster)
      && (!resp.applyPending ==> r.finalRevision == req.revision && RosterOf(node, r.finalRoster) == Some(req.roster))
      && (!resp.notOwner ==> r.before == r.after && r.before.Some? && Owns(r.before.value, node, req.roster, req))
  {
    hide ValidateRequest, Owns, ValidConfig, Canonical, RosterOf, FirstFit, Contiguous, FromRows, TailOk;
  }

  // ---------- Replies and the history of the table ----------

  /** The configuration of a channel, as the authority looks it up. */
  function Lookup(cs: seq<Config>, channelId: string, channelType: nat): Maybe<Config> {
    if cs == [] then None
    else if cs[0].channelId == channelId && cs[0].channelType == channelType then Some(cs[0])
    else Lookup(cs[1..], channelId, channelType)
  }

  function LookupAt(w: World, req: Request): Maybe<Config> {
    Lookup(w.configs, req.channelId, req.channelType)
  }

  /** What the authority for one channel, the leader of the channel's slot, would answer at one
      moment, and the highest version it has given out for the channel. */
  datatype Authority = Authority(row: Maybe<Config>, top: nat)

  /** Saving a configuration gives it a version above all earlier ones. */
  ghost predicate AuthorityStep(a: Authority, a': Authority) {
    || a' == a
    || a' == a.(row := None)
    || (a'.row.Some? && a.top < a'.row.value.version == a'.top)
  }

  ghost predicate Numbered(a: seq<Authority>) {
    && (forall t :: 0 <= t < |a| && a[t].row.Some? ==> a[t].row.value.version <= a[t].top)
    && (forall t :: 0 <= t < |a| - 1 ==> AuthorityStep(a[t], a[t + 1]))
  }

  lemma {:induction false} TopGrows(a: seq<Authority>, i: nat, j: nat)
    requires Numbered(a) && i <= j < |a|
    ensures a[i].top <= a[j].top
    ensures a[j].row == a[i].row || a[j].row.None? || a[i].top < a[j].row.value.version
    decreases j
  {
    if i < j {
      TopGrows(a, i, j - 1);
      assert AuthorityStep(a[j - 1], a[j]);
    }
  }

  /** Two equal answers of the authority mean that it would have given no other in between. */
  lemma {:induction false} SameAnswerBetween(a: seq<Authority>, i: nat, t: nat, j: nat)
    requires Numbered(a) && i <= t <= j < |a| && a[i].row.Some? && a[i].row == a[j].row
    ensures a[t].row == a[i].row
    decreases j - t
  {
    TopGrows(a, i, t);
    TopGrows(a, t, j);
    if t < j {
      SameAnswerBetween(a, i, t + 1, j);
      assert AuthorityStep(a[t], a[t + 1]);
    }
  }

  /** The moments at which a request reads, in the order of the source. */
  datatype Moments = Moments(roster: nat, revision: nat, before: nat, after: nat, finalRevision: nat, finalRoster: nat)

  /** The reads were taken at these moments: revisions and rosters on this node, the channel's
      configuration from its authority; a read that failed saw nothing. */
  ghost predicate TakenFrom(h: seq<World>, a: seq<Authority>, at: Moments, r: MessageReads) {
    && History(h) && |a| == |h|
    && at.roster <= at.revision <= at.before <= at.after <= at.finalRevision <= at.finalRoster < |h|
    && r.roster == Some(h[at.roster].roster) && r.finalRoster == Some(h[at.finalRoster].roster)
    && r.revision == h[at.revision].revision && r.finalRevision == h[at.finalRevision].revision
    && (r.before.Some? ==> r.before == a[at.before].row)
    && (r.after.Some? ==> r.after == a[at.after].row)
  }

  /** The authority's answer names this node as the owner the request expects. */
  ghost predicate OwnedAt(a: Authority, node: nat, req: Request) {
    a.row.Some? && Owns(a.row.value, node, req.roster, req)
  }

  /** A reply other than "apply pending" is fenced: from the first to the last reading of the
      revision this node's table stood still at the revision asked for, the roster was the one
      asked for before and after, and if messages are delivered both answers of the authority were
      the same and named this node as the owner. */
  lemma {:induction false} RepliesAreFenced(h: seq<World>, a: seq<Authority>, at: Moments, node: nat, req: Request,
      maxChannelType: nat, r: MessageReads, size: seq<Message> -> nat)
    requires TakenFrom(h, a, at, r)
    requires MessagesReply(node, req, maxChannelType, r, size).Ok?
    requires !MessagesReply(node, req, maxChannelType, r, size).value.applyPending
    ensures Canonical(node, h[at.roster].roster) == Some(req.roster) == Canonical(node, h[at.finalRoster].roster)
    ensures forall t :: at.revision <= t <= at.finalRevision ==>
      h[t].revision == req.revision && h[t].configs == h[at.revision].configs
    ensures !MessagesReply(node, req, maxChannelType, r, size).value.notOwner ==>
      a[at.before].row == a[at.after].row && OwnedAt(a[at.before], node, req)
  {
    hide MessagesReply, Owns, Canonical;
    GuardsPassed(node, req, maxChannelType, r, size);
    forall t | at.revision <= t <= at.finalRevision
      ensures h[t].revision == req.revision && h[t].configs == h[at.revision].configs
    {
      StableBetween(h, at.revision, at.finalRevision, t);
    }
  }

  /** The reply delivers messages: it is neither a redirect nor a request to wait. */
  ghost predicate Delivers(node: nat, req: Request, maxChannelType: nat, r: MessageReads, size: seq<Message> -> nat) {
    var reply := MessagesReply(node, req, maxChannelType, r, size);
    reply.Ok? && !reply.value.notOwner && !reply.value.applyPending
  }

  /** While messages are read, the channel stays owned by this node under the expected leader, term
      and version: the authority numbers its configurations and gave the same answer twice. */
  lemma {:induction false} DeliveredWhileOwned(h: seq<World>, a: seq<Authority>, at: Moments, node: nat, req: Request,
      maxChannelType: nat, r: MessageReads, size: seq<Message> -> nat)
    requires TakenFrom(h, a, at, r) && Numbered(a) && Delivers(node, req, maxChannelType, r, size)
    ensures forall t :: at.before <= t <= at.after ==> OwnedAt(a[t], node, req)
  {
    hide MessagesReply, Owns, Numbered;
    GuardsPassed(node, req, maxChannelType, r, size);
    forall t | at.before <= t <= at.after ensures OwnedAt(a[t], node, req) {
      SameAnswerBetween(a, at.before, t, at.after);
    }
  }

  /** This node leads the channel's slot throughout, so it asks its own table. */
  ghost predicate AsksItself(h: seq<World>, a: seq<Authority>, at: Moments, req: Request)
    requires |a| == |h| && at.finalRevision < |h|
  {
    forall t :: at.revision <= t <= at.finalRevision ==> a[t].row == LookupAt(h[t], req)
  }

  /** On the leader of the slot the revision fences the authority's answers as well: the channel is
      owned from the first to the last reading of the revision, however rows are numbered. */
  lemma {:induction false} FencedWhereSlotIsLed(h: seq<World>, a: seq<Authority>, at: Moments, node: nat, req: Request,
      maxChannelType: nat, r: MessageReads, size: seq<Message> -> nat)
    requires TakenFrom(h, a, at, r) && AsksItself(h, a, at, req) && Delivers(node, req, maxChannelType, r, size)
    ensures forall t :: at.revision <= t <= at.finalRevision ==> OwnedAt(a[t], node, req)
  {
    hide MessagesReply, Owns, Lookup, Canonical;
    RepliesAreFenced(h, a, at, node, req, maxChannelType, r, size);
    forall t | at.revision <= t <= at.finalRevision ensures OwnedAt(a[t], node, req) {
      assert h[t].configs == h[at.before].configs;
    }
  }

  /** A request and reads that lead to a delivery, the revision being 2 at both ends. */
  lemma {:induction false} SampleDelivery(size: seq<Message> -> nat)
      returns (c: Config, req: Request, r: MessageReads)
    requires size([]) <= MAX_RESPONSE_BYTES
    ensures r.roster == r.finalRoster == Some([1]) && r.revision == r.finalRevision == 2
    ensures r.before == r.after == Some(c) && Delivers(1, req, 1, r, size)
  {
    c := Config(1, "c", 1, true, 1, 1, [1], [], 0, 0, 1, 1);
    req := Request(PROTOCOL_VERSION, "c", 1, 1, 1, 1, [1], 2, 1, 1);
    r := MessageReads(true, Some([1]), 2, Some(c), Some(Tail(0, 0)), None, Some(c), 2, Some([1]));
    assert Sort([1]) == Insert(1, []) == [1];
    assert "c"[0] == 'c' && 'c' in "c";
    assert !Blank("c") && ValidConfig(c, [1]);
    assert ValidateRequest(req, 1).None?;
    assert FirstFit([], size, MAX_RESPONSE_BYTES, 0) == Some([]);
  }

  /** Elsewhere it does not: here messages are delivered at an unmoved revision although this
      node's table has no row of the channel, and the authority's row is gone when the revision is
      read again. */
  lemma {:induction false} NotFencedElsewhere(size: seq<Message> -> nat)
      returns (h: seq<World>, a: seq<Authority>, at: Moments, req: Request, r: MessageReads)
    requires size([]) <= MAX_RESPONSE_BYTES
    ensures TakenFrom(h, a, at, r) && Numbered(a) && Delivers(1, req, 1, r, size)
    ensures forall t :: 0 <= t < |h| ==> LookupAt(h[t], req) == None
    ensures !OwnedAt(a[at.finalRevision], 1, req)
  {
    hide MessagesReply;
    var c;
    c, req, r := SampleDelivery(size);
    var w := World(2, [], [1]);
    h := [w, w];
    a := [Authority(Some(c), c.version), Authority(None, c.version)];
    at := Moments(0, 0, 0, 0, 1, 1);
    assert WorldStep(w, w) && AuthorityStep(a[0], a[1]);
  }

  /** And without increasing versions equal answers would not do: the channel may change hands and
      back between them. */
  lemma {:induction false} UnnumberedMayLapse(size: seq<Message> -> nat)
      returns (h: seq<World>, a: seq<Authority>, at: Moments, req: Request, r: MessageReads)
    requires size([]) <= MAX_RESPONSE_BYTES
    ensures TakenFrom(h, a, at, r) && Delivers(1, req, 1, r, size)
    ensures exists t :: at.before <= t <= at.after && !OwnedAt(a[t], 1, req)
  {
    hide MessagesReply;
    var c;
    c, req, r := SampleDelivery(size);
    var w := World(2, [], [1]);
    h := [w, w, w];
    a := [Authority(Some(c), c.version), Authority(None, c.version), Authority(Some(c), c.version)];
    at := Moments(0, 0, 0, 2, 2, 2);
    assert WorldStep(w, w);
    assert !OwnedAt(a[1], 1, req);
  }

  // ---------- The reply that is not fenced ----------

  /** The request and what is read first are in order. */
  predicate Admitted(node: nat, req: Request, maxChannelType: nat, r: MessageReads) {
    && r.ready && ValidateRequest(req, maxChannelType).None?
    && RosterOf(node, r.roster) == Some(req.roster) == Canonical(node, req.roster)
    && Stable(r.revision) && req.revision == r.revision
    && r.before.Some? && ValidConfig(r.before.value, req.roster)
  }

  /** The channel is owned before and after, and has messages that are not applied yet. */
  predicate Waiting(node: nat, req: Request, maxChannelType: nat, r: MessageReads) {
    && Admitted(node, req, maxChannelType, r)
    && Owns(r.before.value, node, req.roster, req) && r.after == r.before
    && r.tail.Some? && TailOk(r.tail.value) && r.tail.value.applied < r.tail.value.physical
  }

  lemma {:induction false} PendingIffWaiting(node: nat, req: Request, maxChannelType: nat, r: MessageReads,
      size: seq<Message> -> nat)
    ensures var reply := MessagesReply(node, req, maxChannelType, r, size);
      reply.Ok? && reply.value.applyPending <==> Waiting(node, req, maxChannelType, r)
  {
    hide ValidateRequest, ValidConfig, Canonical, RosterOf, FirstFit, Contiguous, FromRows, TailOk;
  }

  /** The reply is sent whatever revision and roster are found at the end. */
  ghost predicate IgnoresTheEnd(node: nat, req: Request, maxChannelType: nat, r: MessageReads,
      size: seq<Message> -> nat)
  {
    && MessagesReply(node, req, maxChannelType, r, size).Ok?
    && forall revision: nat, roster: Maybe<seq<nat>> ::
         MessagesReply(node, req, maxChannelType, r.(finalRevision := revision, finalRoster := roster), size)
         == MessagesReply(node, req, maxChannelType, r, size)
  }

  /** A reply goes out without the last fence if and only if the channel is owned before and after
      the read and has messages that are not applied yet. */
  lemma {:induction false} UnfencedIffWaiting(node: nat, req: Request, maxChannelType: nat, r: MessageReads,
      size: seq<Message> -> nat)
    ensures IgnoresTheEnd(node, req, maxChannelType, r, size) <==> Waiting(node, req, maxChannelType, r)
  {
    if Waiting(node, req, maxChannelType, r) {
      PendingIgnoresTheEnd(node, req, maxChannelType, r, size);
    } else if MessagesReply(node, req, maxChannelType, r, size).Ok? {
      hide MessagesReply;
      PendingIffWaiting(node, req, maxChannelType, r, size);
      var r' := r.(finalRevision := 1, finalRoster := r.finalRoster);
      PendingIffWaiting(node, req, maxChannelType, r', size);
      if MessagesReply(node, req, maxChannelType, r', size).Ok? {
        GuardsPassed(node, req, maxChannelType, r', size);
      }
    }
  }

  lemma {:induction false} PendingIgnoresTheEnd(node: nat, req: Request, maxChannelType: nat, r: MessageReads,
      size: seq<Message> -> nat)
    requires Waiting(node, req, maxChannelType, r)
    ensures IgnoresTheEnd(node, req, maxChannelType, r, size)
  {
    hide ValidateRequest, ValidConfig, Canonical, RosterOf, FirstFit, Contiguous, FromRows, TailOk;
  }

  /** Such replies exist, and may tell of a table that has changed by the time they are sent. */
  lemma {:induction false} PendingReplyMayBeStale(size: seq<Message> -> nat)
      returns (h: seq<World>, a: seq<Authority>, at: Moments, req: Request, r: MessageReads)
    ensures TakenFrom(h, a, at, r) && AsksItself(h, a, at, req) && h[at.finalRevision].configs != h[at.revision].configs
    ensures var reply := MessagesReply(1, req, 1, r, size); reply.Ok? && reply.value.applyPending
    ensures r.finalRevision != req.revision
  {
    var c := Config(1, "c", 1, true, 1, 1, [1], [], 0, 0, 1, 1);
    var w := World(2, [c], [1]);
    h := [w, w.(revision := 3), World(3, [], [1]), World(4, [], [1])];
    a := [Authority(Some(c), 1), Authority(Some(c), 1), Authority(None, 1), Authority(None, 1)];
    at := Moments(0, 0, 0, 0, 3, 3);
    req := Request(PROTOCOL_VERSION, "c", 1, 1, 1, 1, [1], 2, 1, 1);
    r := MessageReads(true, Some([1]), 2, Some(c), Some(Tail(0, 1)), None, Some(c), 4, Some([1]));
    assert WorldStep(h[0], h[1]) && WorldStep(h[1], h[2]) && WorldStep(h[2], h[3]);
    assert Lookup([c], "c", 1) == Some(c);
    assert Sort([1]) == Insert(1, []) == [1];
    assert "c"[0] == 'c' && 'c' in "c";
    assert !Blank("c") && ValidConfig(c, [1]);
    assert ValidateRequest(req, 1).None?;
    assert Waiting(1, req, 1, r);
    PendingIffWaiting(1, req, 1, r, size);
  }

  /** A delivery continues the sequence without a gap, moves as long as there is something to
      read, and says "caught up" exactly when nothing applied is left. */
  lemma {:induction false} DeliveryIsContiguous(node: nat, req: Request, maxChannelType: nat, r: MessageReads,
        size: seq<Message> -> nat)
    requires Delivers(node, req, maxChannelType, r, size)
    ensures var resp := MessagesReply(node, req, maxChannelType, r, size).value;
      var next := if req.nextSeq == 0 then 1 else req.nextSeq;
      && resp.nextSeq == next + |resp.messages|
      && (forall i :: 0 <= i < |resp.messages| ==> resp.messages[i].sequence == next + i)
      && (next <= resp.tail.applied ==> next < resp.nextSeq <= resp.tail.applied + 1)
      && (resp.tail.applied < next ==> resp.messages == [])
      && (resp.caughtUp <==> resp.tail.applied < resp.nextSeq)
  {
    hide ValidateRequest, Owns, ValidConfig, Canonical, RosterOf, FirstFit, TailOk;
    var resp := MessagesReply(node, req, maxChannelType, r, size).value;
    var next := if req.nextSeq == 0 then 1 else req.nextSeq;
    var ms := if next <= resp.tail.applied then FromRows(r.rows.value) else [];
    var k := FirstFitIsFirst(ms, size, MAX_RESPONSE_BYTES, 0);
    assert resp.messages == OmitLastN(ms, k);
    BoundingKeepsMessages(ms, k);
  }

  // ---------- What is delivered ----------

  /** The message carries the stored row as it is. */
  predicate Carries(m: Message, row: Row) {
    && m.sequence == row.sequence && m.omitted == row.omitted
    && (if row.omitted then m.payload == [] else m.payload == row.payload)
  }

  /** The message carries the stored payload, unless it is marked as omitted. */
  predicate Shows(m: Message, row: Row) {
    && m.sequence == row.sequence && (row.omitted ==> m.omitted)
    && (if m.omitted then m.payload == [] else m.payload == row.payload)
  }

  /** The messages that a delivery chooses from, before their size is bounded. */
  ghost function Unbounded(req: Request, r: MessageReads): seq<Message> {
    var next := if req.nextSeq == 0 then 1 else req.nextSeq;
    if r.tail.Some? && next <= r.tail.value.applied && r.rows.Some? then FromRows(r.rows.value) else []
  }

  lemma {:induction false} DeliveryIsFirstFit(node: nat, req: Request, maxChannelType: nat, r: MessageReads,
        size: seq<Message> -> nat) returns (k: nat)
    requires Delivers(node, req, maxChannelType, r, size)
    ensures MessagesReply(node, req, maxChannelType, r, size).value.messages == OmitLastN(Unbounded(req, r), k)
    ensures forall j :: 0 <= j < k ==> size(OmitLastN(Unbounded(req, r), j)) > MAX_RESPONSE_BYTES
  {
    hide ValidateRequest, Owns, ValidConfig, Canonical, RosterOf, FirstFit, TailOk, FromRows, Contiguous;
    k := FirstFitIsFirst(Unbounded(req, r), size, MAX_RESPONSE_BYTES, 0);
  }

  /** A delivery shows the stored rows, one message for each: a payload is missing only where the
      message is marked, and marks beyond those of the store are at the tail only. */
  lemma {:induction false} DeliveryShowsRows(node: nat, req: Request, maxChannelType: nat, r: MessageReads,
        size: seq<Message> -> nat)
    requires Delivers(node, req, maxChannelType, r, size)
    requires MessagesReply(node, req, maxChannelType, r, size).value.messages != []
    ensures var ms := MessagesReply(node, req, maxChannelType, r, size).value.messages;
      && r.rows.Some? && |ms| == |r.rows.value|
      && (forall i :: 0 <= i < |ms| ==> Shows(ms[i], r.rows.value[i]))
      && (forall i, j :: 0 <= i < j < |ms| && ms[i].omitted && !r.rows.value[i].omitted ==> ms[j].payload == [])
  {
    hide MessagesReply;
    var k := DeliveryIsFirstFit(node, req, maxChannelType, r, size);
    BoundingKeepsMessages(Unbounded(req, r), k);
  }

  /** If the reply fits as it is, every row is carried as it is: nothing is marked but by the store. */
  lemma {:induction false} FittingIsUnchanged(node: nat, req: Request, maxChannelType: nat, r: MessageReads,
        size: seq<Message> -> nat, full: seq<Message>)
    requires Delivers(node, req, maxChannelType, r, size)
    requires MessagesReply(node, req, maxChannelType, r, size).value.messages != []
    requires r.rows.Some? && |full| == |r.rows.value|
    requires forall i :: 0 <= i < |full| ==> Carries(full[i], r.rows.value[i])
    requires size(full) <= MAX_RESPONSE_BYTES
    ensures MessagesReply(node, req, maxChannelType, r, size).value.messages == full
  {
    hide MessagesReply;
    var k := DeliveryIsFirstFit(node, req, maxChannelType, r, size);
    BoundingKeepsMessages(Unbounded(req, r), k);
    assert full == Unbounded(req, r);
    assert OmitLastN(full, 0) == full;
  }

  /** The channel is led by this node under the generation that the request expects. */
  predicate Leads(c: Config, node: nat, req: Request) {
    && c.leader == node == req.leader && c.term == req.term && c.version == req.configVersion
    && c.channelId == req.channelId && c.channelType == req.channelType
  }

  /** The reads stand at the end where they stood at the beginning. */
  predicate StandsStill(node: nat, req: Request, r: MessageReads) {
    r.finalRevision == r.revision && RosterOf(node, r.finalRoster) == Some(req.roster)
  }

  /** Messages are delivered if and only if the request is admitted, this node leads the channel as
      expected before and after, everything is applied, the rows are there without a gap, the reply
      can be made to fit, and revision and roster have not moved. */
  lemma {:induction false} DeliversIff(node: nat, req: Request, maxChannelType: nat, r: MessageReads,
        size: seq<Message> -> nat)
    ensures Delivers(node, req, maxChannelType, r, size) <==>
      && Admitted(node, req, maxChannelType, r) && Leads(r.before.value, node, req) && r.after == r.before
      && r.tail.Some? && TailOk(r.tail.value) && r.tail.value.applied == r.tail.value.physical
      && (var next := if req.nextSeq == 0 then 1 else req.nextSeq;
          next <= r.tail.value.applied ==>
            r.rows.Some? && Contiguous(next, req.channelType, r.tail.value.applied, r.rows.value))
      && FirstFit(Unbounded(req, r), size, MAX_RESPONSE_BYTES, 0).Some? && StandsStill(node, req, r)
  {
    hide ValidateRequest, ValidConfig, Canonical, RosterOf, FirstFit, Contiguous, FromRows;
  }

  /** A client is sent elsewhere only to the leader, term and version of the configuration that was
      found, with nothing delivered and nothing said about the tail. */
  lemma {:induction false} RedirectNamesTheOwner(node: nat, req: Request, maxChannelType: nat, r: MessageReads,
        size: seq<Message> -> nat)
    requires MessagesReply(node, req, maxChannelType, r, size).Ok?
    requires MessagesReply(node, req, maxChannelType, r, size).value.notOwner
    ensures var resp := MessagesReply(node, req, maxChannelType, r, size).value;
      && resp.retryable && resp.messages == [] && resp.tail == Tail(0, 0) && !resp.caughtUp && !resp.applyPending
      && StandsStill(node, req, r) && r.before.Some?
      && var c := if Leads(r.before.value, node, req) then r.after else r.before;
         && c.Some? && resp.leader == c.value.leader && resp.term == c.value.term
         && resp.configVersion == c.value.version
         && (Leads(r.before.value, node, req) ==> r.after != r.before)
  {
    hide ValidateRequest, ValidConfig, Canonical, RosterOf, FirstFit, Contiguous, FromRows, TailOk;
  }

  // ---------- Following the next sequence number ----------

  datatype Fetch = Fetch(req: Request, seen: MessageReads, reply: Response)

  /** A client starts at 1 and asks for the next sequence number it was told, while the applied
      watermark stays at `applied`, until it is told that it has caught up. */
  ghost predicate Follows(node: nat, maxChannelType: nat, size: seq<Message> -> nat, applied: nat, fs: seq<Fetch>) {
    && fs != [] && fs[0].req.nextSeq <= 1
    && (forall k :: 0 <= k < |fs| ==>
          && Delivers(node, fs[k].req, maxChannelType, fs[k].seen, size)
          && fs[k].reply == MessagesReply(node, fs[k].req, maxChannelType, fs[k].seen, size).value
          && fs[k].reply.tail.applied == applied)
    && (forall k :: 0 <= k < |fs| - 1 ==> fs[k + 1].req.nextSeq == fs[k].reply.nextSeq && !fs[k].reply.caughtUp)
  }

  function Fetched(fs: seq<Fetch>, n: nat): seq<Message>
    requires n <= |fs|
  {
    if n == 0 then [] else Fetched(fs, n - 1) + fs[n - 1].reply.messages
  }

  lemma {:induction false} FollowPrefix(node: nat, maxChannelType: nat, size: seq<Message> -> nat, applied: nat,
        fs: seq<Fetch>, n: nat)
    requires Follows(node, maxChannelType, size, applied, fs) && 0 < n <= |fs|
    ensures var ms := Fetched(fs, n);
      && |ms| == fs[n - 1].reply.nextSeq - 1 <= applied
      && (forall i :: 0 <= i < |ms| ==> ms[i].sequence == i + 1)
      && (fs[n - 1].reply.caughtUp <==> |ms| == applied)
      && (n < |fs| ==> n <= |ms|)
    decreases n
  {
    hide MessagesReply;
    var f := fs[n - 1];
    DeliveryIsContiguous(node, f.req, maxChannelType, f.seen, size);
    if n == 1 {
      assert Fetched(fs, 1) == f.reply.messages;
    } else {
      FollowPrefix(node, maxChannelType, size, applied, fs, n - 1);
      assert fs[n - 1].req.nextSeq == fs[n - 2].reply.nextSeq;
    }
  }

  /** Following the next sequence number until "caught up" yields the sequence numbers 1 to the
      applied watermark, each exactly once and in order, and no request is wasted: there are at
      most `applied` requests before the last. */
  lemma {:induction false} FollowingIsComplete(node: nat, maxChannelType: nat, size: seq<Message> -> nat,
        applied: nat, fs: seq<Fetch>)
    requires Follows(node, maxChannelType, size, applied, fs) && fs[|fs| - 1].reply.caughtUp
    ensures |Fetched(fs, |fs|)| == applied && forall i :: 0 <= i < applied ==> Fetched(fs, |fs|)[i].sequence == i + 1
    ensures |fs| <= applied + 1
  {
    FollowPrefix(node, maxChannelType, size, applied, fs, |fs|);
    if |fs| > 1 {
      FollowPrefix(node, maxChannelType, size, applied, fs, |fs| - 1);
    }
  }

  /** The rows that requests find are those of one store. */
  ghost predicate ReadFrom(stored: nat -> Row, fs: seq<Fetch>) {
    forall k :: 0 <= k < |fs| && fs[k].seen.rows.Some? ==> RowsOf(stored, fs[k].seen.rows.value)
  }

  predicate RowsOf(stored: nat -> Row, rows: seq<Row>) {
    forall i :: 0 <= i < |rows| ==> rows[i] == stored(rows[i].sequence)
  }

  lemma {:induction false} FetchedShow(node: nat, maxChannelType: nat, size: seq<Message> -> nat, applied: nat,
        fs: seq<Fetch>, stored: nat -> Row, n: nat)
    requires Follows(node, maxChannelType, size, applied, fs) && ReadFrom(stored, fs) && n <= |fs|
    ensures forall i :: 0 <= i < |Fetched(fs, n)| ==> Shows(Fetched(fs, n)[i], stored(Fetched(fs, n)[i].sequence))
    decreases n
  {
    hide MessagesReply;
    if n > 0 {
      FetchedShow(node, maxChannelType, size, applied, fs, stored, n - 1);
      var f := fs[n - 1];
      if f.reply.messages != [] {
        DeliveryShowsRows(node, f.req, maxChannelType, f.seen, size);
      }
    }
  }

  /** And each of them shows what is stored under its number. */
  lemma {:induction false} FollowingShowsTheStore(node: nat, maxChannelType: nat, size: seq<Message> -> nat,
        applied: nat, fs: seq<Fetch>, stored: nat -> Row)
    requires Follows(node, maxChannelType, size, applied, fs) && fs[|fs| - 1].reply.caughtUp && ReadFrom(stored, fs)
    ensures |Fetched(fs, |fs|)| == applied
    ensures forall i :: 0 <= i < applied ==> Shows(Fetched(fs, |fs|)[i], stored(i + 1))
  {
    hide Follows, Fetched;
    FollowingIsComplete(node, maxChannelType, size, applied, fs);
    FetchedShow(node, maxChannelType, size, applied, fs, stored, |fs|);
  }
}
