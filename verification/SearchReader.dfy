/** The fenced reader of the search source (internal/plugin/rpc_search_source.go). Everything a
    request reads from outside is collected in a record of reads; a reply is a function of the
    request and those reads, and the theorems say what a reply means when the reads were taken
    one after the other from a changing world. */
module SearchReader {
  import opened Common
  import opened SearchSource

  const PROTOCOL_VERSION := 5
  const DEFAULT_CHANNEL_LIMIT := 100
  const MAX_CHANNEL_LIMIT := 500
  const MAX_MESSAGE_LIMIT := 500
  const MAX_CHANNEL_ID_BYTES := 100
  const MAX_MESSAGE_SEQUENCE := 0xFFFF_FFFF
  const MIN_CHANNEL_TYPE := 1
  const MAX_RESPONSE_BYTES := 4 * 1024 * 1024 - 64

  datatype Error =
    | Unavailable | BadVersion | BadRoster | BadChannelId | BadChannelType | BadLimit | BadGeneration
    | BadSequence | Fence | StoreFailed | BadWatermarks | BadPage | OverBudget

  datatype Result<T> = Ok(value: T) | Err(error: Error)

  datatype Tail = Tail(applied: nat, physical: nat)

  predicate TailOk(t: Tail) {
    t.applied <= t.physical <= MAX_MESSAGE_SEQUENCE
  }

  function RosterOf(node: nat, ids: Maybe<seq<nat>>): Maybe<seq<nat>> {
    if ids.None? then None else Canonical(node, ids.value)
  }

  // ---------- Channel pages ----------

  datatype Channel = Channel(
    configId: nat, channelId: string, channelType: nat, leader: nat, term: nat, version: nat,
    tail: Tail, applyPending: bool, bootstrapRequired: bool)

  datatype Page = Page(node: nat, roster: seq<nat>, revision: nat, scannedTo: nat, channels: seq<Channel>)

  function ChannelLimit(limit: int): Result<nat> {
    if limit < 0 then Err(BadLimit)
    else if limit == 0 then Ok(DEFAULT_CHANNEL_LIMIT)
    else if limit > MAX_CHANNEL_LIMIT then Ok(MAX_CHANNEL_LIMIT)
    else Ok(limit)
  }

  function ChannelOf(c: Config, t: Tail): Channel {
    Channel(c.id, c.channelId, c.channelType, c.leader, c.term, c.version, t,
            t.applied < t.physical, t.applied == 0 && 0 < t.physical)
  }

  datatype Scanned = Scanned(to: nat, channels: seq<Channel>)

  /** The tail of a channel as the store reports it; `None` is a failed read. */
  type Tails = Config -> Maybe<Tail>

  function TailOf(c: Config, tails: Tails): Result<Tail> {
    match tails(c)
    case None => Err(StoreFailed)
    case Some(t) => if TailOk(t) then Ok(t) else Err(BadWatermarks)
  }

  /** Scanning a page stops at the first configuration that is out of order, invalid or
      unreadable. */
  function Scan(node: nat, roster: seq<nat>, so: Scanned, cs: seq<Config>, tails: Tails): Result<Scanned>
    decreases cs
  {
    if cs == [] then Ok(so)
    else if cs[0].id <= so.to || !ValidConfig(cs[0], roster) then Err(Fence)
    else if cs[0].leader != node then Scan(node, roster, so.(to := cs[0].id), cs[1..], tails)
    else match TailOf(cs[0], tails)
      case Err(e) => Err(e)
      case Ok(t) => Scan(node, roster, Scanned(cs[0].id, so.channels + [ChannelOf(cs[0], t)]), cs[1..], tails)
  }

  method ScanConfigs(node: nat, roster: seq<nat>, after: nat, cs: seq<Config>, tails: Tails)
      returns (r: Result<Scanned>)
    ensures r == Scan(node, roster, Scanned(after, []), cs, tails)
  {
    var so := Scanned(after, []);
    for i := 0 to |cs|
      invariant Scan(node, roster, Scanned(after, []), cs, tails) == Scan(node, roster, so, cs[i..], tails)
    {
      var c := cs[i];
      assert cs[i..][1..] == cs[i + 1..];
      if c.id <= so.to || !ValidConfig(c, roster) {
        return Err(Fence);
      }
      if c.leader != node {
        so := so.(to := c.id);
      } else {
        var t := TailOf(c, tails);
        if t.Err? {
          return Err(t.error);
        }
        so := Scanned(c.id, so.channels + [ChannelOf(c, t.value)]);
      }
    }
    return Ok(so);
  }

  function Led(cs: seq<Config>, node: nat): seq<Config> {
    if cs == [] then [] else (if cs[0].leader == node then [cs[0]] else []) + Led(cs[1..], node)
  }

  /** The channel is identified as in the configuration. */
  predicate Tells(ch: Channel, c: Config) {
    && ch.configId == c.id && ch.channelId == c.channelId && ch.channelType == c.channelType
    && ch.leader == c.leader && ch.term == c.term && ch.version == c.version
  }

  /** The channel reports the configuration and the tail that was read for it: whether messages wait
      to be applied, and whether none has been although there are some. */
  predicate Reports(ch: Channel, c: Config, tails: Tails) {
    && Tells(ch, c) && tails(c) == Some(ch.tail) && ch.tail.applied <= ch.tail.physical
    && (ch.applyPending <==> ch.tail.applied != ch.tail.physical)
    && (ch.bootstrapRequired <==> ch.applyPending && ch.tail.applied == 0)
  }

  predicate ReportsAll(chs: seq<Channel>, cs: seq<Config>, tails: Tails) {
    |chs| == |cs| && forall i :: 0 <= i < |chs| ==> Reports(chs[i], cs[i], tails)
  }

  /** A scan that succeeds has reported every configuration led by this node, in order, and
      stands at the last id of the page. */
  lemma {:induction false} ScanReportsLed(node: nat, roster: seq<nat>, so: Scanned, cs: seq<Config>, tails: Tails)
    requires Scan(node, roster, so, cs, tails).Ok?
    ensures var r := Scan(node, roster, so, cs, tails).value;
      && r.to == LastId(so.to, cs) && so.channels <= r.channels
      && ReportsAll(r.channels[|so.channels|..], Led(cs, node), tails)
    ensures forall c :: c in cs ==> ValidConfig(c, roster) && so.to < c.id
    decreases cs
  {
    if cs != [] {
      var next := if cs[0].leader != node then so.(to := cs[0].id)
                  else Scanned(cs[0].id, so.channels + [ChannelOf(cs[0], TailOf(cs[0], tails).value)]);
      ScanReportsLed(node, roster, next, cs[1..], tails);
      var r := Scan(node, roster, so, cs, tails).value;
      assert r.channels[|so.channels|..] ==
        (if cs[0].leader == node then [ChannelOf(cs[0], TailOf(cs[0], tails).value)] else []) +
        r.channels[|next.channels|..];
    }
  }

  datatype ChannelReads = ChannelReads(
    ready: bool, roster: Maybe<seq<nat>>, revision: nat, configs: Maybe<seq<Config>>, tails: Tails,
    finalRevision: nat, finalRoster: Maybe<seq<nat>>)

  function ChannelsReply(node: nat, version: nat, after: nat, limit: int, r: ChannelReads): Result<Page> {
    if !r.ready then Err(Unavailable)
    else if version != PROTOCOL_VERSION then Err(BadVersion)
    else if ChannelLimit(limit).Err? then Err(BadLimit)
    else if RosterOf(node, r.roster).None? then Err(BadRoster)
    else if !Stable(r.revision) then Err(Fence)
    else if r.configs.None? then Err(StoreFailed)
    else
      var roster := RosterOf(node, r.roster).value;
      match Scan(node, roster, Scanned(after, []), r.configs.value, r.tails)
      case Err(e) => Err(e)
      case Ok(so) =>
        if !Stable(r.finalRevision) || r.finalRevision != r.revision then Err(Fence)
        else if RosterOf(node, r.finalRoster) != Some(roster) then Err(BadRoster)
        else Ok(Page(node, roster, r.revision, so.to, so.channels))
  }

  /** The id at `i` is above the one before it. */
  predicate Rises(after: nat, cs: seq<Config>, i: nat)
    requires i < |cs|
  {
    (if i == 0 then after else cs[i - 1].id) < cs[i].id
  }

  /** The page can be scanned from `after` on: ids rise, configurations are valid, and the tails of
      those led here can be read and are in order. */
  predicate Scannable(node: nat, roster: seq<nat>, after: nat, cs: seq<Config>, tails: Tails) {
    && (forall i :: 0 <= i < |cs| ==> Rises(after, cs, i))
    && (forall i :: 0 <= i < |cs| ==> ValidConfig(cs[i], roster))
    && (forall i :: 0 <= i < |cs| ==> Readable(node, cs[i], tails))
  }

  predicate Readable(node: nat, c: Config, tails: Tails) {
    c.leader == node ==> tails(c).Some? && TailOk(tails(c).value)
  }

  lemma {:induction false} ScannableHead(node: nat, roster: seq<nat>, after: nat, cs: seq<Config>, tails: Tails)
    requires cs != []
    ensures Scannable(node, roster, after, cs, tails) <==>
      && after < cs[0].id && ValidConfig(cs[0], roster) && Readable(node, cs[0], tails)
      && Scannable(node, roster, cs[0].id, cs[1..], tails)
  {
    hide ValidConfig, Readable;
    var rest := cs[1..];
    forall i | 0 < i < |cs|
      ensures Rises(after, cs, i) <==> Rises(cs[0].id, rest, i - 1)
      ensures cs[i] == rest[i - 1]
    {
    }
    if Scannable(node, roster, after, cs, tails) {
      assert Rises(after, cs, 0);
      forall i | 0 <= i < |rest| ensures Rises(cs[0].id, rest, i) {
        assert Rises(after, cs, i + 1);
      }
    }
    if Rises(after, cs, 0) && Scannable(node, roster, cs[0].id, rest, tails) {
      forall i | 0 <= i < |cs| ensures Rises(after, cs, i) {
        assert i > 0 ==> Rises(cs[0].id, rest, i - 1);
      }
    }
  }

  lemma {:induction false} ScanSucceedsIff(node: nat, roster: seq<nat>, so: Scanned, cs: seq<Config>, tails: Tails)
    ensures Scan(node, roster, so, cs, tails).Ok? <==> Scannable(node, roster, so.to, cs, tails)
    decreases cs
  {
    hide ValidConfig, TailOk;
    if cs != [] {
      var c := cs[0];
      ScannableHead(node, roster, so.to, cs, tails);
      var next := if c.leader == node && tails(c).Some?
                  then Scanned(c.id, so.channels + [ChannelOf(c, tails(c).value)]) else so.(to := c.id);
      ScanSucceedsIff(node, roster, next, cs[1..], tails);
    }
  }

  /** A page is given if and only if the reader is ready, the request is in order, what is read can
      be scanned, and revision and roster are stable and the same at the end. */
  lemma {:induction false} PageIsGivenIff(node: nat, version: nat, after: nat, limit: int, r: ChannelReads)
    ensures ChannelsReply(node, version, after, limit, r).Ok? <==>
      && r.ready && version == 5 && 0 <= limit
      && RosterOf(node, r.roster).Some? && RosterOf(node, r.finalRoster) == RosterOf(node, r.roster)
      && Stable(r.revision) && r.finalRevision == r.revision && r.configs.Some?
      && Scannable(node, RosterOf(node, r.roster).value, after, r.configs.value, r.tails)
  {
    hide Scan, Scannable, RosterOf;
    if RosterOf(node, r.roster).Some? && r.configs.Some? {
      ScanSucceedsIff(node, RosterOf(node, r.roster).value, Scanned(after, []), r.configs.value, r.tails);
    }
  }

  /** The size of a page: 100 unless another is asked for, and never more than 500. */
  lemma {:induction false} PageSizes(limit: int)
    ensures ChannelLimit(limit).Ok? <==> 0 <= limit
    ensures 0 < limit ==> ChannelLimit(limit).value == if limit < 500 then limit else 500
    ensures limit == 0 ==> ChannelLimit(limit).value == 100
  {
  }

  /** One page request: what was asked, what was read, and when. The reads happen in the order
      revision, configurations, revision. */
  datatype Visit = Visit(after: nat, limit: int, seen: ChannelReads, page: Page, t1: nat, t2: nat, t3: nat)

  ghost predicate Succeeded(h: seq<World>, node: nat, v: Visit) {
    && v.t1 <= v.t2 <= v.t3 < |h|
    && v.seen.revision == h[v.t1].revision && v.seen.finalRevision == h[v.t3].revision
    && ChannelLimit(v.limit).Ok?
    && (v.seen.configs.Some? ==> v.seen.configs.value == PageOf(h[v.t2].configs, v.after, ChannelLimit(v.limit).value))
    && ChannelsReply(node, PROTOCOL_VERSION, v.after, v.limit, v.seen) == Ok(v.page)
  }

  /** Although the revision and the table are read separately, a page that is returned shows the
      table as it was at the page's revision, and the table did not change during the read. */
  lemma {:induction false} PageFromOneSnapshot(h: seq<World>, node: nat, v: Visit)
    requires History(h) && Succeeded(h, node, v)
    ensures Stable(v.page.revision)
    ensures forall t :: v.t1 <= t <= v.t3 ==> h[t].revision == v.page.revision && h[t].configs == h[v.t2].configs
    ensures var cs := PageOf(h[v.t2].configs, v.after, ChannelLimit(v.limit).value);
      && v.page.scannedTo == LastId(v.after, cs)
      && ReportsAll(v.page.channels, Led(cs, node), v.seen.tails)
      && forall c :: c in cs ==> ValidConfig(c, v.page.roster)
  {
    forall t | v.t1 <= t <= v.t3 ensures h[t].revision == v.page.revision && h[t].configs == h[v.t2].configs {
      StableBetween(h, v.t1, v.t3, t);
      StableBetween(h, v.t1, v.t3, v.t2);
    }
    var cs := PageOf(h[v.t2].configs, v.after, ChannelLimit(v.limit).value);
    ScanReportsLed(node, v.page.roster, Scanned(v.after, []), cs, v.seen.tails);
  }

  // ---------- Chained pages ----------

  /** Each request continues where the previous page stopped, all pages show one revision, and
      the last page found nothing more. */
  ghost predicate Chain(h: seq<World>, node: nat, vs: seq<Visit>) {
    && vs != [] && vs[0].after == 0
    && (forall k :: 0 <= k < |vs| ==> Succeeded(h, node, vs[k]) && vs[k].page.revision == vs[0].page.revision)
    && (forall k :: 0 <= k < |vs| - 1 ==> vs[k + 1].after == vs[k].page.scannedTo)
    && vs[|vs| - 1].page.scannedTo == vs[|vs| - 1].after
  }

  /** The channels reported by the first `n` pages, in the order received. */
  function Received(vs: seq<Visit>, n: nat): seq<Channel>
    requires n <= |vs|
  {
    if n == 0 then [] else Received(vs, n - 1) + vs[n - 1].page.channels
  }

  /** The channels are those of the configurations, one for one. */
  predicate Lists(chs: seq<Channel>, cs: seq<Config>) {
    |chs| == |cs| && forall i :: 0 <= i < |chs| ==> Tells(chs[i], cs[i])
  }

  lemma {:induction false} LedConcat(a: seq<Config>, b: seq<Config>, node: nat)
    ensures Led(a + b, node) == Led(a, node) + Led(b, node)
  {
    if a == [] {
      assert a + b == b;
    } else {
      LedConcat(a[1..], b, node);
      assert (a + b)[1..] == a[1..] + b && (a + b)[0] == a[0];
      var first := if a[0].leader == node then [a[0]] else [];
      assert first + (Led(a[1..], node) + Led(b, node)) == (first + Led(a[1..], node)) + Led(b, node);
    }
  }

  /** What one page of a chain lists. */
  lemma {:induction false} VisitLists(h: seq<World>, node: nat, vs: seq<Visit>, k: nat)
    requires History(h) && Chain(h, node, vs) && k < |vs|
    ensures var cs, v := h[vs[0].t2].configs, vs[k];
      var page := PageOf(cs, v.after, ChannelLimit(v.limit).value);
      && h[v.t2].configs == cs && Keyed(cs)
      && v.page.scannedTo == LastId(v.after, page) && Lists(v.page.channels, Led(page, node))
  {
    hide History, Led, PageOf, ChannelLimit, Keyed;
    SameTable(h, node, vs, k);
    PageFromOneSnapshot(h, node, vs[k]);
  }

  lemma {:induction false} ListsConcat(a: seq<Channel>, a': seq<Config>, b: seq<Channel>, b': seq<Config>)
    requires Lists(a, a') && Lists(b, b')
    ensures Lists(a + b, a' + b')
  {
  }

  lemma {:induction false} ChainStep(h: seq<World>, node: nat, vs: seq<Visit>, n: nat, cs: seq<Config>)
    requires History(h) && Chain(h, node, vs) && 0 < n < |vs| && cs == h[vs[0].t2].configs
    requires Lists(Received(vs, n - 1), Led(cs[..IndexAfter(cs, vs[n - 1].after)], node))
    ensures Lists(Received(vs, n), Led(cs[..IndexAfter(cs, vs[n].after)], node))
  {
    hide History, Led, PageOf, ChannelLimit, Keyed, IndexAfter, Lists, LastId, ChannelsReply;
    VisitLists(h, node, vs, n - 1);
    var v := vs[n - 1];
    var limit := ChannelLimit(v.limit).value;
    PageExtends(cs, v.after, limit, node);
    ListsConcat(Received(vs, n - 1), Led(cs[..IndexAfter(cs, v.after)], node),
                v.page.channels, Led(PageOf(cs, v.after, limit), node));
  }

  lemma {:induction false} ChainPrefix(h: seq<World>, node: nat, vs: seq<Visit>, n: nat)
    requires History(h) && Chain(h, node, vs) && n < |vs|
    ensures var cs := h[vs[0].t2].configs;
      Keyed(cs) && h[vs[n].t2].configs == cs && Lists(Received(vs, n), Led(cs[..IndexAfter(cs, vs[n].after)], node))
    decreases n
  {
    hide History, ChannelsReply;
    VisitLists(h, node, vs, n);
    var cs := h[vs[0].t2].configs;
    if n == 0 {
      IndexAfterSplits(cs, 0);
    } else {
      ChainPrefix(h, node, vs, n - 1);
      ChainStep(h, node, vs, n, cs);
    }
  }

  /** All pages of a chain show the same table. */
  lemma {:induction false} SameTable(h: seq<World>, node: nat, vs: seq<Visit>, n: nat)
    requires History(h) && Chain(h, node, vs) && n < |vs|
    ensures Keyed(h[vs[0].t2].configs) && h[vs[n].t2].configs == h[vs[0].t2].configs
  {
    PageFromOneSnapshot(h, node, vs[0]);
    PageFromOneSnapshot(h, node, vs[n]);
    RevisionIdentifies(h, vs[0].t2, vs[n].t2);
    RevisionGrows(h, 0, vs[0].t2);
  }

  /** What is led up to the end of a page is what is led before it and in it. */
  lemma {:induction false} PageExtends(cs: seq<Config>, after: nat, limit: nat, node: nat)
    requires Keyed(cs)
    ensures var page := PageOf(cs, after, limit);
      Led(cs[..IndexAfter(cs, LastId(after, page))], node) == Led(cs[..IndexAfter(cs, after)], node) + Led(page, node)
  {
    var page, j := PageOf(cs, after, limit), IndexAfter(cs, after);
    NextPageStart(cs, after, limit);
    PageIsTheSmallest(cs, after, limit);
    assert cs[..j + |page|] == cs[..j] + page;
    LedConcat(cs[..j], page, node);
  }

  /** Chaining pages at one revision from id 0 until nothing more is found returns every
      configuration this node leads exactly once, in ascending order of id. */
  lemma {:induction false} ChainedPagesAreComplete(h: seq<World>, node: nat, vs: seq<Visit>)
    requires History(h) && Chain(h, node, vs)
    ensures var cs := h[vs[0].t2].configs;
      Lists(Received(vs, |vs|), Led(cs, node)) && Keyed(Led(cs, node))
  {
    var n, cs := |vs| - 1, h[vs[0].t2].configs;
    ChainPrefix(h, node, vs, n);
    PageFromOneSnapshot(h, node, vs[n]);
    var after, limit := vs[n].after, ChannelLimit(vs[n].limit).value;
    PageIsTheSmallest(cs, after, limit);
    assert PageOf(cs, after, limit) == [];
    assert cs[..IndexAfter(cs, after)] == cs;
    LedIsKeyed(cs, node);
  }

  /** `Led` keeps exactly the configurations led by the node, in order. */
  lemma {:induction false} LedIsKeyed(cs: seq<Config>, node: nat)
    requires Keyed(cs)
    ensures Keyed(Led(cs, node))
    ensures forall c :: c in Led(cs, node) <==> c in cs && c.leader == node
  {
    if cs != [] {
      LedIsKeyed(cs[1..], node);
      assert cs == [cs[0]] + cs[1..];
      var rest := Led(cs[1..], node);
      forall i | 0 <= i < |rest| ensures cs[0].id < rest[i].id {
        assert rest[i] in cs[1..];
      }
    }
  }
}
