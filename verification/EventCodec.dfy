/** The encoding of events and event batches between nodes (internal/eventbus/event.go), with the
    trace record they carry (internal/track/track.go). A flag byte says which optional parts
    follow. The codec of the inner frames is a parameter. */
module EventCodec {
  import opened Common
  import opened Framing
  import opened Wire
  import opened ConnCodec

  // ---------- Traces ----------

  type Costs = s: seq<u16> | |s| == 16 witness [0, 0, 0, 0, 0, 0, 0, 0, 0, 0, 0, 0, 0, 0, 0, 0]

  datatype Track = Track(path: u16, cost: Costs, preStart: i64)

  const NO_TRACK := Track(0, [0, 0, 0, 0, 0, 0, 0, 0, 0, 0, 0, 0, 0, 0, 0, 0], 0)

  function PutCosts(s: seq<u16>): (b: Bytes)
    ensures |b| == 2 * |s|
  {
    if s == [] then [] else PutCosts(s[..|s| - 1]) + PutUint(s[|s| - 1], 2)
  }

  function GetU16(data: Bytes): (r: Parsed<u16>)
    ensures r.Got? <==> 2 <= |data|
    ensures r.Got? ==> r.rest == data[2..]
  {
    var (b, rest) :- Take(data, 2);
    ValueBound(b);
    Powers();
    Got(Value(b), rest)
  }

  lemma {:induction false} U16RoundTrip(v: u16, rest: Bytes)
    ensures GetU16(PutUint(v, 2) + rest) == Got(v, rest)
  {
    TakePut(PutUint(v, 2), rest);
    Powers();
    ValueOfPut(v, 2);
  }

  function PutTrack(t: Track): (b: Bytes)
    ensures |b| == 42
  {
    PutUint(t.path, 2) + PutCosts(t.cost) + PutI64(t.preStart)
  }

  /** The costs read so far and the data behind them. */
  function GetCosts(data: Bytes, n: nat): (r: seq<u16>)
    requires 2 * n <= |data|
    ensures |r| == n
  {
    if n == 0 then [] else GetCosts(data, n - 1) + [GetU16(data[2 * (n - 1)..]).value]
  }

  /** Anything behind 42 bytes is ignored. */
  function GetTrack(data: Bytes): Maybe<Track> {
    if |data| < 42 then None
    else Some(Track(GetU16(data).value, GetCosts(data[2..], 16), GetI64(data[34..]).value))
  }

  method EncodeTrack(t: Track) returns (b: Bytes)
    ensures b == PutTrack(t)
  {
    b := PutUint(t.path, 2);
    for i := 0 to 16
      invariant b == PutUint(t.path, 2) + PutCosts(t.cost[..i])
    {
      assert t.cost[..i + 1][..i] == t.cost[..i];
      b := b + PutUint(t.cost[i], 2);
    }
    assert t.cost[..16] == t.cost;
    b := b + PutI64(t.preStart);
  }

  method DecodeTrack(data: Bytes) returns (r: Maybe<Track>)
    ensures r == GetTrack(data)
  {
    if |data| < 42 {
      return None;
    }
    var path := GetU16(data).value;
    var rest, cost: seq<u16> := data[2..], [];
    for i := 0 to 16
      invariant rest == data[2..][2 * i..]
      invariant cost == GetCosts(data[2..], i)
    {
      var next := GetU16(rest);
      cost, rest := cost + [next.value], next.rest;
    }
    assert rest == data[34..];
    r := Some(Track(path, cost, GetI64(rest).value));
  }

  lemma {:induction false} CostsRoundTrip(s: seq<u16>, rest: Bytes, n: nat)
    requires n <= |s|
    ensures GetCosts(PutCosts(s) + rest, n) == s[..n]
  {
    if n > 0 {
      CostsRoundTrip(s, rest, n - 1);
      CostAt(s, rest, n - 1);
      assert s[..n] == s[..n - 1] + [s[n - 1]];
    }
  }

  lemma {:induction false} CostAt(s: seq<u16>, rest: Bytes, i: nat)
    requires i < |s|
    ensures GetU16((PutCosts(s) + rest)[2 * i..]) == Got(s[i], (PutCosts(s) + rest)[2 * (i + 1)..])
    decreases |s|
  {
    var n := |s| - 1;
    var before, last := PutCosts(s[..n]), PutUint(s[n], 2);
    assert PutCosts(s) + rest == before + (last + rest);
    if i < n {
      CostAt(s[..n], last + rest, i);
    } else {
      assert (before + (last + rest))[2 * n..] == last + rest;
      U16RoundTrip(s[n], rest);
    }
  }

  lemma {:induction false} TrackRoundTrip(t: Track)
    ensures GetTrack(PutTrack(t)) == Some(t)
  {
    var b := PutTrack(t);
    var costs, start := PutCosts(t.cost), PutI64(t.preStart);
    assert b == PutUint(t.path, 2) + (costs + start);
    U16RoundTrip(t.path, costs + start);
    assert b[2..] == costs + start;
    CostsRoundTrip(t.cost, start, 16);
    assert t.cost[..16] == t.cost;
    assert b[34..] == start + [];
    I64RoundTrip(t.preStart, []);
  }

  /** The path, sixteen costs of two bytes, and the start stand one behind the other. */
  lemma {:induction false} TrackLayout(t: Track, i: nat)
    requires i < 16
    ensures var b := PutTrack(t);
      && StandsAt(b, 0, PutUint(t.path, 2)) && GetU16(b[2 + 2 * i..]).value == t.cost[i]
      && StandsAt(b, 34, PutI64(t.preStart))
  {
    var b, costs, start := PutTrack(t), PutCosts(t.cost), PutI64(t.preStart);
    assert b == PutUint(t.path, 2) + (costs + start);
    CostAt(t.cost, start, i);
    assert b[2 + 2 * i..] == (costs + start)[2 * i..];
  }

  // ---------- Events ----------

  /** The codec of the frames inside events; either direction may refuse. */
  datatype Frames<!F> = Frames(enc: F -> Maybe<Bytes>, dec: Bytes -> Maybe<F>)

  datatype Event<F> = Event(
    kind: byte, conn: Maybe<Conn>, frame: Maybe<F>, messageId: i64, messageSeq: u64, reasonCode: byte,
    tagKey: Bytes, toUid: Bytes, sourceNodeId: u64, track: Track, channelId: Bytes, channelType: byte, reqId: Bytes)

  /** The type of the event that never leaves its node. */
  const USER_LEADER_TASK: byte := 15

  function Flags<F>(e: Event<F>): byte {
    (if e.conn.Some? then 128 else 0) + (if e.frame.Some? then 64 else 0) + (if e.track.path > 0 then 32 else 0) +
    (if e.channelId != [] then 16 else 0) + (if e.reqId != [] then 8 else 0)
  }

  predicate Flag(flags: byte, bit: byte)
    requires bit > 0
  {
    flags / bit % 2 == 1
  }

  lemma {:induction false} FlagsTell<F>(e: Event<F>)
    ensures var f := Flags(e);
            && (Flag(f, 128) <==> e.conn.Some?) && (Flag(f, 64) <==> e.frame.Some?)
            && (Flag(f, 32) <==> e.track.path > 0) && (Flag(f, 16) <==> e.channelId != [])
            && (Flag(f, 8) <==> e.reqId != [])
  {
  }

  // The optional parts.

  function ConnPart(conn: Maybe<Conn>): Bytes {
    if conn.None? then [] else PutText(ConnCodec.Encode(conn.value))
  }

  function GetConn(present: bool, data: Bytes): Parsed<Maybe<Conn>> {
    if !present then Got(None, data) else
    var (b, rest) :- GetText(data);
    var conn := ConnCodec.Decode(b);
    if conn.None? then Fail else Got(conn, rest)
  }

  function FramePart<F>(fr: Frames<F>, frame: Maybe<F>): Bytes
    requires frame.Some? ==> fr.enc(frame.value).Some?
  {
    if frame.None? then [] else PutLong(fr.enc(frame.value).value)
  }

  function GetFrame<F>(fr: Frames<F>, present: bool, data: Bytes): Parsed<Maybe<F>> {
    if !present then Got(None, data) else
    var (b, rest) :- GetLong(data);
    var frame := fr.dec(b);
    if frame.None? then Fail else Got(frame, rest)
  }

  function TrackPart(t: Track): Bytes {
    if t.path == 0 then [] else PutText(PutTrack(t))
  }

  function GetTrackPart(present: bool, data: Bytes): Parsed<Track> {
    if !present then Got(NO_TRACK, data) else
    var (b, rest) :- GetText(data);
    var t := GetTrack(b);
    if t.None? then Fail else Got(t.value, rest)
  }

  function ChannelPart(id: Bytes, kind: byte): Bytes {
    if id == [] then [] else PutText(id) + PutByte(kind)
  }

  function GetChannel(present: bool, data: Bytes): Parsed<(Bytes, byte)> {
    if !present then Got(([], 0), data) else
    var (id, rest) :- GetText(data);
    var (kind, rest) :- GetByte(rest);
    Got((id, kind), rest)
  }

  function ReqPart(id: Bytes): Bytes {
    if id == [] then [] else PutText(id)
  }

  function GetReq(present: bool, data: Bytes): Parsed<Bytes> {
    if !present then Got([], data) else GetText(data)
  }

  /** The event, followed by `rest`. */
  function Put<F>(fr: Frames<F>, e: Event<F>, rest: Bytes): Bytes
    requires e.frame.Some? ==> fr.enc(e.frame.value).Some?
  {
    PutByte(Flags(e)) + (PutByte(e.kind) + (ConnPart(e.conn) + (FramePart(fr, e.frame) + (PutI64(e.messageId) +
    (PutU64(e.messageSeq) + (PutByte(e.reasonCode) + (PutText(e.tagKey) + (PutText(e.toUid) + (PutU64(e.sourceNodeId) +
    (TrackPart(e.track) + (ChannelPart(e.channelId, e.channelType) + (ReqPart(e.reqId) + rest))))))))))))
  }

  function Get<F>(fr: Frames<F>, data: Bytes): Parsed<Event<F>> {
    var (flags, d) :- GetByte(data);
    var (kind, d) :- GetByte(d);
    if kind == USER_LEADER_TASK then Fail else
    var (conn, d) :- GetConn(Flag(flags, 128), d);
    var (frame, d) :- GetFrame(fr, Flag(flags, 64), d);
    var (messageId, d) :- GetI64(d);
    var (messageSeq, d) :- GetU64(d);
    var (reasonCode, d) :- GetByte(d);
    var (tagKey, d) :- GetText(d);
    var (toUid, d) :- GetText(d);
    var (source, d) :- GetU64(d);
    var (track, d) :- GetTrackPart(Flag(flags, 32), d);
    var (channel, d) :- GetChannel(Flag(flags, 16), d);
    var (reqId, d) :- GetReq(Flag(flags, 8), d);
    Got(Event(kind, conn, frame, messageId, messageSeq, reasonCode, tagKey, toUid, source, track,
              channel.0, channel.1, reqId), d)
  }

  /** The fields behind the tag key. */
  function PutEnd<F>(e: Event<F>, rest: Bytes): Bytes {
    PutText(e.toUid) + (PutU64(e.sourceNodeId) + (TrackPart(e.track) +
    (ChannelPart(e.channelId, e.channelType) + (ReqPart(e.reqId) + rest))))
  }

  lemma {:induction false} EndLayout<F>(b: Bytes, p: Bytes, e: Event<F>, rest: Bytes)
    requires b == p + PutEnd(e, rest)
    ensures var j, t, c := |p| + 2 + |e.toUid|, |TrackPart(e.track)|, |ChannelPart(e.channelId, e.channelType)|;
      && StandsAt(b, |p|, PutText(e.toUid)) && StandsAt(b, j, PutU64(e.sourceNodeId))
      && StandsAt(b, j + 8, TrackPart(e.track)) && StandsAt(b, j + 8 + t, ChannelPart(e.channelId, e.channelType))
      && StandsAt(b, j + 8 + t + c, ReqPart(e.reqId)) && StandsAt(b, j + 8 + t + c + |ReqPart(e.reqId)|, rest)
  {
    hide PutText, PutU64, TrackPart, ChannelPart, ReqPart, StandsAt;
    var d4 := ReqPart(e.reqId) + rest;
    var d3 := ChannelPart(e.channelId, e.channelType) + d4;
    var d2 := TrackPart(e.track) + d3;
    var d1 := PutU64(e.sourceNodeId) + d2;
    StandsNext(b, p, PutText(e.toUid), d1);
    var p1 := p + PutText(e.toUid);
    StandsNext(b, p1, PutU64(e.sourceNodeId), d2);
    var p2 := p1 + PutU64(e.sourceNodeId);
    StandsNext(b, p2, TrackPart(e.track), d3);
    var p3 := p2 + TrackPart(e.track);
    StandsNext(b, p3, ChannelPart(e.channelId, e.channelType), d4);
    var p4 := p3 + ChannelPart(e.channelId, e.channelType);
    StandsNext(b, p4, ReqPart(e.reqId), rest);
    assert rest == rest + [];
    StandsNext(b, p4 + ReqPart(e.reqId), rest, []);
  }

  /** The flag byte, the type, and then the parts of the event stand one behind the other, those that
      are absent taking no room. */
  lemma {:induction false} EventLayout<F>(fr: Frames<F>, e: Event<F>, rest: Bytes)
    requires e.frame.Some? ==> fr.enc(e.frame.value).Some?
    ensures var b, i := Put(fr, e, rest), 2 + |ConnPart(e.conn)|;
      var j := i + |FramePart(fr, e.frame)|;
      && StandsAt(b, 0, PutByte(Flags(e))) && StandsAt(b, 1, PutByte(e.kind)) && StandsAt(b, 2, ConnPart(e.conn))
      && StandsAt(b, i, FramePart(fr, e.frame)) && StandsAt(b, j, PutI64(e.messageId))
      && StandsAt(b, j + 8, PutU64(e.messageSeq)) && StandsAt(b, j + 16, PutByte(e.reasonCode))
      && StandsAt(b, j + 17, PutText(e.tagKey)) && StandsAt(b, j + 19 + |e.tagKey|, PutEnd(e, rest))
  {
    hide PutText, PutU64, PutI64, PutByte, ConnPart, FramePart, Flags, StandsAt;
    var d8 := PutEnd(e, rest);
    var d7 := PutText(e.tagKey) + d8;
    var d6 := PutByte(e.reasonCode) + d7;
    var d5 := PutU64(e.messageSeq) + d6;
    var d4 := PutI64(e.messageId) + d5;
    var d3 := FramePart(fr, e.frame) + d4;
    var d2 := ConnPart(e.conn) + d3;
    var d1 := PutByte(e.kind) + d2;
    var b := PutByte(Flags(e)) + d1;
    assert b == [] + b;
    StandsNext(b, [], PutByte(Flags(e)), d1);
    var p1 := [] + PutByte(Flags(e));
    StandsNext(b, p1, PutByte(e.kind), d2);
    var p2 := p1 + PutByte(e.kind);
    StandsNext(b, p2, ConnPart(e.conn), d3);
    var p3 := p2 + ConnPart(e.conn);
    StandsNext(b, p3, FramePart(fr, e.frame), d4);
    var p4 := p3 + FramePart(fr, e.frame);
    StandsNext(b, p4, PutI64(e.messageId), d5);
    var p5 := p4 + PutI64(e.messageId);
    StandsNext(b, p5, PutU64(e.messageSeq), d6);
    var p6 := p5 + PutU64(e.messageSeq);
    StandsNext(b, p6, PutByte(e.reasonCode), d7);
    var p7 := p6 + PutByte(e.reasonCode);
    StandsNext(b, p7, PutText(e.tagKey), d8);
    assert d8 == d8 + [];
    StandsNext(b, p7 + PutText(e.tagKey), d8, []);
  }

  // ---------- Events come back ----------

  /** The event as the other side sees it: a version that is positive is known, a trace without a
      path is none, and the type of a channel without an id is dropped. */
  function Normal<F>(e: Event<F>): Event<F> {
    e.(conn := if e.conn.None? then None else Some(Known(e.conn.value)),
       track := if e.track.path == 0 then NO_TRACK else e.track,
       channelType := if e.channelId == [] then 0 else e.channelType)
  }

  /** Everything is shorter than its length prefix can say. */
  predicate Fits<F>(e: Event<F>) {
    && (e.conn.Some? ==> |ConnCodec.Encode(e.conn.value)| < 0x1_0000)
    && |e.tagKey| < 0x1_0000 && |e.toUid| < 0x1_0000 && |e.channelId| < 0x1_0000 && |e.reqId| < 0x1_0000
  }

  /** The event may leave its node, and its frame survives the frame codec. */
  ghost predicate Sendable<F>(fr: Frames<F>, e: Event<F>) {
    && e.kind != USER_LEADER_TASK
    && (e.frame.Some? ==>
          var b := fr.enc(e.frame.value);
          b.Some? && |b.value| < 0x1_0000_0000 && fr.dec(b.value) == e.frame)
  }

  lemma {:induction false} ConnPartIff(conn: Maybe<Conn>, rest: Bytes)
    ensures var got := GetConn(conn.Some?, ConnPart(conn) + rest);
            var normal := if conn.None? then None else Some(Known(conn.value));
            if conn.Some? && |ConnCodec.Encode(conn.value)| >= 0x1_0000 then got.Fail? || got.value != normal
            else got == Got(normal, rest)
  {
    hide Fixed, ConnCodec.Decode, GetText;
    if conn.None? {
      assert ConnPart(conn) + rest == rest;
    } else {
      var b := ConnCodec.Encode(conn.value);
      TextRoundTripIff(b, rest);
      if |b| >= 0x1_0000 {
        OverlongConnIsLost(conn.value, rest);
      } else {
        FixedSize(conn.value, Tail(conn.value, TailFields(conn.value)));
        ConnCodec.RoundTripIff(conn.value);
      }
    }
  }

  lemma {:induction false} FramePartComesBack<F>(fr: Frames<F>, e: Event<F>, rest: Bytes)
    requires Sendable(fr, e)
    ensures GetFrame(fr, e.frame.Some?, FramePart(fr, e.frame) + rest) == Got(e.frame, rest)
  {
    if e.frame.None? {
      assert FramePart(fr, e.frame) + rest == rest;
    } else {
      LongRoundTripIff(fr.enc(e.frame.value).value, rest);
    }
  }

  lemma {:induction false} TrackPartComesBack(t: Track, rest: Bytes)
    ensures GetTrackPart(t.path > 0, TrackPart(t) + rest) == Got(if t.path == 0 then NO_TRACK else t, rest)
  {
    if t.path == 0 {
      assert TrackPart(t) + rest == rest;
    } else {
      TextRoundTripIff(PutTrack(t), rest);
      TrackRoundTrip(t);
    }
  }

  lemma {:induction false} ChannelPartIff(id: Bytes, kind: byte, rest: Bytes)
    ensures var got := GetChannel(id != [], ChannelPart(id, kind) + rest);
            if |id| >= 0x1_0000 then got.Fail? || got.value.0 != id
            else got == Got((id, if id == [] then 0 else kind), rest)
  {
    if id == [] {
      assert ChannelPart(id, kind) + rest == rest;
    } else {
      assert ChannelPart(id, kind) + rest == PutText(id) + (PutByte(kind) + rest);
      TextRoundTripIff(id, PutByte(kind) + rest);
      ByteRoundTrip(kind, rest);
    }
  }

  lemma {:induction false} ReqPartIff(id: Bytes, rest: Bytes)
    ensures var got := GetReq(id != [], ReqPart(id) + rest);
            if |id| >= 0x1_0000 then got.Fail? || got.value != id else got == Got(id, rest)
  {
    if id == [] {
      assert ReqPart(id) + rest == rest;
    } else {
      TextRoundTripIff(id, rest);
    }
  }

  /** An event comes back as its normal form, with the data behind it, if and only if it fits. */
  lemma {:induction false} EventRoundTripIff<F>(fr: Frames<F>, e: Event<F>, rest: Bytes)
    requires Sendable(fr, e)
    ensures var got := Get(fr, Put(fr, e, rest));
            if Fits(e) then got == Got(Normal(e), rest) else got.Fail? || got.value != Normal(e)
  {
    hide PutText, PutU64, PutI64, PutByte, GetText, GetU64, GetI64, GetByte, Flags, Flag;
    hide ConnPart, GetConn, FramePart, GetFrame, TrackPart, GetTrackPart, ChannelPart, GetChannel, ReqPart, GetReq;
    hide ConnCodec.Encode;
    var d12 := ReqPart(e.reqId) + rest;
    var d11 := ChannelPart(e.channelId, e.channelType) + d12;
    var d10 := TrackPart(e.track) + d11;
    var d9 := PutU64(e.sourceNodeId) + d10;
    var d8 := PutText(e.toUid) + d9;
    var d7 := PutText(e.tagKey) + d8;
    var d6 := PutByte(e.reasonCode) + d7;
    var d5 := PutU64(e.messageSeq) + d6;
    var d4 := PutI64(e.messageId) + d5;
    var d3 := FramePart(fr, e.frame) + d4;
    var d2 := ConnPart(e.conn) + d3;
    var d1 := PutByte(e.kind) + d2;
    FlagsTell(e);
    ByteRoundTrip(Flags(e), d1);
    ByteRoundTrip(e.kind, d2);
    ConnPartIff(e.conn, d3);
    FramePartComesBack(fr, e, d4);
    I64RoundTrip(e.messageId, d5);
    U64RoundTrip(e.messageSeq, d6);
    ByteRoundTrip(e.reasonCode, d7);
    TextRoundTripIff(e.tagKey, d8);
    TextRoundTripIff(e.toUid, d9);
    U64RoundTrip(e.sourceNodeId, d10);
    TrackPartComesBack(e.track, d11);
    ChannelPartIff(e.channelId, e.channelType, d12);
    ReqPartIff(e.reqId, rest);
  }

  // ---------- Batches ----------

  predicate Encodable<F>(fr: Frames<F>, e: Event<F>) {
    e.kind != USER_LEADER_TASK && (e.frame.Some? ==> fr.enc(e.frame.value).Some?)
  }

  predicate AllEncodable<F>(fr: Frames<F>, es: seq<Event<F>>) {
    forall i :: 0 <= i < |es| ==> Encodable(fr, es[i])
  }

  /** The events one after the other. */
  function PutAll<F>(fr: Frames<F>, es: seq<Event<F>>): Bytes
    requires AllEncodable(fr, es)
  {
    if es == [] then [] else Put(fr, es[0], PutAll(fr, es[1..]))
  }

  /** A batch starts with the number of its events; one bad event spoils it. */
  function EncodedBatch<F>(fr: Frames<F>, es: seq<Event<F>>): Maybe<Bytes> {
    if AllEncodable(fr, es) then Some(PutUint(|es|, 4) + PutAll(fr, es)) else None
  }

  function GetAll<F>(fr: Frames<F>, data: Bytes, n: nat): Parsed<seq<Event<F>>>
    decreases n
  {
    if n == 0 then Got([], data) else
    var (e, rest) :- Get(fr, data);
    var (es, rest) :- GetAll(fr, rest, n - 1);
    Got([e] + es, rest)
  }

  function DecodedBatch<F>(fr: Frames<F>, data: Bytes): Maybe<seq<Event<F>>> {
    var count := GetUint(data, 4);
    if count.Fail? then None else
    var es := GetAll(fr, count.rest, count.value);
    if es.Fail? then None else Some(es.value)
  }

  lemma {:induction false} PutAppends<F>(fr: Frames<F>, e: Event<F>, rest: Bytes)
    requires Encodable(fr, e)
    ensures Put(fr, e, rest) == Put(fr, e, []) + rest
  {
    hide PutText, PutU64, PutI64, PutByte, Flags, ConnPart, FramePart, TrackPart, ChannelPart, ReqPart;
    var t := ReqPart(e.reqId) + [];
    assert ReqPart(e.reqId) + rest == t + rest;
    t := Assoc(ChannelPart(e.channelId, e.channelType), t, rest);
    t := Assoc(TrackPart(e.track), t, rest);
    t := Assoc(PutU64(e.sourceNodeId), t, rest);
    t := Assoc(PutText(e.toUid), t, rest);
    t := Assoc(PutText(e.tagKey), t, rest);
    t := Assoc(PutByte(e.reasonCode), t, rest);
    t := Assoc(PutU64(e.messageSeq), t, rest);
    t := Assoc(PutI64(e.messageId), t, rest);
    t := Assoc(FramePart(fr, e.frame), t, rest);
    t := Assoc(ConnPart(e.conn), t, rest);
    t := Assoc(PutByte(e.kind), t, rest);
    t := Assoc(PutByte(Flags(e)), t, rest);
  }

  lemma {:induction false} Assoc(a: Bytes, b: Bytes, c: Bytes) returns (ab: Bytes)
    ensures ab == a + b && a + (b + c) == ab + c
  {
    ab := a + b;
    assert a + (b + c) == ab + c;
  }

  lemma {:induction false} PutAllSnoc<F>(fr: Frames<F>, es: seq<Event<F>>, e: Event<F>)
    requires AllEncodable(fr, es) && Encodable(fr, e)
    ensures AllEncodable(fr, es + [e]) && PutAll(fr, es + [e]) == PutAll(fr, es) + Put(fr, e, [])
    decreases |es|
  {
    hide Put;
    if es == [] {
      assert es + [e] == [e] && [e][1..] == [];
      assert PutAll(fr, [e]) == Put(fr, e, []);
    } else {
      PutAllSnoc(fr, es[1..], e);
      assert (es + [e])[1..] == es[1..] + [e];
      PutAppends(fr, es[0], PutAll(fr, es[1..] + [e]));
      PutAppends(fr, es[0], PutAll(fr, es[1..]));
    }
  }

  method EncodeBatch<F>(fr: Frames<F>, es: seq<Event<F>>) returns (r: Maybe<Bytes>)
    ensures r == EncodedBatch(fr, es)
  {
    hide Put, PutUint;
    var head := PutUint(|es|, 4);
    var body: Bytes := [];
    for i := 0 to |es|
      invariant AllEncodable(fr, es[..i]) && body == PutAll(fr, es[..i])
    {
      if !Encodable(fr, es[i]) {
        return None;
      }
      PutAllSnoc(fr, es[..i], es[i]);
      assert es[..i + 1] == es[..i] + [es[i]];
      body := body + Put(fr, es[i], []);
    }
    assert es[..|es|] == es;
    r := Some(head + body);
  }

  function Prepend<F>(es: seq<Event<F>>, r: Parsed<seq<Event<F>>>): Parsed<seq<Event<F>>> {
    if r.Fail? then Fail else Got(es + r.value, r.rest)
  }

  method DecodeBatch<F>(fr: Frames<F>, data: Bytes) returns (r: Maybe<seq<Event<F>>>)
    ensures r == DecodedBatch(fr, data)
  {
    hide Get, GetUint;
    var count := GetUint(data, 4);
    if count.Fail? {
      return None;
    }
    var es, rest := [], count.rest;
    ghost var all := GetAll(fr, rest, count.value);
    assert all.Got? ==> es + all.value == all.value;
    for i := 0 to count.value
      invariant all == Prepend(es, GetAll(fr, rest, count.value - i))
    {
      var got := Get(fr, rest);
      if got.Fail? {
        return None;
      }
      ghost var later := GetAll(fr, got.rest, count.value - i - 1);
      assert later.Got? ==> es + ([got.value] + later.value) == es + [got.value] + later.value;
      es, rest := es + [got.value], got.rest;
    }
    assert es + [] == es;
    r := Some(es);
  }

  function Normals<F>(es: seq<Event<F>>): (r: seq<Event<F>>)
    ensures |r| == |es|
  {
    if es == [] then [] else [Normal(es[0])] + Normals(es[1..])
  }

  lemma {:induction false} AllRoundTripIff<F>(fr: Frames<F>, es: seq<Event<F>>)
    requires forall i :: 0 <= i < |es| ==> Sendable(fr, es[i])
    ensures AllEncodable(fr, es)
    ensures var got := GetAll(fr, PutAll(fr, es), |es|);
            if forall i :: 0 <= i < |es| ==> Fits(es[i]) then got == Got(Normals(es), [])
            else got.Fail? || got.value != Normals(es)
  {
    hide Put, Get, Normal, Fits;
    if es != [] {
      var later := PutAll(fr, es[1..]);
      AllRoundTripIff(fr, es[1..]);
      EventRoundTripIff(fr, es[0], later);
      assert forall i :: 1 <= i < |es| ==> es[i] == es[1..][i - 1];
      if forall i :: 0 <= i < |es| ==> Fits(es[i]) {
        assert forall i :: 0 <= i < |es[1..]| ==> Fits(es[1..][i]);
      } else if Fits(es[0]) {
        var i :| 1 <= i < |es| && !Fits(es[i]);
        assert !Fits(es[1..][i - 1]);
      }
      var got := GetAll(fr, PutAll(fr, es), |es|);
      if got.Got? {
        assert got.value[0] == Get(fr, Put(fr, es[0], later)).value;
        assert Normals(es)[0] == Normal(es[0]) && Normals(es)[1..] == Normals(es[1..]);
        assert got.value[1..] == GetAll(fr, Get(fr, Put(fr, es[0], later)).rest, |es| - 1).value;
      }
    }
  }

  /** A batch comes back, every event in its normal form, if and only if it has fewer than 2^32
      events and each of them fits. */
  lemma {:induction false} BatchRoundTripIff<F>(fr: Frames<F>, es: seq<Event<F>>)
    requires forall i :: 0 <= i < |es| ==> Sendable(fr, es[i])
    ensures EncodedBatch(fr, es).Some?
    ensures DecodedBatch(fr, EncodedBatch(fr, es).value) == Some(Normals(es)) <==>
            |es| < 0x1_0000_0000 && forall i :: 0 <= i < |es| ==> Fits(es[i])
  {
    hide PutAll, PutUint, GetUint, Value, Fits, Normals;
    AllRoundTripIff(fr, es);
    var data := EncodedBatch(fr, es).value;
    UintRoundTrip(|es|, 4, PutAll(fr, es));
    Powers();
    var count := GetUint(data, 4);
    if |es| >= 0x1_0000_0000 {
      GetAllCount(fr, count.rest, count.value);
    }
  }

  lemma {:induction false} GetAllCount<F>(fr: Frames<F>, data: Bytes, n: nat)
    ensures GetAll(fr, data, n).Got? ==> |GetAll(fr, data, n).value| == n
    decreases n
  {
    hide Get;
    if n > 0 {
      var got := Get(fr, data);
      if got.Got? {
        GetAllCount(fr, got.rest, n - 1);
      }
    }
  }
}
