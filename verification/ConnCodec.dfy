/** The encoding of a connection between nodes (internal/eventbus/conn.go): twelve fields that are
    always there, and a tail of up to four that later versions added one after the other. */
module ConnCodec {
  import opened Common
  import opened Framing
  import opened Wire

  datatype Conn = Conn(
    uid: Bytes, nodeId: u64, connId: i64, deviceId: Bytes, deviceFlag: byte, deviceLevel: byte, auth: bool,
    aesIV: Bytes, aesKey: Bytes, protoVersion: byte, uptime: u64, isJsonRpc: bool,
    internal: bool, sessionId: Bytes, tokenHash: Bytes, tokenVersion: u64, versionKnown: bool)

  /** The fixed fields, followed by `rest`. */
  function Fixed(c: Conn, rest: Bytes): Bytes {
    PutText(c.uid) + (PutU64(c.nodeId) + (PutI64(c.connId) + (PutText(c.deviceId) + (PutByte(c.deviceFlag) +
    (PutByte(c.deviceLevel) + (PutBool(c.auth) + (PutText(c.aesIV) + (PutText(c.aesKey) + (PutByte(c.protoVersion) +
    (PutU64(c.uptime) + (PutBool(c.isJsonRpc) + rest)))))))))))
  }

  /** The first `k` fields of the tail. */
  function Tail(c: Conn, k: nat): Bytes {
    if k == 0 then [] else
    PutBool(c.internal) + if k == 1 then [] else
    PutText(c.sessionId) + if k == 2 then [] else
    PutText(c.tokenHash) + if k == 3 then [] else PutU64(c.tokenVersion) + []
  }

  /** How many fields of the tail are written: up to the last that says something. */
  function TailFields(c: Conn): (k: nat)
    ensures 1 <= k <= 4
  {
    if c.tokenVersion > 0 || c.versionKnown then 4
    else if c.tokenHash != [] then 3
    else if c.sessionId != [] then 2
    else 1
  }

  function Encode(c: Conn): Bytes {
    Fixed(c, Tail(c, TailFields(c)))
  }

  function GetFixed(data: Bytes): Parsed<Conn> {
    var (uid, d) :- GetText(data);
    var (nodeId, d) :- GetU64(d);
    var (connId, d) :- GetI64(d);
    var (deviceId, d) :- GetText(d);
    var (deviceFlag, d) :- GetByte(d);
    var (deviceLevel, d) :- GetByte(d);
    var (auth, d) :- GetBool(d);
    var (aesIV, d) :- GetText(d);
    var (aesKey, d) :- GetText(d);
    var (protoVersion, d) :- GetByte(d);
    var (uptime, d) :- GetU64(d);
    var (isJsonRpc, d) :- GetBool(d);
    Got(Conn(uid, nodeId, connId, deviceId, deviceFlag, deviceLevel, auth, aesIV, aesKey, protoVersion, uptime,
             isJsonRpc, false, [], [], 0, false), d)
  }

  /** An encoding may end after any field of the tail; what is missing keeps its default. */
  function WithTail(c: Conn, data: Bytes): Parsed<Conn> {
    if data == [] then Got(c, []) else
    var (internal, d) :- GetBool(data);
    var c := c.(internal := internal);
    if d == [] then Got(c, []) else
    var (sessionId, d) :- GetText(d);
    var c := c.(sessionId := sessionId);
    if d == [] then Got(c, []) else
    var (tokenHash, d) :- GetText(d);
    var c := c.(tokenHash := tokenHash);
    if d == [] then Got(c, []) else
    var (version, d) :- GetU64(d);
    Got(c.(tokenVersion := version, versionKnown := true), d)
  }

  /** Bytes behind the last field are ignored. */
  function Decode(data: Bytes): Maybe<Conn> {
    var fixed := GetFixed(data);
    if fixed.Fail? then None else
    var r := WithTail(fixed.value, fixed.rest);
    if r.Fail? then None else Some(r.value)
  }

  predicate ShortFixed(c: Conn) {
    |c.uid| < 0x1_0000 && |c.deviceId| < 0x1_0000 && |c.aesIV| < 0x1_0000 && |c.aesKey| < 0x1_0000
  }

  predicate ShortTail(c: Conn, k: nat) {
    (k >= 2 ==> |c.sessionId| < 0x1_0000) && (k >= 3 ==> |c.tokenHash| < 0x1_0000)
  }

  /** The connection as a reader sees it that gets only `k` fields of the tail. */
  function Cut(c: Conn, k: nat): Conn {
    c.(internal := k >= 1 && c.internal,
       sessionId := if k >= 2 then c.sessionId else [],
       tokenHash := if k >= 3 then c.tokenHash else [],
       tokenVersion := if k >= 4 then c.tokenVersion else 0,
       versionKnown := k >= 4)
  }

  /** A positive version is a known one. */
  function Known(c: Conn): Conn {
    c.(versionKnown := c.versionKnown || c.tokenVersion > 0)
  }

  /** The last six of the fixed fields. */
  function FixedEnd(c: Conn, rest: Bytes): Bytes {
    PutBool(c.auth) + (PutText(c.aesIV) + (PutText(c.aesKey) + (PutByte(c.protoVersion) +
    (PutU64(c.uptime) + (PutBool(c.isJsonRpc) + rest)))))
  }

  lemma {:induction false} EndLayout(b: Bytes, p: Bytes, c: Conn, rest: Bytes)
    requires b == p + FixedEnd(c, rest)
    ensures var j, k, l := |p|, |c.aesIV|, |c.aesKey|;
      && StandsAt(b, j, PutBool(c.auth)) && StandsAt(b, j + 1, PutText(c.aesIV))
      && StandsAt(b, j + 3 + k, PutText(c.aesKey)) && StandsAt(b, j + 5 + k + l, PutByte(c.protoVersion))
      && StandsAt(b, j + 6 + k + l, PutU64(c.uptime)) && StandsAt(b, j + 14 + k + l, PutBool(c.isJsonRpc))
      && StandsAt(b, j + 15 + k + l, rest)
  {
    hide PutText, PutU64, PutI64, PutByte, PutBool, StandsAt;
    var d11 := PutBool(c.isJsonRpc) + rest;
    var d10 := PutU64(c.uptime) + d11;
    var d9 := PutByte(c.protoVersion) + d10;
    var d8 := PutText(c.aesKey) + d9;
    var d7 := PutText(c.aesIV) + d8;
    StandsNext(b, p, PutBool(c.auth), d7);
    var p7 := p + PutBool(c.auth);
    StandsNext(b, p7, PutText(c.aesIV), d8);
    var p8 := p7 + PutText(c.aesIV);
    StandsNext(b, p8, PutText(c.aesKey), d9);
    var p9 := p8 + PutText(c.aesKey);
    StandsNext(b, p9, PutByte(c.protoVersion), d10);
    var p10 := p9 + PutByte(c.protoVersion);
    StandsNext(b, p10, PutU64(c.uptime), d11);
    var p11 := p10 + PutU64(c.uptime);
    StandsNext(b, p11, PutBool(c.isJsonRpc), rest);
    assert rest == rest + [];
    StandsNext(b, p11 + PutBool(c.isJsonRpc), rest, []);
  }

  /** The twelve fixed fields stand one behind the other. */
  lemma {:induction false} FixedLayout(c: Conn, rest: Bytes)
    ensures var b, i, j, k, l := Fixed(c, rest), 2 + |c.uid|, 20 + |c.uid| + |c.deviceId|, |c.aesIV|, |c.aesKey|;
      && StandsAt(b, 0, PutText(c.uid)) && StandsAt(b, i, PutU64(c.nodeId)) && StandsAt(b, i + 8, PutI64(c.connId))
      && StandsAt(b, i + 16, PutText(c.deviceId)) && StandsAt(b, j, PutByte(c.deviceFlag))
      && StandsAt(b, j + 1, PutByte(c.deviceLevel)) && StandsAt(b, j + 2, PutBool(c.auth))
      && StandsAt(b, j + 3, PutText(c.aesIV)) && StandsAt(b, j + 5 + k, PutText(c.aesKey))
      && StandsAt(b, j + 7 + k + l, PutByte(c.protoVersion)) && StandsAt(b, j + 8 + k + l, PutU64(c.uptime))
      && StandsAt(b, j + 16 + k + l, PutBool(c.isJsonRpc)) && StandsAt(b, j + 17 + k + l, rest)
  {
    hide PutText, PutU64, PutI64, PutByte, PutBool, StandsAt;
    var d6 := FixedEnd(c, rest);
    var d5 := PutByte(c.deviceLevel) + d6;
    var d4 := PutByte(c.deviceFlag) + d5;
    var d3 := PutText(c.deviceId) + d4;
    var d2 := PutI64(c.connId) + d3;
    var d1 := PutU64(c.nodeId) + d2;
    var b := PutText(c.uid) + d1;
    assert b == [] + b;
    StandsNext(b, [], PutText(c.uid), d1);
    var p1 := [] + PutText(c.uid);
    StandsNext(b, p1, PutU64(c.nodeId), d2);
    var p2 := p1 + PutU64(c.nodeId);
    StandsNext(b, p2, PutI64(c.connId), d3);
    var p3 := p2 + PutI64(c.connId);
    StandsNext(b, p3, PutText(c.deviceId), d4);
    var p4 := p3 + PutText(c.deviceId);
    StandsNext(b, p4, PutByte(c.deviceFlag), d5);
    var p5 := p4 + PutByte(c.deviceFlag);
    StandsNext(b, p5, PutByte(c.deviceLevel), d6);
    EndLayout(b, p5 + PutByte(c.deviceLevel), c, rest);
  }

  lemma {:induction false} FixedRoundTrip(c: Conn, rest: Bytes)
    requires ShortFixed(c)
    ensures GetFixed(Fixed(c, rest)) == Got(Cut(c, 0), rest)
  {
    hide PutText, PutU64, PutI64, PutByte, PutBool, GetText, GetU64, GetI64, GetByte, GetBool;
    var d11 := PutBool(c.isJsonRpc) + rest;
    var d10 := PutU64(c.uptime) + d11;
    var d9 := PutByte(c.protoVersion) + d10;
    var d8 := PutText(c.aesKey) + d9;
    var d7 := PutText(c.aesIV) + d8;
    var d6 := PutBool(c.auth) + d7;
    var d5 := PutByte(c.deviceLevel) + d6;
    var d4 := PutByte(c.deviceFlag) + d5;
    var d3 := PutText(c.deviceId) + d4;
    var d2 := PutI64(c.connId) + d3;
    var d1 := PutU64(c.nodeId) + d2;
    TextRoundTripIff(c.uid, d1);
    U64RoundTrip(c.nodeId, d2);
    I64RoundTrip(c.connId, d3);
    TextRoundTripIff(c.deviceId, d4);
    ByteRoundTrip(c.deviceFlag, d5);
    ByteRoundTrip(c.deviceLevel, d6);
    BoolRoundTrip(c.auth, d7);
    TextRoundTripIff(c.aesIV, d8);
    TextRoundTripIff(c.aesKey, d9);
    ByteRoundTrip(c.protoVersion, d10);
    U64RoundTrip(c.uptime, d11);
    BoolRoundTrip(c.isJsonRpc, rest);
  }

  lemma {:induction false} TailRoundTrip(c: Conn, k: nat)
    requires k <= 4 && ShortTail(c, k)
    ensures WithTail(Cut(c, 0), Tail(c, k)) == Got(Cut(c, k), [])
  {
    var d3 := if k <= 3 then [] else PutU64(c.tokenVersion) + [];
    var d2 := if k <= 2 then [] else PutText(c.tokenHash) + d3;
    var d1 := if k <= 1 then [] else PutText(c.sessionId) + d2;
    if k >= 1 { BoolRoundTrip(c.internal, d1); }
    if k >= 2 { TextRoundTripIff(c.sessionId, d2); }
    if k >= 3 { TextRoundTripIff(c.tokenHash, d3); }
    if k >= 4 { U64RoundTrip(c.tokenVersion, []); }
  }

  /** An encoding cut at any boundary of the tail decodes to the same fields up to there. */
  lemma {:induction false} CutDecodes(c: Conn, k: nat)
    requires k <= 4 && ShortFixed(c) && ShortTail(c, k)
    ensures Decode(Fixed(c, Tail(c, k))) == Some(Cut(c, k))
  {
    hide GetFixed, Fixed, WithTail, Tail;
    FixedRoundTrip(c, Tail(c, k));
    TailRoundTrip(c, k);
  }

  predicate Short(c: Conn) {
    ShortFixed(c) && ShortTail(c, 4)
  }

  lemma {:induction false} DecodedTail(c: Conn, data: Bytes)
    requires c == Cut(c, 0) && ShortFixed(c) && WithTail(c, data).Got?
    ensures var c' := WithTail(c, data).value;
            Short(c') && Cut(c', 0) == c && |Tail(c', TailFields(c'))| <= |data| + 1
  {
    hide PutText, GetText, PutU64, GetU64, GetBool;
  }

  lemma {:induction false} FixedSize(c: Conn, rest: Bytes)
    ensures |Fixed(c, rest)| == 37 + |c.uid| + |c.deviceId| + |c.aesIV| + |c.aesKey| + |rest|
  {
  }

  lemma {:induction false} DecodedFixed(data: Bytes)
    requires GetFixed(data).Got?
    ensures var r := GetFixed(data);
            |data| == |Fixed(r.value, r.rest)| && ShortFixed(r.value) && r.value == Cut(r.value, 0)
  {
    hide Fixed, GetText, GetU64, GetI64, GetByte, GetBool;
    FixedSize(GetFixed(data).value, GetFixed(data).rest);
  }

  /** What has been decoded is short, and its encoding hardly longer than what it came from. */
  lemma {:induction false} DecodedIsShort(data: Bytes)
    requires Decode(data).Some?
    ensures Short(Decode(data).value) && |Encode(Decode(data).value)| <= |data| + 1
  {
    hide GetFixed, WithTail, Tail, TailFields, Fixed;
    var fixed := GetFixed(data);
    DecodedFixed(data);
    DecodedTail(fixed.value, fixed.rest);
    var c := Decode(data).value;
    FixedSize(c, Tail(c, TailFields(c)));
    FixedSize(fixed.value, fixed.rest);
  }

  /** A connection survives its encoding, a positive version becoming a known one, if and only if
      every byte string in it is shorter than 2^16. */
  lemma {:induction false} RoundTripIff(c: Conn)
    ensures Decode(Encode(c)) == Some(Known(c)) <==> Short(c)
  {
    hide Decode, Fixed, Tail;
    if Short(c) {
      CutDecodes(c, TailFields(c));
    }
    if Decode(Encode(c)).Some? {
      DecodedIsShort(Encode(c));
    }
  }

  /** An encoding of 2^16 bytes or more never comes back from a two-byte length. */
  lemma {:induction false} OverlongConnIsLost(c: Conn, rest: Bytes)
    requires |Encode(c)| >= 0x1_0000
    ensures var got := GetText(PutText(Encode(c)) + rest); got.Fail? || Decode(got.value) != Some(Known(c))
  {
    hide Decode, Fixed, Tail, GetText, PutText;
    var got := GetText(PutText(Encode(c)) + rest);
    if got.Got? && Decode(got.value).Some? {
      OverlongText(Encode(c), rest);
      DecodedIsShort(got.value);
      SameEncoding(c);
    }
  }

  lemma {:induction false} SameEncoding(c: Conn)
    ensures Encode(Known(c)) == Encode(c)
  {
  }
}
