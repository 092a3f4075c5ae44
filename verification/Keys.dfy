/** The textual keys under which shared maps are indexed: `fromNode:connId:messageId` for
    messages in flight and `channelType&channelId` for channels. */
module Keys {

  /** What identifies a message in flight. */
  datatype Key = Key(fromNode: nat, connId: int, messageId: int)

  /** Decimal form of a natural number, most significant digit first. */
  function Decimal(n: nat): (s: string)
    ensures s != [] && (forall c :: c in s ==> '0' <= c <= '9') && s[0] != '-'
  {
    var last := [(n % 10) as char + '0'];
    if n < 10 then last else Decimal(n / 10) + last
  }

  function FormatInt(i: int): (s: string)
    ensures s != [] && forall c :: c in s ==> '0' <= c <= '9' || c == '-'
  {
    if i < 0 then "-" + Decimal(-i) else Decimal(i)
  }

  function InFlightKey(fromNode: nat, connId: int, messageId: int): string {
    Decimal(fromNode) + ":" + (FormatInt(connId) + ":" + FormatInt(messageId))
  }

  function ChannelKey(channelId: string, channelType: nat): string {
    Decimal(channelType) + "&" + channelId
  }

  lemma {:induction false} DecimalInjective(a: nat, b: nat)
    requires Decimal(a) == Decimal(b)
    ensures a == b
  {
    var s, t := Decimal(a), Decimal(b);
    assert s[|s| - 1] == (a % 10) as char + '0' && t[|t| - 1] == (b % 10) as char + '0';
    if a < 10 || b < 10 {
      assert |s| == 1;
    } else {
      assert Decimal(a / 10) == s[..|s| - 1] && Decimal(b / 10) == t[..|t| - 1];
      DecimalInjective(a / 10, b / 10);
    }
  }

  lemma {:induction false} FormatIntInjective(a: int, b: int)
    requires FormatInt(a) == FormatInt(b)
    ensures a == b
  {
    if a < 0 {
      assert Decimal(-a) == FormatInt(a)[1..] == FormatInt(b)[1..] == Decimal(-b);
      DecimalInjective(-a, -b);
    } else {
      DecimalInjective(a, b);
    }
  }

  lemma {:induction false} SplitAtSeparator(a: string, b: string, sep: char, x: string, y: string)
    requires sep !in a && sep !in b
    requires a + [sep] + x == b + [sep] + y
    ensures a == b && x == y
  {
    var s, t := a + [sep] + x, b + [sep] + y;
    assert s[|a|] == sep && t[|b|] == sep;
    assert a == s[..|a|] && b == t[..|b|];
    assert x == s[|a| + 1..] && y == t[|b| + 1..];
  }

  /** Two in-flight keys agree only for the same node, connection and message. */
  lemma {:induction false} InFlightKeyInjective(f: nat, c: int, m: int, f': nat, c': int, m': int)
    requires InFlightKey(f, c, m) == InFlightKey(f', c', m')
    ensures f == f' && c == c' && m == m'
  {
    var rest, rest' := FormatInt(c) + ":" + FormatInt(m), FormatInt(c') + ":" + FormatInt(m');
    SplitAtSeparator(Decimal(f), Decimal(f'), ':', rest, rest');
    SplitAtSeparator(FormatInt(c), FormatInt(c'), ':', FormatInt(m), FormatInt(m'));
    DecimalInjective(f, f');
    FormatIntInjective(c, c');
    FormatIntInjective(m, m');
  }

  /** Two channel keys agree only for the same channel id and type, whatever characters the
      id contains. */
  lemma {:induction false} ChannelKeyInjective(id: string, kind: nat, id': string, kind': nat)
    requires ChannelKey(id, kind) == ChannelKey(id', kind')
    ensures id == id' && kind == kind'
  {
    SplitAtSeparator(Decimal(kind), Decimal(kind'), '&', id, id');
    DecimalInjective(kind, kind');
  }
}
