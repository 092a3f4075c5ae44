/** Cutting packets out of a byte stream (pkg/client/common.go, internal/server/proto.go). A
    packet starts with a byte whose upper half is its type; a ping or a pong is that byte alone,
    any other packet goes on with its remaining length in up to four 7-bit digits, as in section
    2.2.3 of MQTT 3.1.1, and then with that many bytes. */
module Framing {
  import opened Common

  newtype byte = x: int | 0 <= x < 256

  const PING := 7
  const PONG := 8

  function Kind(b: byte): nat {
    b as nat / 16
  }

  predicate Lone(b: byte) {
    Kind(b) == PING || Kind(b) == PONG
  }

  datatype Size = Size(value: nat, digits: nat)

  /** The remaining length with digits `k` to 3 still allowed, least significant first; nothing
      when the data ends within it. The fourth digit is the last whatever its upper bit says. */
  function Length(data: seq<byte>, k: nat): (r: Maybe<Size>)
    requires k < 4
    ensures r.Some? ==> 1 <= r.value.digits <= 4 - k && r.value.digits <= |data|
    decreases 4 - k
  {
    if data == [] then None else
    var digit := data[0] as nat;
    if digit < 128 || k == 3 then Some(Size(digit % 128, 1)) else
    var rest := Length(data[1..], k + 1);
    if rest.None? then None else Some(Size(digit % 128 + 128 * rest.value.value, 1 + rest.value.digits))
  }

  /** What the digit at position `k` is worth. */
  function Scale(k: nat): nat
    requires k <= 4
  {
    if k == 0 then 1 else if k == 1 then 128 else if k == 2 then 16384 else if k == 3 then 2097152 else 268435456
  }

  /** The digits from position `k` on, put above the value of those before. */
  function Above(low: nat, k: nat, r: Maybe<Size>): Maybe<Size>
    requires k <= 4
  {
    if r.None? then None else Some(Size(low + r.value.value * Scale(k), r.value.digits + k))
  }

  lemma {:induction false} DigitStep(data: seq<byte>, k: nat, low: nat)
    requires k < 4 && data != []
    ensures var digit := data[0] as nat;
            var value := low + digit % 128 * Scale(k);
            Above(low, k, Length(data, k)) ==
            if digit < 128 || k == 3 then Some(Size(value, k + 1))
            else Above(value, k + 1, Length(data[1..], k + 1))
  {
    var digit := data[0] as nat;
    if digit >= 128 && k < 3 {
      var rest := Length(data[1..], k + 1);
      if rest.Some? {
        var v := rest.value.value;
        assert (digit % 128 + 128 * v) * Scale(k) == digit % 128 * Scale(k) + v * Scale(k + 1);
      }
    }
  }

  /** The source adds digits with a bitwise or, into bits that are still clear. */
  method DecodeLength(data: seq<byte>) returns (r: Maybe<Size>)
    ensures r == Length(data, 0)
  {
    var value: nat, k: nat := 0, 0;
    assert data[0..] == data;
    while k < 4
      invariant k <= 3 && k <= |data|
      invariant Length(data, 0) == Above(value, k, Length(data[k..], k))
      decreases 4 - k
    {
      if k >= |data| {
        return None;
      }
      DigitStep(data[k..], k, value);
      assert data[k..][1..] == data[k + 1..];
      var digit := data[k] as nat;
      value := value + digit % 128 * Scale(k);
      if digit < 128 || k == 3 {
        return Some(Size(value, k + 1));
      }
      k := k + 1;
    }
  }

  /** A length runs out only where fewer than four bytes are left and all of them promise more. */
  lemma {:induction false} LengthRunsOutIff(data: seq<byte>, k: nat)
    requires k < 4
    ensures Length(data, k).None? <==> |data| < 4 - k && forall i :: 0 <= i < |data| ==> data[i] >= 128
    ensures Length(data, k).Some? ==> Length(data, k).value.value < Scale(4 - k)
    decreases 4 - k
  {
    if data != [] && data[0] >= 128 && k < 3 {
      LengthRunsOutIff(data[1..], k + 1);
      assert forall i :: 1 <= i < |data| ==> data[i] == data[1..][i - 1];
    }
  }

  /** The 7-bit digits of a length. */
  function LengthDigits(n: nat): (r: seq<byte>)
    ensures r != []
  {
    if n < 128 then [n as byte] else [(n % 128 + 128) as byte] + LengthDigits(n / 128)
  }

  lemma {:induction false} LengthRoundTripFrom(n: nat, k: nat, rest: seq<byte>)
    requires k < 4 && n < Scale(4 - k)
    ensures Length(LengthDigits(n) + rest, k) == Some(Size(n, |LengthDigits(n)|))
    decreases 4 - k
  {
    var digits := LengthDigits(n);
    if n >= 128 {
      LengthRoundTripFrom(n / 128, k + 1, rest);
      assert (digits + rest)[1..] == LengthDigits(n / 128) + rest;
    }
  }

  /** Decoding inverts the 7-bit encoding of every length below 2^28, and takes no byte more. */
  lemma {:induction false} LengthRoundTrip(n: nat, rest: seq<byte>)
    requires n < 0x1000_0000
    ensures Length(LengthDigits(n) + rest, 0) == Some(Size(n, |LengthDigits(n)|))
  {
    LengthRoundTripFrom(n, 0, rest);
  }

  lemma {:induction false} LengthExtends(data: seq<byte>, more: seq<byte>, k: nat)
    requires k < 4 && Length(data, k).Some?
    ensures Length(data + more, k) == Length(data, k)
    decreases 4 - k
  {
    if data[0] >= 128 && k < 3 {
      LengthExtends(data[1..], more, k + 1);
      assert (data + more)[1..] == data[1..] + more;
    }
  }

  // ---------- Packets ----------

  /** The size of the packet at the front, if it is all there. */
  function Packet(buf: seq<byte>): (r: Maybe<nat>)
    ensures r.Some? ==> 1 <= r.value <= |buf|
  {
    if buf == [] then None
    else if Lone(buf[0]) then Some(1)
    else
      var len := Length(buf[1..], 0);
      if len.None? || |buf| < 1 + len.value.digits + len.value.value then None
      else Some(1 + len.value.digits + len.value.value)
  }

  /** The complete packets at the front of the buffer. */
  function Packets(buf: seq<byte>): (ps: seq<seq<byte>>)
    decreases |buf|
  {
    var n := Packet(buf);
    if n.None? then [] else [buf[..n.value]] + Packets(buf[n.value..])
  }

  function Joined(ps: seq<seq<byte>>): seq<byte> {
    if ps == [] then [] else ps[0] + Joined(ps[1..])
  }

  /** How many bytes the complete packets take. */
  function Consumed(buf: seq<byte>): (n: nat)
    ensures n <= |buf|
    decreases |buf|
  {
    var n := Packet(buf);
    if n.None? then 0 else n.value + Consumed(buf[n.value..])
  }

  function Rest(buf: seq<byte>): seq<byte> {
    buf[Consumed(buf)..]
  }

  /** The packets are the front of the buffer, and what is left does not start with a packet. */
  lemma {:induction false} PacketsAreTheFront(buf: seq<byte>)
    ensures Joined(Packets(buf)) == buf[..Consumed(buf)]
    ensures Packet(Rest(buf)).None?
    decreases |buf|
  {
    hide Packet;
    var n := Packet(buf);
    if n.Some? {
      var tail := buf[n.value..];
      PacketsAreTheFront(tail);
      assert Rest(buf) == Rest(tail);
      assert Packets(buf)[1..] == Packets(tail);
      assert buf[..n.value] + tail[..Consumed(tail)] == buf[..Consumed(buf)];
    } else {
      assert Rest(buf) == buf;
    }
  }

  lemma {:induction false} PacketExtends(a: seq<byte>, b: seq<byte>)
    requires Packet(a).Some?
    ensures Packet(a + b) == Packet(a)
  {
    if !Lone(a[0]) {
      LengthExtends(a[1..], b, 0);
      assert (a + b)[1..] == a[1..] + b;
    }
  }

  lemma {:induction false} ConsumedAcross(a: seq<byte>, b: seq<byte>)
    ensures Consumed(a + b) == Consumed(a) + Consumed(Rest(a) + b)
    decreases |a|
  {
    hide Packet;
    var n := Packet(a);
    if n.None? {
      assert Rest(a) == a;
    } else {
      PacketExtends(a, b);
      var tail := a[n.value..];
      assert (a + b)[n.value..] == tail + b;
      ConsumedAcross(tail, b);
      assert Rest(a) == Rest(tail);
    }
  }

  lemma {:induction false} PacketsAcross(a: seq<byte>, b: seq<byte>)
    ensures Packets(a + b) == Packets(a) + Packets(Rest(a) + b)
    decreases |a|
  {
    hide Packet;
    var n := Packet(a);
    if n.None? {
      assert Rest(a) == a;
    } else {
      PacketExtends(a, b);
      var tail := a[n.value..];
      assert (a + b)[n.value..] == tail + b;
      assert (a + b)[..n.value] == a[..n.value];
      PacketsAcross(tail, b);
      assert Rest(a) == Rest(tail);
      calc {
        Packets(a + b);
        [a[..n.value]] + Packets(tail + b);
        [a[..n.value]] + (Packets(tail) + Packets(Rest(a) + b));
        [a[..n.value]] + Packets(tail) + Packets(Rest(a) + b);
      }
    }
  }

  /** Where a stream is cut does not matter: reading `a`, and then what it left followed by `b`,
      gives the packets and the remainder of `a + b`. */
  lemma {:induction false} ChunkingDoesNotMatter(a: seq<byte>, b: seq<byte>)
    ensures Packets(a + b) == Packets(a) + Packets(Rest(a) + b)
    ensures Rest(a + b) == Rest(Rest(a) + b)
  {
    hide Packet, Packets, Consumed;
    PacketsAcross(a, b);
    ConsumedAcross(a, b);
    var n := Consumed(a);
    var later := Rest(a) + b;
    assert later == (a + b)[n..];
    assert later[Consumed(later)..] == (a + b)[n + Consumed(later)..];
  }

  function Concat(chunks: seq<seq<byte>>): seq<byte> {
    if chunks == [] then [] else Concat(chunks[..|chunks| - 1]) + chunks[|chunks| - 1]
  }

  datatype Reader = Reader(packets: seq<seq<byte>>, rest: seq<byte>)

  /** A reader that is handed one chunk after the other. */
  function Fed(chunks: seq<seq<byte>>): Reader {
    if chunks == [] then Reader([], []) else
    var r := Fed(chunks[..|chunks| - 1]);
    var buf := r.rest + chunks[|chunks| - 1];
    Reader(r.packets + Packets(buf), Rest(buf))
  }

  /** However a stream arrives, the reader ends with the packets of the whole stream. */
  lemma {:induction false} FedIsWhole(chunks: seq<seq<byte>>)
    ensures Fed(chunks) == Reader(Packets(Concat(chunks)), Rest(Concat(chunks)))
    decreases |chunks|
  {
    if chunks != [] {
      var before := chunks[..|chunks| - 1];
      FedIsWhole(before);
      ChunkingDoesNotMatter(Concat(before), chunks[|chunks| - 1]);
    }
  }

  /** A packet as it is written: its first byte, its length, its body. */
  function Written(first: byte, body: seq<byte>): seq<byte> {
    if Lone(first) then [first] else [first] + LengthDigits(|body|) + body
  }

  /** Written packets come back one by one. */
  lemma {:induction false} WrittenIsRead(first: byte, body: seq<byte>, rest: seq<byte>)
    requires |body| < 0x1000_0000
    ensures Packets(Written(first, body) + rest) == [Written(first, body)] + Packets(rest)
  {
    var p := Written(first, body);
    if !Lone(first) {
      LengthRoundTrip(|body|, body + rest);
      assert (p + rest)[1..] == LengthDigits(|body|) + (body + rest);
    }
    assert Packet(p + rest) == Some(|p|);
    assert (p + rest)[..|p|] == p && (p + rest)[|p|..] == rest;
  }

  /** The type of a packet is the upper half of its first byte. Types 7 and 8 are single bytes; any
      other packet is the byte, the digits of its length, and as many bytes as they say. */
  lemma {:induction false} FirstByteDecides(first: byte, body: seq<byte>, rest: seq<byte>)
    requires |body| < 0x1000_0000
    ensures 16 * Kind(first) <= first as nat < 16 * Kind(first) + 16
    ensures 112 <= first < 144 ==> Packet([first] + rest) == Some(1)
    ensures !(112 <= first < 144) ==>
      Packet([first] + LengthDigits(|body|) + body + rest) == Some(1 + |LengthDigits(|body|)| + |body|)
  {
    LengthRoundTrip(|body|, body + rest);
    assert ([first] + LengthDigits(|body|) + body + rest)[1..] == LengthDigits(|body|) + (body + rest);
  }

  /** Lengths below 2^7, 2^14 and 2^21 take one, two and three digits, others below 2^28 four. */
  lemma {:induction false} DigitsCount(n: nat)
    requires n < 0x1000_0000
    ensures |LengthDigits(n)| == if n < 128 then 1 else if n < 16384 then 2 else if n < 2097152 then 3 else 4
  {
    if n >= 128 {
      DigitsCount(n / 128);
    }
  }

  /** Digit `i` of a length is worth 128 to the power of `i`, and its upper bit says that more follow. */
  lemma {:induction false} DigitsOfLength(n: nat, i: nat)
    requires n < Scale(4) && i < 4 && i < |LengthDigits(n)|
    ensures LengthDigits(n)[i] as nat == n / Scale(i) % 128 + (if i + 1 < |LengthDigits(n)| then 128 else 0)
    decreases i
  {
    if i > 0 {
      DigitsOfLength(n / 128, i - 1);
      assert n / 128 / Scale(i - 1) == n / Scale(i);
    }
  }

  // ---------- The three readers ----------

  /** One step of the loop they share. */
  lemma {:induction false} ConsumedStep(buf: seq<byte>, offset: nat)
    requires offset <= |buf|
    ensures var n := Packet(buf[offset..]);
            Consumed(buf[offset..]) == if n.None? then 0 else n.value + Consumed(buf[offset + n.value..])
  {
    var n := Packet(buf[offset..]);
    if n.Some? {
      assert buf[offset..][n.value..] == buf[offset + n.value..];
    }
  }

  /** Where the packet at the offset ends, if it is all there. */
  method PacketEnd(buf: seq<byte>, offset: nat) returns (end: Maybe<nat>)
    requires offset < |buf|
    ensures var n := Packet(buf[offset..]); end == if n.None? then None else Some(offset + n.value)
  {
    if Lone(buf[offset]) {
      return Some(offset + 1);
    }
    assert buf[offset..][1..] == buf[offset + 1..];
    var len := DecodeLength(buf[offset + 1..]);
    if len.None? {
      return None;
    }
    var dataEnd := offset + len.value.digits + len.value.value + 1;
    end := if |buf| >= dataEnd then Some(dataEnd) else None;
  }

  /** The client's reader, which copies the packets it finds. */
  method Parse(buf: seq<byte>) returns (packets: seq<byte>, rest: seq<byte>)
    ensures packets == buf[..Consumed(buf)]
    ensures rest == Rest(buf)
  {
    hide Packet;
    var offset: nat := 0;
    packets := [];
    assert buf[0..] == buf;
    while offset < |buf|
      invariant offset <= |buf| && packets == buf[..offset]
      invariant Consumed(buf) == offset + Consumed(buf[offset..])
      decreases |buf| - offset
    {
      ConsumedStep(buf, offset);
      var end := PacketEnd(buf, offset);
      if end.None? {
        break;
      }
      assert buf[..end.value] == buf[..offset] + buf[offset..end.value];
      packets := packets + buf[offset..end.value];
      offset := end.value;
    }
    rest := if packets != [] then buf[|packets|..] else buf;
  }

  /** The type of the last packet a reader looks at, complete or not. */
  function LastKind(buf: seq<byte>, before: nat): nat
    decreases |buf|
  {
    if buf == [] then before else
    var n := Packet(buf);
    if n.None? then Kind(buf[0]) else LastKind(buf[n.value..], Kind(buf[0]))
  }

  /** The packet looked at last is the incomplete one behind the packets, if there is one, and the
      last of the packets otherwise. */
  lemma {:induction false} LastKindIs(buf: seq<byte>, before: nat)
    requires buf != []
    ensures Rest(buf) == [] ==> Packets(buf) != [] && Packets(buf)[|Packets(buf)| - 1] != []
    ensures LastKind(buf, before) ==
      (if Rest(buf) != [] then Rest(buf)[0] else Packets(buf)[|Packets(buf)| - 1][0]) as nat / 16
    decreases |buf|
  {
    hide Packet;
    var n := Packet(buf);
    if n.Some? {
      var tail := buf[n.value..];
      assert Rest(buf) == Rest(tail);
      if tail != [] {
        LastKindIs(tail, Kind(buf[0]));
      }
    }
  }

  /** The client's other reader, which only moves an offset. */
  method GnetUnpacket(buf: seq<byte>) returns (packets: seq<byte>, rest: seq<byte>)
    ensures packets == buf[..Consumed(buf)]
    ensures rest == Rest(buf)
  {
    hide Packet;
    var offset: nat := 0;
    assert buf[0..] == buf;
    while |buf| > offset
      invariant offset <= |buf| && Consumed(buf) == offset + Consumed(buf[offset..])
      decreases |buf| - offset
    {
      ConsumedStep(buf, offset);
      var end := PacketEnd(buf, offset);
      if end.None? {
        break;
      }
      offset := end.value;
    }
    packets, rest := buf[..offset], buf[offset..];
  }

  /** The server's reader, which also tells the type of the last packet it looked at. */
  method Unpacket(buf: seq<byte>) returns (packets: seq<byte>, kind: nat)
    ensures packets == buf[..Consumed(buf)]
    ensures kind == LastKind(buf, 0)
  {
    hide Packet;
    var offset: nat := 0;
    kind := 0;
    assert buf[0..] == buf;
    while offset < |buf|
      invariant offset <= |buf|
      invariant Consumed(buf) == offset + Consumed(buf[offset..])
      invariant LastKind(buf, 0) == LastKind(buf[offset..], kind)
      decreases |buf| - offset
    {
      ConsumedStep(buf, offset);
      kind := Kind(buf[offset]);
      var end := PacketEnd(buf, offset);
      if end.None? {
        break;
      }
      assert buf[offset..][end.value - offset..] == buf[end.value..];
      offset := end.value;
    }
    packets := buf[..offset];
  }
}
