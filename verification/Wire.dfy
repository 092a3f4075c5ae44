/** The primitives of the internal encoding: big-endian integers, and byte strings with a length
    of two or four bytes in front. */
module Wire {
  import opened Framing

  type Bytes = seq<byte>
  type u8 = byte
  type u16 = x: nat | x < 0x1_0000
  type u64 = x: nat | x < 0x1_0000_0000_0000_0000
  type i64 = x: int | -0x8000_0000_0000_0000 <= x < 0x8000_0000_0000_0000

  /** A value taken from the front of the data, and what follows it. */
  datatype Parsed<T> = Fail | Got(value: T, rest: Bytes) {
    predicate IsFailure() {
      Fail?
    }

    function PropagateFailure<U>(): Parsed<U>
      requires Fail?
    {
      Fail
    }

    function Extract(): (T, Bytes)
      requires Got?
    {
      (value, rest)
    }
  }

  function Power(n: nat): (p: nat)
    ensures p > 0
  {
    if n == 0 then 1 else 256 * Power(n - 1)
  }

  /** The low `n` bytes of a number, most significant first. */
  function PutUint(v: nat, n: nat): (b: Bytes)
    ensures |b| == n
  {
    if n == 0 then [] else PutUint(v / 256, n - 1) + [(v % 256) as byte]
  }

  function Value(b: Bytes): nat {
    if b == [] then 0 else 256 * Value(b[..|b| - 1]) + b[|b| - 1] as nat
  }

  function Take(data: Bytes, n: nat): (r: Parsed<Bytes>)
    ensures r.Got? <==> n <= |data|
    ensures r.Got? ==> |r.value| == n && |r.rest| == |data| - n
  {
    if |data| < n then Fail else Got(data[..n], data[n..])
  }

  function GetUint(data: Bytes, n: nat): (r: Parsed<nat>)
    ensures r.Got? ==> |data| == n + |r.rest|
  {
    var (b, rest) :- Take(data, n);
    Got(Value(b), rest)
  }

  lemma {:induction false} ValueBound(b: Bytes)
    ensures Value(b) < Power(|b|)
  {
    if b != [] {
      ValueBound(b[..|b| - 1]);
    }
  }

  lemma {:induction false} ValueOfPut(v: nat, n: nat)
    requires v < Power(n)
    ensures Value(PutUint(v, n)) == v
  {
    if n > 0 {
      ValueOfPut(v / 256, n - 1);
      assert PutUint(v, n)[..n - 1] == PutUint(v / 256, n - 1);
    }
  }

  /** Taking `n` bytes off what was put in front of some data. */
  lemma {:induction false} TakePut(b: Bytes, rest: Bytes)
    ensures Take(b + rest, |b|) == Got(b, rest)
  {
    assert (b + rest)[..|b|] == b && (b + rest)[|b|..] == rest;
  }

  /** A number comes back exactly when it fits its bytes. */
  lemma {:induction false} UintRoundTrip(v: nat, n: nat, rest: Bytes)
    ensures GetUint(PutUint(v, n) + rest, n) == Got(Value(PutUint(v, n)), rest)
    ensures Value(PutUint(v, n)) == v <==> v < Power(n)
  {
    TakePut(PutUint(v, n), rest);
    ValueBound(PutUint(v, n));
    if v < Power(n) {
      ValueOfPut(v, n);
    }
  }

  lemma {:induction false} WrappedBound(v: nat, n: nat)
    requires v >= Power(n)
    ensures Value(PutUint(v, n)) <= v - Power(n)
  {
    if n > 0 {
      WrappedBound(v / 256, n - 1);
      assert PutUint(v, n)[..n - 1] == PutUint(v / 256, n - 1);
    }
  }

  lemma {:induction false} Powers()
    ensures Power(1) == 0x100 && Power(2) == 0x1_0000 && Power(4) == 0x1_0000_0000
    ensures Power(8) == 0x1_0000_0000_0000_0000
  {
    assert Power(3) == 0x100_0000 && Power(5) == 0x100_0000_0000;
    assert Power(6) == 0x1_0000_0000_0000 && Power(7) == 0x100_0000_0000_0000;
  }

  // ---------- Where things stand ----------

  /** The bytes `x` stand at `offset`. */
  predicate StandsAt(b: Bytes, offset: nat, x: Bytes) {
    offset + |x| <= |b| && b[offset..offset + |x|] == x
  }

  /** In `p + x + d` the bytes `x` stand behind `p`. */
  lemma {:induction false} StandsNext(b: Bytes, p: Bytes, x: Bytes, d: Bytes)
    requires b == p + (x + d)
    ensures b == (p + x) + d && StandsAt(b, |p|, x)
  {
    assert p + (x + d) == (p + x) + d;
    assert ((p + x) + d)[|p|..|p| + |x|] == x;
  }

  /** The first byte of a number is its most significant one. */
  lemma {:induction false} MostSignificantFirst(x: byte, b: Bytes)
    ensures Value([x] + b) == x as nat * Power(|b|) + Value(b)
    decreases |b|
  {
    if b == [] {
      assert ([x] + b)[..0] == [];
    } else {
      var n := |b| - 1;
      MostSignificantFirst(x, b[..n]);
      assert ([x] + b)[..|b|] == [x] + b[..n];
      assert x as nat * Power(|b|) == 256 * (x as nat * Power(n));
    }
  }

  // ---------- The types that occur ----------

  function PutByte(b: byte): (r: Bytes)
    ensures |r| == 1
  {
    [b]
  }

  function GetByte(data: Bytes): (r: Parsed<byte>)
    ensures r.Got? ==> |data| == 1 + |r.rest|
  {
    if data == [] then Fail else Got(data[0], data[1..])
  }

  function PutBool(b: bool): (r: Bytes)
    ensures |r| == 1
  {
    if b then [1] else [0]
  }

  function GetBool(data: Bytes): (r: Parsed<bool>)
    ensures r.Got? ==> |data| == 1 + |r.rest|
  {
    var (b, rest) :- GetByte(data);
    Got(b == 1, rest)
  }

  function PutU64(v: u64): (b: Bytes)
    ensures |b| == 8
  {
    PutUint(v, 8)
  }

  function GetU64(data: Bytes): (r: Parsed<u64>)
    ensures r.Got? ==> |data| == 8 + |r.rest|
  {
    var (b, rest) :- Take(data, 8);
    ValueBound(b);
    Powers();
    Got(Value(b), rest)
  }

  /** Two's complement. */
  function PutI64(v: i64): (b: Bytes)
    ensures |b| == 8
  {
    PutUint(if v < 0 then v + 0x1_0000_0000_0000_0000 else v, 8)
  }

  function GetI64(data: Bytes): (r: Parsed<i64>)
    ensures r.Got? ==> |data| == 8 + |r.rest|
  {
    var (v, rest) :- GetU64(data);
    Got(if v < 0x8000_0000_0000_0000 then v else v - 0x1_0000_0000_0000_0000, rest)
  }

  /** A byte string behind its length in two bytes; a longer one gets a length that is too small. */
  function PutText(s: Bytes): (b: Bytes)
    ensures |b| == 2 + |s|
  {
    PutUint(|s|, 2) + s
  }

  function GetText(data: Bytes): (r: Parsed<Bytes>)
    ensures r.Got? ==> |data| == 2 + |r.value| + |r.rest| && |r.value| < 0x1_0000
  {
    var (b, rest) :- Take(data, 2);
    ValueBound(b);
    Powers();
    Take(rest, Value(b))
  }

  /** A flag is a byte that is 1 or 0, a byte string stands behind its length, and a negative number
      is written as its distance to 2^64. */
  lemma {:induction false} PrimitiveLayout(s: Bytes, b: bool, v: i64)
    ensures StandsAt(PutText(s), 0, PutUint(|s|, 2)) && StandsAt(PutText(s), 2, s)
    ensures PutBool(b)[0] as nat == if b then 1 else 0
    ensures Value(PutI64(v)) == if v < 0 then 0x1_0000_0000_0000_0000 + v else v
  {
    Powers();
    ValueOfPut(if v < 0 then v + 0x1_0000_0000_0000_0000 else v, 8);
  }

  lemma {:induction false} ByteRoundTrip(b: byte, rest: Bytes)
    ensures GetByte(PutByte(b) + rest) == Got(b, rest)
  {
    assert (PutByte(b) + rest)[1..] == rest;
  }

  lemma {:induction false} BoolRoundTrip(b: bool, rest: Bytes)
    ensures GetBool(PutBool(b) + rest) == Got(b, rest)
  {
    assert (PutBool(b) + rest)[1..] == rest;
  }

  lemma {:induction false} U64RoundTrip(v: u64, rest: Bytes)
    ensures GetU64(PutU64(v) + rest) == Got(v, rest)
  {
    TakePut(PutUint(v, 8), rest);
    Powers();
    ValueOfPut(v, 8);
  }

  lemma {:induction false} I64RoundTrip(v: i64, rest: Bytes)
    ensures GetI64(PutI64(v) + rest) == Got(v, rest)
  {
    U64RoundTrip(if v < 0 then v + 0x1_0000_0000_0000_0000 else v, rest);
  }

  /** A byte string comes back, with the data behind it, if and only if it is shorter than 2^16. */
  lemma {:induction false} TextRoundTripIff(s: Bytes, rest: Bytes)
    ensures |s| < 0x1_0000 ==> GetText(PutText(s) + rest) == Got(s, rest)
    ensures |s| >= 0x1_0000 ==> GetText(PutText(s) + rest).Fail? || GetText(PutText(s) + rest).value != s
  {
    if |s| < 0x1_0000 {
      assert PutText(s) + rest == PutUint(|s|, 2) + (s + rest);
      TakePut(PutUint(|s|, 2), s + rest);
      Powers();
      ValueOfPut(|s|, 2);
      TakePut(s, rest);
    }
  }

  /** What is read instead of an overlong byte string is shorter by 2^16 at least. */
  lemma {:induction false} OverlongText(s: Bytes, rest: Bytes)
    requires |s| >= 0x1_0000 && GetText(PutText(s) + rest).Got?
    ensures |GetText(PutText(s) + rest).value| <= |s| - 0x1_0000
  {
    assert PutText(s) + rest == PutUint(|s|, 2) + (s + rest);
    TakePut(PutUint(|s|, 2), s + rest);
    Powers();
    WrappedBound(|s|, 2);
  }

  /** A byte string behind its length in four bytes. */
  function PutLong(s: Bytes): (b: Bytes)
    ensures |b| == 4 + |s|
  {
    PutUint(|s|, 4) + s
  }

  function GetLong(data: Bytes): (r: Parsed<Bytes>)
    ensures r.Got? ==> |r.value| < 0x1_0000_0000
  {
    var (b, rest) :- Take(data, 4);
    ValueBound(b);
    Powers();
    Take(rest, Value(b))
  }

  lemma {:induction false} LongRoundTripIff(s: Bytes, rest: Bytes)
    ensures |s| < 0x1_0000_0000 ==> GetLong(PutLong(s) + rest) == Got(s, rest)
    ensures |s| >= 0x1_0000_0000 ==> GetLong(PutLong(s) + rest).Fail? || GetLong(PutLong(s) + rest).value != s
  {
    if |s| < 0x1_0000_0000 {
      assert PutLong(s) + rest == PutUint(|s|, 4) + (s + rest);
      TakePut(PutUint(|s|, 4), s + rest);
      Powers();
      ValueOfPut(|s|, 4);
      TakePut(s, rest);
    }
  }
}
