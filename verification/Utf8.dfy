/** UTF-8 (RFC 3629, section 3) over Unicode scalar values. */
module Utf8 {
  import opened Common

  type Bytes = seq<Byte>

  function EncodeChar(c: char): (b: Bytes)
    ensures 1 <= |b| <= 4
  {
    var n := c as int;
    if n < 0x80 then [n]
    else if n < 0x800 then [0xC0 + n / 64, 0x80 + n % 64]
    else if n < 0x10000 then [0xE0 + n / 64 / 64, 0x80 + n / 64 % 64, 0x80 + n % 64]
    else [0xF0 + n / 64 / 64 / 64, 0x80 + n / 64 / 64 % 64, 0x80 + n / 64 % 64, 0x80 + n % 64]
  }

  function Encode(s: string): Bytes {
    if s == "" then [] else EncodeChar(s[0]) + Encode(s[1..])
  }

  predicate IsContinuation(b: Byte) { 0x80 <= b < 0xC0 }

  /** The payload bits of a byte whose marker is given. */
  function Bits(b: Byte, marker: int): int { b - marker }

  predicate IsScalar(n: int) { 0 <= n < 0xD800 || 0xE000 <= n < 0x11_0000 }

  /** The first character of a byte string; overlong forms and surrogates are refused. */
  function DecodeChar(b: Bytes): (r: Option<(char, Bytes)>)
    ensures r.Some? ==> |r.value.1| < |b|
  {
    if |b| >= 1 && b[0] < 0x80 then Some((b[0] as char, b[1..]))
    else if |b| >= 2 && 0xC2 <= b[0] < 0xE0 && IsContinuation(b[1]) then
      Some(((Bits(b[0], 0xC0) * 64 + Bits(b[1], 0x80)) as char, b[2..]))
    else if |b| >= 3 && 0xE0 <= b[0] < 0xF0 && IsContinuation(b[1]) && IsContinuation(b[2]) then
      var n := (Bits(b[0], 0xE0) * 64 + Bits(b[1], 0x80)) * 64 + Bits(b[2], 0x80);
      if n >= 0x800 && IsScalar(n) then Some((n as char, b[3..])) else None
    else if |b| >= 4 && 0xF0 <= b[0] < 0xF8
         && IsContinuation(b[1]) && IsContinuation(b[2]) && IsContinuation(b[3]) then
      var n := ((Bits(b[0], 0xF0) * 64 + Bits(b[1], 0x80)) * 64 + Bits(b[2], 0x80)) * 64 + Bits(b[3], 0x80);
      if n >= 0x10000 && IsScalar(n) then Some((n as char, b[4..])) else None
    else None
  }

  function Decode(b: Bytes): Option<string>
    decreases |b|
  {
    if b == [] then Some("")
    else
      var first := DecodeChar(b);
      if first.None? then None
      else
        var more := Decode(first.value.1);
        if more.None? then None else Some([first.value.0] + more.value)
  }

  lemma CharRoundTrip(c: char, rest: Bytes)
    ensures DecodeChar(EncodeChar(c) + rest) == Some((c, rest))
  {
    var e := EncodeChar(c);
    var b := e + rest;
    assert b[|e|..] == rest;
    assert forall i :: 0 <= i < |e| ==> b[i] == e[i];
    var n := c as int;
    var q := n / 64;
    assert n == q * 64 + n % 64;
    assert q == q / 64 * 64 + q % 64;
    assert q / 64 == q / 64 / 64 * 64 + q / 64 % 64;
  }

  lemma {:induction false} RoundTrip(s: string)
    ensures Decode(Encode(s)) == Some(s)
    decreases |s|
  {
    if s != "" {
      CharRoundTrip(s[0], Encode(s[1..]));
      RoundTrip(s[1..]);
      assert s == [s[0]] + s[1..];
    }
  }

  /** The bytes of a code point, from its value in base 64. */
  lemma BytesOfPoint(c: char, n: int, a: int, b: int, d: int)
    requires n == c as int && 0 <= b < 64 && 0 <= d < 64 && a >= 0
    ensures n == a * 64 + b && 0x80 <= n < 0x800 ==> EncodeChar(c) == [0xC0 + a, 0x80 + b]
    ensures n == (a * 64 + b) * 64 + d && 0x800 <= n < 0x10000 ==> EncodeChar(c) == [0xE0 + a, 0x80 + b, 0x80 + d]
  {
  }

  lemma BytesOfHighPoint(c: char, n: int, a: int, b: int, d: int, e: int)
    requires n == c as int && 0 <= b < 64 && 0 <= d < 64 && 0 <= e < 64 && a >= 0
    requires n == ((a * 64 + b) * 64 + d) * 64 + e && 0x10000 <= n
    ensures EncodeChar(c) == [0xF0 + a, 0x80 + b, 0x80 + d, 0x80 + e]
  {
    assert n / 64 == (a * 64 + b) * 64 + d && n / 64 / 64 == a * 64 + b && n / 64 / 64 / 64 == a;
  }

  lemma CharTripRound(b: Bytes)
    requires DecodeChar(b).Some?
    ensures EncodeChar(DecodeChar(b).value.0) + DecodeChar(b).value.1 == b
  {
    var (c, rest) := DecodeChar(b).value;
    var e := EncodeChar(c);
    if b[0] < 0x80 {
      assert e == b[..1];
    } else if b[0] < 0xE0 {
      BytesOfPoint(c, c as int, b[0] - 0xC0, b[1] - 0x80, 0);
      assert e == b[..2];
    } else if b[0] < 0xF0 {
      BytesOfPoint(c, c as int, b[0] - 0xE0, b[1] - 0x80, b[2] - 0x80);
      assert e == b[..3];
    } else {
      BytesOfHighPoint(c, c as int, b[0] - 0xF0, b[1] - 0x80, b[2] - 0x80, b[3] - 0x80);
      assert e == b[..4];
    }
    hide EncodeChar;
    assert b == b[..|e|] + b[|e|..];
  }

  /** What decodes is the encoding of what it decodes to: no string has a second encoding. */
  lemma {:induction false} TripRound(b: Bytes)
    requires Decode(b).Some?
    ensures Encode(Decode(b).value) == b
    decreases |b|
  {
    if b != [] {
      var first := DecodeChar(b).value;
      CharTripRound(b);
      TripRound(first.1);
      var more := Decode(first.1).value;
      assert ([first.0] + more)[1..] == more;
    }
  }

  lemma {:induction false} EncodeAppend(a: string, b: string)
    ensures Encode(a + b) == Encode(a) + Encode(b)
    decreases |a|
  {
    if a == "" {
      assert a + b == b;
    } else {
      assert (a + b)[1..] == a[1..] + b;
      EncodeAppend(a[1..], b);
    }
  }
}
