/** UTF-8: every string of Unicode scalar values has one encoding, and decoding inverts it. */
module Utf8 {
  import opened Prelude

  function Tail(n: nat): byte { (0x80 + n % 64) as byte }

  function EncodeChar(c: char): (b: seq<byte>)
    ensures 1 <= |b| <= 4
  {
    var n := c as int;
    if n < 0x80 then [n as byte]
    else if n < 0x800 then [(0xC0 + n / 64) as byte, Tail(n)]
    else if n < 0x1_0000 then [(0xE0 + n / 4096) as byte, Tail(n / 64), Tail(n)]
    else [(0xF0 + n / 0x4_0000) as byte, Tail(n / 4096), Tail(n / 64), Tail(n)]
  }

  function Encode(s: string): seq<byte> {
    if s == [] then [] else EncodeChar(s[0]) + Encode(s[1..])
  }

  predicate IsTail(b: byte) { 0x80 <= b < 0xC0 }

  function Low(b: byte): nat
    requires IsTail(b)
  {
    b as int - 0x80
  }

  datatype First = First(c: char, len: nat)

  /** The value, if it is a scalar value that needs this many bytes. */
  function Scalar(n: nat, least: nat, len: nat): Option<First> {
    if least <= n < 0xD800 || (least <= n && 0xE000 <= n < 0x11_0000) then Some(First(n as char, len)) else None
  }

  function DecodeFirst(b: seq<byte>): (r: Option<First>)
    requires b != []
    ensures r.Some? ==> 1 <= r.value.len <= |b|
  {
    var lead := b[0] as int;
    if lead < 0x80 then Some(First(lead as char, 1))
    else if 0xC0 <= lead < 0xE0 && |b| >= 2 && IsTail(b[1]) then
      Scalar((lead - 0xC0) * 64 + Low(b[1]), 0x80, 2)
    else if 0xE0 <= lead < 0xF0 && |b| >= 3 && IsTail(b[1]) && IsTail(b[2]) then
      Scalar((lead - 0xE0) * 4096 + Low(b[1]) * 64 + Low(b[2]), 0x800, 3)
    else if 0xF0 <= lead < 0xF8 && |b| >= 4 && IsTail(b[1]) && IsTail(b[2]) && IsTail(b[3]) then
      Scalar((lead - 0xF0) * 0x4_0000 + Low(b[1]) * 4096 + Low(b[2]) * 64 + Low(b[3]), 0x1_0000, 4)
    else None
  }

  function Decode(b: seq<byte>): Option<string>
    decreases |b|
  {
    if b == [] then Some("")
    else match DecodeFirst(b)
      case None => None
      case Some(f) =>
        match Decode(b[f.len..])
        case None => None
        case Some(rest) => Some([f.c] + rest)
  }

  /** Two, three and four base-64 digits make up the number. */
  lemma Digits64(n: nat)
    ensures n == n / 64 * 64 + n % 64
    ensures n == n / 4096 * 4096 + n / 64 % 64 * 64 + n % 64
    ensures n == n / 0x4_0000 * 0x4_0000 + n / 4096 % 64 * 4096 + n / 64 % 64 * 64 + n % 64
  {
    assert n / 64 / 64 == n / 4096;
    assert n / 4096 / 64 == n / 0x4_0000;
  }

  lemma LowOfTail(n: nat)
    ensures IsTail(Tail(n)) && Low(Tail(n)) == n % 64
  {
  }

  lemma FirstOfEncoded(c: char, rest: seq<byte>)
    ensures DecodeFirst(EncodeChar(c) + rest) == Some(First(c, |EncodeChar(c)|))
  {
    var n := c as int;
    var b := EncodeChar(c) + rest;
    Digits64(n);
    LowOfTail(n);
    LowOfTail(n / 64);
    LowOfTail(n / 4096);
    if n < 0x80 {
    } else if n < 0x800 {
      assert b[0] as int == 0xC0 + n / 64 && b[1] == Tail(n);
    } else if n < 0x1_0000 {
      assert b[0] as int == 0xE0 + n / 4096 && b[1] == Tail(n / 64) && b[2] == Tail(n);
    } else {
      assert b[0] as int == 0xF0 + n / 0x4_0000 && b[1] == Tail(n / 4096) && b[2] == Tail(n / 64) && b[3] == Tail(n);
    }
  }

  lemma {:induction false} RoundTrip(s: string)
    ensures Decode(Encode(s)) == Some(s)
  {
    if s != [] {
      RoundTrip(s[1..]);
      FirstOfEncoded(s[0], Encode(s[1..]));
      DecodeNext(EncodeChar(s[0]), Encode(s[1..]), s[0], s[1..]);
      assert s == [s[0]] + s[1..];
    }
  }

  lemma DecodeNext(a: seq<byte>, b: seq<byte>, c: char, rest: string)
    requires a != [] && DecodeFirst(a + b) == Some(First(c, |a|)) && Decode(b) == Some(rest)
    ensures Decode(a + b) == Some([c] + rest)
  {
    assert (a + b)[|a|..] == b;
  }

  /** The table of section 3 of RFC 3629: how many bytes a character takes, what the first one looks like,
      and that the low bits of all of them are the character's number. */
  lemma EncodeExact(c: char)
    ensures var n, b := c as int, EncodeChar(c);
            && (|b| == if n < 0x80 then 1 else if n < 0x800 then 2 else if n < 0x1_0000 then 3 else 4)
            && (forall i :: 1 <= i < |b| ==> 0x80 <= b[i] < 0xC0)
            && (|b| == 1 ==> b[0] as int == n)
            && (|b| == 2 ==> 0xC2 <= b[0] < 0xE0 && n == (b[0] as int - 0xC0) * 64 + (b[1] as int - 0x80))
            && (|b| == 3 ==> 0xE0 <= b[0] < 0xF0 && n == (b[0] as int - 0xE0) * 4096 + (b[1] as int - 0x80) * 64 + (b[2] as int - 0x80))
            && (|b| == 4 ==> 0xF0 <= b[0] <= 0xF4)
            && (|b| == 4 ==>
                  n == (b[0] as int - 0xF0) * 0x4_0000 + (b[1] as int - 0x80) * 4096 + (b[2] as int - 0x80) * 64 + (b[3] as int - 0x80))
  {
    Digits64(c as int);
  }

  lemma FirstIsEncoded(b: seq<byte>)
    requires b != [] && DecodeFirst(b).Some?
    ensures var f := DecodeFirst(b).value; b[..f.len] == EncodeChar(f.c)
  {
    var f := DecodeFirst(b).value;
    if f.len == 2 {
      TwoBytes(b[0], b[1], f.c);
    } else if f.len == 3 {
      ThreeBytes(b[0], b[1], b[2], f.c);
    } else if f.len == 4 {
      FourBytes(b[0], b[1], b[2], b[3], f.c);
    }
  }

  lemma TwoBytes(a: byte, b: byte, c: char)
    requires 0xC0 <= a < 0xE0 && IsTail(b) && c as int == (a as int - 0xC0) * 64 + Low(b) >= 0x80
    ensures EncodeChar(c) == [a, b]
  {
    TwoDigits(a as int - 0xC0, Low(b));
  }

  lemma ThreeBytes(a: byte, b: byte, d: byte, c: char)
    requires 0xE0 <= a < 0xF0 && IsTail(b) && IsTail(d)
    requires c as int == (a as int - 0xE0) * 4096 + Low(b) * 64 + Low(d) >= 0x800
    ensures EncodeChar(c) == [a, b, d]
  {
    TwoDigits((a as int - 0xE0) * 64 + Low(b), Low(d));
    TwoDigits(a as int - 0xE0, Low(b));
    Digits64(c as int);
  }

  lemma FourBytes(a: byte, b: byte, d: byte, e: byte, c: char)
    requires 0xF0 <= a < 0xF8 && IsTail(b) && IsTail(d) && IsTail(e)
    requires c as int == (a as int - 0xF0) * 0x4_0000 + Low(b) * 4096 + Low(d) * 64 + Low(e) >= 0x1_0000
    ensures EncodeChar(c) == [a, b, d, e]
  {
    TwoDigits((a as int - 0xF0) * 4096 + Low(b) * 64 + Low(d), Low(e));
    TwoDigits((a as int - 0xF0) * 64 + Low(b), Low(d));
    TwoDigits(a as int - 0xF0, Low(b));
    Digits64(c as int);
  }

  lemma TwoDigits(hi: nat, lo: nat)
    requires lo < 64
    ensures (hi * 64 + lo) / 64 == hi && (hi * 64 + lo) % 64 == lo
  {
  }

  lemma DecodedHead(b: seq<byte>, s: string) returns (k: nat)
    requires b != [] && Decode(b) == Some(s)
    ensures 1 <= k <= |b| && s != [] && b[..k] == EncodeChar(s[0]) && Decode(b[k..]) == Some(s[1..])
  {
    k := DecodeFirst(b).value.len;
    FirstIsEncoded(b);
  }

  /** Exactly the encodings decode: there is one for each string, and no byte string but those is accepted. */
  lemma {:induction false} DecodeExact(b: seq<byte>, s: string)
    ensures Decode(b) == Some(s) <==> b == Encode(s)
    decreases |b|
  {
    if Decode(b) == Some(s) && b != [] {
      var k := DecodedHead(b, s);
      DecodeExact(b[k..], s[1..]);
      assert b == b[..k] + b[k..];
    }
    if b == Encode(s) {
      RoundTrip(s);
    }
  }
}
