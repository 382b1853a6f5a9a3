/** Base64 as Go's encoding/base64 decodes it (RFC 4648 sections 4 and 5): CR and LF are skipped
    anywhere and stray low bits of the last symbol are ignored. */
module Base64 {
  import opened Prelude

  /** Standard alphabet with padding, or URL alphabet without. */
  datatype Encoding = Std | RawUrl

  newtype sextet = x: int | 0 <= x < 64

  function Symbol(enc: Encoding, v: sextet): char {
    var n := v as int;
    if n < 26 then ('A' as int + n) as char
    else if n < 52 then ('a' as int + (n - 26)) as char
    else if n < 62 then ('0' as int + (n - 52)) as char
    else if n == 62 then (if enc.Std? then '+' else '-')
    else (if enc.Std? then '/' else '_')
  }

  function Value(enc: Encoding, c: char): Option<sextet> {
    if 'A' <= c <= 'Z' then Some((c as int - 'A' as int) as sextet)
    else if 'a' <= c <= 'z' then Some((c as int - 'a' as int + 26) as sextet)
    else if '0' <= c <= '9' then Some((c as int - '0' as int + 52) as sextet)
    else if c == (if enc.Std? then '+' else '-') then Some(62)
    else if c == (if enc.Std? then '/' else '_') then Some(63)
    else None
  }

  lemma ValueOfSymbol(enc: Encoding, v: sextet)
    ensures Value(enc, Symbol(enc, v)) == Some(v)
    ensures Symbol(enc, v) != '=' && Symbol(enc, v) != '.' && Symbol(enc, v) != '\r' && Symbol(enc, v) != '\n'
  {
  }

  // ---------------------------------------------------------------- one quantum

  function S0(b0: byte): sextet { (b0 as int / 4) as sextet }
  function S1(b0: byte, b1: byte): sextet { (b0 as int % 4 * 16 + b1 as int / 16) as sextet }
  function S2(b1: byte, b2: byte): sextet { (b1 as int % 16 * 4 + b2 as int / 64) as sextet }
  function S3(b2: byte): sextet { (b2 as int % 64) as sextet }

  function B0(s0: sextet, s1: sextet): byte { (s0 as int * 4 + s1 as int / 16) as byte }
  function B1(s1: sextet, s2: sextet): byte { (s1 as int % 16 * 16 + s2 as int / 4) as byte }
  function B2(s2: sextet, s3: sextet): byte { (s2 as int % 4 * 64 + s3 as int) as byte }

  lemma FirstInverse(b0: byte, b1: byte)
    ensures B0(S0(b0), S1(b0, b1)) == b0
  {
    assert S1(b0, b1) as int / 16 == b0 as int % 4;
  }

  lemma SecondInverse(b0: byte, b1: byte, b2: byte)
    ensures B1(S1(b0, b1), S2(b1, b2)) == b1
  {
    assert S1(b0, b1) as int % 16 == b1 as int / 16;
    assert S2(b1, b2) as int / 4 == b1 as int % 16;
  }

  lemma ThirdInverse(b1: byte, b2: byte)
    ensures B2(S2(b1, b2), S3(b2)) == b2
  {
    assert S2(b1, b2) as int % 4 == b2 as int / 64;
  }

  // ---------------------------------------------------------------- encoding

  /** Fills the last quantum up to four characters. */
  function Padded(enc: Encoding, s: string): string {
    if enc.RawUrl? then s else if |s| == 2 then s + ['=', '='] else s + ['=']
  }

  function Encode(enc: Encoding, b: seq<byte>): (s: string) {
    if |b| == 0 then []
    else if |b| == 1 then Padded(enc, [Symbol(enc, S0(b[0])), Symbol(enc, S1(b[0], 0))])
    else if |b| == 2 then Padded(enc, [Symbol(enc, S0(b[0])), Symbol(enc, S1(b[0], b[1])), Symbol(enc, S2(b[1], 0))])
    else
      [Symbol(enc, S0(b[0])), Symbol(enc, S1(b[0], b[1])), Symbol(enc, S2(b[1], b[2])), Symbol(enc, S3(b[2]))] + Encode(enc, b[3..])
  }

  // ---------------------------------------------------------------- decoding

  function Cons3(b0: byte, b1: byte, b2: byte, rest: Option<seq<byte>>): Option<seq<byte>> {
    match rest
    case None => None
    case Some(r) => Some([b0, b1, b2] + r)
  }

  /** Decodes text that holds no CR or LF. */
  function DecodeQuanta(enc: Encoding, s: string): Option<seq<byte>> {
    if |s| == 0 then Some([])
    else if |s| == 1 || Value(enc, s[0]).None? || Value(enc, s[1]).None? then None
    else
      var v0, v1 := Value(enc, s[0]).value, Value(enc, s[1]).value;
      if |s| == 2 then (if enc.RawUrl? then Some([B0(v0, v1)]) else None)
      else if enc.Std? && s[2] == '=' then (if |s| == 4 && s[3] == '=' then Some([B0(v0, v1)]) else None)
      else if Value(enc, s[2]).None? then None
      else
        var v2 := Value(enc, s[2]).value;
        if |s| == 3 then (if enc.RawUrl? then Some([B0(v0, v1), B1(v1, v2)]) else None)
        else if enc.Std? && s[3] == '=' then (if |s| == 4 then Some([B0(v0, v1), B1(v1, v2)]) else None)
        else if Value(enc, s[3]).None? then None
        else Cons3(B0(v0, v1), B1(v1, v2), B2(v2, Value(enc, s[3]).value), DecodeQuanta(enc, s[4..]))
  }

  predicate LineBreak(c: char) { c == '\r' || c == '\n' }

  /** The text without its line breaks. */
  function Strip(s: string): (t: string)
    ensures |t| <= |s|
  {
    if s == [] then []
    else if LineBreak(s[|s| - 1]) then Strip(s[..|s| - 1])
    else Strip(s[..|s| - 1]) + [s[|s| - 1]]
  }

  function Decode(enc: Encoding, s: string): Option<seq<byte>> {
    DecodeQuanta(enc, Strip(s))
  }

  // ---------------------------------------------------------------- round trip

  lemma OneByte(enc: Encoding, b: byte)
    ensures DecodeQuanta(enc, Encode(enc, [b])) == Some([b])
  {
    FirstInverse(b, 0);
    ValueOfSymbol(enc, S0(b));
    ValueOfSymbol(enc, S1(b, 0));
  }

  lemma TwoBytes(enc: Encoding, b: byte, c: byte)
    ensures DecodeQuanta(enc, Encode(enc, [b, c])) == Some([b, c])
  {
    FirstInverse(b, c);
    SecondInverse(b, c, 0);
    ValueOfSymbol(enc, S0(b));
    ValueOfSymbol(enc, S1(b, c));
    ValueOfSymbol(enc, S2(c, 0));
  }

  /** Decoding takes a full quantum off the front. */
  lemma FullQuantum(enc: Encoding, b0: byte, b1: byte, b2: byte, rest: string)
    ensures DecodeQuanta(enc, [Symbol(enc, S0(b0)), Symbol(enc, S1(b0, b1)), Symbol(enc, S2(b1, b2)), Symbol(enc, S3(b2))] + rest) ==
            Cons3(b0, b1, b2, DecodeQuanta(enc, rest))
  {
    FirstInverse(b0, b1);
    SecondInverse(b0, b1, b2);
    ThirdInverse(b1, b2);
    ValueOfSymbol(enc, S0(b0));
    ValueOfSymbol(enc, S1(b0, b1));
    ValueOfSymbol(enc, S2(b1, b2));
    ValueOfSymbol(enc, S3(b2));
    var s := [Symbol(enc, S0(b0)), Symbol(enc, S1(b0, b1)), Symbol(enc, S2(b1, b2)), Symbol(enc, S3(b2))] + rest;
    assert s[4..] == rest;
  }

  lemma ThreeAndRest(b: seq<byte>)
    requires |b| >= 3
    ensures b == [b[0], b[1], b[2]] + b[3..]
  {
  }

  lemma {:induction false} QuantaRoundTrip(enc: Encoding, b: seq<byte>)
    ensures DecodeQuanta(enc, Encode(enc, b)) == Some(b)
  {
    if |b| == 1 {
      OneByte(enc, b[0]);
      assert b == [b[0]];
    } else if |b| == 2 {
      TwoBytes(enc, b[0], b[1]);
      assert b == [b[0], b[1]];
    } else if |b| > 2 {
      QuantaRoundTrip(enc, b[3..]);
      FullQuantum(enc, b[0], b[1], b[2], Encode(enc, b[3..]));
      ThreeAndRest(b);
    }
  }

  /** What an encoding is made of: no line break, no dot, no comma or semicolon, and '=' only in Std. */
  predicate Clean(enc: Encoding, c: char) {
    Value(enc, c).Some? || (enc.Std? && c == '=')
  }

  lemma {:induction false} EncodeIsClean(enc: Encoding, b: seq<byte>)
    ensures forall i :: 0 <= i < |Encode(enc, b)| ==> Clean(enc, Encode(enc, b)[i])
  {
    if |b| == 1 {
      ValueOfSymbol(enc, S0(b[0]));
      ValueOfSymbol(enc, S1(b[0], 0));
    } else if |b| == 2 {
      ValueOfSymbol(enc, S0(b[0]));
      ValueOfSymbol(enc, S1(b[0], b[1]));
      ValueOfSymbol(enc, S2(b[1], 0));
    } else if |b| > 2 {
      ValueOfSymbol(enc, S0(b[0]));
      ValueOfSymbol(enc, S1(b[0], b[1]));
      ValueOfSymbol(enc, S2(b[1], b[2]));
      ValueOfSymbol(enc, S3(b[2]));
      EncodeIsClean(enc, b[3..]);
    }
  }

  lemma {:induction false} StripClean(s: string)
    requires forall i :: 0 <= i < |s| ==> !LineBreak(s[i])
    ensures Strip(s) == s
  {
    if s != [] {
      StripClean(s[..|s| - 1]);
      assert s == s[..|s| - 1] + [s[|s| - 1]];
    }
  }

  lemma RoundTrip(enc: Encoding, b: seq<byte>)
    ensures Decode(enc, Encode(enc, b)) == Some(b)
  {
    EncodeIsClean(enc, b);
    StripClean(Encode(enc, b));
    QuantaRoundTrip(enc, b);
  }

  /** Padded text grows by four characters for every three bytes begun. */
  lemma {:induction false} EncodedLength(b: seq<byte>)
    ensures |Encode(Std, b)| == (|b| + 2) / 3 * 4
  {
    if |b| > 2 {
      EncodedLength(b[3..]);
      assert |Encode(Std, b)| == 4 + |Encode(Std, b[3..])|;
      assert (|b| + 2) / 3 == (|b[3..]| + 2) / 3 + 1;
    }
  }

  // ---------------------------------------------------------------- decoded length

  /** How many '=' end the text. */
  function Padding(t: string): nat {
    if t != [] && t[|t| - 1] == '=' then 1 + Padding(t[..|t| - 1]) else 0
  }

  /** The length the parser derives; like the source it does not check that the text decodes. */
  function DecodedLen(s: string): int {
    if Strip(s) == [] then 0 else |Strip(s)| / 4 * 3 - Padding(Strip(s))
  }

  method Base64DecodedLen(encoded: string) returns (len: int)
    ensures len == DecodedLen(encoded)
  {
    var n := 0;
    for i := 0 to |encoded|
      invariant n == |Strip(encoded[..i])|
    {
      assert encoded[..i + 1][..i] == encoded[..i];
      if encoded[i] != '\n' && encoded[i] != '\r' {
        n := n + 1;
      }
    }
    assert encoded[..|encoded|] == encoded;
    if n == 0 {
      return 0;
    }
    var padding := 0;
    var i := |encoded|;
    while i > 0
      invariant 0 <= i <= |encoded|
      invariant padding + Padding(Strip(encoded[..i])) == Padding(Strip(encoded))
    {
      i := i - 1;
      assert encoded[..i + 1][..i] == encoded[..i];
      StripLast(encoded[..i + 1]);
      if encoded[i] == '\r' || encoded[i] == '\n' {
        continue;
      }
      if encoded[i] != '=' {
        break;
      }
      padding := padding + 1;
    }
    len := n / 4 * 3 - padding;
  }

  lemma StripLast(s: string)
    requires s != []
    ensures var r := Strip(s[..|s| - 1]);
            Padding(Strip(s)) == if LineBreak(s[|s| - 1]) then Padding(r) else if s[|s| - 1] == '=' then 1 + Padding(r) else 0
  {
    var r := Strip(s[..|s| - 1]);
    assert (r + [s[|s| - 1]])[..|r|] == r;
  }

  lemma PaddingOfTail(t: string)
    requires |t| >= 3 && t[|t| - 3] != '='
    ensures Padding(t) == if t[|t| - 1] != '=' then 0 else if t[|t| - 2] != '=' then 1 else 2
  {
    var u := t[..|t| - 1];
    var w := u[..|u| - 1];
    assert u[|u| - 1] == t[|t| - 2] && w[|w| - 1] == t[|t| - 3];
    assert Padding(w) == 0;
  }

  lemma {:induction false} QuantaLength(t: string, b: seq<byte>)
    requires DecodeQuanta(Std, t) == Some(b)
    ensures |t| % 4 == 0
    ensures |t| > 0 ==> |t| >= 4 && t[|t| - 3] != '=' && (t[|t| - 2] == '=' ==> t[|t| - 1] == '=')
    ensures |b| == if |t| == 0 then 0 else |t| / 4 * 3 - if t[|t| - 1] != '=' then 0 else if t[|t| - 2] != '=' then 1 else 2
  {
    if |t| > 4 {
      QuantaLength(t[4..], DecodeQuanta(Std, t[4..]).value);
    }
  }

  /** The derived length is the true decoded length of every text that decodes, however many line
      breaks it holds and wherever they stand. */
  lemma DecodedLenIsExact(s: string)
    requires Decode(Std, s).Some?
    ensures DecodedLen(s) == |Decode(Std, s).value|
  {
    var t := Strip(s);
    QuantaLength(t, Decode(Std, s).value);
    if |t| > 0 {
      PaddingOfTail(t);
    }
  }

  // ---------------------------------------------------------------- decoding chunk by chunk

  function Concat(chunks: seq<string>): string {
    if chunks == [] then [] else chunks[0] + Concat(chunks[1..])
  }

  /** Full quanta only. */
  predicate Aligned(s: string) { |s| > 0 && |s| % 4 == 0 }

  /** Each chunk decoded on its own, as a streaming decoder does with what it has buffered. */
  function DecodeChunks(chunks: seq<string>): Option<seq<byte>> {
    if chunks == [] then Some([])
    else
      match (DecodeQuanta(Std, chunks[0]), DecodeChunks(chunks[1..]))
      case (Some(a), Some(b)) => Some(a + b)
      case _ => None
  }

  function Joined(a: seq<byte>, rest: Option<seq<byte>>): Option<seq<byte>> {
    match rest
    case None => None
    case Some(b) => Some(a + b)
  }

  /** Text that decodes without padding can be decoded ahead of what follows it. */
  lemma {:induction false} DecodeAhead(s: string, r: string)
    requires DecodeQuanta(Std, s).Some? && (s != [] ==> s[|s| - 1] != '=')
    ensures DecodeQuanta(Std, s + r) == Joined(DecodeQuanta(Std, s).value, DecodeQuanta(Std, r))
  {
    if s == [] {
      assert s + r == r;
      assert forall b: seq<byte> :: [] + b == b;
    } else {
      QuantaLength(s, DecodeQuanta(Std, s).value);
      DecodeAhead(s[4..], r);
      assert (s + r)[4..] == s[4..] + r;
      OneQuantum(s);
      OneQuantum(s + r);
      var q := Quantum(s);
      if DecodeQuanta(Std, r).Some? {
        Assoc(q, DecodeQuanta(Std, s[4..]).value, DecodeQuanta(Std, r).value);
      }
    }
  }

  /** The bytes of a leading quantum without padding. */
  function Quantum(s: string): seq<byte>
    requires FullAhead(s)
  {
    var v0, v1, v2, v3 := Value(Std, s[0]).value, Value(Std, s[1]).value, Value(Std, s[2]).value, Value(Std, s[3]).value;
    [B0(v0, v1), B1(v1, v2), B2(v2, v3)]
  }

  predicate FullAhead(s: string) {
    |s| >= 4 && Value(Std, s[0]).Some? && Value(Std, s[1]).Some? && Value(Std, s[2]).Some? && Value(Std, s[3]).Some?
  }

  lemma OneQuantum(s: string)
    requires FullAhead(s)
    ensures DecodeQuanta(Std, s) == Joined(Quantum(s), DecodeQuanta(Std, s[4..]))
  {
  }

  /** Padding ends the text: whatever follows it does not decode. */
  lemma {:induction false} PaddingEnds(s: string, r: string)
    requires DecodeQuanta(Std, s).Some? && s != [] && s[|s| - 1] == '=' && r != []
    ensures DecodeQuanta(Std, s + r).None?
  {
    QuantaLength(s, DecodeQuanta(Std, s).value);
    if |s| > 4 {
      PaddingEnds(s[4..], r);
      assert (s + r)[4..] == s[4..] + r;
    }
  }

  /** How the last characters of decodable text are padded. */
  function EndPadding(t: string): nat {
    if |t| < 2 || t[|t| - 1] != '=' then 0 else if t[|t| - 2] != '=' then 1 else 2
  }

  /** Only the last two characters of a padded text may be padding, the last one first. */
  predicate TailOk(t: string)
    requires Aligned(t)
  {
    t[|t| - 3] != '=' && (t[|t| - 2] == '=' ==> t[|t| - 1] == '=')
  }

  /** At most as many bytes as the length of the text promises, and as many exactly when it decodes to them. */
  predicate Measures(t: string, b: seq<byte>) {
    && |b| <= |t| / 4 * 3 - EndPadding(t)
    && (DecodeQuanta(Std, t).Some? <==> |b| == |t| / 4 * 3 - EndPadding(t))
    && (DecodeQuanta(Std, t).Some? ==> DecodeQuanta(Std, t) == Some(b))
  }

  /** Chunks that decode one by one never give more bytes than the length of the whole text promises, and
      they give as many exactly when the whole text decodes: padding inside the text costs bytes. */
  lemma {:induction false} ChunksLength(chunks: seq<string>, b: seq<byte>)
    requires chunks != [] && (forall i :: 0 <= i < |chunks| ==> Aligned(chunks[i]))
    requires DecodeChunks(chunks) == Some(b)
    ensures Aligned(Concat(chunks)) && TailOk(Concat(chunks)) && Measures(Concat(chunks), b)
  {
    var a := DecodeQuanta(Std, chunks[0]).value;
    QuantaLength(chunks[0], a);
    if |chunks| == 1 {
      assert Concat(chunks) == chunks[0];
      assert b == a;
    } else {
      var rest := DecodeChunks(chunks[1..]).value;
      ChunksLength(chunks[1..], rest);
      TwoPieces(chunks[0], a, Concat(chunks[1..]), rest);
    }
  }

  lemma TwoPieces(s: string, a: seq<byte>, r: string, b: seq<byte>)
    requires Aligned(s) && DecodeQuanta(Std, s) == Some(a)
    requires Aligned(r) && TailOk(r) && Measures(r, b)
    ensures Aligned(s + r) && TailOk(s + r) && Measures(s + r, a + b)
  {
    EndOfTwo(s, r);
    QuantaLength(s, a);
    if s[|s| - 1] == '=' {
      PaddingEnds(s, r);
      assert |a + b| < |s + r| / 4 * 3 - EndPadding(s + r);
    } else {
      DecodeAhead(s, r);
      assert |a| == |s| / 4 * 3;
    }
  }

  lemma EndOfTwo(s: string, r: string)
    requires Aligned(s) && Aligned(r)
    ensures Aligned(s + r) && |s + r| / 4 * 3 == |s| / 4 * 3 + |r| / 4 * 3 && EndPadding(s + r) == EndPadding(r)
    ensures TailOk(s + r) <==> TailOk(r)
  {
  }

  /** The derived length, for text that decodes chunk by chunk. */
  lemma ChunksAgainstDecodedLen(s: string, chunks: seq<string>, b: seq<byte>)
    requires (forall i :: 0 <= i < |chunks| ==> Aligned(chunks[i]))
    requires Concat(chunks) == Strip(s) && DecodeChunks(chunks) == Some(b)
    ensures |b| <= DecodedLen(s)
    ensures Decode(Std, s).Some? <==> |b| == DecodedLen(s)
    ensures Decode(Std, s).Some? ==> Decode(Std, s) == Some(b)
  {
    if chunks != [] {
      ChunksLength(chunks, b);
      PaddingOfTail(Strip(s));
    }
  }

  lemma {:induction false} AlignedConcat(chunks: seq<string>)
    requires forall i :: 0 <= i < |chunks| ==> Aligned(chunks[i])
    ensures |Concat(chunks)| % 4 == 0
  {
    if chunks != [] {
      AlignedConcat(chunks[1..]);
    }
  }

  /** The first whole quanta of decodable text decode on their own, and so does the rest. */
  lemma {:induction false} DecodeSplits(s: string, r: string)
    requires |s| % 4 == 0 && DecodeQuanta(Std, s + r).Some?
    ensures DecodeQuanta(Std, s).Some? && DecodeQuanta(Std, r).Some?
  {
    if s == [] {
      assert s + r == r;
    } else if r == [] {
      assert s + r == s;
    } else {
      assert (s + r)[4..] == s[4..] + r;
      DecodeSplits(s[4..], r);
    }
  }

  lemma {:induction false} WholeDecodesInChunks(chunks: seq<string>)
    requires forall i :: 0 <= i < |chunks| ==> Aligned(chunks[i])
    requires DecodeQuanta(Std, Concat(chunks)).Some?
    ensures DecodeChunks(chunks).Some?
  {
    if chunks != [] {
      DecodeSplits(chunks[0], Concat(chunks[1..]));
      WholeDecodesInChunks(chunks[1..]);
    }
  }

  // ---------------------------------------------------------------- the tables of RFC 4648

  /** The alphabet of section 4, or of section 5, by ASCII codes: capitals, small letters, digits and the two
      symbols in which they differ. */
  lemma Alphabet(enc: Encoding, v: sextet)
    ensures var n, c := v as int, Symbol(enc, v) as int;
            && (n < 26 ==> c == 65 + n) && (26 <= n < 52 ==> c == 97 + (n - 26)) && (52 <= n < 62 ==> c == 48 + (n - 52))
            && (n == 62 ==> c == if enc.Std? then 43 else 45) && (n == 63 ==> c == if enc.Std? then 47 else 95)
  {
  }

  /** Three bytes are four symbols with the same twenty-four bits, and so on. */
  lemma EncodeThree(enc: Encoding, b: seq<byte>) returns (u: sextet, v: sextet, w: sextet, x: sextet)
    requires |b| >= 3
    ensures Encode(enc, b) == [Symbol(enc, u), Symbol(enc, v), Symbol(enc, w), Symbol(enc, x)] + Encode(enc, b[3..])
    ensures u as int * 0x4_0000 + v as int * 4096 + w as int * 64 + x as int == b[0] as int * 0x1_0000 + b[1] as int * 256 + b[2] as int
  {
    SameBits(b[0], b[1], b[2]);
    u, v, w, x := S0(b[0]), S1(b[0], b[1]), S2(b[1], b[2]), S3(b[2]);
  }

  /** Two bytes that remain are filled up with zero bits and, in the standard form only, with one `=`. */
  lemma EncodeTwo(enc: Encoding, b0: byte, b1: byte) returns (u: sextet, v: sextet, w: sextet)
    ensures Encode(enc, [b0, b1]) == [Symbol(enc, u), Symbol(enc, v), Symbol(enc, w)] + if enc.Std? then "=" else ""
    ensures u as int * 4096 + v as int * 64 + w as int == (b0 as int * 256 + b1 as int) * 4
  {
    SameBits(b0, b1, 0);
    u, v, w := S0(b0), S1(b0, b1), S2(b1, 0);
  }

  /** One byte likewise, with two. */
  lemma EncodeOne(enc: Encoding, b0: byte) returns (u: sextet, v: sextet)
    ensures Encode(enc, [b0]) == [Symbol(enc, u), Symbol(enc, v)] + if enc.Std? then "==" else ""
    ensures u as int * 64 + v as int == b0 as int * 16
  {
    SameBits(b0, 0, 0);
    u, v := S0(b0), S1(b0, 0);
  }

  lemma SameBits(b0: byte, b1: byte, b2: byte)
    ensures S0(b0) as int * 0x4_0000 + S1(b0, b1) as int * 4096 + S2(b1, b2) as int * 64 + S3(b2) as int ==
            b0 as int * 0x1_0000 + b1 as int * 256 + b2 as int
    ensures S0(b0) as int * 4096 + S1(b0, b1) as int * 64 + S2(b1, 0) as int == (b0 as int * 256 + b1 as int) * 4
    ensures S0(b0) as int * 64 + S1(b0, 0) as int == b0 as int * 16
  {
  }

  ghost predicate Symbols(enc: Encoding, s: string) { forall i :: 0 <= i < |s| ==> Value(enc, s[i]).Some? }

  /** `s` is symbols of the alphabet and `p` padding characters. */
  ghost predicate PaddedBy(enc: Encoding, s: string, p: nat) {
    p <= |s| && Symbols(enc, s[..|s| - p]) && forall i :: |s| - p <= i < |s| ==> s[i] == '='
  }

  /** Which texts without line breaks decode: in the standard form whole quanta, of which the last may end in
      one or two `=`; in the unpadded form symbols only, and not one symbol alone in the last quantum. */
  ghost predicate WellPadded(enc: Encoding, s: string) {
    if enc.RawUrl? then |s| % 4 != 1 && Symbols(enc, s)
    else |s| % 4 == 0 && exists p: nat :: p <= 2 && PaddedBy(enc, s, p)
  }

  lemma {:induction false} DecodesExactly(enc: Encoding, s: string)
    ensures DecodeQuanta(enc, s).Some? <==> WellPadded(enc, s)
  {
    if |s| <= 4 {
      ShortDecodes(enc, s);
    } else {
      DecodesExactly(enc, s[4..]);
      LongPadded(enc, s);
      assert Symbols(enc, s[..4]) <==> Value(enc, s[0]).Some? && Value(enc, s[1]).Some? && Value(enc, s[2]).Some? && Value(enc, s[3]).Some?;
    }
  }

  lemma ShortDecodes(enc: Encoding, s: string)
    requires |s| <= 4
    ensures DecodeQuanta(enc, s).Some? <==> WellPadded(enc, s)
  {
    if enc.Std? && |s| == 4 {
      assert PaddedBy(enc, s, 0) <==> Symbols(enc, s);
      assert PaddedBy(enc, s, 1) <==> Symbols(enc, s[..3]) && s[3] == '=';
      assert PaddedBy(enc, s, 2) <==> Symbols(enc, s[..2]) && s[2] == '=' && s[3] == '=';
    } else if enc.Std? && s == [] {
      assert PaddedBy(enc, s, 0);
    }
  }

  lemma LongPadded(enc: Encoding, s: string)
    requires |s| > 4
    ensures WellPadded(enc, s) <==> Symbols(enc, s[..4]) && WellPadded(enc, s[4..])
  {
    forall p: nat | p <= 2 && (|s| % 4 == 0 || p == 0) ensures PaddedBy(enc, s, p) <==> Symbols(enc, s[..4]) && PaddedBy(enc, s[4..], p) {
      assert s[..|s| - p] == s[..4] + s[4..][..|s[4..]| - p];
      assert forall i :: 4 <= i < |s| ==> s[i] == s[4..][i - 4];
    }
    assert s == s[..4] + s[4..];
  }

  /** Decoding skips line breaks, wherever they stand, and nothing else. */
  lemma {:induction false} StripExact(s: string, t: string)
    ensures Strip(s + t) == Strip(s) + Strip(t)
    ensures forall i :: 0 <= i < |Strip(t)| ==> Strip(t)[i] != '\r' && Strip(t)[i] != '\n'
  {
    if t == [] {
      assert s + t == s;
    } else {
      var u := t[..|t| - 1];
      StripExact(s, u);
      assert (s + t)[..|s + t| - 1] == s + u;
    }
  }

  /** The derived length in terms of the text: three bytes for every four characters that are no line break,
      less the `=` at the end. */
  lemma {:induction false} DecodedLenText(s: string, t: string, k: nat)
    requires Strip(s) == t + seq(k, i => '=') && (t == [] || t[|t| - 1] != '=')
    ensures DecodedLen(s) == if |t| + k == 0 then 0 else (|t| + k) / 4 * 3 - k
  {
    PaddingIs(t, k);
  }

  lemma {:induction false} PaddingIs(t: string, k: nat)
    requires t == [] || t[|t| - 1] != '='
    ensures Padding(t + seq(k, i => '=')) == k
  {
    var u := t + seq(k, i => '=');
    if k > 0 {
      assert u[|u| - 1] == '=' && u[..|u| - 1] == t + seq(k - 1, i => '=');
      PaddingIs(t, k - 1);
    } else {
      assert u == t;
    }
  }
}
