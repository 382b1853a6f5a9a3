/** The signed request-state codec: "v1." base64url(envelope) "." base64url(MAC). */
module RequestState {
  import opened Prelude
  import Utf8
  import opened Base64
  import opened Text

  type Key = seq<byte>

  /** The keyed hash over the version-prefixed body: any deterministic function. */
  type Mac = (Key, string) -> seq<byte>

  const PREFIX := "v1."

  const SECOND := 1_000_000_000

  /** Thirty-five minutes in nanoseconds; the wizard session's own lifetime is thirty. */
  const REQUEST_STATE_TTL := 35 * 60 * SECOND

  function Unix(t: Time): int { t / SECOND }

  // ---------------------------------------------------------------- the JSON envelope

  function Unicode(n: nat): string
    requires n < 0x1_0000
  {
    ['\\', 'u', HexDigit('a', n / 4096), HexDigit('a', n / 256 % 16), HexDigit('a', n / 16 % 16), HexDigit('a', n % 16)]
  }

  /** Characters the marshaller writes as a \u escape: controls, the HTML specials, and the two line
      separators. */
  predicate NeedsUnicode(c: char) {
    c < ' ' || c == '<' || c == '>' || c == '&' || c as int == 0x2028 || c as int == 0x2029
  }

  function EscapeChar(c: char): string {
    if c == '"' || c == '\\' then ['\\', c]
    else if c as int == 8 then "\\b"
    else if c as int == 12 then "\\f"
    else if c == '\n' then "\\n"
    else if c == '\r' then "\\r"
    else if c == '\t' then "\\t"
    else if NeedsUnicode(c) then Unicode(c as int)
    else [c]
  }

  function Escape(s: string): string {
    if s == [] then [] else EscapeChar(s[0]) + Escape(s[1..])
  }

  datatype Envelope = Envelope(p: string, exp: int)

  const OPEN := "{\"p\":\""
  const MIDDLE := "\",\"exp\":"

  function Trailer(exp: int): string { MIDDLE + (Itoa(exp) + "}") }

  function Print(e: Envelope): string {
    OPEN + (Escape(e.p) + Trailer(e.exp))
  }

  datatype Unit = Unit(c: char, len: nat)

  /** The character that a backslash escape at the head of `s` stands for. */
  function Unescape(s: string): (r: Option<Unit>)
    requires s != [] && s[0] == '\\'
    ensures r.Some? ==> 1 <= r.value.len <= |s|
  {
    if |s| < 2 then None
    else if s[1] == '"' || s[1] == '\\' || s[1] == '/' then Some(Unit(s[1], 2))
    else if s[1] == 'b' then Some(Unit(8 as char, 2))
    else if s[1] == 'f' then Some(Unit(12 as char, 2))
    else if s[1] == 'n' then Some(Unit('\n', 2))
    else if s[1] == 'r' then Some(Unit('\r', 2))
    else if s[1] == 't' then Some(Unit('\t', 2))
    else if s[1] != 'u' || |s| < 6 then None
    else CodePoint(HexValue(s[2]), HexValue(s[3]), HexValue(s[4]), HexValue(s[5]))
  }

  function CodePoint(a: Option<nat>, b: Option<nat>, c: Option<nat>, d: Option<nat>): Option<Unit> {
    if a.None? || b.None? || c.None? || d.None? then None
    else
      var n := a.value * 4096 + b.value * 256 + c.value * 16 + d.value;
      if n < 0xD800 || 0xE000 <= n < 0x1_0000 then Some(Unit(n as char, 6)) else None
  }

  /** One character of a JSON string; None at a quote, a raw control or a bad escape. */
  function NextUnit(s: string): (r: Option<Unit>)
    ensures r.Some? ==> 1 <= r.value.len <= |s|
  {
    if s == [] || s[0] == '"' || s[0] < ' ' then None
    else if s[0] == '\\' then Unescape(s)
    else Some(Unit(s[0], 1))
  }

  datatype Body = Body(text: string, rest: string)

  /** Reads a JSON string up to, and leaving, its closing quote. */
  function ReadBody(s: string): Body
    decreases |s|
  {
    match NextUnit(s)
    case None => Body("", s)
    case Some(u) => var b := ReadBody(s[u.len..]); Body([u.c] + b.text, b.rest)
  }

  function ParseNumber(s: string): Option<int> {
    match ParseInt(s)
    case None => None
    case Some(n) => if Itoa(n) == s then Some(n) else None
  }

  function ParseTrailer(s: string): Option<int> {
    if !HasPrefix(s, MIDDLE) || |s| == |MIDDLE| || s[|s| - 1] != '}' then None
    else ParseNumber(s[|MIDDLE|..|s| - 1])
  }

  /** Reads back the compact form that the marshaller writes. */
  function ParseEnvelope(s: string): Option<Envelope> {
    if !HasPrefix(s, OPEN) then None
    else
      var b := ReadBody(s[|OPEN|..]);
      match ParseTrailer(b.rest)
      case None => None
      case Some(n) => Some(Envelope(b.text, n))
  }

  lemma Digits16(n: nat)
    requires n < 0x1_0000
    ensures n / 4096 < 16 && n == n / 4096 * 4096 + n / 256 % 16 * 256 + n / 16 % 16 * 16 + n % 16
  {
    assert n / 16 / 16 == n / 256;
    assert n / 256 / 16 == n / 4096;
  }

  lemma UnicodeBack(c: char, rest: string)
    requires c as int < 0x1_0000
    ensures NextUnit(Unicode(c as int) + rest) == Some(Unit(c, 6))
  {
    var n := c as int;
    var s := Unicode(n) + rest;
    Digits16(n);
    HexInverse('a', n / 4096);
    HexInverse('a', n / 256 % 16);
    HexInverse('a', n / 16 % 16);
    HexInverse('a', n % 16);
    assert s[0] == '\\' && s[1] == 'u';
    assert s[2] == HexDigit('a', n / 4096) && s[3] == HexDigit('a', n / 256 % 16) && s[4] == HexDigit('a', n / 16 % 16) && s[5] == HexDigit('a', n % 16);
  }

  lemma EscapedCharBack(c: char, rest: string)
    ensures NextUnit(EscapeChar(c) + rest) == Some(Unit(c, |EscapeChar(c)|))
  {
    var s := EscapeChar(c) + rest;
    if |EscapeChar(c)| == 6 {
      UnicodeBack(c, rest);
    } else if |EscapeChar(c)| == 2 {
      assert s[0] == '\\' && s[1] == EscapeChar(c)[1];
    } else {
      assert s[0] == c;
    }
  }

  lemma {:induction false} ReadEscaped(p: string, rest: string)
    requires rest != [] && rest[0] == '"'
    ensures ReadBody(Escape(p) + rest) == Body(p, rest)
  {
    if p == [] {
      assert Escape(p) + rest == rest;
    } else {
      var tail := Escape(p[1..]) + rest;
      ReadEscaped(p[1..], rest);
      EscapedCharBack(p[0], tail);
      Assoc(EscapeChar(p[0]), Escape(p[1..]), rest);
      assert (EscapeChar(p[0]) + tail)[|EscapeChar(p[0])|..] == tail;
      assert p == [p[0]] + p[1..];
    }
  }

  lemma PrefixDrops(p: string, x: string)
    ensures HasPrefix(p + x, p) && (p + x)[|p|..] == x
  {
  }

  lemma InnerSlice(p: string, x: string, q: string)
    ensures (p + (x + q))[|p|..|p| + |x|] == x
  {
  }

  lemma TrailerBack(exp: int)
    requires -INT64_LIMIT <= exp < INT64_LIMIT
    ensures ParseTrailer(Trailer(exp)) == Some(exp)
    ensures Trailer(exp) != [] && Trailer(exp)[0] == '"'
  {
    var s := Trailer(exp);
    PrefixDrops(MIDDLE, Itoa(exp) + "}");
    ParseItoa(exp);
    InnerSlice(MIDDLE, Itoa(exp), "}");
  }

  /** The parser is a left inverse of the printer. */
  lemma EnvelopeRoundTrip(e: Envelope)
    requires -INT64_LIMIT <= e.exp < INT64_LIMIT
    ensures ParseEnvelope(Print(e)) == Some(e)
  {
    PrefixDrops(OPEN, Escape(e.p) + Trailer(e.exp));
    TrailerBack(e.exp);
    ReadEscaped(e.p, Trailer(e.exp));
  }

  /** What is printed needs no escape beyond JSON's own: no control character, no angle bracket or ampersand
      and no line separator is left in it, and characters that need none stand for themselves. */
  lemma {:induction false} EscapeIsSafe(p: string)
    ensures forall i :: 0 <= i < |Escape(p)| ==> SafeChar(Escape(p)[i])
    ensures (forall i :: 0 <= i < |p| ==> SafeChar(p[i]) && p[i] != '"' && p[i] != '\\') ==> Escape(p) == p
  {
    if p != [] {
      EscapeIsSafe(p[1..]);
      CharIsSafe(p[0]);
      assert p == [p[0]] + p[1..];
    }
  }

  ghost predicate SafeChar(c: char) {
    c as int >= 32 && c != '<' && c != '>' && c != '&' && c as int != 0x2028 && c as int != 0x2029
  }

  lemma CharIsSafe(c: char)
    ensures forall i :: 0 <= i < |EscapeChar(c)| ==> SafeChar(EscapeChar(c)[i])
    ensures SafeChar(c) && c != '"' && c != '\\' ==> EscapeChar(c) == [c]
  {
    if |EscapeChar(c)| == 6 {
      HexIsSafe(c as int / 4096);
      HexIsSafe(c as int / 256 % 16);
      HexIsSafe(c as int / 16 % 16);
      HexIsSafe(c as int % 16);
    }
  }

  lemma HexIsSafe(d: nat)
    requires d < 16
    ensures SafeChar(HexDigit('a', d))
  {
  }

  /** What a two-character escape stands for (section 7 of RFC 8259). */
  ghost predicate ShortEscape(c: char, x: char) {
    || (c == x && (c == '"' || c == '\\' || c == '/'))
    || (c == 'b' && x as int == 8) || (c == 'f' && x as int == 12) || (c == 'n' && x as int == 10)
    || (c == 'r' && x as int == 13) || (c == 't' && x as int == 9)
  }

  /** How a JSON string is read, character by character. */
  lemma NextUnitExact(s: string, x: char, n: nat)
    ensures NextUnit(s) == Some(Unit(x, n)) <==>
            || (n == 1 && s != [] && s[0] == x && x != '"' && x != '\\' && x as int >= 32)
            || (n == 2 && |s| >= 2 && s[0] == '\\' && ShortEscape(s[1], x))
            || (n == 6 && |s| >= 6 && s[0] == '\\' && s[1] == 'u' &&
                HexValue(s[2]).Some? && HexValue(s[3]).Some? && HexValue(s[4]).Some? && HexValue(s[5]).Some? &&
                x as int == ((HexValue(s[2]).value * 16 + HexValue(s[3]).value) * 16 + HexValue(s[4]).value) * 16 + HexValue(s[5]).value)
  {
    if |s| >= 6 && s[0] == '\\' && s[1] == 'u' {
      FourDigits(s[2], s[3], s[4], s[5], x);
    }
  }

  lemma FourDigits(a: char, b: char, c: char, d: char, x: char)
    ensures CodePoint(HexValue(a), HexValue(b), HexValue(c), HexValue(d)) == Some(Unit(x, 6)) <==>
            HexValue(a).Some? && HexValue(b).Some? && HexValue(c).Some? && HexValue(d).Some? &&
            x as int == ((HexValue(a).value * 16 + HexValue(b).value) * 16 + HexValue(c).value) * 16 + HexValue(d).value
  {
    Point(HexValue(a), HexValue(b), HexValue(c), HexValue(d), x);
  }

  lemma Point(a: Option<nat>, b: Option<nat>, c: Option<nat>, d: Option<nat>, x: char)
    requires (a.Some? ==> a.value < 16) && (b.Some? ==> b.value < 16) && (c.Some? ==> c.value < 16) && (d.Some? ==> d.value < 16)
    ensures CodePoint(a, b, c, d) == Some(Unit(x, 6)) <==>
            a.Some? && b.Some? && c.Some? && d.Some? && x as int == ((a.value * 16 + b.value) * 16 + c.value) * 16 + d.value
  {
  }

  // ---------------------------------------------------------------- mint and verify

  /** The index of the last `c`, or -1. */
  function LastIndex(s: string, c: char): (i: int)
    ensures -1 <= i < |s|
    ensures i >= 0 ==> s[i] == c
    ensures forall k :: i < k < |s| ==> s[k] != c
  {
    if s == [] then -1 else if s[|s| - 1] == c then |s| - 1 else LastIndex(s[..|s| - 1], c)
  }

  method LastIndexByte(s: string, b: char) returns (r: int)
    ensures -1 <= r < |s|
    ensures r >= 0 ==> s[r] == b
    ensures forall k :: r < k < |s| ==> s[k] != b
    ensures r == LastIndex(s, b)
  {
    var i := |s| - 1;
    while i >= 0
      invariant -1 <= i < |s|
      invariant forall k :: i < k < |s| ==> s[k] != b
    {
      if s[i] == b {
        return i;
      }
      i := i - 1;
    }
    r := -1;
  }

  function Signed(mac: Mac, key: Key, body: string): seq<byte> { mac(key, PREFIX + body) }

  function BodyOf(payload: string, now: Time): string {
    Base64.Encode(RawUrl, Utf8.Encode(Print(Envelope(payload, Unix(now + REQUEST_STATE_TTL)))))
  }

  function Wire(body: string, tag: string): string { PREFIX + body + ['.'] + tag }

  function Mint(mac: Mac, key: Key, payload: string, now: Time): string {
    Wire(BodyOf(payload, now), Base64.Encode(RawUrl, Signed(mac, key, BodyOf(payload, now))))
  }

  /** What a body says once its MAC has been checked. */
  function OpenBody(body: string): Option<Envelope> {
    match Base64.Decode(RawUrl, body)
    case None => None
    case Some(bytes) =>
      match Utf8.Decode(bytes)
      case None => None
      case Some(text) => ParseEnvelope(text)
  }

  function CheckBody(body: string, now: Time): Option<string> {
    match OpenBody(body)
    case None => None
    case Some(e) => if e.p == "" || e.exp < Unix(now) then None else Some(e.p)
  }

  /** Total on every string. */
  function Verify(mac: Mac, key: Key, state: string, now: Time): Option<string> {
    if !HasPrefix(state, PREFIX) then None
    else
      var dot := LastIndex(state, '.');
      if dot < |PREFIX| then None
      else
        var body, tag := state[|PREFIX|..dot], state[dot + 1..];
        if Base64.Decode(RawUrl, tag) != Some(Signed(mac, key, body)) then None
        else CheckBody(body, now)
  }

  // ---------------------------------------------------------------- theorems

  ghost predicate NoDot(s: string) { forall i :: 0 <= i < |s| ==> s[i] != '.' }

  lemma WireIndices(body: string, tag: string)
    ensures var w := Wire(body, tag);
            |w| == 4 + |body| + |tag| && HasPrefix(w, PREFIX) && w[3 + |body|] == '.'
            && w[3..3 + |body|] == body && w[3 + |body| + 1..] == tag
  {
    var w := Wire(body, tag);
    assert w == PREFIX + (body + ['.'] + tag);
    assert w == PREFIX + body + (['.'] + tag);
  }

  lemma LastDot(body: string, tag: string)
    requires NoDot(tag)
    ensures LastIndex(Wire(body, tag), '.') == 3 + |body|
  {
    WireIndices(body, tag);
    var w := Wire(body, tag);
    assert forall k :: 0 <= k < |tag| ==> w[4 + |body| + k] == tag[k];
    assert forall k :: 3 + |body| < k < |w| ==> w[k] == tag[k - 4 - |body|];
  }

  /** Verify on a wire string whose tag holds no dot. */
  lemma VerifyWire(mac: Mac, key: Key, body: string, tag: string, now: Time)
    requires NoDot(tag)
    ensures Verify(mac, key, Wire(body, tag), now) ==
            if Base64.Decode(RawUrl, tag) == Some(Signed(mac, key, body)) then CheckBody(body, now) else None
  {
    WireIndices(body, tag);
    LastDot(body, tag);
  }

  lemma SplitAtDot(state: string, dot: nat)
    requires HasPrefix(state, PREFIX) && 3 <= dot < |state| && state[dot] == '.'
    requires forall k :: dot < k < |state| ==> state[k] != '.'
    ensures state == Wire(state[3..dot], state[dot + 1..]) && NoDot(state[dot + 1..])
  {
    assert state[..3] + state[3..dot] + [state[dot]] + state[dot + 1..] == state;
  }

  /** The tag is the MAC of the version prefix and the body together. */
  ghost predicate Authentic(mac: Mac, key: Key, body: string, tag: string) {
    NoDot(tag) && Base64.Decode(RawUrl, tag) == Some(mac(key, "v1." + body))
  }

  /** The body holds a non-empty payload whose second of expiry has not passed. */
  ghost predicate Carries(body: string, now: Time, p: string) {
    p != "" && exists exp :: OpenBody(body) == Some(Envelope(p, exp)) && now / 1_000_000_000 <= exp
  }

  lemma AcceptedSplits(mac: Mac, key: Key, state: string, now: Time, p: string) returns (body: string, tag: string)
    requires Verify(mac, key, state, now) == Some(p)
    ensures state == "v1." + body + "." + tag && Authentic(mac, key, body, tag) && Carries(body, now, p)
  {
    var dot := LastIndex(state, '.');
    body, tag := state[3..dot], state[dot + 1..];
    SplitAtDot(state, dot);
  }

  lemma SplitIsAccepted(mac: Mac, key: Key, now: Time, p: string, body: string, tag: string)
    requires Authentic(mac, key, body, tag) && Carries(body, now, p)
    ensures Verify(mac, key, "v1." + body + "." + tag, now) == Some(p)
  {
    VerifyWire(mac, key, body, tag, now);
  }

  /** A string is accepted exactly when it is "v1.", a body, a dot and a tag without dots that decodes to
      the MAC of "v1." and the body, and the body holds a non-empty payload that has not expired. */
  lemma VerifyExact(mac: Mac, key: Key, state: string, now: Time, p: string)
    ensures Verify(mac, key, state, now) == Some(p) <==>
            exists body, tag :: state == "v1." + body + "." + tag && Authentic(mac, key, body, tag) && Carries(body, now, p)
  {
    if Verify(mac, key, state, now) == Some(p) {
      var body, tag := AcceptedSplits(mac, key, state, now, p);
    } else if exists body, tag :: state == "v1." + body + "." + tag && Authentic(mac, key, body, tag) && Carries(body, now, p) {
      var body, tag :| state == "v1." + body + "." + tag && Authentic(mac, key, body, tag) && Carries(body, now, p);
      SplitIsAccepted(mac, key, now, p, body, tag);
    }
  }

  lemma EncodedHasNoDot(b: seq<byte>)
    ensures NoDot(Base64.Encode(RawUrl, b))
  {
    EncodeIsClean(RawUrl, b);
  }

  /** A minted string is the version prefix, the body, a dot and the MAC of prefix and body; base64url has
      no dot, so it splits in no other way. */
  lemma MintedSplitUnique(mac: Mac, key: Key, payload: string, now: Time, body: string, tag: string)
    ensures Mint(mac, key, payload, now) == "v1." + body + "." + tag <==>
            body == BodyOf(payload, now) && tag == Base64.Encode(RawUrl, mac(key, "v1." + body))
  {
    var b := BodyOf(payload, now);
    var t := Base64.Encode(RawUrl, mac(key, "v1." + b));
    EncodedHasNoDot(Utf8.Encode(Print(Envelope(payload, Unix(now + REQUEST_STATE_TTL)))));
    EncodedHasNoDot(mac(key, "v1." + b));
    if Mint(mac, key, payload, now) == "v1." + body + "." + tag {
      OneSplit(b, t, body, tag);
    }
  }

  lemma OneSplit(b: string, t: string, body: string, tag: string)
    requires NoDot(b) && NoDot(t) && Wire(b, t) == Wire(body, tag)
    ensures b == body && t == tag
  {
    WireIndices(b, t);
    WireIndices(body, tag);
    LastDot(b, t);
    var w := Wire(b, t);
    assert forall k :: 0 <= k < |b| ==> w[3 + k] == b[k];
    assert |b| == |body|;
  }

  lemma OpenMinted(payload: string, now: Time)
    requires -INT64_LIMIT <= Unix(now + REQUEST_STATE_TTL) < INT64_LIMIT
    ensures OpenBody(BodyOf(payload, now)) == Some(Envelope(payload, Unix(now + REQUEST_STATE_TTL)))
  {
    var e := Envelope(payload, Unix(now + REQUEST_STATE_TTL));
    Base64.RoundTrip(RawUrl, Utf8.Encode(Print(e)));
    Utf8.RoundTrip(Print(e));
    EnvelopeRoundTrip(e);
  }

  /** A minted string verifies under a key exactly when that key gives prefix and body the same MAC, the
      payload is not empty and the second in which thirty-five minutes are over has not passed; then it
      returns the payload. */
  lemma MintVerify(mac: Mac, key: Key, other: Key, payload: string, t: Time, t': Time)
    requires -INT64_LIMIT <= Unix(t + REQUEST_STATE_TTL) < INT64_LIMIT
    ensures Verify(mac, other, Mint(mac, key, payload, t), t') ==
            if mac(other, "v1." + BodyOf(payload, t)) == mac(key, "v1." + BodyOf(payload, t)) &&
               payload != "" && t' / 1_000_000_000 <= (t + 2_100_000_000_000) / 1_000_000_000
            then Some(payload) else None
  {
    var body := BodyOf(payload, t);
    var tag := Base64.Encode(RawUrl, Signed(mac, key, body));
    EncodedHasNoDot(Signed(mac, key, body));
    VerifyWire(mac, other, body, tag, t');
    Base64.RoundTrip(RawUrl, Signed(mac, key, body));
    OpenMinted(payload, t);
  }

  /** A minted state outlives the wizard session it carries. */
  lemma OutlivesSession(mac: Mac, key: Key, session: string, t: Time, t': Time)
    requires -INT64_LIMIT <= Unix(t + REQUEST_STATE_TTL) < INT64_LIMIT
    requires session != "" && t' <= t + DEFAULT_SESSION_TTL
    ensures Verify(mac, key, Mint(mac, key, session, t), t') == Some(session)
  {
    MintVerify(mac, key, key, session, t, t');
  }

  // ---------------------------------------------------------------- integrity

  /** No two texts have the same MAC under this key. */
  ghost predicate CollisionFree(mac: Mac, key: Key) {
    forall x, y :: mac(key, x) == mac(key, y) ==> x == y
  }

  /** "v1.", "v2." and so on: one dot, at the end. */
  ghost predicate Version(v: string) {
    v != "" && v[|v| - 1] == '.' && NoDot(v[..|v| - 1])
  }

  lemma OneVersion(v: string, body: string, w: string, other: string)
    requires Version(v) && Version(w) && v + body == w + other
    ensures v == w && body == other
  {
    var s := v + body;
    assert s[|v| - 1] == '.' && s[|w| - 1] == (w + other)[|w| - 1] == '.';
    assert forall k :: 0 <= k < |v| - 1 ==> s[k] == v[..|v| - 1][k];
    assert forall k :: 0 <= k < |w| - 1 ==> s[k] == (w + other)[k] == w[..|w| - 1][k];
    assert |v| == |w|;
    assert v == s[..|v|] && w == (w + other)[..|w|];
    assert body == s[|v|..] && other == (w + other)[|w|..];
  }

  /** If nobody can find two texts with the same MAC, the tag of an accepted string fits no body but its
      own, and that only under its own version: neither another body nor another version can take it over. */
  lemma TagBindsBody(mac: Mac, key: Key, body: string, tag: string, v: string, other: string)
    requires CollisionFree(mac, key) && Authentic(mac, key, body, tag) && Version(v)
    ensures Base64.Decode(RawUrl, tag) == Some(mac(key, v + other)) <==> v == "v1." && other == body
  {
    if Base64.Decode(RawUrl, tag) == Some(mac(key, v + other)) {
      assert v + other == "v1." + body;
      OneVersion(v, other, "v1.", body);
    }
  }

  /** So whatever is put in front of a minted tag, it is accepted only as what was minted, and a body that
      was not minted with it is refused. */
  lemma MintedTagBinds(mac: Mac, key: Key, payload: string, t: Time, body: string, t': Time)
    requires CollisionFree(mac, key) && -INT64_LIMIT <= Unix(t + REQUEST_STATE_TTL) < INT64_LIMIT
    ensures var tag := Base64.Encode(RawUrl, mac(key, "v1." + BodyOf(payload, t)));
            var r := Verify(mac, key, "v1." + body + "." + tag, t');
            (r.Some? <==> body == BodyOf(payload, t) && payload != "" && t' / 1_000_000_000 <= (t + 2_100_000_000_000) / 1_000_000_000) &&
            (r.Some? ==> r == Some(payload))
  {
    var own := BodyOf(payload, t);
    var tag := Base64.Encode(RawUrl, mac(key, "v1." + own));
    EncodedHasNoDot(mac(key, "v1." + own));
    Base64.RoundTrip(RawUrl, mac(key, "v1." + own));
    VerifyWire(mac, key, body, tag, t');
    if body == own {
      MintedSplitUnique(mac, key, payload, t, body, tag);
      MintVerify(mac, key, key, payload, t, t');
    } else {
      TagBindsBody(mac, key, own, tag, "v1.", body);
    }
  }
}
