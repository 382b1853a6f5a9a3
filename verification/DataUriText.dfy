/** The file data URI as text: which strings are refused and why, and what is read off the accepted ones,
    told without the parser's own steps. */
module DataUriText {
  import opened Prelude
  import opened Base64
  import opened Text
  import opened DataUri

  // ---------------------------------------------------------------- splitting and trimming

  lemma {:induction false} JoinSplit(s: string, sep: char)
    ensures Split(s, sep) != [] && Join(Split(s, sep), sep) == s
    ensures forall i :: 0 <= i < |Split(s, sep)| ==> sep !in Split(s, sep)[i]
    decreases |s|
  {
    var i := IndexByte(s, sep);
    if i >= 0 {
      JoinSplit(s[i + 1..], sep);
      JoinCons(s[..i], Split(s[i + 1..], sep), sep);
      assert s == s[..i] + [s[i]] + s[i + 1..];
    }
  }

  /** White space is a blank or one of the control characters 9 to 13. */
  ghost predicate Blank(s: string) {
    forall i :: 0 <= i < |s| ==> s[i] == ' ' || 9 <= s[i] as int <= 13
  }

  /** `s` is `x` between white space, and `x` neither begins nor ends with any. */
  ghost predicate Trimmed(s: string, x: string) {
    && (x != [] ==> !Blank(x[..1]) && !Blank(x[|x| - 1..]))
    && exists l, r :: s == l + x + r && Blank(l) && Blank(r)
  }

  lemma {:induction false} TrimLeftExact(s: string) returns (l: string)
    ensures s == l + TrimLeft(s) && Blank(l)
    ensures TrimLeft(s) != [] ==> !Space(TrimLeft(s)[0])
  {
    l := [];
    if s != [] && Space(s[0]) {
      var rest := TrimLeftExact(s[1..]);
      l := [s[0]] + rest;
      Assoc([s[0]], rest, TrimLeft(s));
      HeadAndTail(s);
    }
  }

  lemma {:induction false} TrimRightExact(s: string) returns (r: string)
    ensures s == TrimRight(s) + r && Blank(r)
    ensures TrimRight(s) != [] ==> !Space(TrimRight(s)[|TrimRight(s)| - 1])
  {
    r := [];
    if s != [] && Space(s[|s| - 1]) {
      var u := s[..|s| - 1];
      var rest := TrimRightExact(u);
      r := rest + [s[|s| - 1]];
      Assoc(TrimRight(u), rest, [s[|s| - 1]]);
      assert s == u + [s[|s| - 1]];
    }
  }

  lemma TrimIsTrimmed(s: string)
    ensures Trimmed(s, TrimSpace(s))
  {
    var t := TrimLeft(s);
    var l := TrimLeftExact(s);
    var r := TrimRightExact(t);
    Assoc(l, TrimSpace(s), r);
    if TrimSpace(s) != [] {
      EndsAreText(TrimSpace(s), t, r);
    }
  }

  lemma EndsAreText(x: string, t: string, r: string)
    requires x != [] && t == x + r && !Space(t[0]) && !Space(x[|x| - 1])
    ensures !Blank(x[..1]) && !Blank(x[|x| - 1..])
  {
    assert x[..1][0] == t[0] && x[|x| - 1..][0] == x[|x| - 1];
  }

  lemma TrimmedOnce(s: string, x: string, y: string)
    requires Trimmed(s, x) && Trimmed(s, y)
    ensures x == y
  {
    var l, r :| s == l + x + r && Blank(l) && Blank(r);
    var k, q :| s == k + y + q && Blank(k) && Blank(q);
    if x != [] {
      TrimmedEnds(s, l, x, r, k, y, q);
    } else if y != [] {
      TrimmedEnds(s, k, y, q, l, x, r);
    }
  }

  /** A character that is no white space lies in the middle part of every trimming. */
  lemma Inside(s: string, l: string, x: string, r: string, i: nat)
    requires s == l + x + r && Blank(l) && Blank(r) && i < |s| && !(s[i] == ' ' || 9 <= s[i] as int <= 13)
    ensures |l| <= i < |l| + |x|
  {
    assert forall j :: 0 <= j < |l| ==> s[j] == l[j];
    assert forall j :: |l| + |x| <= j < |s| ==> s[j] == r[j - |l| - |x|];
  }

  lemma TrimmedEnds(s: string, l: string, x: string, r: string, k: string, y: string, q: string)
    requires s == l + x + r && Blank(l) && Blank(r) && s == k + y + q && Blank(k) && Blank(q)
    requires x != [] && !Blank(x[..1]) && !Blank(x[|x| - 1..])
    requires y != [] ==> !Blank(y[..1]) && !Blank(y[|y| - 1..])
    ensures x == y
  {
    assert s[|l|] == x[..1][0] && s[|l| + |x| - 1] == x[|x| - 1..][0];
    Inside(s, k, y, q, |l|);
    Inside(s, k, y, q, |l| + |x| - 1);
    assert s[|k|] == y[..1][0] && s[|k| + |y| - 1] == y[|y| - 1..][0];
    Inside(s, l, x, r, |k|);
    Inside(s, l, x, r, |k| + |y| - 1);
    assert x == s[|l|..|l| + |x|] && y == s[|k|..|k| + |y|];
  }

  lemma TrimExact(s: string, x: string)
    ensures Trimmed(s, x) <==> TrimSpace(s) == x
  {
    TrimIsTrimmed(s);
    if Trimmed(s, x) {
      TrimmedOnce(s, x, TrimSpace(s));
    }
  }

  // ---------------------------------------------------------------- the fields

  /** The part says that the payload is base64. */
  ghost predicate Base64Field(part: string) { Trimmed(part, "base64") }

  /** The part gives a size: `size=` and a 64-bit number. */
  ghost predicate SizeField(part: string, n: int) {
    exists t :: Trimmed(part, "size=" + t) && ParseInt(t) == Some(n)
  }

  /** The part gives a name; one that does not unescape stands for no name. */
  ghost predicate NameField(part: string, v: string) {
    exists t :: Trimmed(part, "name=" + t) && v == if QueryUnescape(t).Some? then QueryUnescape(t).value else ""
  }

  /** The part gives a MIME type: it begins with `mime=` or holds a slash, and is no name or size. */
  ghost predicate MimeField(part: string, v: string) {
    && Trimmed(part, v)
    && ((exists t :: v == "mime=" + t) || '/' in v)
    && !(exists t :: v == "name=" + t || v == "size=" + t)
  }

  /** `v` is what the last field of its kind gives, or `none` if there is no such field. */
  ghost predicate LastField<T(!new)>(parts: seq<string>, field: (string, T) -> bool, none: T, v: T) {
    || (exists i :: 0 <= i < |parts| && field(parts[i], v) && forall j, w :: i < j < |parts| ==> !field(parts[j], w))
    || (v == none && forall j, w :: 0 <= j < |parts| ==> !field(parts[j], w))
  }

  lemma PrefixedIs(x: string, p: string)
    ensures HasPrefix(x, p) <==> exists t :: x == p + t
  {
    if HasPrefix(x, p) {
      assert x == p + x[|p|..];
    }
    if t :| x == p + t {
      assert x[..|p|] == p;
    }
  }

  lemma SizeFieldExact(part: string, n: int)
    ensures SizeField(part, n) <==> HasPrefix(TrimSpace(part), "size=") && ParseInt(TrimSpace(part)[5..]) == Some(n)
  {
    var x := TrimSpace(part);
    TrimExact(part, x);
    if t :| Trimmed(part, "size=" + t) && ParseInt(t) == Some(n) {
      TrimExact(part, "size=" + t);
      assert x[..5] == "size=" && x[5..] == t;
    }
    if HasPrefix(x, "size=") {
      assert x == "size=" + x[5..];
    }
  }

  lemma NameFieldExact(part: string, v: string)
    ensures NameField(part, v) <==>
            HasPrefix(TrimSpace(part), "name=") &&
            v == if QueryUnescape(TrimSpace(part)[5..]).Some? then QueryUnescape(TrimSpace(part)[5..]).value else ""
  {
    var x := TrimSpace(part);
    TrimExact(part, x);
    if t :| Trimmed(part, "name=" + t) && v == if QueryUnescape(t).Some? then QueryUnescape(t).value else "" {
      TrimExact(part, "name=" + t);
      assert x[..5] == "name=" && x[5..] == t;
    }
    if HasPrefix(x, "name=") {
      assert x == "name=" + x[5..];
    }
  }

  lemma MimeFieldExact(part: string, v: string)
    ensures MimeField(part, v) <==>
            v == TrimSpace(part) && (HasPrefix(v, "mime=") || '/' in v) && !HasPrefix(v, "name=") && !HasPrefix(v, "size=")
  {
    TrimExact(part, v);
    PrefixedIs(v, "mime=");
    PrefixedIs(v, "name=");
    PrefixedIs(v, "size=");
  }

  /** What one part adds, field by field. */
  lemma StepFields(m: Meta, part: string)
    ensures PartStep(m, part).base64 <==> m.base64 || Base64Field(part)
    ensures forall n :: SizeField(part, n) ==> PartStep(m, part).opt.size == n
    ensures (forall n :: !SizeField(part, n)) ==> PartStep(m, part).opt.size == m.opt.size
    ensures forall v :: NameField(part, v) ==> PartStep(m, part).opt.name == v
    ensures (forall v :: !NameField(part, v)) ==> PartStep(m, part).opt.name == m.opt.name
    ensures forall v :: MimeField(part, v) ==> PartStep(m, part).opt.mime == v
    ensures (forall v :: !MimeField(part, v)) ==> PartStep(m, part).opt.mime == m.opt.mime
  {
    var x := TrimSpace(part);
    TrimExact(part, "base64");
    forall n ensures SizeField(part, n) <==> HasPrefix(x, "size=") && ParseInt(x[5..]) == Some(n) { SizeFieldExact(part, n); }
    forall v
      ensures NameField(part, v) <==>
              HasPrefix(x, "name=") && v == if QueryUnescape(x[5..]).Some? then QueryUnescape(x[5..]).value else ""
    {
      NameFieldExact(part, v);
    }
    forall v
      ensures MimeField(part, v) <==> v == x && (HasPrefix(x, "mime=") || '/' in x) && !HasPrefix(x, "name=") && !HasPrefix(x, "size=")
    {
      MimeFieldExact(part, v);
    }
    OneKind(x);
    if HasPrefix(x, "name=") {
      assert NameField(part, if QueryUnescape(x[5..]).Some? then QueryUnescape(x[5..]).value else "");
    }
    if HasPrefix(x, "size=") && ParseInt(x[5..]).Some? {
      assert SizeField(part, ParseInt(x[5..]).value);
    }
    if (HasPrefix(x, "mime=") || '/' in x) && !HasPrefix(x, "name=") && !HasPrefix(x, "size=") {
      assert MimeField(part, x);
    }
  }

  lemma OneKind(x: string)
    ensures x == "base64" ==> !HasPrefix(x, "name=") && !HasPrefix(x, "size=") && !HasPrefix(x, "mime=") && '/' !in x
    ensures HasPrefix(x, "name=") ==> !HasPrefix(x, "size=") && !HasPrefix(x, "mime=")
    ensures HasPrefix(x, "size=") ==> !HasPrefix(x, "mime=")
  {
    assert HasPrefix(x, "name=") ==> x[0] == x[..5][0] == 'n';
    assert HasPrefix(x, "size=") ==> x[0] == x[..5][0] == 's';
    assert HasPrefix(x, "mime=") ==> x[0] == x[..5][0] == 'm';
  }

  lemma {:induction false} FoldSnoc(m: Meta, parts: seq<string>, part: string)
    ensures FoldParts(m, parts + [part]) == PartStep(FoldParts(m, parts), part)
    decreases |parts|
  {
    if parts == [] {
      assert [part][1..] == [] && parts + [part] == [part];
    } else {
      assert (parts + [part])[1..] == parts[1..] + [part];
      FoldSnoc(PartStep(m, parts[0]), parts[1..], part);
    }
  }

  lemma LastSnoc<T(!new)>(parts: seq<string>, field: (string, T) -> bool, none: T, v: T, part: string, w: T)
    requires LastField(parts, field, none, v)
    requires field(part, w) || (w == v && forall u :: !field(part, u))
    ensures LastField(parts + [part], field, none, w)
  {
    var all := parts + [part];
    if field(part, w) {
      assert field(all[|parts|], w);
    } else {
      assert forall j :: 0 <= j < |parts| ==> all[j] == parts[j];
      if i :| 0 <= i < |parts| && field(parts[i], v) && forall j, u :: i < j < |parts| ==> !field(parts[j], u) {
        assert field(all[i], v);
        assert forall j, u :: i < j < |all| ==> !field(all[j], u);
      } else {
        assert forall j, u :: 0 <= j < |all| ==> !field(all[j], u);
      }
    }
  }

  lemma {:induction false} FoldFields(parts: seq<string>)
    ensures FieldsOf(parts, FoldParts(NO_META, parts))
  {
    if parts != [] {
      var k := |parts| - 1;
      var rest, part := parts[..k], parts[k];
      FoldFields(rest);
      FoldSnoc(NO_META, rest, part);
      assert parts == rest + [part];
      FieldsSnoc(rest, part, FoldParts(NO_META, rest));
    }
  }

  /** What the fields of some parts give. */
  ghost predicate FieldsOf(parts: seq<string>, m: Meta) {
    && (m.base64 <==> exists i :: 0 <= i < |parts| && Base64Field(parts[i]))
    && LastField(parts, SizeField, 0, m.opt.size)
    && LastField(parts, NameField, "", m.opt.name)
    && LastField(parts, MimeField, "", m.opt.mime)
  }

  lemma FieldsSnoc(parts: seq<string>, part: string, m: Meta)
    requires FieldsOf(parts, m)
    ensures FieldsOf(parts + [part], PartStep(m, part))
  {
    var n := PartStep(m, part);
    StepFields(m, part);
    Base64Snoc(parts, part, m.base64);
    LastSnoc(parts, SizeField, 0, m.opt.size, part, n.opt.size);
    LastSnoc(parts, NameField, "", m.opt.name, part, n.opt.name);
    LastSnoc(parts, MimeField, "", m.opt.mime, part, n.opt.mime);
  }

  lemma Base64Snoc(parts: seq<string>, part: string, before: bool)
    requires before <==> exists i :: 0 <= i < |parts| && Base64Field(parts[i])
    ensures before || Base64Field(part) <==> exists i :: 0 <= i < |parts + [part]| && Base64Field((parts + [part])[i])
  {
    var all := parts + [part];
    assert all[|parts|] == part && forall i :: 0 <= i < |parts| ==> all[i] == parts[i];
  }

  lemma LastOnce<T(!new)>(parts: seq<string>, field: (string, T) -> bool, none: T, v: T, w: T)
    requires LastField(parts, field, none, v) && LastField(parts, field, none, w)
    requires forall part, a, b :: field(part, a) && field(part, b) ==> a == b
    ensures v == w
  {
  }

  // ---------------------------------------------------------------- refusals

  /** `uri` is "data:", the parts joined by semicolons, a comma and the payload; this splits every data URI
      with a comma in one way. */
  ghost predicate Reads(uri: string, parts: seq<string>, payload: string) {
    && parts != [] && (forall i :: 0 <= i < |parts| ==> ';' !in parts[i] && ',' !in parts[i])
    && uri == "data:" + Join(parts, ';') + [','] + payload
  }

  lemma ReadsIsParsed(uri: string, parts: seq<string>, payload: string, cap: int)
    requires Reads(uri, parts, payload)
    ensures Parse(uri, cap) == CheckPayload(FoldParts(NO_META, parts), payload, cap)
  {
    var meta := Join(parts, ';');
    JoinHasNo(',', parts, ';');
    IndexOfFirst("data:" + meta, ',', payload);
    SplitJoin(parts, ';');
    assert uri[..5] == "data:" && uri[5..5 + |meta|] == meta && uri[5 + |meta| + 1..] == payload;
    if meta == "" {
      PlainParts(NO_META);
      assert parts == [""] && [""][1..] == [];
    }
  }

  lemma ReadsExists(uri: string) returns (parts: seq<string>, payload: string)
    requires |uri| >= 5 && uri[..5] == "data:" && ',' in uri
    ensures Reads(uri, parts, payload)
  {
    var comma := IndexByte(uri, ',');
    CommaAfterScheme(uri);
    var meta := uri[5..comma];
    JoinSplit(meta, ';');
    parts, payload := Split(meta, ';'), uri[comma + 1..];
    assert uri == uri[..5] + meta + [uri[comma]] + payload;
    assert ',' !in meta;
    NoneInParts(',', parts, ';');
  }

  lemma {:induction false} NoneInParts(c: char, parts: seq<string>, sep: char)
    requires parts != [] && c !in Join(parts, sep)
    ensures forall i :: 0 <= i < |parts| ==> c !in parts[i]
  {
    if |parts| > 1 {
      NoneInParts(c, parts[1..], sep);
    }
  }

  /** Without the scheme or a comma nothing is read at all. */
  lemma NotADataUri(uri: string, cap: int)
    ensures Parse(uri, cap) == NotDataUri <==> !(|uri| >= 5 && uri[..5] == "data:")
    ensures Parse(uri, cap) == NoComma <==> |uri| >= 5 && uri[..5] == "data:" && ',' !in uri
  {
  }

  /** The encoded length that passes the cheap filter: twice the cap in 64-bit arithmetic. */
  ghost function EncodedLimit(cap: int): int {
    if cap >= 0x4000_0000_0000_0000 then 2 * cap - 0x1_0000_0000_0000_0000
    else if cap < -0x4000_0000_0000_0000 then 2 * cap + 0x1_0000_0000_0000_0000
    else 2 * cap
  }

  lemma WrapsToLimit(cap: int)
    requires -INT64_LIMIT <= cap < INT64_LIMIT
    ensures Wrap64(cap * 2) == EncodedLimit(cap)
  {
  }

  /** Why a data URI with a comma is refused, for every one of them, and what is read off the others: the
      fields decide in this order, with the size that the last size field declares. */
  lemma ParseExact(uri: string, parts: seq<string>, payload: string, declared: int, cap: int)
    requires Reads(uri, parts, payload) && LastField(parts, SizeField, 0, declared) && -INT64_LIMIT <= cap < INT64_LIMIT
    ensures var r := Parse(uri, cap);
            var base64 := exists i :: 0 <= i < |parts| && Base64Field(parts[i]);
            var short := |payload| <= EncodedLimit(cap);
            var honest := declared == 0 || declared == DecodedLen(payload);
            && (r == NotBase64 <==> !base64)
            && (r == EncodedTooLarge <==> base64 && !short)
            && (r == DeclaredMismatch <==> base64 && short && !honest)
            && (r == OverCap <==> base64 && short && honest && DecodedLen(payload) > cap)
            && (r.Parsed? <==> base64 && short && honest && DecodedLen(payload) <= cap)
            && (r.Parsed? ==>
                  && r.payload == payload && r.opt.size == DecodedLen(payload)
                  && LastField(parts, NameField, "", r.opt.name) && LastField(parts, MimeField, "", r.opt.mime))
  {
    var m := FoldParts(NO_META, parts);
    ReadsIsParsed(uri, parts, payload, cap);
    FoldFields(parts);
    DeclaredOnce(parts, declared, m.opt.size);
    Checked(m, payload, declared, cap);
  }

  lemma DeclaredOnce(parts: seq<string>, a: int, b: int)
    requires LastField(parts, SizeField, 0, a) && LastField(parts, SizeField, 0, b)
    ensures a == b
  {
    forall part, x, y | SizeField(part, x) && SizeField(part, y) ensures x == y {
      SizeFieldExact(part, x);
      SizeFieldExact(part, y);
    }
    LastOnce(parts, SizeField, 0, a, b);
  }

  /** The checks in their order. */
  lemma Checked(m: Meta, payload: string, declared: int, cap: int)
    requires m.opt.size == declared && -INT64_LIMIT <= cap < INT64_LIMIT
    ensures var r := CheckPayload(m, payload, cap);
            var short := |payload| <= EncodedLimit(cap);
            var honest := declared == 0 || declared == DecodedLen(payload);
            && (r == NotBase64 <==> !m.base64)
            && (r == EncodedTooLarge <==> m.base64 && !short)
            && (r == DeclaredMismatch <==> m.base64 && short && !honest)
            && (r == OverCap <==> m.base64 && short && honest && DecodedLen(payload) > cap)
            && (r.Parsed? <==> m.base64 && short && honest && DecodedLen(payload) <= cap)
            && (r.Parsed? ==> r == Parsed(FileOption(m.opt.mime, m.opt.name, DecodedLen(payload)), payload))
  {
    WrapsToLimit(cap);
  }

  /** So whatever is accepted is a data URI with a base64 field before its first comma. */
  lemma AcceptedIsBase64(uri: string, cap: int)
    requires Parse(uri, cap).Parsed? && -INT64_LIMIT <= cap < INT64_LIMIT
    ensures |uri| >= 5 && uri[..5] == "data:" && ',' in uri
    ensures exists parts, payload :: Reads(uri, parts, payload) && exists i :: 0 <= i < |parts| && Base64Field(parts[i])
  {
    NotADataUri(uri, cap);
    var parts, payload := ReadsExists(uri);
    FoldFields(parts);
    ParseExact(uri, parts, payload, FoldParts(NO_META, parts).opt.size, cap);
  }

  // ---------------------------------------------------------------- names

  /** `c` is a hexadecimal digit, of either case, with value `d`. */
  ghost predicate HexDigitOf(c: char, d: nat) {
    d < 16 && (c == "0123456789abcdef"[d] || c == "0123456789ABCDEF"[d])
  }

  lemma HexExact(c: char, d: nat)
    ensures HexDigitOf(c, d) <==> HexValue(c) == Some(d)
  {
  }

  /** One escape: a plus for a blank, a percent sign with two hexadecimal digits, or a character as it is. */
  ghost predicate Stands(x: string, c: char) {
    || (x == "+" && c == ' ')
    || (x == [c] && c != '%' && c != '+')
    || (|x| == 3 && x[0] == '%' && exists a: nat, b: nat :: HexDigitOf(x[1], a) && HexDigitOf(x[2], b) && c as int == 16 * a + b)
  }

  /** `s` is a row of escapes for the characters of `t`. */
  ghost predicate Escapes(xs: seq<string>, s: string, t: string) {
    |xs| == |t| && Concat(xs) == s && forall i :: 0 <= i < |xs| ==> Stands(xs[i], t[i])
  }

  lemma StandsFirst(x: string, c: char, rest: string)
    requires Stands(x, c)
    ensures QueryUnescape(x + rest) == Prepend(c, QueryUnescape(rest))
  {
    if |x| == 3 {
      HexFirst(x, c, rest);
    } else {
      assert (x + rest)[1..] == rest;
    }
  }

  lemma HexFirst(x: string, c: char, rest: string)
    requires |x| == 3 && Stands(x, c)
    ensures QueryUnescape(x + rest) == Prepend(c, QueryUnescape(rest))
  {
    var a: nat, b: nat :| HexDigitOf(x[1], a) && HexDigitOf(x[2], b) && c as int == 16 * a + b;
    HexExact(x[1], a);
    HexExact(x[2], b);
    var s := x + rest;
    assert s[0] == '%' && s[1] == x[1] && s[2] == x[2] && s[3..] == rest;
    assert (16 * a + b) as char == c;
  }

  lemma {:induction false} EscapesDecode(xs: seq<string>, s: string, t: string)
    requires Escapes(xs, s, t)
    ensures QueryUnescape(s) == Some(t)
  {
    if xs != [] {
      EscapesDecode(xs[1..], Concat(xs[1..]), t[1..]);
      StandsFirst(xs[0], t[0], Concat(xs[1..]));
      HeadAndTail(t);
    }
  }

  /** The escape at the head of a text that unescapes. */
  lemma FirstEscape(s: string) returns (x: string)
    requires s != [] && QueryUnescape(s).Some?
    ensures x != [] && x <= s && QueryUnescape(s[|x|..]).Some? && QueryUnescape(s).value != []
    ensures Stands(x, QueryUnescape(s).value[0]) && QueryUnescape(s).value[1..] == QueryUnescape(s[|x|..]).value
  {
    if s[0] == '%' {
      x := s[..3];
      HexExact(s[1], HexValue(s[1]).value);
      HexExact(s[2], HexValue(s[2]).value);
    } else {
      x := s[..1];
    }
  }

  lemma {:induction false} DecodedEscapes(s: string) returns (xs: seq<string>)
    requires QueryUnescape(s).Some?
    ensures Escapes(xs, s, QueryUnescape(s).value)
    decreases |s|
  {
    xs := [];
    if s != [] {
      var x := FirstEscape(s);
      var rest := DecodedEscapes(s[|x|..]);
      xs := [x] + rest;
      EscapesCons(x, rest, s, QueryUnescape(s).value);
    }
  }

  lemma EscapesCons(x: string, rest: seq<string>, s: string, t: string)
    requires t != [] && x <= s && Stands(x, t[0]) && Escapes(rest, s[|x|..], t[1..])
    ensures Escapes([x] + rest, s, t)
  {
    var xs := [x] + rest;
    assert xs[1..] == rest && s == x + s[|x|..];
    assert forall i :: 1 <= i < |xs| ==> xs[i] == rest[i - 1] && t[i] == t[1..][i - 1];
  }

  /** Which names unescape, and to what: exactly those that are rows of escapes. */
  lemma UnescapeExact(s: string, t: string)
    ensures QueryUnescape(s) == Some(t) <==> exists xs :: Escapes(xs, s, t)
  {
    if QueryUnescape(s) == Some(t) {
      var xs := DecodedEscapes(s);
    } else if xs :| Escapes(xs, s, t) {
      EscapesDecode(xs, s, t);
    }
  }

  // ---------------------------------------------------------------- numbers

  ghost predicate Zeros(s: string) { forall i :: 0 <= i < |s| ==> s[i] == '0' }

  /** Digits of a number, perhaps behind zeros. */
  ghost predicate Spells(s: string, n: nat) {
    exists z :: Zeros(z) && s == z + Digits(n)
  }

  lemma {:induction false} MagnitudeSpells(s: string)
    requires s != [] && Magnitude(s).Some?
    ensures Spells(s, Magnitude(s).value)
  {
    var u, c := s[..|s| - 1], s[|s| - 1];
    assert s == u + [c];
    if u == [] {
      OneDigit(c);
      assert s == [] + [c] && Zeros([]);
    } else {
      MagnitudeSpells(u);
      SpellsSnoc(u, Magnitude(u).value, c);
    }
  }

  lemma OneDigit(c: char)
    requires Digit(c)
    ensures Digits(DigitValue(c)) == [c]
  {
  }

  lemma NextDigit(m: nat, c: char)
    requires Digit(c) && m > 0
    ensures Digits(10 * m + DigitValue(c)) == Digits(m) + [c]
  {
  }

  lemma SpellsSnoc(u: string, m: nat, c: char)
    requires Spells(u, m) && Digit(c)
    ensures Spells(u + [c], 10 * m + DigitValue(c))
  {
    var z :| Zeros(z) && u == z + Digits(m);
    if m == 0 {
      OneDigit(c);
      OneDigit('0');
      assert Zeros(z + ['0']) && u + [c] == (z + ['0']) + [c];
    } else {
      NextDigit(m, c);
      Assoc(z, Digits(m), [c]);
    }
  }

  lemma {:induction false} ZerosInFront(z: string, s: string)
    requires Zeros(z)
    ensures Magnitude(z + s) == Magnitude(s)
  {
    if s == [] {
      assert z + s == z;
      MagnitudeOfZeros(z);
    } else {
      assert (z + s)[..|z + s| - 1] == z + s[..|s| - 1];
      ZerosInFront(z, s[..|s| - 1]);
    }
  }

  lemma {:induction false} MagnitudeOfZeros(z: string)
    requires Zeros(z)
    ensures Magnitude(z) == Some(0)
  {
    if z != [] {
      MagnitudeOfZeros(z[..|z| - 1]);
    }
  }

  lemma SpellsExact(s: string, n: nat)
    ensures Spells(s, n) <==> s != [] && Magnitude(s) == Some(n)
  {
    if s != [] && Magnitude(s) == Some(n) {
      MagnitudeSpells(s);
    }
    if z :| Zeros(z) && s == z + Digits(n) {
      ZerosInFront(z, Digits(n));
      MagnitudeOfDigits(n);
    }
  }

  /** `s` is a sign, or none, and then zeros and the decimal digits of `n`. */
  ghost predicate Numeral(s: string, sign: string, n: int) {
    && |sign| <= |s| && s[..|sign|] == sign && Spells(s[|sign|..], if n < 0 then -n else n)
    && (if n < 0 then sign == "-" else if n > 0 then sign == "" || sign == "+" else sign == "" || sign == "+" || sign == "-")
  }

  /** Which texts are 64-bit numbers, and which. */
  lemma ParseIntExact(s: string, n: int)
    ensures ParseInt(s) == Some(n) <==>
            -0x8000_0000_0000_0000 <= n < 0x8000_0000_0000_0000 && exists sign :: Numeral(s, sign, n)
  {
    if ParseInt(s) == Some(n) {
      ParsedIsNumeral(s, n);
    }
    if -0x8000_0000_0000_0000 <= n < 0x8000_0000_0000_0000 {
      if sign :| Numeral(s, sign, n) {
        NumeralParses(s, sign, n);
      }
    }
  }

  lemma ParsedIsNumeral(s: string, n: int)
    requires ParseInt(s) == Some(n)
    ensures -0x8000_0000_0000_0000 <= n < 0x8000_0000_0000_0000
    ensures exists sign :: Numeral(s, sign, n)
  {
    var sign := if s[0] == '-' || s[0] == '+' then s[..1] else s[..0];
    SpellsExact(s[|sign|..], if n < 0 then -n else n);
    assert s[0..] == s;
    assert Numeral(s, sign, n);
  }

  lemma NumeralParses(s: string, sign: string, n: int)
    requires Numeral(s, sign, n) && -0x8000_0000_0000_0000 <= n < 0x8000_0000_0000_0000
    ensures ParseInt(s) == Some(n)
  {
    SpellsExact(s[|sign|..], if n < 0 then -n else n);
    SignIsSign(s, sign, s[|sign|..]);
  }

  lemma SignIsSign(s: string, sign: string, d: string)
    requires |sign| <= |s| && s[..|sign|] == sign && d == s[|sign|..]
    requires (sign == "" || sign == "-" || sign == "+") && d != [] && Magnitude(d).Some?
    ensures ParseInt(s) == Signed(sign == "-", Magnitude(d))
  {
    FirstIsDigit(d);
    if sign == "" {
      assert d == s;
    } else {
      assert s[0] == sign[0];
    }
  }

  lemma {:induction false} FirstIsDigit(d: string)
    requires d != [] && Magnitude(d).Some?
    ensures Digit(d[0])
  {
    if |d| > 1 {
      FirstIsDigit(d[..|d| - 1]);
    }
  }

  /** The digits are the decimal ones in ASCII, most significant first. */
  lemma DigitsAreDecimal(n: nat)
    ensures |Digits(n)| > 0 && Digits(n)[|Digits(n)| - 1] as int == 48 + n % 10
    ensures n >= 10 ==> Digits(n)[..|Digits(n)| - 1] == Digits(n / 10)
    ensures n < 10 ==> |Digits(n)| == 1
  {
  }
}
