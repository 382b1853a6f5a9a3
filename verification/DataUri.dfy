/** The data: URI that carries one file (RFC 2397 section 2), as the file-input relay parses it. */
module DataUri {
  import opened Prelude
  import opened Base64
  import opened Text
  import opened BoundedReader

  // ---------------------------------------------------------------- percent encoding of names

  predicate Unreserved(c: char) {
    'a' <= c <= 'z' || 'A' <= c <= 'Z' || '0' <= c <= '9' || c == '-' || c == '_' || c == '.' || c == '~'
  }

  /** One byte per character. */
  predicate Bytes(s: string) { forall i :: 0 <= i < |s| ==> s[i] as int < 256 }

  function EscapeChar(c: char): string
    requires c as int < 256
  {
    if c == ' ' then ['+']
    else if Unreserved(c) then [c]
    else ['%', HexDigit('A', c as int / 16), HexDigit('A', c as int % 16)]
  }

  function QueryEscape(s: string): string
    requires Bytes(s)
  {
    if s == [] then [] else EscapeChar(s[0]) + QueryEscape(s[1..])
  }

  function Prepend(c: char, rest: Option<string>): Option<string> {
    match rest
    case None => None
    case Some(r) => Some([c] + r)
  }

  function QueryUnescape(s: string): Option<string> {
    if s == [] then Some([])
    else if s[0] == '%' then
      if |s| < 3 || HexValue(s[1]).None? || HexValue(s[2]).None? then None
      else Prepend((HexValue(s[1]).value * 16 + HexValue(s[2]).value) as char, QueryUnescape(s[3..]))
    else Prepend(if s[0] == '+' then ' ' else s[0], QueryUnescape(s[1..]))
  }

  lemma UnescapeChar(c: char, rest: string)
    requires c as int < 256
    ensures QueryUnescape(EscapeChar(c) + rest) == Prepend(c, QueryUnescape(rest))
  {
    HexInverse('A', c as int / 16);
    HexInverse('A', c as int % 16);
    var s := EscapeChar(c) + rest;
    assert s[|EscapeChar(c)|..] == rest;
  }

  lemma HeadAndTail(s: string)
    requires s != []
    ensures s == [s[0]] + s[1..]
  {
  }

  lemma {:induction false} UnescapeEscape(s: string)
    requires Bytes(s)
    ensures QueryUnescape(QueryEscape(s)) == Some(s)
  {
    if s != [] {
      UnescapeEscape(s[1..]);
      UnescapeChar(s[0], QueryEscape(s[1..]));
      HeadAndTail(s);
    }
  }

  /** A character that may stand inside a metadata part. */
  predicate PartChar(c: char) { c != ';' && c != ',' && !Space(c) }

  ghost predicate PartText(s: string) { forall i :: 0 <= i < |s| ==> PartChar(s[i]) }

  lemma {:induction false} EscapedIsPartText(s: string)
    requires Bytes(s)
    ensures PartText(QueryEscape(s))
  {
    if s != [] {
      EscapedIsPartText(s[1..]);
    }
  }

  // ---------------------------------------------------------------- specification

  datatype FileOption = FileOption(mime: string, name: string, size: int)

  datatype Meta = Meta(opt: FileOption, base64: bool)

  /** What one `;`-separated part adds. A name that does not decode is cleared, a size that is not a
      64-bit number is ignored, and the MIME type keeps its `mime=` prefix. */
  function PartStep(m: Meta, raw: string): Meta {
    var part := TrimSpace(raw);
    if part == "base64" then m.(base64 := true)
    else if HasPrefix(part, "name=") then
      m.(opt := m.opt.(name := match QueryUnescape(part[5..]) case None => "" case Some(n) => n))
    else if HasPrefix(part, "size=") then
      (match ParseInt(part[5..]) case None => m case Some(n) => m.(opt := m.opt.(size := n)))
    else if HasPrefix(part, "mime=") || '/' in part then m.(opt := m.opt.(mime := part))
    else m
  }

  function FoldParts(m: Meta, parts: seq<string>): Meta
    decreases |parts|
  {
    if parts == [] then m else FoldParts(PartStep(m, parts[0]), parts[1..])
  }

  const NO_META := Meta(FileOption("", "", 0), false)

  function MetaOf(text: string): Meta {
    if text == "" then NO_META else FoldParts(NO_META, Split(text, ';'))
  }

  datatype ParseResult =
    | Parsed(opt: FileOption, payload: string)
    | NotDataUri
    | NoComma
    | NotBase64
    | EncodedTooLarge
    | DeclaredMismatch
    | OverCap

  /** int64 arithmetic wraps around. */
  function Wrap64(n: int): int {
    (n + INT64_LIMIT) % (2 * INT64_LIMIT) - INT64_LIMIT
  }

  /** The checks made once the parts have been read. */
  function CheckPayload(m: Meta, payload: string, maxBytes: int): ParseResult {
    if !m.base64 then NotBase64
    else if |payload| > Wrap64(maxBytes * 2) then EncodedTooLarge
    else if m.opt.size != 0 && m.opt.size != DecodedLen(payload) then DeclaredMismatch
    else if DecodedLen(payload) > maxBytes then OverCap
    else Parsed(m.opt.(size := DecodedLen(payload)), payload)
  }

  function Parse(uri: string, maxBytes: int): ParseResult {
    if !HasPrefix(uri, "data:") then NotDataUri
    else
      var comma := IndexByte(uri, ',');
      if comma < 0 then NoComma
      else
        CommaAfterScheme(uri);
        CheckPayload(MetaOf(uri[5..comma]), uri[comma + 1..], maxBytes)
  }

  // ---------------------------------------------------------------- implementation

  method ParseFileDataURI(uri: string, maxBytes: int) returns (r: ParseResult)
    ensures r == Parse(uri, maxBytes)
  {
    if !HasPrefix(uri, "data:") {
      return NotDataUri;
    }
    var comma := IndexByte(uri, ',');
    if comma < 0 {
      return NoComma;
    }
    CommaAfterScheme(uri);
    var meta := uri[5..comma];
    var payload := uri[comma + 1..];
    var m := NO_META;
    if meta != "" {
      var parts := Split(meta, ';');
      for i := 0 to |parts|
        invariant FoldParts(m, parts[i..]) == FoldParts(NO_META, parts)
      {
        assert parts[i..][1..] == parts[i + 1..];
        m := ReadPart(m, parts[i]);
      }
    }
    if !m.base64 {
      return NotBase64;
    }
    if |payload| > Wrap64(maxBytes * 2) {
      return EncodedTooLarge;
    }
    var opt := m.opt;
    var decodedLen := Base64DecodedLen(payload);
    if opt.size == 0 {
      opt := opt.(size := decodedLen);
    } else if opt.size != decodedLen {
      return DeclaredMismatch;
    }
    if opt.size > maxBytes {
      return OverCap;
    }
    r := Parsed(opt, payload);
  }

  /** The body of the loop over the parts. */
  method ReadPart(m: Meta, raw: string) returns (n: Meta)
    ensures n == PartStep(m, raw)
  {
    n := m;
    var part := TrimSpace(raw);
    if part == "base64" {
      n := n.(base64 := true);
    } else if HasPrefix(part, "name=") {
      var name := QueryUnescape(part[5..]);
      n := n.(opt := n.opt.(name := if name.Some? then name.value else ""));
    } else if HasPrefix(part, "size=") {
      var size := ParseInt(part[5..]);
      if size.Some? {
        n := n.(opt := n.opt.(size := size.value));
      }
    } else if HasPrefix(part, "mime=") || '/' in part {
      n := n.(opt := n.opt.(mime := part));
    }
  }

  lemma CommaAfterScheme(uri: string)
    requires HasPrefix(uri, "data:") && IndexByte(uri, ',') >= 0
    ensures IndexByte(uri, ',') >= 5
  {
    assert forall k :: 0 <= k < 5 ==> uri[k] == uri[..5][k] == "data:"[k];
  }

  // ---------------------------------------------------------------- what acceptance means

  /** One way of feeding the payload to the streaming decoder: chunks of whole quanta, each decoded on its
      own, and what is left when the payload ends inside a quantum. */
  ghost predicate IsChunking(payload: string, chunks: seq<string>, tail: string) {
    && (forall i :: 0 <= i < |chunks| ==> Aligned(chunks[i]))
    && |tail| < 4 && Concat(chunks) + tail == Strip(payload)
  }

  /** What the decoder then yields: every chunk's bytes and a clean end when nothing is left over, and
      otherwise some bytes and an error. */
  ghost predicate IsStream(payload: string, chunks: seq<string>, tail: string, data: seq<byte>, end: End) {
    && IsChunking(payload, chunks, tail)
    && (end.CleanEnd? <==> DecodeChunks(chunks).Some? && tail == [])
    && (end.CleanEnd? ==> data == DecodeChunks(chunks).value)
  }

  ghost predicate Enough(calls: seq<Call>, n: nat) {
    |calls| > n && forall i :: 0 <= i < |calls| ==> calls[i].len > 0
  }

  /** Whatever URI was accepted and however the decoder cut its payload: draining the reader is clean
      exactly when the payload as a whole decodes, and then it yields the decoded bytes, which number the
      reported size and fit the cap. A payload with padding inside may stream cleanly; it comes up short
      of the reported size, and that is what rejects it. */
  lemma AcceptedMeansExact(uri: string, maxBytes: int, opt: FileOption, payload: string, chunks: seq<string>, tail: string,
                           data: seq<byte>, end: End, calls: seq<Call>)
    requires Parse(uri, maxBytes) == Parsed(opt, payload)
    requires IsStream(payload, chunks, tail, data, end) && Enough(calls, |data|)
    ensures var d := DataDrain(Reader(data, end, maxBytes, 0, false, opt.size), calls);
            && (d.err == EOF <==> Decode(Std, payload).Some?)
            && (d.err == EOF ==> Decode(Std, payload) == Some(d.out) && opt.size == |d.out| <= maxBytes)
  {
    DataReaderExact(data, end, maxBytes, opt.size, calls);
    if end.CleanEnd? {
      assert Concat(chunks) + [] == Concat(chunks);
      ChunksAgainstDecodedLen(payload, chunks, data);
    } else {
      BrokenStream(payload, chunks, tail);
    }
  }

  /** A stream breaks only where the whole payload does not decode either. */
  lemma BrokenStream(payload: string, chunks: seq<string>, tail: string)
    requires IsChunking(payload, chunks, tail) && !(DecodeChunks(chunks).Some? && tail == [])
    ensures Decode(Std, payload).None?
  {
    if Decode(Std, payload).Some? {
      WholeMeansChunks(Strip(payload), chunks, tail);
    }
  }

  lemma WholeMeansChunks(t: string, chunks: seq<string>, tail: string)
    requires (forall i :: 0 <= i < |chunks| ==> Aligned(chunks[i])) && |tail| < 4 && Concat(chunks) + tail == t
    requires DecodeQuanta(Std, t).Some?
    ensures tail == [] && DecodeChunks(chunks).Some?
  {
    QuantaLength(t, DecodeQuanta(Std, t).value);
    AlignedConcat(chunks);
    NoTail(Concat(chunks), tail);
    WholeDecodesInChunks(chunks);
  }

  lemma NoTail(s: string, tail: string)
    requires |s| % 4 == 0 && |tail| < 4 && |s + tail| % 4 == 0
    ensures tail == [] && s + tail == s
  {
  }

  /** The case is real: a padded one-byte text followed by a three-byte text streams four clean bytes
      when cut at the padding, though the whole does not decode. */
  lemma InnerPaddingStreams(w: byte, x: byte, y: byte, z: byte)
    ensures var s, t := Encode(Std, [w]), Encode(Std, [x, y, z]);
            IsStream(s + t, [s, t], [], [w] + [x, y, z], CleanEnd) && Decode(Std, s + t).None?
  {
    var s, t := Encode(Std, [w]), Encode(Std, [x, y, z]);
    EncodedLength([w]);
    EncodedLength([x, y, z]);
    QuantaRoundTrip(Std, [w]);
    QuantaRoundTrip(Std, [x, y, z]);
    TwoChunks(s, t, [w], [x, y, z]);
    CleanPair(s, t, [w], [x, y, z]);
    OnePadding(w);
    PaddingEnds(s, t);
  }

  lemma OnePadding(w: byte)
    ensures Encode(Std, [w]) != [] && Encode(Std, [w])[|Encode(Std, [w])| - 1] == '='
  {
  }

  lemma CleanPair(s: string, t: string, a: seq<byte>, b: seq<byte>)
    requires s == Encode(Std, a) && t == Encode(Std, b)
    ensures Strip(s + t) == s + t
  {
    EncodeIsClean(Std, a);
    EncodeIsClean(Std, b);
    StripClean(s + t);
  }

  lemma TwoChunks(s: string, t: string, a: seq<byte>, b: seq<byte>)
    requires DecodeQuanta(Std, s) == Some(a) && DecodeQuanta(Std, t) == Some(b)
    ensures DecodeChunks([s, t]) == Some(a + b) && Concat([s, t]) + [] == s + t
  {
    assert [s, t][1..] == [t] && [t][1..] == [];
    assert t + [] == t && b + [] == b;
    assert Concat([t]) == t;
    assert DecodeChunks([t]) == Some(b);
  }

  // ---------------------------------------------------------------- the wire form

  /** The parts of the SEP-2356 wire form, joined. */
  function Join(parts: seq<string>, sep: char): string
    requires parts != []
  {
    if |parts| == 1 then parts[0] else parts[0] + [sep] + Join(parts[1..], sep)
  }

  lemma {:induction false} SplitJoin(parts: seq<string>, sep: char)
    requires parts != [] && forall i :: 0 <= i < |parts| ==> sep !in parts[i]
    ensures Split(Join(parts, sep), sep) == parts
  {
    if |parts| == 1 {
      assert Join(parts, sep) == parts[0];
    } else {
      SplitJoin(parts[1..], sep);
      SplitFirst(parts[0], sep, Join(parts[1..], sep));
      assert parts == [parts[0]] + parts[1..];
    }
  }

  lemma {:induction false} JoinHasNo(c: char, parts: seq<string>, sep: char)
    requires parts != [] && c != sep && forall i :: 0 <= i < |parts| ==> c !in parts[i]
    ensures c !in Join(parts, sep)
  {
    if |parts| > 1 {
      JoinHasNo(c, parts[1..], sep);
    }
  }

  function MimeParts(mime: Option<string>): seq<string> {
    if mime.None? then [] else ["mime=" + mime.value]
  }

  function Parts(name: string, size: nat, mime: Option<string>): seq<string>
    requires Bytes(name)
  {
    ["", "name=" + QueryEscape(name), "size=" + Itoa(size)] + MimeParts(mime) + ["base64"]
  }

  function EncodeUri(name: string, size: nat, mime: Option<string>, payload: string): string
    requires Bytes(name)
  {
    "data:" + Join(Parts(name, size, mime), ';') + [','] + payload
  }

  /** Spelled out, for a file without a MIME type. */
  lemma WireForm(name: string, size: nat, payload: string)
    requires Bytes(name)
    ensures EncodeUri(name, size, None, payload) ==
            "data:;name=" + QueryEscape(name) + ";size=" + Itoa(size) + ";base64," + payload
  {
    var n, z, q := QueryEscape(name), Itoa(size), "base64";
    assert Parts(name, size, None) == [""] + (["name=" + n] + (["size=" + z] + [q]));
    JoinCons("size=" + z, [q], ';');
    JoinCons("name=" + n, ["size=" + z] + [q], ';');
    JoinCons("", ["name=" + n] + (["size=" + z] + [q]), ';');
    WireText(n, z, payload);
  }

  lemma JoinCons(part: string, rest: seq<string>, sep: char)
    requires rest != []
    ensures Join([part] + rest, sep) == part + [sep] + Join(rest, sep)
  {
    assert ([part] + rest)[1..] == rest;
  }

  lemma WireText(n: string, z: string, payload: string)
    ensures "data:" + ("" + [';'] + ("name=" + n + [';'] + ("size=" + z + [';'] + "base64"))) + [','] + payload ==
            "data:;name=" + n + ";size=" + z + ";base64," + payload
  {
  }

  // ---------------------------------------------------------------- reading the parts back

  lemma NoTrim(p: string, x: string)
    requires p != [] && !Space(p[0]) && !Space(p[|p| - 1]) && PartText(x)
    ensures TrimSpace(p + x) == p + x
  {
    NothingToTrim(p + x);
  }

  lemma NamePart(m: Meta, x: string)
    requires PartText(x) && QueryUnescape(x).Some?
    ensures PartStep(m, "name=" + x) == m.(opt := m.opt.(name := QueryUnescape(x).value))
  {
    var part := "name=" + x;
    NoTrim("name=", x);
    assert part[0] == 'n' && part[5..] == x && part[..5] == "name=";
  }

  lemma SizePart(m: Meta, x: string)
    requires PartText(x)
    ensures PartStep(m, "size=" + x) == match ParseInt(x) case None => m case Some(n) => m.(opt := m.opt.(size := n))
  {
    var part := "size=" + x;
    NoTrim("size=", x);
    assert part[0] == 's' && part[5..] == x && part[..5] == "size=";
  }

  lemma MimePart(m: Meta, x: string)
    requires PartText(x)
    ensures PartStep(m, "mime=" + x) == m.(opt := m.opt.(mime := "mime=" + x))
  {
    var part := "mime=" + x;
    NoTrim("mime=", x);
    assert part[0] == 'm' && part[..5] == "mime=";
  }

  lemma PlainParts(m: Meta)
    ensures PartStep(m, "") == m && PartStep(m, "base64") == m.(base64 := true)
  {
    NothingToTrim("");
    NothingToTrim("base64");
  }

  lemma FoldCons(m: Meta, part: string, rest: seq<string>)
    ensures FoldParts(m, [part] + rest) == FoldParts(PartStep(m, part), rest)
  {
    assert ([part] + rest)[1..] == rest;
  }

  lemma SizeIsPartText(n: nat)
    ensures PartText(Itoa(n))
  {
  }

  function FullMime(mime: Option<string>): string { if mime.None? then "" else "mime=" + mime.value }

  /** Reading the parts gives back the name, the MIME part and the size, unless it exceeds 64 bits. */
  lemma PartsReadBack(name: string, size: nat, mime: Option<string>)
    requires Bytes(name) && (mime.Some? ==> PartText(mime.value))
    ensures FoldParts(NO_META, Parts(name, size, mime)) ==
            Meta(FileOption(FullMime(mime), name, if size < INT64_LIMIT then size else 0), true)
  {
    var n, z := "name=" + QueryEscape(name), "size=" + Itoa(size);
    var rest := MimeParts(mime) + ["base64"];
    var m1 := Meta(FileOption("", name, 0), false);
    var m2 := Meta(FileOption("", name, if size < INT64_LIMIT then size else 0), false);
    assert Parts(name, size, mime) == [""] + ([n] + ([z] + rest));
    FoldCons(NO_META, "", [n] + ([z] + rest));
    PlainParts(NO_META);
    FoldCons(NO_META, n, [z] + rest);
    EscapedIsPartText(name);
    UnescapeEscape(name);
    NamePart(NO_META, QueryEscape(name));
    FoldCons(m1, z, rest);
    SizeIsPartText(size);
    ParseItoa(size);
    SizePart(m1, Itoa(size));
    TailReadsBack(m2, mime);
  }

  lemma TailReadsBack(m: Meta, mime: Option<string>)
    requires mime.Some? ==> PartText(mime.value)
    requires m.opt.mime == ""
    ensures FoldParts(m, MimeParts(mime) + ["base64"]) == Meta(m.opt.(mime := FullMime(mime)), true)
  {
    if mime.Some? {
      FoldCons(m, "mime=" + mime.value, ["base64"]);
      MimePart(m, mime.value);
    } else {
      assert MimeParts(mime) + ["base64"] == ["base64"];
    }
    var m1 := m.(opt := m.opt.(mime := FullMime(mime)));
    assert ["base64"] == ["base64"] + [];
    FoldCons(m1, "base64", []);
    PlainParts(m1);
  }

  lemma PartsAreParts(name: string, size: nat, mime: Option<string>, c: char)
    requires Bytes(name) && (mime.Some? ==> PartText(mime.value)) && (c == ';' || c == ',')
    ensures forall i :: 0 <= i < |Parts(name, size, mime)| ==> c !in Parts(name, size, mime)[i]
  {
    EscapedIsPartText(name);
    SizeIsPartText(size);
  }

  /** Parsing a wire form comes down to the checks on its payload. */
  lemma ParseOfEncoded(name: string, size: nat, mime: Option<string>, payload: string, maxBytes: int)
    requires Bytes(name) && (mime.Some? ==> PartText(mime.value))
    ensures Parse(EncodeUri(name, size, mime, payload), maxBytes) ==
            CheckPayload(Meta(FileOption(FullMime(mime), name, if size < INT64_LIMIT then size else 0), true), payload, maxBytes)
  {
    var parts := Parts(name, size, mime);
    var text := Join(parts, ';');
    var uri := EncodeUri(name, size, mime, payload);
    PartsAreParts(name, size, mime, ',');
    JoinHasNo(',', parts, ';');
    IndexOfFirst("data:" + text, ',', payload);
    assert uri[..5] == "data:" && uri[5..5 + |text|] == text && uri[5 + |text| + 1..] == payload;
    PartsAreParts(name, size, mime, ';');
    SplitJoin(parts, ';');
    PartsReadBack(name, size, mime);
    assert |text| > 0;
  }

  // ---------------------------------------------------------------- round trip

  /** The cheap length filter lets through every payload that fits the cap, except at cap 1, and except
      for caps whose double does not fit in 64 bits. */
  lemma LengthFilter(n: nat, cap: int)
    requires -INT64_LIMIT <= cap < INT64_LIMIT
    ensures (n + 2) / 3 * 4 <= Wrap64(cap * 2) && n <= cap <==> n <= cap < INT64_LIMIT / 2 && !(cap == 1 && n == 1)
  {
  }

  /** The data-URI round trip, under any line wrapping `payload` of the encoded bytes: what is accepted
      carries the name, the size and the bytes, and it is accepted exactly when the wrapped text passes
      the length filter and the bytes fit the cap. */
  lemma WrappedRoundTrip(name: string, mime: Option<string>, b: seq<byte>, payload: string, cap: int)
    requires Bytes(name) && (mime.Some? ==> PartText(mime.value)) && -INT64_LIMIT <= cap < INT64_LIMIT
    requires Strip(payload) == Encode(Std, b)
    ensures var r := Parse(EncodeUri(name, |b|, mime, payload), cap);
            && (r.Parsed? <==> |payload| <= Wrap64(cap * 2) && |b| <= cap)
            && (r.Parsed? ==> r == Parsed(FileOption(FullMime(mime), name, |b|), payload) && Decode(Std, payload) == Some(b))
  {
    ParseOfEncoded(name, |b|, mime, payload, cap);
    QuantaRoundTrip(Std, b);
    DecodedLenIsExact(payload);
  }

  /** A payload that decodes as a whole streams cleanly, however it is cut. */
  lemma WholeStream(payload: string, chunks: seq<string>, tail: string, b: seq<byte>)
    requires IsChunking(payload, chunks, tail) && Decode(Std, payload) == Some(b)
    ensures IsStream(payload, chunks, tail, b, CleanEnd)
  {
    if !(DecodeChunks(chunks).Some? && tail == []) {
      BrokenStream(payload, chunks, tail);
    } else {
      assert Concat(chunks) + [] == Concat(chunks);
      ChunksAgainstDecodedLen(payload, chunks, DecodeChunks(chunks).value);
    }
  }

  /** Parsing the SEP-2356 encoding of a file and draining it, with any buffers and any chunking, gives
      back its bytes, name and size if and only if the file fits the cap, the cap is below 2^62 and it
      is not the one-byte file under cap 1. */
  lemma FileRoundTrip(name: string, mime: Option<string>, b: seq<byte>, cap: int, chunks: seq<string>, tail: string, calls: seq<Call>)
    requires Bytes(name) && (mime.Some? ==> PartText(mime.value)) && -INT64_LIMIT <= cap < INT64_LIMIT
    requires IsChunking(Encode(Std, b), chunks, tail) && Enough(calls, |b|)
    ensures var r := Parse(EncodeUri(name, |b|, mime, Encode(Std, b)), cap);
            && (r.Parsed? <==> |b| <= cap < INT64_LIMIT / 2 && !(cap == 1 && |b| == 1))
            && (r.Parsed? ==>
                  r.opt == FileOption(FullMime(mime), name, |b|) && IsStream(r.payload, chunks, tail, b, CleanEnd) &&
                  DataDrain(Reader(b, CleanEnd, cap, 0, false, |b|), calls) == Drain(b, EOF))
  {
    EncodeIsClean(Std, b);
    StripClean(Encode(Std, b));
    WrappedRoundTrip(name, mime, b, Encode(Std, b), cap);
    FileVerdict(Parse(EncodeUri(name, |b|, mime, Encode(Std, b)), cap), b, cap);
    QuantaRoundTrip(Std, b);
    WholeStream(Encode(Std, b), chunks, tail, b);
    if |b| <= cap {
      CleanDrain(b, cap, calls);
    }
  }

  lemma FileVerdict(r: ParseResult, b: seq<byte>, cap: int)
    requires -INT64_LIMIT <= cap < INT64_LIMIT
    requires r.Parsed? <==> |Encode(Std, b)| <= Wrap64(cap * 2) && |b| <= cap
    ensures r.Parsed? <==> |b| <= cap < INT64_LIMIT / 2 && !(cap == 1 && |b| == 1)
  {
    EncodedLength(b);
    LengthFilter(|b|, cap);
  }

  lemma CleanDrain(b: seq<byte>, cap: int, calls: seq<Call>)
    requires |b| <= cap && Enough(calls, |b|)
    ensures DataDrain(Reader(b, CleanEnd, cap, 0, false, |b|), calls) == Drain(b, EOF)
  {
    DataReaderExact(b, CleanEnd, cap, |b|, calls);
  }
}
