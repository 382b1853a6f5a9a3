/** Go string helpers. A string holds one character per byte. */
module Text {
  import opened Prelude

  predicate HasPrefix(s: string, p: string) { |s| >= |p| && s[..|p|] == p }

  /** The index of the first `c`, or -1. */
  function IndexByte(s: string, c: char): (i: int)
    ensures -1 <= i < |s|
    ensures i >= 0 ==> s[i] == c && forall k :: 0 <= k < i ==> s[k] != c
    ensures i < 0 ==> forall k :: 0 <= k < |s| ==> s[k] != c
  {
    if s == [] then -1
    else if s[0] == c then 0
    else
      var j := IndexByte(s[1..], c);
      assert forall k :: 1 <= k < |s| ==> s[k] == s[1..][k - 1];
      if j < 0 then -1 else j + 1
  }

  lemma IndexOfFirst(a: string, c: char, b: string)
    requires c !in a
    ensures IndexByte(a + [c] + b, c) == |a|
  {
    var s := a + [c] + b;
    assert s[|a|] == c;
    assert forall k :: 0 <= k < |a| ==> s[k] == a[k];
  }

  function Split(s: string, sep: char): (parts: seq<string>)
    decreases |s|
  {
    var i := IndexByte(s, sep);
    if i < 0 then [s] else [s[..i]] + Split(s[i + 1..], sep)
  }

  lemma SplitFirst(a: string, sep: char, b: string)
    requires sep !in a
    ensures Split(a + [sep] + b, sep) == [a] + Split(b, sep)
  {
    IndexOfFirst(a, sep, b);
    var s := a + [sep] + b;
    assert s[..|a|] == a && s[|a| + 1..] == b;
  }

  // ---------------------------------------------------------------- trimming

  predicate Space(c: char) { c == ' ' || '\t' <= c <= '\r' }

  function TrimLeft(s: string): string {
    if s != [] && Space(s[0]) then TrimLeft(s[1..]) else s
  }

  function TrimRight(s: string): string {
    if s != [] && Space(s[|s| - 1]) then TrimRight(s[..|s| - 1]) else s
  }

  function TrimSpace(s: string): string { TrimRight(TrimLeft(s)) }

  lemma NothingToTrim(s: string)
    requires s == [] || (!Space(s[0]) && !Space(s[|s| - 1]))
    ensures TrimSpace(s) == s
  {
  }

  // ---------------------------------------------------------------- hexadecimal digits

  /** The digit for `d`; `ten` is 'a' or 'A'. */
  function HexDigit(ten: char, d: nat): char
    requires d < 16 && (ten == 'a' || ten == 'A')
  {
    if d < 10 then ('0' as int + d) as char else (ten as int + (d - 10)) as char
  }

  function HexValue(c: char): Option<nat> {
    if '0' <= c <= '9' then Some(c as int - '0' as int)
    else if 'a' <= c <= 'f' then Some(c as int - 'a' as int + 10)
    else if 'A' <= c <= 'F' then Some(c as int - 'A' as int + 10)
    else None
  }

  lemma HexInverse(ten: char, d: nat)
    requires d < 16 && (ten == 'a' || ten == 'A')
    ensures HexValue(HexDigit(ten, d)) == Some(d)
  {
  }

  // ---------------------------------------------------------------- decimal numbers

  const INT64_LIMIT := 0x8000_0000_0000_0000

  predicate Digit(c: char) { '0' <= c <= '9' }

  function DigitValue(c: char): nat
    requires Digit(c)
  {
    c as int - '0' as int
  }

  function DigitChar(d: nat): (c: char)
    requires d < 10
    ensures Digit(c) && DigitValue(c) == d
  {
    ('0' as int + d) as char
  }

  function Digits(n: nat): (s: string)
    ensures s != [] && forall i :: 0 <= i < |s| ==> Digit(s[i])
  {
    if n < 10 then [DigitChar(n)] else Digits(n / 10) + [DigitChar(n % 10)]
  }

  function Itoa(n: int): string {
    if n < 0 then ['-'] + Digits(-n) else Digits(n)
  }

  /** The value of a string of digits. */
  function Magnitude(s: string): Option<nat> {
    if s == [] then Some(0)
    else if !Digit(s[|s| - 1]) then None
    else match Magnitude(s[..|s| - 1])
      case None => None
      case Some(m) => Some(10 * m + DigitValue(s[|s| - 1]))
  }

  /** strconv.ParseInt in base 10 for 64 bits; None stands for its error. */
  function ParseInt(s: string): Option<int> {
    var negative := s != [] && s[0] == '-';
    var digits := if s != [] && (s[0] == '-' || s[0] == '+') then s[1..] else s;
    if digits == [] then None else Signed(negative, Magnitude(digits))
  }

  function Signed(negative: bool, m: Option<nat>): Option<int> {
    if m.None? then None
    else if negative then (if m.value <= INT64_LIMIT then Some(-(m.value as int)) else None)
    else if m.value < INT64_LIMIT then Some(m.value) else None
  }

  lemma {:induction false} MagnitudeOfDigits(n: nat)
    ensures Magnitude(Digits(n)) == Some(n)
  {
    if n >= 10 {
      MagnitudeOfDigits(n / 10);
      assert Digits(n)[..|Digits(n)| - 1] == Digits(n / 10);
    }
  }

  lemma ParsePlain(s: string)
    requires s != [] && Digit(s[0])
    ensures ParseInt(s) == Signed(false, Magnitude(s))
  {
  }

  lemma ParseNegative(s: string)
    requires s != []
    ensures ParseInt(['-'] + s) == Signed(true, Magnitude(s))
  {
    assert (['-'] + s)[1..] == s;
  }

  /** Printing and parsing are inverse exactly on the 64-bit range. */
  lemma ParseItoa(n: int)
    ensures ParseInt(Itoa(n)) == if -INT64_LIMIT <= n < INT64_LIMIT then Some(n) else None
  {
    if n < 0 {
      MagnitudeOfDigits(-n);
      ParseNegative(Digits(-n));
    } else {
      MagnitudeOfDigits(n);
      ParsePlain(Digits(n));
    }
  }
}
