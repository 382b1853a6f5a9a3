/** The two readers that cap a stream, over a source that hands out its bytes in arbitrary chunks. */
module BoundedReader {
  import opened Prelude

  /** How the source ends once all its bytes are out. */
  datatype End = CleanEnd | BrokenEnd

  /** What a Read reports beside its bytes. `BadInput` is the wrapped decoder error, `SourceError` the
      source's own error passed through. */
  datatype Err = NoError | EOF | BadInput | SourceError | TooLarge | SizeMismatch

  /** One call's circumstances: the caller's buffer length, how many bytes the source cares to deliver,
      and whether it reports its end together with its last bytes. */
  datatype Call = Call(len: nat, take: nat, eager: bool)

  // ---------------------------------------------------------------- the source

  function Min(a: nat, b: nat): nat { if a <= b then a else b }

  /** A source that has bytes left delivers at least one into a non-empty buffer. */
  function Delivered(rest: nat, want: nat, take: nat): (n: nat)
    ensures n <= rest && n <= want
    ensures rest > 0 && want > 0 ==> n > 0
  {
    Min(Min(rest, want), if take == 0 then 1 else take)
  }

  /** It reports its end only when everything is out, and then at the latest when nothing was delivered. */
  predicate AtEnd(rest: nat, want: nat, c: Call) {
    rest == Delivered(rest, want, c.take) && (c.eager || rest == 0)
  }

  class Source {
    var rest: seq<byte>
    const end: End

    constructor (data: seq<byte>, end: End)
      ensures rest == data && this.end == end
    {
      rest := data;
      this.end := end;
    }

    method Read(want: nat, c: Call) returns (out: seq<byte>, err: Err)
      modifies `rest
      ensures out == old(rest)[..Delivered(|old(rest)|, want, c.take)]
      ensures rest == old(rest)[Delivered(|old(rest)|, want, c.take)..]
      ensures err == if AtEnd(|old(rest)|, want, c) then (if end.CleanEnd? then EOF else SourceError) else NoError
    {
      var n := Delivered(|rest|, want, c.take);
      err := if AtEnd(|rest|, want, c) then (if end.CleanEnd? then EOF else SourceError) else NoError;
      out := rest[..n];
      rest := rest[n..];
    }
  }

  // ---------------------------------------------------------------- specification

  /** A reader between two calls; `declared` and `read` matter to the data-URI reader only. */
  datatype Reader = Reader(rest: seq<byte>, end: End, remaining: int, read: int, done: bool, declared: int)

  datatype Step = Step(next: Reader, out: seq<byte>, err: Err)

  function SourceErr(end: End): Err { if end.CleanEnd? then EOF else SourceError }

  predicate Mismatched(r: Reader, read: int) { r.declared > 0 && read != r.declared }

  function Advance(r: Reader, n: nat): Reader
    requires n <= |r.rest|
  {
    r.(rest := r.rest[n..], remaining := r.remaining - n, read := r.read + n)
  }

  /** The data-URI reader. */
  function DataRead(r: Reader, c: Call): Step {
    if r.done then Step(r, [], EOF)
    else if r.remaining <= 0 then
      var n := Delivered(|r.rest|, 1, c.take);
      var stop := r.(rest := r.rest[n..], done := true);
      Step(stop, [],
           if n > 0 then TooLarge
           else if Mismatched(r, r.read) then SizeMismatch
           else if AtEnd(|r.rest|, 1, c) then SourceErr(r.end) else NoError)
    else
      var want := Min(c.len, r.remaining);
      var n := Delivered(|r.rest|, want, c.take);
      var next := Advance(r, n);
      if !AtEnd(|r.rest|, want, c) then Step(next, r.rest[..n], NoError)
      else if r.end.BrokenEnd? then Step(next, r.rest[..n], BadInput)
      else Step(next.(done := true), r.rest[..n], if Mismatched(r, next.read) then SizeMismatch else EOF)
  }

  /** The relay reader; a caller never gives it a negative cap. */
  function LimitedRead(r: Reader, c: Call): Step
    requires r.remaining >= 0
  {
    if r.remaining == 0 then
      var n := Delivered(|r.rest|, 1, c.take);
      Step(r.(rest := r.rest[n..]), [],
           if n > 0 then TooLarge else if AtEnd(|r.rest|, 1, c) then SourceErr(r.end) else NoError)
    else
      var want := Min(c.len, r.remaining);
      var n := Delivered(|r.rest|, want, c.take);
      Step(Advance(r, n), r.rest[..n], if AtEnd(|r.rest|, want, c) then SourceErr(r.end) else NoError)
  }

  // ---------------------------------------------------------------- implementation

  class BoundedDataReader {
    const reader: Source
    var remaining: int
    var read: int
    var done: bool
    const declared: int

    constructor (reader: Source, maxBytes: int, declared: int)
      ensures this.reader == reader && View() == Reader(reader.rest, reader.end, maxBytes, 0, false, declared)
    {
      this.reader := reader;
      remaining, read, done := maxBytes, 0, false;
      this.declared := declared;
    }

    ghost function View(): Reader
      reads this, reader
    {
      Reader(reader.rest, reader.end, remaining, read, done, declared)
    }

    method Read(c: Call) returns (out: seq<byte>, err: Err)
      modifies this, reader
      ensures Step(View(), out, err) == DataRead(old(View()), c)
    {
      if done {
        return [], EOF;
      }
      if remaining <= 0 {
        var probe, e := reader.Read(1, c);
        if |probe| > 0 {
          done := true;
          return [], TooLarge;
        }
        if declared > 0 && read != declared {
          done := true;
          return [], SizeMismatch;
        }
        done := true;
        return [], e;
      }
      var want := c.len;
      if want > remaining {
        want := remaining;
      }
      var e: Err;
      out, e := reader.Read(want, c);
      read := read + |out|;
      remaining := remaining - |out|;
      if e == EOF {
        if declared > 0 && read != declared {
          done := true;
          return out, SizeMismatch;
        }
        done := true;
        return out, EOF;
      }
      if e != NoError {
        return out, BadInput;
      }
      err := NoError;
    }
  }

  class LimitedReadCloser {
    const reader: Source
    var remaining: int

    constructor (reader: Source, maxBytes: int)
      ensures this.reader == reader && remaining == maxBytes
    {
      this.reader := reader;
      remaining := maxBytes;
    }

    ghost function View(): Reader
      reads this, reader
    {
      Reader(reader.rest, reader.end, remaining, 0, false, 0)
    }

    method Read(c: Call) returns (out: seq<byte>, err: Err)
      requires remaining >= 0
      modifies `remaining, reader
      ensures remaining >= 0
      ensures var s := LimitedRead(old(View()), c);
              View() == s.next.(read := 0) && out == s.out && err == s.err
    {
      if remaining == 0 {
        var probe, e := reader.Read(1, c);
        if |probe| > 0 {
          return [], TooLarge;
        }
        return [], e;
      }
      var want := c.len;
      if want > remaining {
        want := remaining;
      }
      out, err := reader.Read(want, c);
      remaining := remaining - |out|;
    }
  }

  // ---------------------------------------------------------------- whole drains

  /** A caller reads, with any buffers, until it sees an error or gives up; it collects the bytes. */
  datatype Drain = Drain(out: seq<byte>, err: Err)

  function DataDrain(r: Reader, calls: seq<Call>): Drain
    decreases |calls|
  {
    if calls == [] then Drain([], NoError)
    else
      var s := DataRead(r, calls[0]);
      if s.err != NoError then Drain(s.out, s.err)
      else
        var d := DataDrain(s.next, calls[1..]);
        Drain(s.out + d.out, d.err)
  }

  function LimitedDrain(r: Reader, calls: seq<Call>): Drain
    requires r.remaining >= 0
    decreases |calls|
  {
    if calls == [] then Drain([], NoError)
    else
      var s := LimitedRead(r, calls[0]);
      if s.err != NoError then Drain(s.out, s.err)
      else
        var d := LimitedDrain(s.next, calls[1..]);
        Drain(s.out + d.out, d.err)
  }

  function Cap(r: Reader): nat { if r.remaining > 0 then r.remaining else 0 }

  /** The bytes a drain must deliver in full. */
  function Allowed(r: Reader): seq<byte> { r.rest[..Min(|r.rest|, Cap(r))] }

  /** How a drain of a cleanly ending source must end. */
  function Verdict(r: Reader): Err {
    if |r.rest| > Cap(r) then TooLarge
    else if Mismatched(r, r.read + |r.rest|) then SizeMismatch
    else EOF
  }

  ghost predicate DrainOk(r: Reader, d: Drain) {
    && d.out <= Allowed(r)
    && (d.err != NoError ==> d.out == Allowed(r))
    && (d.err != NoError && r.end.CleanEnd? ==> d.err == Verdict(r))
    && (r.end.BrokenEnd? ==> d.err != EOF)
  }

  /** A call that reports no error has moved `n` bytes, leaving cap, verdict and output to come. */
  lemma AdvanceKeeps(r: Reader, n: nat, d: Drain)
    requires n <= |r.rest| && n <= Cap(r) && r.remaining > 0
    requires DrainOk(Advance(r, n), d)
    ensures DrainOk(r, Drain(r.rest[..n] + d.out, d.err))
  {
    var m := Advance(r, n);
    assert Allowed(r) == r.rest[..n] + Allowed(m);
  }

  lemma {:induction false} DataDrainOk(r: Reader, calls: seq<Call>)
    requires !r.done
    ensures DrainOk(r, DataDrain(r, calls))
    decreases |calls|
  {
    if calls != [] {
      var s := DataRead(r, calls[0]);
      if s.err == NoError {
        var n := Delivered(|r.rest|, Min(calls[0].len, r.remaining), calls[0].take);
        DataDrainOk(s.next, calls[1..]);
        AdvanceKeeps(r, n, DataDrain(s.next, calls[1..]));
      }
    }
  }

  lemma {:induction false} LimitedDrainOk(r: Reader, calls: seq<Call>)
    requires r.remaining >= 0 && r.declared <= 0
    ensures DrainOk(r, LimitedDrain(r, calls))
    decreases |calls|
  {
    if calls != [] {
      var s := LimitedRead(r, calls[0]);
      if s.err == NoError {
        var n := Delivered(|r.rest|, Min(calls[0].len, r.remaining), calls[0].take);
        LimitedDrainOk(s.next, calls[1..]);
        AdvanceKeeps(r, n, LimitedDrain(s.next, calls[1..]));
      }
    }
  }

  /** With non-empty buffers a drain always gets to its end. */
  lemma {:induction false} DataDrainEnds(r: Reader, calls: seq<Call>)
    requires !r.done && |calls| > |r.rest| && forall i :: 0 <= i < |calls| ==> calls[i].len > 0
    ensures DataDrain(r, calls).err != NoError
    decreases |calls|
  {
    var s := DataRead(r, calls[0]);
    if s.err == NoError {
      DataDrainEnds(s.next, calls[1..]);
    }
  }

  lemma {:induction false} LimitedDrainEnds(r: Reader, calls: seq<Call>)
    requires r.remaining >= 0 && |calls| > |r.rest| && forall i :: 0 <= i < |calls| ==> calls[i].len > 0
    ensures LimitedDrain(r, calls).err != NoError
    decreases |calls|
  {
    var s := LimitedRead(r, calls[0]);
    if s.err == NoError {
      LimitedDrainEnds(s.next, calls[1..]);
    }
  }

  /** Which error ends a drain of `size` bytes under this cap: too large if and only if they exceed it;
      otherwise, at a clean end, a size mismatch if and only if a positive declared size differs; and at a
      broken end bad input, unless the cap was reached exactly. */
  ghost predicate DataVerdict(size: nat, end: End, cap: nat, declared: int, err: Err) {
    err != NoError ==>
      && (err == TooLarge <==> size > cap)
      && (end.CleanEnd? ==> (err == SizeMismatch <==> size <= cap && declared > 0 && size != declared))
      && (end.CleanEnd? ==> err != BadInput && err != SourceError)
      && (end.BrokenEnd? && size < cap ==> err == BadInput)
  }

  ghost predicate DataEnds(r: Reader, err: Err) {
    err != NoError ==>
      && (err == TooLarge <==> |r.rest| > Cap(r))
      && (r.end.CleanEnd? ==> (err == SizeMismatch <==> |r.rest| <= Cap(r) && r.declared > 0 && r.read + |r.rest| != r.declared))
      && (r.end.CleanEnd? ==> err != BadInput && err != SourceError)
      && (r.end.BrokenEnd? && |r.rest| < Cap(r) ==> err == BadInput)
  }

  lemma {:induction false} DataDrainVerdict(r: Reader, calls: seq<Call>)
    requires !r.done
    ensures DataEnds(r, DataDrain(r, calls).err)
    decreases |calls|
  {
    if calls != [] {
      var s := DataRead(r, calls[0]);
      if s.err == NoError {
        DataDrainVerdict(s.next, calls[1..]);
      }
    }
  }

  /** Once the reader has given its verdict, every further call reports the end of the stream. */
  lemma VerdictIsFinal(r: Reader, c: Call, d: Call)
    requires DataRead(r, c).err == EOF || DataRead(r, c).err == TooLarge || DataRead(r, c).err == SizeMismatch
    ensures var s := DataRead(DataRead(r, c).next, d); s.out == [] && s.err == EOF && s.next == DataRead(r, c).next
  {
  }

  /** The relay reader passes the source's own error on. */
  ghost predicate LimitedVerdict(size: nat, end: End, cap: nat, err: Err) {
    err != NoError ==>
      && (err == TooLarge <==> size > cap)
      && (err == SourceError <==> size <= cap && end.BrokenEnd?)
      && (err == EOF <==> size <= cap && end.CleanEnd?)
  }

  lemma {:induction false} LimitedDrainVerdict(r: Reader, calls: seq<Call>)
    requires r.remaining >= 0
    ensures LimitedVerdict(|r.rest|, r.end, Cap(r), LimitedDrain(r, calls).err)
    decreases |calls|
  {
    if calls != [] {
      var s := LimitedRead(r, calls[0]);
      if s.err == NoError {
        LimitedDrainVerdict(s.next, calls[1..]);
      }
    }
  }

  /** The data-URI reader is exact for every buffer size and every chunking: the output is a prefix of
      the payload of at most cap bytes, and a drain that reaches its end is clean, with the whole
      payload delivered, if and only if the source ends cleanly, the payload fits the cap and a positive
      declared size equals it. */
  lemma DataReaderExact(payload: seq<byte>, end: End, cap: int, declared: int, calls: seq<Call>)
    ensures var d := DataDrain(Reader(payload, end, cap, 0, false, declared), calls);
            && d.out <= payload && |d.out| <= (if cap > 0 then cap else 0)
            && (d.err == EOF ==> d.out == payload)
            && (d.err != NoError ==>
                  (d.err == EOF <==> end.CleanEnd? && |payload| <= (if cap > 0 then cap else 0) && (declared > 0 ==> |payload| == declared)))
            && (|calls| > |payload| && (forall i :: 0 <= i < |calls| ==> calls[i].len > 0) ==> d.err != NoError)
            && DataVerdict(|payload|, end, if cap > 0 then cap else 0, declared, d.err)
  {
    var r := Reader(payload, end, cap, 0, false, declared);
    DataDrainOk(r, calls);
    DataDrainVerdict(r, calls);
    if |calls| > |payload| && forall i :: 0 <= i < |calls| ==> calls[i].len > 0 {
      DataDrainEnds(r, calls);
    }
  }

  /** The relay reader likewise, against its cap. */
  lemma LimitedReaderExact(payload: seq<byte>, end: End, cap: nat, calls: seq<Call>)
    ensures var d := LimitedDrain(Reader(payload, end, cap, 0, false, 0), calls);
            && d.out <= payload && |d.out| <= cap
            && (d.err == EOF ==> d.out == payload)
            && (d.err != NoError ==> (d.err == EOF <==> end.CleanEnd? && |payload| <= cap))
            && (|calls| > |payload| && (forall i :: 0 <= i < |calls| ==> calls[i].len > 0) ==> d.err != NoError)
            && LimitedVerdict(|payload|, end, cap, d.err)
  {
    var r := Reader(payload, end, cap, 0, false, 0);
    LimitedDrainOk(r, calls);
    LimitedDrainVerdict(r, calls);
    if |calls| > |payload| && forall i :: 0 <= i < |calls| ==> calls[i].len > 0 {
      LimitedDrainEnds(r, calls);
    }
  }
}
