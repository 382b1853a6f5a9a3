/** One-time hand-off links: the pending set, and the bounded first-in-first-out memory of links that
    were used or ran out. */
module HandoffEndpoint {
  import opened Prelude

  /** An unguessable random token. Only its identity matters. */
  type Token = nat

  const MAX_SPENT_TOMBSTONES := 10000

  /** Thirty minutes in nanoseconds. */
  const DEFAULT_HANDOFF_TTL := 1_800_000_000_000

  datatype Item = Item(payload: string, expiresAt: Time)

  datatype Links = Links(items: map<Token, Item>, spent: map<Token, Time>, order: seq<Token>)

  /** What Resolve reports: an item, a reason why the link is dead, or nothing for an unknown token. */
  datatype Resolution = Live(item: Item) | Used | RanOut | NeverExisted

  predicate PastExpiry(item: Item, now: Time) { now > item.expiresAt }

  // ---------------------------------------------------------------- specification

  function MarkSpent(l: Links, token: Token, at: Time): Links {
    if token in l.spent then l else l.(spent := l.spent[token := at], order := l.order + [token])
  }

  function EvictOldest(l: Links): Links
    requires l.order != []
  {
    l.(spent := l.spent - {l.order[0]}, order := l.order[1..])
  }

  /** Evicts from the head until the memory is within its cap. */
  function Trimmed(l: Links): Links
    decreases |l.order|
  {
    if |l.spent| > MAX_SPENT_TOMBSTONES && l.order != [] then Trimmed(EvictOldest(l)) else l
  }

  /** `order` lists exactly the spent tokens, each once. */
  ghost predicate IndexOk(l: Links) {
    NoDup(l.order) && Elems(l.order) == l.spent.Keys
  }

  function Dropped(l: Links, token: Token): Links { l.(items := l.items - {token}) }

  function ResolveAfterTrim(p: Links, token: Token, now: Time, at: Time): (Links, Resolution) {
    if token in p.spent then (p, Used)
    else if token !in p.items then (p, NeverExisted)
    else if PastExpiry(p.items[token], now) then (MarkSpent(Dropped(p, token), token, at), RanOut)
    else (p, Live(p.items[token]))
  }

  function Resolved(l: Links, token: Token, now: Time, at: Time): (Links, Resolution) {
    ResolveAfterTrim(Trimmed(l), token, now, at)
  }

  function Removed(l: Links, token: Token, at: Time): Links {
    Trimmed(MarkSpent(Dropped(l, token), token, at))
  }

  function ClaimOf(l: Links, token: Token, at: Time): (Links, bool) {
    if token in l.items then (Removed(l, token, at), true) else (l, false)
  }

  ghost function Stale(l: Links, now: Time): set<Token> {
    set t | t in l.items && PastExpiry(l.items[t], now)
  }

  /** Moves the tokens of `batch` from the pending set to the spent memory, in that order. */
  function SpendAll(l: Links, batch: seq<Token>, at: Time): Links {
    if batch == [] then l
    else
      var b := batch[..|batch| - 1];
      var t := batch[|batch| - 1];
      MarkSpent(Dropped(SpendAll(l, b, at), t), t, at)
  }

  function Reaped(l: Links, now: Time, batch: seq<Token>): Links {
    Trimmed(SpendAll(l, batch, now))
  }

  // ---------------------------------------------------------------- implementation

  class Endpoint {
    const ttl: int
    var items: map<Token, Item>
    var spent: map<Token, Time>
    var spentOrder: seq<Token>

    constructor (ttl: int)
      ensures View() == Links(map[], map[], [])
      ensures this.ttl == if ttl <= 0 then 1_800_000_000_000 else ttl
    {
      this.ttl := if ttl <= 0 then DEFAULT_HANDOFF_TTL else ttl;
      items, spent, spentOrder := map[], map[], [];
    }

    ghost function View(): Links
      reads this
    {
      Links(items, spent, spentOrder)
    }

    method MarkSpentLocked(token: Token, at: Time)
      modifies `spent, `spentOrder
      ensures View() == MarkSpent(old(View()), token, at)
    {
      if token in spent {
        return;
      }
      spent := spent[token := at];
      spentOrder := spentOrder + [token];
    }

    method PruneSpentLocked()
      modifies `spent, `spentOrder
      ensures View() == Trimmed(old(View()))
    {
      while |spent| > MAX_SPENT_TOMBSTONES && |spentOrder| > 0
        invariant Trimmed(View()) == Trimmed(old(View()))
        invariant items == old(items)
        decreases |spentOrder|
      {
        var oldest := spentOrder[0];
        spentOrder := spentOrder[1..];
        if oldest in spent {
          spent := spent - {oldest};
        } else {
          MinusAbsent(spent, oldest);
        }
      }
    }

    method Mint(token: Token, payload: string, now: Time)
      modifies `items
      ensures View() == old(View()).(items := old(items)[token := Item(payload, now + ttl)])
    {
      items := items[token := Item(payload, now + ttl)];
    }

    method Resolve(token: Token, now: Time, at: Time) returns (r: Resolution)
      modifies this
      ensures (View(), r) == Resolved(old(View()), token, now, at)
    {
      PruneSpentLocked();
      if token in spent {
        return Used;
      }
      if token !in items {
        return NeverExisted;
      }
      var item := items[token];
      if now > item.expiresAt {
        items := items - {token};
        MarkSpentLocked(token, at);
        return RanOut;
      }
      r := Live(item);
    }

    method Remove(token: Token, at: Time)
      modifies this
      ensures View() == Removed(old(View()), token, at)
    {
      items := items - {token};
      MarkSpentLocked(token, at);
      PruneSpentLocked();
    }

    /** Claim does not look at the expiry. */
    method Claim(token: Token, at: Time) returns (ok: bool)
      modifies this
      ensures (View(), ok) == ClaimOf(old(View()), token, at)
    {
      if token !in items {
        return false;
      }
      Remove(token, at);
      ok := true;
    }

    /** Walks the pending map in an arbitrary order, which `batch` reports. */
    method PruneExpired(now: Time) returns (ghost batch: seq<Token>)
      modifies this
      ensures Enumerates(batch, Stale(old(View()), now))
      ensures View() == Reaped(old(View()), now, batch)
    {
      ghost var was := View();
      batch := [];
      var todo := items.Keys;
      while todo != {}
        invariant todo <= was.items.Keys
        invariant View() == SpendAll(was, batch, now)
        invariant NoDup(batch) && Elems(batch) == Stale(was, now) - todo
        decreases |todo|
      {
        var t :| t in todo;
        SpendAllItems(was, batch, now);
        WalkStep(Stale(was, now), todo, batch, t);
        SpendAllSnoc(was, batch, t, now);
        todo := todo - {t};
        if now > items[t].expiresAt {
          items := items - {t};
          MarkSpentLocked(t, now);
          batch := batch + [t];
        }
      }
      EnumeratesElems(batch, Stale(was, now));
      PruneSpentLocked();
    }
  }

  // ---------------------------------------------------------------- the index

  function Overflow(n: nat): (k: nat)
    ensures k <= n
  {
    if n > MAX_SPENT_TOMBSTONES then n - MAX_SPENT_TOMBSTONES else 0
  }

  lemma OverflowNext(order: seq<Token>)
    requires Overflow(|order|) > 0
    ensures order[1..][Overflow(|order[1..]|)..] == order[Overflow(|order|)..]
  {
  }

  lemma OldestGoes(l: Links)
    requires IndexOk(l) && l.order != []
    ensures IndexOk(EvictOldest(l))
  {
    NoDupCut(l.order, 1);
    assert l.order[..1] == [l.order[0]];
  }

  lemma IndexSize(l: Links)
    requires IndexOk(l)
    ensures |l.spent| == |l.order|
  {
    NoDupSize(l.order);
    assert |l.spent| == |l.spent.Keys|;
  }

  /** Trimming keeps exactly the youngest memories, as many as fit. */
  lemma {:induction false} TrimKeepsYoungest(l: Links)
    requires IndexOk(l)
    ensures IndexOk(Trimmed(l)) && Trimmed(l).items == l.items
    ensures Trimmed(l).order == l.order[Overflow(|l.order|)..]
    decreases |l.order|
  {
    IndexSize(l);
    if Overflow(|l.order|) > 0 {
      OldestGoes(l);
      TrimKeepsYoungest(EvictOldest(l));
      OverflowNext(l.order);
    }
  }

  lemma MarkKeepsIndex(l: Links, token: Token, at: Time)
    requires IndexOk(l)
    ensures IndexOk(MarkSpent(l, token, at))
  {
    if token !in l.spent {
      NoDupSnoc(l.order, token);
    }
  }

  lemma {:induction false} SpendAllItems(l: Links, batch: seq<Token>, at: Time)
    ensures SpendAll(l, batch, at).items == l.items - Elems(batch)
  {
    if batch != [] {
      SpendAllItems(l, batch[..|batch| - 1], at);
      assert batch == batch[..|batch| - 1] + [batch[|batch| - 1]];
    }
  }

  lemma SpendAllSnoc(l: Links, batch: seq<Token>, t: Token, at: Time)
    ensures SpendAll(l, batch + [t], at) == MarkSpent(Dropped(SpendAll(l, batch, at), t), t, at)
  {
    assert (batch + [t])[..|batch|] == batch;
  }

  // ---------------------------------------------------------------- every run

  /** The endpoint with its history: what was minted, every marking in order, successful claims and
      links reported as run out. */
  datatype State = State(clock: Time, l: Links, minted: map<Token, Item>, marks: seq<Token>,
                         claims: seq<Token>, reports: seq<Token>)

  datatype Op =
    | Wait(d: nat)
    | Mint(token: Token, payload: string, ttl: int)
    | Resolve(token: Token, at: Time)
    | Remove(token: Token)
    | Claim(token: Token)
    | Reap(now: Time, batch: seq<Token>)

  /** Minted tokens are fresh; the reaper reads the clock before it takes the lock. */
  ghost predicate CanDo(s: State, op: Op) {
    && (op.Mint? ==> op.token !in s.minted && op.token !in s.marks)
    && (op.Reap? ==> op.now <= s.clock && Enumerates(op.batch, Stale(s.l, op.now)))
  }

  /** The markings that one locked region adds. */
  function NewMark(l: Links, token: Token): seq<Token> {
    if token in l.spent then [] else [token]
  }

  /** The rest of Resolve, once it has trimmed the memory. */
  function AfterTrim(s: State, token: Token, at: Time): State {
    var (l, r) := ResolveAfterTrim(s.l, token, s.clock, at);
    if r.RanOut? then s.(l := l, marks := s.marks + [token], reports := s.reports + [token])
    else s
  }

  function Do(s: State, op: Op): State {
    match op
    case Wait(d) => s.(clock := s.clock + d)
    case Mint(token, payload, ttl) =>
      var item := Item(payload, s.clock + ttl);
      s.(l := s.l.(items := s.l.items[token := item]), minted := s.minted[token := item])
    case Resolve(token, at) =>
      AfterTrim(s.(l := Trimmed(s.l)), token, at)
    case Remove(token) =>
      s.(l := Removed(s.l, token, s.clock), marks := s.marks + NewMark(s.l, token))
    case Claim(token) =>
      var (l, ok) := ClaimOf(s.l, token, s.clock);
      if ok then s.(l := l, marks := s.marks + NewMark(s.l, token), claims := s.claims + [token])
      else s
    case Reap(now, batch) =>
      s.(l := Reaped(s.l, now, batch), marks := s.marks + batch)
  }

  ghost predicate IsRun(trace: seq<State>, ops: seq<Op>) {
    && |trace| == |ops| + 1
    && trace[0] == State(trace[0].clock, Links(map[], map[], []), map[], [], [], [])
    && forall i :: 0 <= i < |ops| ==> CanDo(trace[i], ops[i]) && trace[i + 1] == Do(trace[i], ops[i])
  }

  /** The remembered tokens are the latest markings: all of them, or at least the cap's worth. */
  ghost predicate Remembers(order: seq<Token>, marks: seq<Token>) {
    && |order| <= |marks|
    && order == marks[|marks| - |order|..]
    && (|order| == |marks| || |order| >= MAX_SPENT_TOMBSTONES)
  }

  /** Pending tokens are as minted and never marked; every other minted token has been marked. */
  ghost predicate PendingInv(l: Links, minted: map<Token, Item>, marks: seq<Token>) {
    && (forall t :: t in l.items ==> t in minted && l.items[t] == minted[t] && t !in marks)
    && (forall t :: t in minted && t !in l.items ==> t in marks)
  }

  ghost predicate LogsInv(marks: seq<Token>, claims: seq<Token>, reports: seq<Token>) {
    && NoDup(claims + reports)
    && forall t :: t in claims + reports ==> t in marks
  }

  ghost predicate Inv(s: State) {
    && IndexOk(s.l) && Remembers(s.l.order, s.marks) && |s.l.order| <= MAX_SPENT_TOMBSTONES + 1
    && PendingInv(s.l, s.minted, s.marks)
    && LogsInv(s.marks, s.claims, s.reports)
  }

  lemma MarkRemembers(l: Links, token: Token, at: Time, marks: seq<Token>)
    requires IndexOk(l) && Remembers(l.order, marks)
    ensures IndexOk(MarkSpent(l, token, at))
    ensures Remembers(MarkSpent(l, token, at).order, marks + NewMark(l, token))
  {
    MarkKeepsIndex(l, token, at);
    assert marks + [] == marks;
    RememberNext(l.order, marks, token);
  }

  lemma RememberNext(order: seq<Token>, marks: seq<Token>, token: Token)
    requires Remembers(order, marks)
    ensures Remembers(order + [token], marks + [token])
  {
    assert (marks + [token])[|marks| - |order|..] == order + [token];
  }

  lemma CutRemembers(order: seq<Token>, marks: seq<Token>)
    requires Remembers(order, marks)
    ensures Remembers(order[Overflow(|order|)..], marks)
  {
    assert order[Overflow(|order|)..] == marks[|marks| - |order[Overflow(|order|)..]|..];
  }

  lemma TrimRemembers(l: Links, marks: seq<Token>)
    requires IndexOk(l) && Remembers(l.order, marks)
    ensures IndexOk(Trimmed(l)) && Remembers(Trimmed(l).order, marks)
    ensures |Trimmed(l).order| <= MAX_SPENT_TOMBSTONES && Trimmed(l).items == l.items
  {
    TrimKeepsYoungest(l);
    CutRemembers(l.order, marks);
  }

  /** A remembered token was marked. */
  lemma RememberedMarked(l: Links, marks: seq<Token>, token: Token)
    requires IndexOk(l) && Remembers(l.order, marks) && token in l.spent
    ensures token in marks
  {
    assert token in l.spent.Keys;
  }

  lemma DropPending(l: Links, m: Links, minted: map<Token, Item>, marks: seq<Token>, token: Token, more: seq<Token>)
    requires PendingInv(l, minted, marks)
    requires m.items == l.items - {token} && more <= [token]
    requires token in marks + more
    ensures PendingInv(m, minted, marks + more)
  {
  }

  lemma LogGrows(marks: seq<Token>, claims: seq<Token>, reports: seq<Token>, token: Token)
    requires LogsInv(marks, claims, reports) && token !in marks
    ensures LogsInv(marks + [token], claims + [token], reports)
    ensures LogsInv(marks + [token], claims, reports + [token])
  {
    var a, b := claims + [token] + reports, claims + reports + [token];
    NoDupSnoc(claims + reports, token);
    assert claims + (reports + [token]) == b;
    forall i, j | 0 <= i < j < |a| ensures a[i] != a[j] {
      var x := if i < |claims| then i else if i == |claims| then |b| - 1 else i - 1;
      var y := if j < |claims| then j else if j == |claims| then |b| - 1 else j - 1;
      assert a[i] == b[x] && a[j] == b[y] && x != y;
    }
  }

  /** One pending token moves to the memory. */
  lemma SpendOne(l: Links, marks: seq<Token>, t: Token, at: Time)
    requires IndexOk(l) && Remembers(l.order, marks) && t !in marks
    ensures var m := MarkSpent(Dropped(l, t), t, at);
            IndexOk(m) && Remembers(m.order, marks + [t]) && m.order == l.order + [t]
  {
    if t in l.spent {
      RememberedMarked(l, marks, t);
    }
    MarkRemembers(Dropped(l, t), t, at, marks);
  }

  lemma RemovedKeeps(s: State, token: Token)
    requires Inv(s)
    ensures var l := Removed(s.l, token, s.clock);
            var marks := s.marks + NewMark(s.l, token);
            IndexOk(l) && Remembers(l.order, marks) && |l.order| <= MAX_SPENT_TOMBSTONES && PendingInv(l, s.minted, marks)
  {
    var d := Dropped(s.l, token);
    MarkRemembers(d, token, s.clock, s.marks);
    TrimRemembers(MarkSpent(d, token, s.clock), s.marks + NewMark(s.l, token));
    if token in s.l.spent {
      RememberedMarked(s.l, s.marks, token);
    }
    DropPending(s.l, Removed(s.l, token, s.clock), s.minted, s.marks, token, NewMark(s.l, token));
  }

  lemma AfterTrimKeeps(s: State, token: Token, at: Time)
    requires Inv(s) && |s.l.order| <= MAX_SPENT_TOMBSTONES
    ensures Inv(AfterTrim(s, token, at))
  {
    if token in s.l.items && PastExpiry(s.l.items[token], s.clock) {
      SpendOne(s.l, s.marks, token, at);
      DropPending(s.l, MarkSpent(Dropped(s.l, token), token, at), s.minted, s.marks, token, [token]);
      LogGrows(s.marks, s.claims, s.reports, token);
    }
  }

  lemma TrimKeepsInv(s: State, p: State)
    requires Inv(s) && p == s.(l := Trimmed(s.l))
    ensures Inv(p) && |p.l.order| <= MAX_SPENT_TOMBSTONES
  {
    TrimRemembers(s.l, s.marks);
    TrimmedInv(s, p.l);
  }

  lemma TrimmedInv(s: State, p: Links)
    requires Inv(s) && p.items == s.l.items
    requires IndexOk(p) && Remembers(p.order, s.marks) && |p.order| <= MAX_SPENT_TOMBSTONES
    ensures Inv(s.(l := p))
  {
  }

  lemma ResolveKeeps(s: State, p: State, token: Token, at: Time)
    requires Inv(s) && p == s.(l := Trimmed(s.l))
    ensures Inv(AfterTrim(p, token, at))
  {
    TrimKeepsInv(s, p);
    AfterTrimKeeps(p, token, at);
  }

  lemma ClaimKeeps(s: State, op: Op)
    requires Inv(s) && op.Claim?
    ensures Inv(Do(s, op))
  {
    if op.token in s.l.items {
      RemovedKeeps(s, op.token);
      if op.token in s.l.spent {
        RememberedMarked(s.l, s.marks, op.token);
      }
      LogGrows(s.marks, s.claims, s.reports, op.token);
    }
  }

  lemma LastUnmarked(marks: seq<Token>, batch: seq<Token>)
    requires NoDup(batch) && Elems(batch) !! Elems(marks) && batch != []
    ensures var b := batch[..|batch| - 1];
            var t := batch[|batch| - 1];
            NoDup(b) && Elems(b) !! Elems(marks) && t !in marks + b && batch == b + [t]
  {
    LastOfNoDup(batch);
    assert batch[|batch| - 1] in Elems(batch);
    assert batch[|batch| - 1] !in Elems(batch[..|batch| - 1]);
  }

  lemma {:induction false} SpendAllRemembers(l: Links, marks: seq<Token>, batch: seq<Token>, at: Time)
    requires IndexOk(l) && Remembers(l.order, marks)
    requires NoDup(batch) && Elems(batch) !! Elems(marks)
    ensures IndexOk(SpendAll(l, batch, at)) && Remembers(SpendAll(l, batch, at).order, marks + batch)
  {
    if batch == [] {
      assert marks + batch == marks;
    } else {
      var b := batch[..|batch| - 1];
      var t := batch[|batch| - 1];
      LastUnmarked(marks, batch);
      SpendAllRemembers(l, marks, b, at);
      SpendOne(SpendAll(l, b, at), marks + b, t, at);
      Assoc(marks, b, [t]);
    }
  }

  lemma DropAllPending(l: Links, m: Links, minted: map<Token, Item>, marks: seq<Token>, batch: seq<Token>)
    requires PendingInv(l, minted, marks) && m.items == l.items - Elems(batch)
    ensures PendingInv(m, minted, marks + batch)
  {
  }

  lemma PendingUnmarked(l: Links, minted: map<Token, Item>, marks: seq<Token>)
    requires PendingInv(l, minted, marks)
    ensures l.items.Keys !! Elems(marks)
  {
  }

  lemma LogsStay(marks: seq<Token>, more: seq<Token>, claims: seq<Token>, reports: seq<Token>)
    requires LogsInv(marks, claims, reports)
    ensures LogsInv(marks + more, claims, reports)
  {
  }

  lemma ReapedKeeps(l: Links, minted: map<Token, Item>, marks: seq<Token>, now: Time, batch: seq<Token>)
    requires IndexOk(l) && Remembers(l.order, marks) && PendingInv(l, minted, marks)
    requires NoDup(batch) && Elems(batch) == Stale(l, now)
    ensures var m := Reaped(l, now, batch);
            IndexOk(m) && Remembers(m.order, marks + batch) && |m.order| <= MAX_SPENT_TOMBSTONES && PendingInv(m, minted, marks + batch)
  {
    var m := SpendAll(l, batch, now);
    PendingUnmarked(l, minted, marks);
    SpendAllRemembers(l, marks, batch, now);
    SpendAllItems(l, batch, now);
    TrimRemembers(m, marks + batch);
    DropAllPending(l, Trimmed(m), minted, marks, batch);
  }

  lemma ReapKeeps(s: State, op: Op)
    requires Inv(s) && op.Reap? && CanDo(s, op)
    ensures Inv(Do(s, op)) && |Do(s, op).l.order| <= MAX_SPENT_TOMBSTONES
  {
    EnumeratesElems(op.batch, Stale(s.l, op.now));
    ReapedKeeps(s.l, s.minted, s.marks, op.now, op.batch);
    LogsStay(s.marks, op.batch, s.claims, s.reports);
  }

  lemma DoKeeps(s: State, op: Op)
    requires Inv(s) && CanDo(s, op)
    ensures Inv(Do(s, op))
  {
    match op
    case Wait(_) =>
    case Mint(_, _, _) =>
    case Resolve(token, at) => ResolveKeeps(s, s.(l := Trimmed(s.l)), token, at);
    case Remove(token) => RemovedKeeps(s, token);
    case Claim(_) => ClaimKeeps(s, op);
    case Reap(_, _) => ReapKeeps(s, op);
  }

  lemma {:induction false} RunInv(trace: seq<State>, ops: seq<Op>, i: nat)
    requires IsRun(trace, ops) && i < |trace|
    ensures Inv(trace[i])
  {
    if i > 0 {
      RunInv(trace, ops, i - 1);
      DoKeeps(trace[i - 1], ops[i - 1]);
    }
  }

  // ---------------------------------------------------------------- theorems

  /** In every reachable state the FIFO lists exactly the spent tokens, each once, and it is a suffix
      of the history of markings: eviction is oldest first, and nothing young is ever evicted. */
  lemma SpentIndex(trace: seq<State>, ops: seq<Op>, i: nat)
    requires IsRun(trace, ops) && i < |trace|
    ensures Enumerates(trace[i].l.order, trace[i].l.spent.Keys)
    ensures Remembers(trace[i].l.order, trace[i].marks)
    ensures |trace[i].l.spent| <= MAX_SPENT_TOMBSTONES + 1
  {
    RunInv(trace, ops, i);
    IndexSize(trace[i].l);
  }

  /** A Resolve that finds its link run out while the memory is full. */
  predicate MarksWhenFull(s: State, op: Op) {
    op.Resolve? && op.token in s.l.items && PastExpiry(s.l.items[op.token], s.clock) && |s.l.spent| >= MAX_SPENT_TOMBSTONES
  }

  /** An operation that does not trim: waiting, minting, and a Claim of a token that is not pending. */
  predicate DoesNotTrim(s: State, op: Op) {
    op.Wait? || op.Mint? || (op.Claim? && op.token !in s.l.items)
  }

  /** Exactly when the memory is over its cap after an operation: a Resolve trims before it marks, and
      three operations do not trim at all. In particular Remove, a successful Claim and the reaper
      always leave it within the cap. */
  lemma SpentOverCapExact(trace: seq<State>, ops: seq<Op>, i: nat)
    requires IsRun(trace, ops) && i < |ops|
    ensures |trace[i + 1].l.spent| > MAX_SPENT_TOMBSTONES <==>
            MarksWhenFull(trace[i], ops[i]) || (DoesNotTrim(trace[i], ops[i]) && |trace[i].l.spent| > MAX_SPENT_TOMBSTONES)
  {
    RunInv(trace, ops, i);
    RunInv(trace, ops, i + 1);
    IndexSize(trace[i + 1].l);
    DoSize(trace[i], ops[i]);
  }

  lemma DoSize(s: State, op: Op)
    requires Inv(s) && CanDo(s, op)
    ensures |Do(s, op).l.order| > MAX_SPENT_TOMBSTONES <==>
            MarksWhenFull(s, op) || (DoesNotTrim(s, op) && |s.l.spent| > MAX_SPENT_TOMBSTONES)
  {
    if op.Reap? {
      ReapKeeps(s, op);
    } else if op.Remove? {
      RemovedKeeps(s, op.token);
    } else if op.Resolve? {
      ResolveDoSize(s, op.token, op.at);
    } else if op.Claim? && op.token in s.l.items {
      RemovedKeeps(s, op.token);
    } else {
      IndexSize(s.l);
    }
  }

  lemma AfterTrimLinks(s: State, token: Token, at: Time)
    ensures Do(s, Resolve(token, at)).l == Resolved(s.l, token, s.clock, at).0
  {
  }

  lemma ResolveDoSize(s: State, token: Token, at: Time)
    requires Inv(s)
    ensures |Do(s, Resolve(token, at)).l.order| > MAX_SPENT_TOMBSTONES <==> MarksWhenFull(s, Resolve(token, at))
  {
    ResolveSize(s, token, at);
    AfterTrimLinks(s, token, at);
  }

  lemma ResolveSize(s: State, token: Token, at: Time)
    requires Inv(s)
    ensures |Resolved(s.l, token, s.clock, at).0.order| > MAX_SPENT_TOMBSTONES <==> MarksWhenFull(s, Resolve(token, at))
  {
    IndexSize(s.l);
    TrimRemembers(s.l, s.marks);
    TrimKeepsYoungest(s.l);
    var p := Trimmed(s.l);
    if token in p.items {
      if token in p.spent {
        RememberedMarked(p, s.marks, token);
      }
      SpendOne(p, s.marks, token, at);
    }
  }

  // ---------------------------------------------------------------- a run that goes over the cap

  /** A run whose memory holds exactly the tokens below `n`, with nothing pending. */
  ghost predicate Filled(trace: seq<State>, ops: seq<Op>, n: nat) {
    IsRun(trace, ops) && HoldsBelow(trace[|ops|], n)
  }

  ghost predicate HoldsBelow(s: State, n: nat) {
    && s.clock == 0 && s.minted == map[] && s.l.items == map[]
    && |s.l.spent| == n && (forall t :: t in s.l.spent ==> t < n) && (forall t :: t in s.marks ==> t < n)
  }

  lemma RemoveAdds(s: State)
    requires HoldsBelow(s, |s.l.spent|) && |s.l.spent| < MAX_SPENT_TOMBSTONES
    ensures HoldsBelow(Do(s, Remove(|s.l.spent|)), |s.l.spent| + 1)
  {
    var n := |s.l.spent|;
    var m := MarkSpent(Dropped(s.l, n), n, 0);
    assert m.spent.Keys == s.l.spent.Keys + {n};
    assert m.items == map[];
  }

  lemma {:induction false} FillMemory(n: nat) returns (trace: seq<State>, ops: seq<Op>)
    requires n <= MAX_SPENT_TOMBSTONES
    ensures Filled(trace, ops, n)
  {
    if n == 0 {
      trace, ops := [State(0, Links(map[], map[], []), map[], [], [], [])], [];
    } else {
      var t, o := FillMemory(n - 1);
      RemoveAdds(t[|o|]);
      trace, ops := t + [Do(t[|o|], Remove(n - 1))], o + [Remove(n - 1)];
    }
  }

  lemma ExtendRun(t: seq<State>, o: seq<Op>, op: Op) returns (t': seq<State>, o': seq<Op>)
    requires IsRun(t, o) && CanDo(t[|o|], op)
    ensures IsRun(t', o') && o' == o + [op] && t' == t + [Do(t[|o|], op)]
  {
    t', o' := t + [Do(t[|o|], op)], o + [op];
  }

  /** A full memory and one pending link, `n`, past its expiry. */
  ghost predicate FullAndRunOut(s: State, n: nat) {
    n in s.l.items && PastExpiry(s.l.items[n], s.clock) && |s.l.spent| == n
  }

  lemma MintPends(s: State, n: nat)
    requires HoldsBelow(s, n)
    ensures CanDo(s, Mint(n, "", 1))
    ensures var m := Do(s, Mint(n, "", 1)); n in m.l.items && m.l.items[n] == Item("", 1) && |m.l.spent| == n && m.clock == 0
  {
  }

  lemma WaitRunsOut(s: State, n: nat)
    requires n in s.l.items && s.l.items[n] == Item("", 1) && |s.l.spent| == n && s.clock == 0
    ensures FullAndRunOut(Do(s, Wait(2)), n)
  {
  }

  lemma RunOutMarks(s: State, n: nat)
    requires n == MAX_SPENT_TOMBSTONES && FullAndRunOut(s, n)
    ensures MarksWhenFull(s, Resolve(n, 2))
  {
  }

  lemma ReachFull(n: nat) returns (trace: seq<State>, ops: seq<Op>)
    requires n <= MAX_SPENT_TOMBSTONES
    ensures IsRun(trace, ops) && FullAndRunOut(trace[|ops|], n)
  {
    var t, o := FillMemory(n);
    MintPends(t[|o|], n);
    var t1, o1 := ExtendRun(t, o, Mint(n, "", 1));
    WaitRunsOut(t1[|o1|], n);
    trace, ops := ExtendRun(t1, o1, Wait(2));
  }

  lemma OneOver(t: seq<State>, o: seq<Op>, n: nat) returns (trace: seq<State>, ops: seq<Op>)
    requires n == MAX_SPENT_TOMBSTONES && IsRun(t, o) && FullAndRunOut(t[|o|], n)
    ensures IsRun(trace, ops) && |trace[|ops|].l.spent| > n
  {
    RunOutMarks(t[|o|], n);
    trace, ops := ExtendRun(t, o, Resolve(n, 2));
    assert trace[|o|] == t[|o|] && ops[|o|] == Resolve(n, 2);
    SpentOverCapExact(trace, ops, |o|);
  }

  /** The cap is really exceeded: with a full memory, a link that is minted, runs out and is opened once. */
  lemma OverCapIsReached() returns (trace: seq<State>, ops: seq<Op>)
    ensures IsRun(trace, ops) && |trace[|ops|].l.spent| == MAX_SPENT_TOMBSTONES + 1
  {
    var t, o := ReachFull(MAX_SPENT_TOMBSTONES);
    trace, ops := OneOver(t, o, MAX_SPENT_TOMBSTONES);
    SpentIndex(trace, ops, |ops|);
  }

  lemma PendingSpentDisjoint(trace: seq<State>, ops: seq<Op>, i: nat)
    requires IsRun(trace, ops) && i < |trace|
    ensures trace[i].l.items.Keys !! trace[i].l.spent.Keys
  {
    RunInv(trace, ops, i);
    forall t | t in trace[i].l.spent ensures t !in trace[i].l.items {
      RememberedMarked(trace[i].l, trace[i].marks, t);
    }
  }

  lemma {:induction false} MarksGrow(trace: seq<State>, ops: seq<Op>, i: nat, j: nat)
    requires IsRun(trace, ops) && i <= j < |trace|
    ensures trace[i].marks <= trace[j].marks
    ensures trace[i].claims <= trace[j].claims && trace[i].reports <= trace[j].reports
  {
    if i < j {
      MarksGrow(trace, ops, i, j - 1);
      assert trace[j] == Do(trace[j - 1], ops[j - 1]);
    }
  }

  /** A token that was minted and has stopped being pending is never pending again. */
  lemma NeverPendingAgain(trace: seq<State>, ops: seq<Op>, i: nat, j: nat, token: Token)
    requires IsRun(trace, ops) && i <= j < |trace|
    requires token in trace[i].minted && token !in trace[i].l.items
    ensures token !in trace[j].l.items
  {
    RunInv(trace, ops, i);
    RunInv(trace, ops, j);
    MarksGrow(trace, ops, i, j);
  }

  /** Over a whole run no token is claimed twice or reported as run out twice, nor both. */
  lemma ConsumedOnce(trace: seq<State>, ops: seq<Op>, i: nat)
    requires IsRun(trace, ops) && i < |trace|
    ensures NoDup(trace[i].claims + trace[i].reports)
  {
    RunInv(trace, ops, i);
  }

  /** The last `n` markings. */
  function Latest(marks: seq<Token>, n: nat): seq<Token> {
    if |marks| <= n then marks else marks[|marks| - n..]
  }

  lemma TrimmedIsLatest(p: Links, marks: seq<Token>, token: Token)
    requires IndexOk(p) && Remembers(p.order, marks) && |p.order| <= MAX_SPENT_TOMBSTONES
    ensures token in p.spent <==> token in Latest(marks, MAX_SPENT_TOMBSTONES)
    ensures token in p.spent ==> token in marks
  {
    assert p.order == Latest(marks, MAX_SPENT_TOMBSTONES);
    assert token in p.spent.Keys <==> token in Elems(p.order);
  }

  /** What Resolve answers in any reachable state, in terms of the history alone. A dead link is
      explained exactly as long as fewer than MAX_SPENT_TOMBSTONES links have been spent after it. */
  lemma ResolveExact(trace: seq<State>, ops: seq<Op>, i: nat, token: Token, at: Time)
    requires IsRun(trace, ops) && i < |trace|
    ensures var s := trace[i];
            var r := Resolved(s.l, token, s.clock, at).1;
            && (r.Used? <==> token in Latest(s.marks, 10000))
            && (r.RanOut? <==> token in s.minted && token !in s.marks && s.clock > s.minted[token].expiresAt)
            && (r.Live? <==> token in s.minted && token !in s.marks && s.clock <= s.minted[token].expiresAt)
            && (r.Live? ==> r.item == s.minted[token])
  {
    RunInv(trace, ops, i);
    ResolveInState(trace[i], token, at);
  }

  lemma ResolveInState(s: State, token: Token, at: Time)
    requires Inv(s)
    ensures var r := Resolved(s.l, token, s.clock, at).1;
            && (r.Used? <==> token in Latest(s.marks, MAX_SPENT_TOMBSTONES))
            && (r.RanOut? <==> token in s.minted && token !in s.marks && s.clock > s.minted[token].expiresAt)
            && (r.Live? <==> token in s.minted && token !in s.marks && s.clock <= s.minted[token].expiresAt)
            && (r.Live? ==> r.item == s.minted[token])
  {
    TrimRemembers(s.l, s.marks);
    TrimmedIsLatest(Trimmed(s.l), s.marks, token);
    AfterTrimAnswers(s, Trimmed(s.l), token, at);
  }

  lemma AfterTrimAnswers(s: State, p: Links, token: Token, at: Time)
    requires PendingInv(s.l, s.minted, s.marks) && p.items == s.l.items && (token in p.spent ==> token in s.marks)
    ensures var r := ResolveAfterTrim(p, token, s.clock, at).1;
            && (r.Used? <==> token in p.spent)
            && (r.RanOut? <==> token in s.minted && token !in s.marks && s.clock > s.minted[token].expiresAt)
            && (r.Live? <==> token in s.minted && token !in s.marks && s.clock <= s.minted[token].expiresAt)
            && (r.Live? ==> r.item == s.minted[token])
  {
  }

  // ---------------------------------------------------------------- the history behind the answers

  /** Minted, and neither used nor run out so far. */
  ghost predicate Open(s: State, token: Token) { token in s.minted && token !in s.marks }

  /** This operation uses the link up: a Remove of it, a Claim that finds it open, or a Resolve or the
      reaper when its time is over. */
  ghost predicate Spends(s: State, op: Op, token: Token) {
    match op
    case Remove(t) => t == token
    case Claim(t) => t == token && Open(s, token)
    case Resolve(t, _) => t == token && Open(s, token) && s.clock > s.minted[token].expiresAt
    case Reap(now, _) => Open(s, token) && now > s.minted[token].expiresAt
    case _ => false
  }

  /** What one operation means for one link. */
  ghost predicate LinkMoves(s: State, op: Op, n: State, token: Token) {
    && (token in n.marks <==> token in s.marks || Spends(s, op, token))
    && (token in n.minted <==> token in s.minted || (op.Mint? && op.token == token))
    && (token in s.minted ==> token in n.minted && n.minted[token] == s.minted[token])
    && (op.Mint? && op.token == token ==> token !in s.minted && n.minted[token] == Item(op.payload, s.clock + op.ttl))
    && (token in n.claims <==> token in s.claims || (op == Claim(token) && Open(s, token)))
  }

  lemma PendingIsOpen(s: State, token: Token)
    requires Inv(s)
    ensures token in s.l.items <==> Open(s, token)
    ensures token in s.l.items ==> s.l.items[token] == s.minted[token]
  {
  }

  lemma RemoveMoves(s: State, op: Op, token: Token)
    requires Inv(s) && (op.Remove? || op.Claim?)
    ensures LinkMoves(s, op, Do(s, op), token)
  {
    PendingIsOpen(s, token);
    if op.token in s.l.spent {
      RememberedMarked(s.l, s.marks, op.token);
    }
  }

  lemma ResolveMoves(s: State, op: Op, token: Token)
    requires Inv(s) && op.Resolve?
    ensures LinkMoves(s, op, Do(s, op), token)
  {
    PendingIsOpen(s, op.token);
    TrimRemembers(s.l, s.marks);
    TrimmedIsLatest(Trimmed(s.l), s.marks, op.token);
    AfterTrimMoves(s, s.(l := Trimmed(s.l)), op, token);
  }

  lemma AfterTrimMoves(s: State, p: State, op: Op, token: Token)
    requires op.Resolve? && p == s.(l := p.l) && Do(s, op) == AfterTrim(p, op.token, op.at)
    requires op.token in p.l.items <==> Open(s, op.token)
    requires op.token in p.l.items ==> p.l.items[op.token] == s.minted[op.token]
    requires op.token in p.l.spent ==> op.token in s.marks
    ensures LinkMoves(s, op, Do(s, op), token)
  {
  }

  lemma ReapMoves(s: State, op: Op, token: Token)
    requires Inv(s) && CanDo(s, op) && op.Reap?
    ensures LinkMoves(s, op, Do(s, op), token)
  {
    PendingIsOpen(s, token);
    assert token in op.batch <==> token in Stale(s.l, op.now);
  }

  lemma StepMoves(s: State, op: Op, token: Token)
    requires Inv(s) && CanDo(s, op)
    ensures LinkMoves(s, op, Do(s, op), token)
  {
    if op.Remove? || op.Claim? {
      RemoveMoves(s, op, token);
    } else if op.Resolve? {
      ResolveMoves(s, op, token);
    } else if op.Reap? {
      ReapMoves(s, op, token);
    }
  }

  ghost predicate Minted(trace: seq<State>, ops: seq<Op>, j: nat, token: Token)
    requires j < |ops| < |trace|
  {
    ops[j].Mint? && ops[j].token == token
  }

  /** The history of a run, link by link. */
  ghost predicate HistoryOk(trace: seq<State>, ops: seq<Op>, i: nat, token: Token)
    requires i < |trace| == |ops| + 1
  {
    && (token in trace[i].marks <==> exists j :: 0 <= j < i && Spends(trace[j], ops[j], token))
    && (token in trace[i].minted <==> exists j :: 0 <= j < i && Minted(trace, ops, j, token))
    && (forall j :: 0 <= j < i && Minted(trace, ops, j, token) ==>
          token in trace[i].minted && trace[i].minted[token] == Item(ops[j].payload, trace[j].clock + ops[j].ttl))
    && (token in trace[i].claims <==> exists j :: 0 <= j < i && ops[j] == Claim(token) && Open(trace[j], token))
  }

  lemma HistoryNext(trace: seq<State>, ops: seq<Op>, r: nat, token: Token)
    requires r + 1 < |trace| == |ops| + 1 && HistoryOk(trace, ops, r, token)
    requires LinkMoves(trace[r], ops[r], trace[r + 1], token)
    ensures HistoryOk(trace, ops, r + 1, token)
  {
    if Minted(trace, ops, r, token) {
      assert forall j :: 0 <= j < r ==> !Minted(trace, ops, j, token);
    }
  }

  /** Everything that ResolveExact speaks of, told from the operations: a link is used up exactly by an
      operation that spends it, it was minted by its Mint, with that payload, until that instant plus the
      TTL, and it is claimed exactly by a Claim that found it open, whatever the time. */
  lemma {:induction false} HistoryExact(trace: seq<State>, ops: seq<Op>, i: nat, token: Token)
    requires IsRun(trace, ops) && i < |trace|
    ensures HistoryOk(trace, ops, i, token)
  {
    if i > 0 {
      HistoryExact(trace, ops, i - 1, token);
      RunInv(trace, ops, i - 1);
      StepMoves(trace[i - 1], ops[i - 1], token);
      HistoryNext(trace, ops, i - 1, token);
    }
  }

  /** A Claim succeeds exactly on a link that is open, even one whose time is over. */
  lemma ClaimExact(trace: seq<State>, ops: seq<Op>, i: nat, token: Token, at: Time)
    requires IsRun(trace, ops) && i < |trace|
    ensures ClaimOf(trace[i].l, token, at).1 <==> Open(trace[i], token)
  {
    RunInv(trace, ops, i);
    PendingIsOpen(trace[i], token);
  }
}
