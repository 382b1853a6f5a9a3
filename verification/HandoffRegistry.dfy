/** The bounded registry of resume continuations, whose evictions must retire handles of the async store
    after the registry lock is dropped. */
module HandoffRegistry {
  import opened Prelude
  import S = AsyncStore
  import opened AsyncStore

  /** An opaque continuation. */
  type Cont = nat

  datatype Entry = Entry(createdAt: Time, cont: Cont)

  type Conts = map<Handle, Entry>

  // ---------------------------------------------------------------- specification

  predicate Stale(e: Entry, ttl: int, now: Time) { now - e.createdAt > ttl }

  function StaleSet(c: Conts, ttl: int, now: Time): set<Handle> {
    set h | h in c && Stale(c[h], ttl, now)
  }

  function Kept(c: Conts, ttl: int, now: Time): Conts { c - StaleSet(c, ttl, now) }

  datatype Candidate = Candidate(handle: Handle, at: Time)

  /** One step of the walk for the oldest entry. The empty handle doubles as "nothing chosen yet". */
  function Better(c: Conts, o: Candidate, h: Handle): Candidate
    requires h in c
  {
    if o.handle == EMPTY || c[h].createdAt < o.at then Candidate(h, c[h].createdAt) else o
  }

  /** The handle the walk settles on. */
  function Choose(c: Conts, walk: seq<Handle>): Candidate
    requires forall h :: h in walk ==> h in c
  {
    if walk == [] then Candidate(EMPTY, 0)
    else Better(c, Choose(c, walk[..|walk| - 1]), walk[|walk| - 1])
  }

  /** The capacity victim of a Begin for `handle`, if there is one; `p` is the pruned registry. */
  function Victim(p: Conts, max: int, handle: Handle, walk: seq<Handle>): set<Handle>
    requires forall h :: h in walk ==> h in p
  {
    if |p| >= max && Choose(p, walk).handle != EMPTY && Choose(p, walk).handle != handle
    then {Choose(p, walk).handle} else {}
  }

  function Begun(c: Conts, ttl: int, max: int, handle: Handle, cont: Cont, now: Time, walk: seq<Handle>): Conts
    requires forall h :: h in walk ==> h in Kept(c, ttl, now)
  {
    (Kept(c, ttl, now) - Victim(Kept(c, ttl, now), max, handle, walk))[handle := Entry(now, cont)]
  }

  /** Everything a Begin drops: what is past its TTL and the capacity victim. */
  function Dropped(c: Conts, ttl: int, max: int, handle: Handle, now: Time, walk: seq<Handle>): set<Handle>
    requires forall h :: h in walk ==> h in Kept(c, ttl, now)
  {
    StaleSet(c, ttl, now) + Victim(Kept(c, ttl, now), max, handle, walk)
  }

  function Lookup(c: Conts, ttl: int, handle: Handle, now: Time): Option<Cont> {
    if handle in c && !Stale(c[handle], ttl, now) then Some(c[handle].cont) else None
  }

  // ---------------------------------------------------------------- implementation

  class Registry {
    var cont: Conts
    const ttl: int
    const maxEntries: int

    constructor ()
      ensures cont == map[] && ttl == 1_800_000_000_000 && maxEntries == 100
    {
      cont := map[];
      ttl := DEFAULT_SESSION_TTL;
      maxEntries := DEFAULT_MAX_SESSIONS;
    }

    /** Walks the map in an arbitrary order; `evicted` lists what it removed. */
    method PruneLocked(now: Time) returns (evicted: seq<Handle>)
      modifies `cont
      ensures cont == Kept(old(cont), ttl, now)
      ensures NoDup(evicted) && Elems(evicted) == StaleSet(old(cont), ttl, now)
    {
      ghost var was := cont;
      evicted := [];
      var todo := cont.Keys;
      while todo != {}
        invariant todo <= was.Keys
        invariant cont == was - Elems(evicted)
        invariant NoDup(evicted) && Elems(evicted) == StaleSet(was, ttl, now) - todo
        decreases |todo|
      {
        var h :| h in todo;
        WalkStep(StaleSet(was, ttl, now), todo, evicted, h);
        todo := todo - {h};
        if now - cont[h].createdAt > ttl {
          MinusSnoc(was, evicted, h);
          cont := cont - {h};
          evicted := evicted + [h];
        }
      }
    }

    /** The oldest entry in map-walk order, which `walk` reports. */
    method OldestLocked() returns (oldest: Handle, ghost walk: seq<Handle>)
      ensures Enumerates(walk, cont.Keys) && oldest == Choose(cont, walk).handle
    {
      var oldestAt: Time;
      oldest, oldestAt, walk := EMPTY, 0, [];
      var todo := cont.Keys;
      while todo != {}
        invariant todo <= cont.Keys
        invariant NoDup(walk) && Elems(walk) == cont.Keys - todo
        invariant forall h :: h in walk ==> h in cont
        invariant Candidate(oldest, oldestAt) == Choose(cont, walk)
        decreases |todo|
      {
        var h :| h in todo;
        WalkStep(cont.Keys, todo, walk, h);
        assert (walk + [h])[..|walk|] == walk;
        todo := todo - {h};
        if oldest == EMPTY || cont[h].createdAt < oldestAt {
          oldest, oldestAt := h, cont[h].createdAt;
        }
        walk := walk + [h];
      }
      EnumeratesElems(walk, cont.Keys);
    }

    /** Makes room for `handle` at capacity. */
    method EvictLocked(handle: Handle) returns (evicted: seq<Handle>, ghost walk: seq<Handle>)
      modifies `cont
      ensures Enumerates(walk, old(cont).Keys)
      ensures NoDup(evicted) && Elems(evicted) == Victim(old(cont), maxEntries, handle, walk)
      ensures cont == old(cont) - Elems(evicted)
    {
      evicted := [];
      if |cont| >= maxEntries {
        var oldest: Handle;
        oldest, walk := OldestLocked();
        if oldest != EMPTY && oldest != handle {
          cont := cont - {oldest};
          evicted := [oldest];
        }
      } else {
        walk := WalkExists(cont.Keys);
        EnumeratesElems(walk, cont.Keys);
      }
    }

    /** The locked half of Begin; `retire` lists the dropped handles, victim first. */
    method Begin(handle: Handle, c: Cont, now: Time) returns (retire: seq<Handle>, ghost walk: seq<Handle>)
      modifies `cont
      ensures Enumerates(walk, Kept(old(cont), ttl, now).Keys)
      ensures cont == Begun(old(cont), ttl, maxEntries, handle, c, now, walk)
      ensures NoDup(retire) && Elems(retire) == Dropped(old(cont), ttl, maxEntries, handle, now, walk)
    {
      var pruned := PruneLocked(now);
      var evicted: seq<Handle>;
      VictimOfKept(old(cont), ttl, maxEntries, handle, now);
      evicted, walk := EvictLocked(handle);
      cont := cont[handle := Entry(now, c)];
      retire := evicted + pruned;
      NoDupAppend(evicted, pruned);
    }

    method Get(handle: Handle, now: Time) returns (r: Option<Cont>)
      ensures r == Lookup(cont, ttl, handle, now)
    {
      if handle !in cont {
        return None;
      }
      var e := cont[handle];
      if now - e.createdAt > ttl {
        return None;
      }
      r := Some(e.cont);
    }

    method End(handle: Handle)
      modifies `cont
      ensures cont == old(cont) - {handle}
    {
      cont := cont - {handle};
    }
  }

  lemma MinusSnoc(c: Conts, gone: seq<Handle>, h: Handle)
    ensures c - Elems(gone + [h]) == c - Elems(gone) - {h}
  {
  }

  /** The loop that runs after the registry lock is dropped: the empty handle is skipped. */
  method RetireHandles(store: AsyncHandleStore, retire: seq<Handle>)
    modifies store`items
    ensures store.items == old(store.items) - (Elems(retire) - {EMPTY})
  {
    for i := 0 to |retire|
      invariant store.items == old(store.items) - (Elems(retire[..i]) - {EMPTY})
    {
      assert retire[..i + 1] == retire[..i] + [retire[i]];
      if retire[i] != EMPTY {
        store.Delete(retire[i]);
      }
    }
    assert retire[..|retire|] == retire;
  }

  // ---------------------------------------------------------------- the capacity victim

  /** The empty handle is registered and strictly older than every other entry. */
  ghost predicate EmptyIsOldest(c: Conts) {
    EMPTY in c && forall h :: h in c && h != EMPTY ==> c[EMPTY].createdAt < c[h].createdAt
  }

  ghost predicate IsOldest(c: Conts, h: Handle) {
    h in c && forall g :: g in c ==> c[h].createdAt <= c[g].createdAt
  }

  lemma {:induction false} OldestExists(c: Conts, keys: set<Handle>) returns (m: Handle)
    requires keys != {} && keys <= c.Keys
    ensures m in keys && forall g :: g in keys ==> c[m].createdAt <= c[g].createdAt
    decreases |keys|
  {
    var h :| h in keys;
    m := h;
    if keys != {h} {
      var o := OldestExists(c, keys - {h});
      m := if c[h].createdAt <= c[o].createdAt then h else o;
    }
  }

  lemma {:induction false} WalkExists(keys: set<Handle>) returns (walk: seq<Handle>)
    ensures NoDup(walk) && Elems(walk) == keys
    decreases |keys|
  {
    walk := [];
    if keys != {} {
      var h :| h in keys;
      var rest := WalkExists(keys - {h});
      NoDupSnoc(rest, h);
      walk := rest + [h];
    }
  }

  /** A walk that has met an oldest entry `m`, other than the empty handle's, holds an oldest entry. */
  lemma {:induction false} ChooseMin(c: Conts, walk: seq<Handle>, m: Handle)
    requires forall h :: h in walk ==> h in c
    requires m != EMPTY && IsOldest(c, m)
    ensures Choose(c, walk).handle != EMPTY ==> Choose(c, walk).handle in c && Choose(c, walk).at == c[Choose(c, walk).handle].createdAt
    ensures m in walk ==> Choose(c, walk).handle != EMPTY && Choose(c, walk).at == c[m].createdAt
  {
    if walk != [] {
      var rest := walk[..|walk| - 1];
      assert walk == rest + [walk[|walk| - 1]];
      ChooseMin(c, rest, m);
    }
  }

  lemma NoKeys(p: Conts)
    ensures p.Keys == {} ==> p == map[]
  {
  }

  lemma VictimInside(p: Conts, max: int, handle: Handle, walk: seq<Handle>)
    requires forall h :: h in walk ==> h in p
    ensures Victim(p, max, handle, walk) <= p.Keys
  {
    ChooseFrom(p, walk);
  }

  lemma VictimOfKept(c: Conts, ttl: int, max: int, handle: Handle, now: Time)
    ensures forall walk :: Enumerates(walk, Kept(c, ttl, now).Keys) ==>
              Victim(Kept(c, ttl, now), max, handle, walk) !! StaleSet(c, ttl, now)
  {
    forall walk | Enumerates(walk, Kept(c, ttl, now).Keys)
      ensures Victim(Kept(c, ttl, now), max, handle, walk) !! StaleSet(c, ttl, now)
    {
      VictimInside(Kept(c, ttl, now), max, handle, walk);
    }
  }

  /** Every walk settles on an oldest entry, exactly when the empty handle is not strictly the oldest;
      otherwise a walk that meets the empty handle last finds no victim at all. */
  lemma VictimExact(p: Conts)
    requires p != map[]
    ensures (forall walk :: Enumerates(walk, p.Keys) ==> Choose(p, walk).handle != EMPTY && IsOldest(p, Choose(p, walk).handle)) <==>
            !EmptyIsOldest(p)
  {
    if EmptyIsOldest(p) {
      var walk := EmptyLast(p);
    } else {
      var keys := p.Keys - {EMPTY};
      if EMPTY in p {
        var younger :| younger in p && younger != EMPTY && p[younger].createdAt <= p[EMPTY].createdAt;
        assert younger in keys;
      }
      NoKeys(p);
      var m := OldestExists(p, keys);
      forall walk | Enumerates(walk, p.Keys)
        ensures Choose(p, walk).handle != EMPTY && IsOldest(p, Choose(p, walk).handle)
      {
        ChooseMin(p, walk, m);
      }
    }
  }

  lemma EmptyLast(p: Conts) returns (walk: seq<Handle>)
    requires EmptyIsOldest(p)
    ensures Enumerates(walk, p.Keys) && Choose(p, walk).handle == EMPTY
  {
    var rest := WalkExists(p.Keys - {EMPTY});
    NoDupSnoc(rest, EMPTY);
    walk := rest + [EMPTY];
    EnumeratesElems(walk, p.Keys);
    assert walk[..|walk| - 1] == rest;
    ChooseFrom(p, rest);
  }

  lemma {:induction false} ChooseFrom(c: Conts, walk: seq<Handle>)
    requires forall h :: h in walk ==> h in c
    ensures var o := Choose(c, walk); o.handle != EMPTY ==> o.handle in walk && o.at == c[o.handle].createdAt
  {
    if walk != [] {
      var rest := walk[..|walk| - 1];
      assert walk == rest + [walk[|walk| - 1]];
      ChooseFrom(c, rest);
    }
  }

  /** A Begin never retires the handle it registers as the capacity victim, but it does drop it, and
      hence retire its backing handle, exactly when the previous entry was past its TTL. */
  lemma OwnHandleDropped(c: Conts, ttl: int, max: int, handle: Handle, now: Time, walk: seq<Handle>)
    requires Enumerates(walk, Kept(c, ttl, now).Keys)
    ensures handle !in Victim(Kept(c, ttl, now), max, handle, walk)
    ensures handle in Dropped(c, ttl, max, handle, now, walk) <==> handle in c && now - c[handle].createdAt > ttl
  {
  }

  /** The entries that are not past their TTL. */
  ghost function Current(c: Conts, ttl: int, now: Time): Conts {
    map h | h in c && now - c[h].createdAt <= ttl :: c[h]
  }

  lemma CurrentIsKept(c: Conts, ttl: int, now: Time)
    ensures Current(c, ttl, now) == Kept(c, ttl, now)
  {
  }

  /** What a Begin leaves of the others: all that are not past their TTL, but for one entry when there are as
      many as the cap allows, also when the handle is registered already. That one is a current entry of
      another handle, and an oldest one, unless the empty handle is strictly oldest; it is spared only if the
      handle's own entry is an oldest one. */
  lemma BeginLeaves(c: Conts, ttl: int, max: int, handle: Handle, cont: Cont, now: Time, walk: seq<Handle>)
    requires Enumerates(walk, Kept(c, ttl, now).Keys)
    ensures var n, p := Begun(c, ttl, max, handle, cont, now, walk), Current(c, ttl, now);
            var evicted := p.Keys - n.Keys;
            && handle in n && n[handle] == Entry(now, cont)
            && (forall g :: g in n && g != handle ==> g in p && n[g] == p[g])
            && (|p| < max ==> evicted == {})
            && (forall g, h :: g in evicted && h in evicted ==> g == h)
            && (forall g :: g in evicted ==> g != handle && g != 0 && (IsOldest(p, g) || EmptyIsOldest(p)))
            && (|p| >= max && p != map[] && evicted == {} ==> IsOldest(p, handle) || EmptyIsOldest(p))
  {
    CurrentIsKept(c, ttl, now);
    VictimInside(Kept(c, ttl, now), max, handle, walk);
    VictimOldest(Kept(c, ttl, now), max, handle, walk);
    EvictedIsVictim(Kept(c, ttl, now), Victim(Kept(c, ttl, now), max, handle, walk), handle, Entry(now, cont));
  }

  lemma EvictedIsVictim(p: Conts, gone: set<Handle>, handle: Handle, e: Entry)
    requires gone <= p.Keys && handle !in gone
    ensures var n := (p - gone)[handle := e];
            p.Keys - n.Keys == gone && forall g :: g in n && g != handle ==> g in p && n[g] == p[g]
  {
  }

  lemma VictimOldest(p: Conts, max: int, handle: Handle, walk: seq<Handle>)
    requires Enumerates(walk, p.Keys)
    ensures var gone := Victim(p, max, handle, walk);
            && (|p| < max ==> gone == {})
            && (forall g, h :: g in gone && h in gone ==> g == h)
            && (forall g :: g in gone ==> g != handle && g != 0 && (IsOldest(p, g) || EmptyIsOldest(p)))
            && (|p| >= max && p != map[] && gone == {} ==> IsOldest(p, handle) || EmptyIsOldest(p))
  {
    ChooseFrom(p, walk);
    if p != map[] {
      VictimExact(p);
    }
  }

  // ---------------------------------------------------------------- the cap

  ghost predicate CapBreaks(p: Conts, max: int, handle: Handle) {
    |p| >= max && handle !in p && EmptyIsOldest(p)
  }

  lemma SizeAfter(p: Conts, gone: set<Handle>, handle: Handle, e: Entry)
    requires gone <= p.Keys && handle !in gone
    ensures |(p - gone)[handle := e]| == |p| - |gone| + if handle in p then 0 else 1
  {
    var q := p - gone;
    assert q.Keys == p.Keys - gone;
    assert q[handle := e].Keys == q.Keys + {handle};
  }

  lemma BegunSize(c: Conts, ttl: int, max: int, handle: Handle, cont: Cont, now: Time, walk: seq<Handle>)
    requires |c| <= max && max >= 1
    requires Enumerates(walk, Kept(c, ttl, now).Keys)
    ensures |Begun(c, ttl, max, handle, cont, now, walk)| <= max <==>
            !(|Kept(c, ttl, now)| >= max && handle !in Kept(c, ttl, now) && Choose(Kept(c, ttl, now), walk).handle == EMPTY)
  {
    var p := Kept(c, ttl, now);
    assert p.Keys <= c.Keys;
    SubsetSize(p.Keys, c.Keys);
    ChooseFrom(p, walk);
    SizeAfter(p, Victim(p, max, handle, walk), handle, Entry(now, cont));
  }

  /** The cap survives a Begin, whatever the map-walk order, exactly when it is not the case that the
      pruned registry is full, the handle is new and the empty handle is strictly the oldest entry. */
  lemma CapExact(c: Conts, ttl: int, max: int, handle: Handle, cont: Cont, now: Time)
    requires |c| <= max && max >= 1
    ensures (forall walk :: Enumerates(walk, Kept(c, ttl, now).Keys) ==> |Begun(c, ttl, max, handle, cont, now, walk)| <= max) <==>
            !CapBreaks(Kept(c, ttl, now), max, handle)
  {
    var p := Kept(c, ttl, now);
    if CapBreaks(p, max, handle) {
      var walk := EmptyLast(p);
      BegunSize(c, ttl, max, handle, cont, now, walk);
    } else {
      forall walk | Enumerates(walk, p.Keys) ensures |Begun(c, ttl, max, handle, cont, now, walk)| <= max {
        BegunSize(c, ttl, max, handle, cont, now, walk);
        if |p| >= max {
          VictimExact(p);
        }
      }
    }
  }

  lemma BeginWithinCap(c: Conts, ttl: int, max: int, h: Handle, cont: Cont, now: Time, walk: seq<Handle>)
    requires |c| <= max && max >= 1 && EMPTY !in c && h != EMPTY
    requires Enumerates(walk, Kept(c, ttl, now).Keys)
    ensures |Begun(c, ttl, max, h, cont, now, walk)| <= max && EMPTY !in Begun(c, ttl, max, h, cont, now, walk)
  {
    CapExact(c, ttl, max, h, cont, now);
  }

  lemma FewerEntries(c: Conts, gone: set<Handle>)
    ensures |c - gone| <= |c|
  {
    SubsetSize((c - gone).Keys, c.Keys);
  }

  // ---------------------------------------------------------------- resuming

  const STATUS_NEEDS_HUMAN := "needs_human"

  /** What a continuation returns; `status` is None unless the structured content is a map whose status
      is a string. */
  datatype Answer = Failure | Answer(status: Option<string>)

  datatype Outcome = HandleRequired | DeadHandle(expired: bool) | NoContinuation | ContinuationFailed | Answered(answer: Answer)

  predicate IsTerminal(a: Answer) {
    a.Answer? && a.status.Some? && a.status.value != "" && a.status.value != STATUS_NEEDS_HUMAN
  }

  /** The registry, the store, the outcome and the continuation invoked with its payload, if any. */
  datatype Resumption = Resumption(cont: Conts, items: Items, outcome: Outcome, ran: Option<(Cont, Option<Data>)>)

  /** An undisturbed resume: the store is read at `now`, the registry at `later`. */
  function Resumed(c: Conts, ttl: int, items: Items, handle: Handle, now: Time, later: Time, answer: Answer): Resumption {
    if handle == EMPTY then Resumption(c, items, HandleRequired, None)
    else
      var (items', r) := S.Get(items, handle, now);
      if !r.Found? then Resumption(c - {handle}, items', DeadHandle(r.HandleExpired?), None)
      else match Lookup(c, ttl, handle, later)
        case None => Resumption(c, items', NoContinuation, None)
        case Some(cont) =>
          Resumption(if IsTerminal(answer) then c - {handle} else c, items',
                     if answer.Failure? then ContinuationFailed else Answered(answer), Some((cont, r.data)))
  }

  /** The resume tool's handler, when no other call touches the registry or the store meanwhile; `answer`
      is what the continuation returns if it is invoked. */
  method Resume(reg: Registry, store: AsyncHandleStore, handle: Handle, now: Time, later: Time, answer: Answer)
    returns (outcome: Outcome, ran: Option<(Cont, Option<Data>)>)
    modifies reg`cont, store`items
    ensures Resumption(reg.cont, store.items, outcome, ran) == Resumed(old(reg.cont), reg.ttl, old(store.items), handle, now, later, answer)
  {
    if handle == EMPTY {
      return HandleRequired, None;
    }
    var r := store.GetHandle(handle, now);
    if !r.Found? {
      reg.End(handle);
      return DeadHandle(r.HandleExpired?), None;
    }
    var c := reg.Get(handle, later);
    if c.None? {
      return NoContinuation, None;
    }
    ran := Some((c.value, r.data));
    if answer.Failure? {
      return ContinuationFailed, ran;
    }
    if IsTerminal(answer) {
      reg.End(handle);
    }
    outcome := Answered(answer);
  }

  /** A failure, no status, an empty one, or the one that says a human is still needed. */
  ghost predicate Unfinished(a: Answer) {
    a.Failure? || a.status.None? || a.status.value == "" || a.status.value == "needs_human"
  }

  /** Whom an undisturbed resume serves, and with which answer: the handle must be there and not past its
      expiry, and its flow registered for no longer than the session TTL. */
  lemma ResumedExact(c: Conts, ttl: int, items: Items, handle: Handle, now: Time, later: Time, answer: Answer)
    ensures var r := Resumed(c, ttl, items, handle, now, later, answer);
            var live := handle != 0 && handle in items && now <= items[handle].expiresAt;
            && (r.ran.Some? <==> live && handle in c && later - c[handle].createdAt <= ttl)
            && (r.ran.Some? ==> r.ran == Some((c[handle].cont, items[handle].data)))
            && (r.outcome == HandleRequired <==> handle == 0)
            && (r.outcome == DeadHandle(false) <==> handle != 0 && handle !in items)
            && (r.outcome == DeadHandle(true) <==> handle != 0 && handle in items && now > items[handle].expiresAt)
            && (r.outcome == NoContinuation <==> live && r.ran.None?)
            && (r.outcome == ContinuationFailed <==> r.ran.Some? && answer.Failure?)
            && (r.outcome == Answered(answer) <==> r.ran.Some? && !answer.Failure?)
  {
  }

  /** What it leaves behind: the flow goes with its dead handle or with a finished answer, and in no other
      case; the store loses the handle exactly when it was past its expiry. */
  lemma ResumedLeaves(c: Conts, ttl: int, items: Items, handle: Handle, now: Time, later: Time, answer: Answer)
    ensures var r := Resumed(c, ttl, items, handle, now, later, answer);
            && (r.cont == if r.outcome.DeadHandle? || (r.ran.Some? && !Unfinished(answer)) then c - {handle} else c)
            && (r.items == if r.outcome == DeadHandle(true) then items - {handle} else items)
  {
  }

  /** A flow that answered that it is not finished can be resumed again, within both lifetimes, and the same
      continuation runs; after a finished answer there is none. */
  lemma PolledAgain(c: Conts, ttl: int, items: Items, handle: Handle, now: Time, later: Time, answer: Answer,
                    now': Time, later': Time, answer': Answer)
    requires Resumed(c, ttl, items, handle, now, later, answer).ran.Some?
    requires now' <= items[handle].expiresAt && later' - c[handle].createdAt <= ttl
    ensures var r := Resumed(c, ttl, items, handle, now, later, answer);
            var r' := Resumed(r.cont, ttl, r.items, handle, now', later', answer');
            if Unfinished(answer) then r'.ran == r.ran else r'.ran == None && r'.outcome == NoContinuation
  {
  }
}
