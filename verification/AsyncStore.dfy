/** The time-bounded store of asynchronous operation handles. */
module AsyncStore {
  import opened Prelude

  /** A handle string; 0 stands for the empty string. */
  type Handle = nat

  const EMPTY: Handle := 0

  /** An opaque payload. */
  type Data = nat

  const DEFAULT_MAX_SESSIONS := 100

  datatype Item = Item(status: string, data: Option<Data>, createdAt: Time, expiresAt: Time)

  type Items = map<Handle, Item>

  datatype GetResult = Found(status: string, data: Option<Data>) | NotFound | HandleExpired

  datatype SetResult = Stored | NothingToSet | SetExpired

  // ---------------------------------------------------------------- specification

  predicate Overdue(it: Item, now: Time) { now > it.expiresAt }

  predicate Alive(items: Items, id: Handle, now: Time) { id in items && !Overdue(items[id], now) }

  function Sweep(items: Items, now: Time): Items {
    map id | id in items && !Overdue(items[id], now) :: items[id]
  }

  function MakeRoom(items: Items, maxLen: int, now: Time): Items {
    if |items| >= maxLen then Sweep(items, now) else items
  }

  function Fresh(status: string, data: Option<Data>, now: Time, ttl: int): Item {
    Item(status, data, now, now + ttl)
  }

  /** A nil payload leaves the old one in place. */
  function Refresh(it: Item, status: string, data: Option<Data>, now: Time, ttl: int): Item {
    it.(status := status, data := if data.Some? then data else it.data, expiresAt := now + ttl)
  }

  function Create(items: Items, maxLen: int, ttl: int, id: Handle, status: string, data: Option<Data>, now: Time): Items {
    MakeRoom(items, maxLen, now)[id := Fresh(status, data, now, ttl)]
  }

  function CreateWithID(items: Items, maxLen: int, ttl: int, id: Handle, status: string, data: Option<Data>, now: Time): Items {
    if id in items then items[id := Refresh(items[id], status, data, now, ttl)]
    else Create(items, maxLen, ttl, id, status, data, now)
  }

  function Get(items: Items, id: Handle, now: Time): (Items, GetResult) {
    if id !in items then (items, NotFound)
    else if Overdue(items[id], now) then (items - {id}, HandleExpired)
    else (items, Found(items[id].status, items[id].data))
  }

  function Set(items: Items, ttl: int, id: Handle, status: string, data: Option<Data>, now: Time): (Items, SetResult) {
    if id !in items then (items, NothingToSet)
    else if Overdue(items[id], now) then (items - {id}, SetExpired)
    else (items[id := Refresh(items[id], status, data, now, ttl)], Stored)
  }

  // ---------------------------------------------------------------- implementation

  class AsyncHandleStore {
    var items: Items
    const ttl: int
    const maxLen: int

    constructor (ttl: int, maxLen: int)
      ensures items == map[]
      ensures this.ttl == if ttl <= 0 then 1_800_000_000_000 else ttl
      ensures this.maxLen == if maxLen <= 0 then 100 else maxLen
    {
      items := map[];
      this.ttl := if ttl <= 0 then DEFAULT_SESSION_TTL else ttl;
      this.maxLen := if maxLen <= 0 then DEFAULT_MAX_SESSIONS else maxLen;
    }

    /** The sweep that Create and CreateWithID run at capacity; the map is walked in any order. */
    method SweepLocked(now: Time)
      modifies `items
      ensures items == MakeRoom(old(items), maxLen, now)
    {
      if |items| >= maxLen {
        var todo := items.Keys;
        while todo != {}
          invariant todo <= items.Keys
          invariant items.Keys == (set id | id in old(items) && (id in todo || !Overdue(old(items)[id], now)))
          invariant forall id :: id in items ==> items[id] == old(items)[id]
          decreases |todo|
        {
          var id :| id in todo;
          todo := todo - {id};
          if now > items[id].expiresAt {
            items := items - {id};
          }
        }
      }
    }

    method CreateHandle(id: Handle, status: string, data: Option<Data>, now: Time)
      modifies `items
      ensures items == Create(old(items), maxLen, ttl, id, status, data, now)
    {
      SweepLocked(now);
      items := items[id := Item(status, data, now, now + ttl)];
    }

    method CreateHandleWithID(id: Handle, status: string, data: Option<Data>, now: Time)
      modifies `items
      ensures items == CreateWithID(old(items), maxLen, ttl, id, status, data, now)
    {
      if id in items {
        var it := items[id].(status := status);
        if data.Some? {
          it := it.(data := data);
        }
        items := items[id := it.(expiresAt := now + ttl)];
        return;
      }
      SweepLocked(now);
      items := items[id := Item(status, data, now, now + ttl)];
    }

    method GetHandle(id: Handle, now: Time) returns (r: GetResult)
      modifies `items
      ensures (items, r) == Get(old(items), id, now)
    {
      if id !in items {
        return NotFound;
      }
      var it := items[id];
      if now > it.expiresAt {
        items := items - {id};
        return HandleExpired;
      }
      r := Found(it.status, it.data);
    }

    method SetHandle(id: Handle, status: string, data: Option<Data>, now: Time) returns (r: SetResult)
      modifies `items
      ensures (items, r) == Set(old(items), ttl, id, status, data, now)
    {
      if id !in items {
        return NothingToSet;
      }
      var it := items[id];
      if now > it.expiresAt {
        items := items - {id};
        return SetExpired;
      }
      it := it.(status := status);
      if data.Some? {
        it := it.(data := data);
      }
      items := items[id := it.(expiresAt := now + ttl)];
      r := Stored;
    }

    method Delete(id: Handle)
      modifies `items
      ensures items == old(items) - {id}
    {
      items := items - {id};
    }
  }

  // ---------------------------------------------------------------- the simple store it stands for

  datatype Op =
    | Wait(d: nat)
    | OpCreate(id: Handle, status: string, data: Option<Data>)
    | OpCreateWithID(id: Handle, status: string, data: Option<Data>)
    | OpGet(id: Handle)
    | OpSet(id: Handle, status: string, data: Option<Data>)
    | OpDelete(id: Handle)

  /** `items` is the store; `ideal` is a store of unlimited size that never sweeps and treats a handle
      past its expiry as absent. */
  datatype State = State(clock: Time, items: Items, ideal: Items)

  function DoReal(items: Items, maxLen: int, ttl: int, op: Op, now: Time): Items {
    match op
    case Wait(_) => items
    case OpCreate(id, status, data) => Create(items, maxLen, ttl, id, status, data, now)
    case OpCreateWithID(id, status, data) => CreateWithID(items, maxLen, ttl, id, status, data, now)
    case OpGet(id) => Get(items, id, now).0
    case OpSet(id, status, data) => Set(items, ttl, id, status, data, now).0
    case OpDelete(id) => items - {id}
  }

  function DoIdeal(ideal: Items, ttl: int, op: Op, now: Time): Items {
    match op
    case Wait(_) => ideal
    case OpCreate(id, status, data) => ideal[id := Fresh(status, data, now, ttl)]
    case OpCreateWithID(id, status, data) =>
      ideal[id := if Alive(ideal, id, now) then Refresh(ideal[id], status, data, now, ttl) else Fresh(status, data, now, ttl)]
    case OpGet(_) => ideal
    case OpSet(id, status, data) =>
      if Alive(ideal, id, now) then ideal[id := Refresh(ideal[id], status, data, now, ttl)] else ideal
    case OpDelete(id) => ideal - {id}
  }

  function Do(s: State, maxLen: int, ttl: int, op: Op): State {
    State(if op.Wait? then s.clock + op.d else s.clock,
          DoReal(s.items, maxLen, ttl, op, s.clock), DoIdeal(s.ideal, ttl, op, s.clock))
  }

  /** Handle `id` is dead but not yet swept, and is refreshed without a payload. */
  predicate Revives(items: Items, op: Op, id: Handle, now: Time) {
    op.OpCreateWithID? && op.id == id && op.data.None? && id in items && Overdue(items[id], now) && items[id].data.Some?
  }

  ghost predicate IsRun(maxLen: int, ttl: int, trace: seq<State>, ops: seq<Op>) {
    && |trace| == |ops| + 1
    && trace[0] == State(trace[0].clock, map[], map[])
    && forall i :: 0 <= i < |ops| ==> trace[i + 1] == Do(trace[i], maxLen, ttl, ops[i])
  }

  predicate SameItem(a: Item, b: Item) { a.status == b.status && a.data == b.data && a.expiresAt == b.expiresAt }

  /** At this instant the two stores agree on handle `id`: live in both with the same contents, or in neither. */
  ghost predicate Agree(items: Items, ideal: Items, id: Handle, now: Time) {
    && (Alive(items, id, now) <==> Alive(ideal, id, now))
    && (Alive(items, id, now) ==> SameItem(items[id], ideal[id]))
  }

  lemma DoAgrees(s: State, maxLen: int, ttl: int, op: Op, id: Handle)
    requires Agree(s.items, s.ideal, id, s.clock) && ttl > 0 && !Revives(s.items, op, id, s.clock)
    ensures Agree(Do(s, maxLen, ttl, op).items, Do(s, maxLen, ttl, op).ideal, id, Do(s, maxLen, ttl, op).clock)
  {
  }

  lemma {:induction false} RunAgrees(maxLen: int, ttl: int, trace: seq<State>, ops: seq<Op>, i: nat, id: Handle)
    requires IsRun(maxLen, ttl, trace, ops) && i < |trace| && ttl > 0
    requires forall j :: 0 <= j < i ==> !Revives(trace[j].items, ops[j], id, trace[j].clock)
    ensures Agree(trace[i].items, trace[i].ideal, id, trace[i].clock)
  {
    if i > 0 {
      RunAgrees(maxLen, ttl, trace, ops, i - 1, id);
      DoAgrees(trace[i - 1], maxLen, ttl, ops[i - 1], id);
    }
  }

  /** Sweeping, lazy removal and the cap are invisible, handle by handle: over any run that never
      refreshes `id` dead, unswept and without a payload, Get and Set on `id` succeed exactly when it is
      live in the ideal store, and Get shows its status and payload. */
  lemma LazySweepIsInvisible(maxLen: int, ttl: int, trace: seq<State>, ops: seq<Op>, i: nat, id: Handle)
    requires IsRun(maxLen, ttl, trace, ops) && i < |trace| && ttl > 0
    requires forall j :: 0 <= j < i ==> !Revives(trace[j].items, ops[j], id, trace[j].clock)
    ensures Get(trace[i].items, id, trace[i].clock).1.Found? <==> Alive(trace[i].ideal, id, trace[i].clock)
    ensures Alive(trace[i].ideal, id, trace[i].clock) ==>
            Get(trace[i].items, id, trace[i].clock).1 == Found(trace[i].ideal[id].status, trace[i].ideal[id].data)
    ensures forall status, data :: Set(trace[i].items, ttl, id, status, data, trace[i].clock).1.Stored? <==>
                                   Alive(trace[i].ideal, id, trace[i].clock)
  {
    RunAgrees(maxLen, ttl, trace, ops, i, id);
  }

  /** The condition is exact: from agreement on a handle, one operation breaks it if and only if it
      revives the payload of that handle, dead but not yet swept. */
  lemma RevivalIsTheOnlyLeak(s: State, maxLen: int, ttl: int, op: Op, id: Handle)
    requires Agree(s.items, s.ideal, id, s.clock) && ttl > 0
    ensures Agree(Do(s, maxLen, ttl, op).items, Do(s, maxLen, ttl, op).ideal, id, Do(s, maxLen, ttl, op).clock) <==>
            !Revives(s.items, op, id, s.clock)
  {
    if !Revives(s.items, op, id, s.clock) {
      DoAgrees(s, maxLen, ttl, op, id);
    } else {
      var t := Do(s, maxLen, ttl, op);
      assert !Alive(s.items, id, s.clock) && !Alive(s.ideal, id, s.clock);
      assert Alive(t.items, id, t.clock) && t.items[id].data.Some? && t.ideal[id].data.None?;
    }
  }

  /** The leak is real, for every cap and TTL: create, let it die, refresh without a payload. Get then
      shows the dead handle's payload, where the ideal store has none. */
  lemma RevivalIsReached(maxLen: int, ttl: int, id: Handle, payload: Data) returns (trace: seq<State>, ops: seq<Op>)
    requires ttl > 0
    ensures IsRun(maxLen, ttl, trace, ops) && |ops| == 3
    ensures Get(trace[3].items, id, trace[3].clock).1 == Found("", Some(payload))
    ensures Alive(trace[3].ideal, id, trace[3].clock) && trace[3].ideal[id].data == None
  {
    ops := [OpCreate(id, "", Some(payload)), Wait(ttl + 1), OpCreateWithID(id, "", None)];
    var s0 := State(0, map[], map[]);
    var s1 := Do(s0, maxLen, ttl, ops[0]);
    var s2 := Do(s1, maxLen, ttl, ops[1]);
    trace := [s0, s1, s2, Do(s2, maxLen, ttl, ops[2])];
    assert s2.items[id] == Item("", Some(payload), 0, ttl);
    assert !Alive(s2.ideal, id, s2.clock);
  }

  /** Creating a handle lets the store exceed its cap only with live handles. */
  lemma OverCapOnlyLive(items: Items, maxLen: int, ttl: int, id: Handle, status: string, data: Option<Data>, now: Time, other: Handle)
    requires id !in items && ttl > 0 && maxLen > 0
    requires other in CreateWithID(items, maxLen, ttl, id, status, data, now)
    ensures |CreateWithID(items, maxLen, ttl, id, status, data, now)| <= maxLen ||
            Alive(CreateWithID(items, maxLen, ttl, id, status, data, now), other, now)
  {
    if |items| < maxLen {
      assert items[id := Fresh(status, data, now, ttl)].Keys == items.Keys + {id};
    }
  }
}
