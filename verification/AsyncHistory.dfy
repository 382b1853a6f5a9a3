/** What the handle store answers, told from the operations that were made on it. */
module AsyncHistory {
  import opened Prelude
  import opened AsyncStore

  /** This operation writes handle `id`: every creation does, and a Set that finds the handle live. */
  ghost predicate Touches(s: State, op: Op, id: Handle) {
    match op
    case OpCreate(x, _, _) => x == id
    case OpCreateWithID(x, _, _) => x == id
    case OpSet(x, _, _) => x == id && id in s.items && s.clock <= s.items[id].expiresAt
    case _ => false
  }

  /** This operation removes `id` if its time is over: a Get or Set of it, or the creation of a new handle
      when the store is at capacity. */
  ghost predicate Notices(s: State, maxLen: int, op: Op, id: Handle) {
    match op
    case OpCreate(_, _, _) => |s.items| >= maxLen
    case OpCreateWithID(x, _, _) => x !in s.items && |s.items| >= maxLen
    case OpGet(x) => x == id
    case OpSet(x, _, _) => x == id
    case _ => false
  }

  /** The payload after a write: the one given, else the one there was, which a plain creation forgets. */
  ghost function Payload(s: State, op: Op, id: Handle): Option<Data>
    requires op.OpCreate? || op.OpCreateWithID? || op.OpSet?
  {
    if op.data.Some? || op.OpCreate? || id !in s.items then op.data else s.items[id].data
  }

  /** What one operation means for one handle. */
  ghost predicate ItemMoves(s: State, maxLen: int, ttl: int, op: Op, n: State, id: Handle) {
    if Touches(s, op, id) then
      && id in n.items && n.items[id].status == op.status
      && n.items[id].expiresAt == s.clock + ttl && n.items[id].data == Payload(s, op, id)
      && n.items[id].createdAt == if op.OpCreate? || id !in s.items then s.clock else s.items[id].createdAt
    else
      && (id in n.items <==> id in s.items && op != OpDelete(id) && !(s.clock > s.items[id].expiresAt && Notices(s, maxLen, op, id)))
      && (id in n.items ==> n.items[id] == s.items[id])
  }

  lemma StepMoves(s: State, maxLen: int, ttl: int, op: Op, id: Handle)
    ensures ItemMoves(s, maxLen, ttl, op, Do(s, maxLen, ttl, op), id)
  {
  }

  /** Operation `j` is the last write of `id` before state `i`, and no Delete came after it. */
  ghost predicate LastTouch(trace: seq<State>, ops: seq<Op>, j: nat, i: nat, id: Handle)
    requires j < i < |trace| == |ops| + 1
  {
    Touches(trace[j], ops[j], id) && forall k :: j < k < i ==> !Touches(trace[k], ops[k], id) && ops[k] != OpDelete(id)
  }

  /** Since the time of that write ran out nobody has noticed. */
  ghost predicate Unnoticed(maxLen: int, ttl: int, trace: seq<State>, ops: seq<Op>, j: nat, i: nat, id: Handle)
    requires j < i < |trace| == |ops| + 1
  {
    forall k :: j < k < i && trace[k].clock > trace[j].clock + ttl ==> !Notices(trace[k], maxLen, ops[k], id)
  }

  /** The item as that write left it. */
  ghost predicate AsWritten(ttl: int, trace: seq<State>, ops: seq<Op>, j: nat, it: Item, id: Handle)
    requires j + 1 < |trace| == |ops| + 1 && Touches(trace[j], ops[j], id)
  {
    it.status == ops[j].status && it.expiresAt == trace[j].clock + ttl && it.data == Payload(trace[j], ops[j], id)
  }

  /** Handle `id` is stored exactly if its last write is unnoticed, and as that write left it. */
  ghost predicate ItemAt(maxLen: int, ttl: int, trace: seq<State>, ops: seq<Op>, i: nat, id: Handle)
    requires i < |trace| == |ops| + 1
  {
    && (id in trace[i].items ==> exists j :: 0 <= j < i && LastTouch(trace, ops, j, i, id))
    && (forall j :: 0 <= j < i && LastTouch(trace, ops, j, i, id) ==>
          (id in trace[i].items <==> Unnoticed(maxLen, ttl, trace, ops, j, i, id)) &&
          (id in trace[i].items ==> AsWritten(ttl, trace, ops, j, trace[i].items[id], id)))
  }

  lemma ItemNext(maxLen: int, ttl: int, trace: seq<State>, ops: seq<Op>, r: nat, id: Handle)
    requires r + 1 < |trace| == |ops| + 1 && ItemAt(maxLen, ttl, trace, ops, r, id)
    requires ItemMoves(trace[r], maxLen, ttl, ops[r], trace[r + 1], id)
    ensures ItemAt(maxLen, ttl, trace, ops, r + 1, id)
  {
    var i := r + 1;
    if Touches(trace[r], ops[r], id) {
      assert LastTouch(trace, ops, r, i, id);
    } else if id in trace[i].items {
      var j :| 0 <= j < r && LastTouch(trace, ops, j, r, id);
      assert LastTouch(trace, ops, j, i, id);
    }
    forall j | 0 <= j < i && LastTouch(trace, ops, j, i, id)
      ensures id in trace[i].items <==> Unnoticed(maxLen, ttl, trace, ops, j, i, id)
      ensures id in trace[i].items ==> AsWritten(ttl, trace, ops, j, trace[i].items[id], id)
    {
      if j < r {
        assert LastTouch(trace, ops, j, r, id);
        OneMoreNotice(maxLen, ttl, trace, ops, j, r, id);
      }
    }
  }

  lemma OneMoreNotice(maxLen: int, ttl: int, trace: seq<State>, ops: seq<Op>, j: nat, r: nat, id: Handle)
    requires j < r < |trace| - 1 && |trace| == |ops| + 1
    ensures Unnoticed(maxLen, ttl, trace, ops, j, r + 1, id) <==>
            Unnoticed(maxLen, ttl, trace, ops, j, r, id) &&
            (trace[r].clock > trace[j].clock + ttl ==> !Notices(trace[r], maxLen, ops[r], id))
  {
  }

  lemma {:induction false} ItemExact(maxLen: int, ttl: int, trace: seq<State>, ops: seq<Op>, i: nat, id: Handle)
    requires IsRun(maxLen, ttl, trace, ops) && i < |trace|
    ensures ItemAt(maxLen, ttl, trace, ops, i, id)
  {
    if i > 0 {
      ItemExact(maxLen, ttl, trace, ops, i - 1, id);
      StepMoves(trace[i - 1], maxLen, ttl, ops[i - 1], id);
      ItemNext(maxLen, ttl, trace, ops, i - 1, id);
    }
  }

  lemma {:induction false} ClockGrows(maxLen: int, ttl: int, trace: seq<State>, ops: seq<Op>, i: nat, j: nat)
    requires IsRun(maxLen, ttl, trace, ops) && i <= j < |trace|
    ensures trace[i].clock <= trace[j].clock
  {
    if i < j {
      ClockGrows(maxLen, ttl, trace, ops, i, j - 1);
    }
  }

  /** A write within its time cannot have been noticed. */
  lemma InTime(maxLen: int, ttl: int, trace: seq<State>, ops: seq<Op>, j: nat, i: nat, id: Handle)
    requires IsRun(maxLen, ttl, trace, ops) && j < i < |trace| && trace[i].clock <= trace[j].clock + ttl
    ensures Unnoticed(maxLen, ttl, trace, ops, j, i, id)
  {
    forall k | j < k < i ensures trace[k].clock <= trace[j].clock + ttl {
      ClockGrows(maxLen, ttl, trace, ops, k, i);
    }
  }

  /** What Get answers, from the history alone: found exactly if the last write, not deleted since, is no
      older than the TTL; expired exactly if it is older and nobody has noticed yet; otherwise unknown. */
  lemma GetExact(maxLen: int, ttl: int, trace: seq<State>, ops: seq<Op>, i: nat, id: Handle)
    requires IsRun(maxLen, ttl, trace, ops) && i < |trace|
    ensures var r := Get(trace[i].items, id, trace[i].clock).1;
            && (r.Found? <==> exists j :: 0 <= j < i && LastTouch(trace, ops, j, i, id) && trace[i].clock <= trace[j].clock + ttl)
            && (r == HandleExpired <==>
                  exists j :: 0 <= j < i && LastTouch(trace, ops, j, i, id) && trace[i].clock > trace[j].clock + ttl &&
                              Unnoticed(maxLen, ttl, trace, ops, j, i, id))
            && (r == NotFound <==> !r.Found? && r != HandleExpired)
  {
    ItemExact(maxLen, ttl, trace, ops, i, id);
    forall j | 0 <= j < i && LastTouch(trace, ops, j, i, id) && trace[i].clock <= trace[j].clock + ttl
      ensures Unnoticed(maxLen, ttl, trace, ops, j, i, id)
    {
      InTime(maxLen, ttl, trace, ops, j, i, id);
    }
  }

  /** And what a found handle shows: the status of its last write and the payload as that write left it. */
  lemma GetShows(maxLen: int, ttl: int, trace: seq<State>, ops: seq<Op>, j: nat, i: nat, id: Handle)
    requires IsRun(maxLen, ttl, trace, ops) && j < i < |trace| && LastTouch(trace, ops, j, i, id)
    requires trace[i].clock <= trace[j].clock + ttl
    ensures Get(trace[i].items, id, trace[i].clock).1 == Found(ops[j].status, Payload(trace[j], ops[j], id))
    ensures forall status, data :: Set(trace[i].items, ttl, id, status, data, trace[i].clock).1 == Stored
  {
    ItemExact(maxLen, ttl, trace, ops, i, id);
    InTime(maxLen, ttl, trace, ops, j, i, id);
  }

  /** Whoever notices that a handle is over, by Get or by Set, removes it: the next one finds nothing. */
  lemma ExpiredOnce(items: Items, ttl: int, id: Handle, status: string, data: Option<Data>, now: Time)
    ensures Get(items, id, now).1 == HandleExpired ==> Get(Get(items, id, now).0, id, now).1 == NotFound
    ensures Set(items, ttl, id, status, data, now).1 == SetExpired <==> Get(items, id, now).1 == HandleExpired
    ensures Set(items, ttl, id, status, data, now).1 == NothingToSet <==> Get(items, id, now).1 == NotFound
    ensures Set(items, ttl, id, status, data, now).1 != Stored ==> Set(items, ttl, id, status, data, now).0 == Get(items, id, now).0
  {
  }
}
