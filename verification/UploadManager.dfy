/** The async upload manager as a class with the maps and the FIFO it mutates. Each method is one
    locked region of the code and is proved to do to the manager's view exactly what `UploadModel`
    says. Task records live in `objs`, keyed by handle: a pointer to a record is its handle. */
module UploadManager {
  import opened Prelude
  import opened UploadModel
  import opened UploadInvariants
  import C = UploadCore

  /** The mutable part of a tracked task: the reader it owns and its two flags. */
  class TrackedTask {
    ghost const owner: Option<Reader>
    var reader: Option<Reader>
    var closeOnce: bool
    var timedOut: bool

    constructor (reader: Option<Reader>)
      ensures Valid() && owner == reader && !closeOnce && !timedOut
    {
      this.reader := reader;
      this.owner := reader;
      closeOnce, timedOut := false, false;
    }

    /** The reader is still owned until the first close. */
    ghost predicate Valid()
      reads this
    {
      reader == if closeOnce then None else owner
    }

    /** This task guards the reader of run `r` of the interleaving machine. */
    ghost predicate Guards(s: C.Core, r: Reader)
      reads this
    {
      owner == Some(r) && r in s.runs && r in s.subs && s.runs[r].closed == closeOnce
    }

    /** Closes the owned reader the first time, and nothing ever after; the machine's close of a run does
        the same. */
    method CloseReader() returns (closed: Option<Reader>)
      requires Valid()
      modifies this`reader, this`closeOnce
      ensures Valid() && closeOnce
      ensures closed == if old(closeOnce) then None else owner
      ensures forall s: C.Core, r: Reader :: old(Guards(s, r)) ==>
                && Guards(C.CloseOnce(s, r), r)
                && C.CloseOnce(s, r).subs[r].closes == s.subs[r].closes + if closed.Some? then 1 else 0
    {
      closed := None;
      if !closeOnce {
        closeOnce := true;
        closed := reader;
        reader := None;
      }
    }
  }

  datatype Eviction = Eviction(id: Id, tomb: Task)

  ghost predicate DistinctIds(ev: seq<Eviction>) {
    forall i, j :: 0 <= i < j < |ev| ==> ev[i].id != ev[j].id
  }

  predicate FinishedBy(a: Task, b: Task) {
    match (a.finishedAt, b.finishedAt)
    case (Some(x), Some(y)) => x <= y
    case (Some(_), None) => false
    case (None, _) => true
  }

  ghost predicate SortedByFinish(ev: seq<Eviction>) {
    forall i, j :: 0 <= i < j < |ev| ==> FinishedBy(ev[i].tomb, ev[j].tomb)
  }

  function Ids(ev: seq<Eviction>): (ids: seq<Id>)
    ensures |ids| == |ev|
    ensures forall i :: 0 <= i < |ev| ==> ids[i] == ev[i].id
  {
    seq(|ev|, i requires 0 <= i < |ev| => ev[i].id)
  }

  lemma InsertElems<T>(s: seq<T>, e: T, k: nat)
    requires k <= |s|
    ensures |s[..k] + [e] + s[k..]| == |s| + 1
    ensures forall i :: 0 <= i <= |s| ==> (s[..k] + [e] + s[k..])[i] == if i < k then s[i] else if i == k then e else s[i - 1]
    ensures forall x :: x in s[..k] + [e] + s[k..] <==> x == e || x in s
  {
    assert s == s[..k] + s[k..];
  }

  lemma InsertSorted(sorted: seq<Eviction>, e: Eviction, k: nat)
    requires SortedByFinish(sorted) && k <= |sorted|
    requires k > 0 ==> FinishedBy(sorted[k - 1].tomb, e.tomb)
    requires forall i :: k <= i < |sorted| ==> FinishedBy(e.tomb, sorted[i].tomb)
    ensures SortedByFinish(sorted[..k] + [e] + sorted[k..])
  {
    InsertElems(sorted, e, k);
    assert forall i :: 0 <= i < k ==> FinishedBy(sorted[i].tomb, e.tomb);
  }

  lemma InsertDistinct(ev: seq<Eviction>, e: Eviction, k: nat)
    requires DistinctIds(ev) && (forall x :: x in ev ==> x.id != e.id) && k <= |ev|
    ensures DistinctIds(ev[..k] + [e] + ev[k..])
  {
    InsertElems(ev, e, k);
    assert forall i :: 0 <= i < |ev| ==> ev[i] in ev;
  }

  /** Stable insertion of one eviction into a list sorted by finish time. */
  method InsertByFinish(sorted: seq<Eviction>, e: Eviction) returns (out: seq<Eviction>, ghost at: nat)
    requires SortedByFinish(sorted) && DistinctIds(sorted) && forall x :: x in sorted ==> x.id != e.id
    ensures at <= |sorted| && out == sorted[..at] + [e] + sorted[at..]
    ensures forall i :: at <= i < |sorted| ==> !FinishedBy(sorted[i].tomb, e.tomb)
    ensures SortedByFinish(out) && DistinctIds(out)
    ensures forall x :: x in out <==> x == e || x in sorted
  {
    var k := |sorted|;
    while k > 0 && !FinishedBy(sorted[k - 1].tomb, e.tomb)
      invariant 0 <= k <= |sorted|
      invariant forall i :: k <= i < |sorted| ==> FinishedBy(e.tomb, sorted[i].tomb) && !FinishedBy(sorted[i].tomb, e.tomb)
    {
      k := k - 1;
    }
    InsertSorted(sorted, e, k);
    InsertDistinct(sorted, e, k);
    InsertElems(sorted, e, k);
    out, at := sorted[..k] + [e] + sorted[k..], k;
  }

  ghost predicate Before(ev: seq<Eviction>, x: Eviction, y: Eviction) {
    exists i, j :: 0 <= i < j < |ev| && ev[i] == x && ev[j] == y
  }

  /** What finished at the same instant keeps the order it had in `ev`. */
  ghost predicate Stable(ev: seq<Eviction>, out: seq<Eviction>) {
    forall a, b :: 0 <= a < b < |out| && FinishedBy(out[b].tomb, out[a].tomb) ==> Before(ev, out[a], out[b])
  }

  lemma BeforeSnoc(ev: seq<Eviction>, e: Eviction, x: Eviction, y: Eviction)
    requires Before(ev, x, y) || (x in ev && y == e)
    ensures Before(ev + [e], x, y)
  {
    if Before(ev, x, y) {
      var i, j :| 0 <= i < j < |ev| && ev[i] == x && ev[j] == y;
      assert (ev + [e])[i] == x && (ev + [e])[j] == y;
    } else {
      var i :| 0 <= i < |ev| && ev[i] == x;
      assert (ev + [e])[i] == x && (ev + [e])[|ev|] == y;
    }
  }

  lemma StableInsert(ev: seq<Eviction>, sorted: seq<Eviction>, e: Eviction, k: nat)
    requires Stable(ev, sorted) && k <= |sorted| && forall x :: x in sorted ==> x in ev
    requires forall i :: k <= i < |sorted| ==> !FinishedBy(sorted[i].tomb, e.tomb)
    ensures Stable(ev + [e], sorted[..k] + [e] + sorted[k..])
  {
    var out := sorted[..k] + [e] + sorted[k..];
    InsertElems(sorted, e, k);
    forall a, b | 0 <= a < b < |out| && FinishedBy(out[b].tomb, out[a].tomb) ensures Before(ev + [e], out[a], out[b]) {
      if b == k {
        assert out[a] == sorted[a];
      }
      BeforeSnoc(ev, e, out[a], out[b]);
    }
  }

  method SortByFinish(ev: seq<Eviction>) returns (out: seq<Eviction>)
    requires DistinctIds(ev)
    ensures SortedByFinish(out) && DistinctIds(out) && Stable(ev, out)
    ensures forall x :: x in out <==> x in ev
  {
    out := [];
    for i := 0 to |ev|
      invariant SortedByFinish(out) && DistinctIds(out) && Stable(ev[..i], out)
      invariant forall x :: x in out <==> x in ev[..i]
    {
      assert forall x :: x in ev[..i] ==> x.id != ev[i].id;
      ghost var was := out;
      ghost var k;
      out, k := InsertByFinish(out, ev[i]);
      StableInsert(ev[..i], was, ev[i], k);
      assert ev[..i + 1] == ev[..i] + [ev[i]];
    }
    assert ev[..|ev|] == ev;
  }

  class UploadTaskManager {
    const cfg: Config
    var objs: map<Id, Task>
    var tasks: map<Id, Entry>
    var tombstones: map<Id, Task>
    var tombstoneOrder: seq<Id>

    /** Fifteen minutes of retention unless a positive TTL is given, eight active and 64 prepared uploads. */
    constructor (hasExec: bool, ttl: int)
      ensures Valid() && View() == Mgr(map[], map[], map[], [])
      ensures cfg == Config(hasExec, if ttl <= 0 then 900_000_000_000 else ttl, 8, 300_000_000_000, 64)
    {
      cfg := Config(hasExec, if ttl <= 0 then DEFAULT_RESULT_TTL else ttl, DEFAULT_MAX_ACTIVE,
                    DEFAULT_PREPARED_TTL, DEFAULT_MAX_PREPARED);
      objs, tasks, tombstones, tombstoneOrder := map[], map[], map[], [];
    }

    /** A manager whose exported limits the caller has set, or the zero value. */
    constructor WithConfig(cfg: Config)
      ensures this.cfg == cfg && Valid() && View() == Mgr(map[], map[], map[], [])
    {
      this.cfg := cfg;
      objs, tasks, tombstones, tombstoneOrder := map[], map[], map[], [];
    }

    ghost predicate Valid()
      reads this
    {
      WellFormed(View()) && IndexInv(View()) && tombstones.Keys <= objs.Keys
    }

    ghost function View(): Mgr
      reads this
    {
      Mgr(objs, tasks, tombstones, tombstoneOrder)
    }

    // -------------------------------------------------------------- tombstones

    method TombstoneLocked(id: Id, task: Task)
      requires Valid()
      modifies this`tombstones, this`tombstoneOrder
      ensures View() == Tombstone(old(View()), id, task)
    {
      if id !in tombstones {
        tombstoneOrder := tombstoneOrder + [id];
      }
      tombstones := tombstones[id := task];
    }

    method UntombstoneLocked(id: Id)
      requires Enumerates(tombstoneOrder, tombstones.Keys)
      modifies this`tombstones, this`tombstoneOrder
      ensures Enumerates(tombstoneOrder, tombstones.Keys)
      ensures View() == Untombstone(old(View()), id)
    {
      RemoveFirstShape(tombstoneOrder, id);
      if id !in tombstones {
        return;
      }
      tombstones := tombstones - {id};
      var i := 0;
      while tombstoneOrder[i] != id
        invariant 0 <= i < |tombstoneOrder|
        invariant id !in tombstoneOrder[..i]
        invariant tombstoneOrder == old(tombstoneOrder)
        decreases |tombstoneOrder| - i
      {
        assert id in tombstoneOrder;
        i := i + 1;
      }
      RemoveFirstAt(tombstoneOrder, i);
      tombstoneOrder := tombstoneOrder[..i] + tombstoneOrder[i + 1..];
    }

    // -------------------------------------------------------------- pruning

    /** What one eviction holds: an evictable live task and the snapshot its tombstone will show. */
    ghost predicate EvictionOk(e: Eviction, now: Time)
      reads this
    {
      && e.id in tasks && e.id in objs
      && Evictable(cfg, objs[e.id], tasks[e.id], now)
      && e.tomb == Snapshot(objs[e.id], now)
    }

    /** Walks the live tasks in an arbitrary order and collects the evictable ones. */
    method CollectEvictions(now: Time) returns (ev: seq<Eviction>)
      requires Valid()
      ensures DistinctIds(ev)
      ensures forall e :: e in ev ==> EvictionOk(e, now)
      ensures forall id :: id in tasks && Evictable(cfg, objs[id], tasks[id], now) ==> exists e :: e in ev && e.id == id
    {
      ev := [];
      var todo := tasks.Keys;
      while todo != {}
        invariant todo <= tasks.Keys
        invariant DistinctIds(ev)
        invariant forall e :: e in ev ==> e.id !in todo && EvictionOk(e, now)
        invariant forall id :: id in tasks && id !in todo && Evictable(cfg, objs[id], tasks[id], now) ==>
                    exists e :: e in ev && e.id == id
        decreases |todo|
      {
        var id :| id in todo;
        todo := todo - {id};
        var t := objs[id];
        var window := if tasks[id].preparedTTL <= 0 then cfg.preparedTTL else tasks[id].preparedTTL;
        var lapsed := match t.state
          case Completed => t.finishedAt.Some? && t.finishedAt.value < Cutoff(cfg, now)
          case Failed => t.finishedAt.Some? && t.finishedAt.value < Cutoff(cfg, now)
          case Cancelled => t.finishedAt.Some? && t.finishedAt.value < Cutoff(cfg, now)
          case Prepared => window > 0 && t.createdAt < now - window
          case _ => false;
        if lapsed {
          var e := Eviction(id, Snapshot(t, now));
          ghost var before := ev;
          ev := ev + [e];
          assert forall x :: x in before ==> x in ev;
          assert e in ev;
        }
      }
    }

    /** Tombstones one live task and drops its entry. */
    method EvictOne(e: Eviction)
      requires Valid() && e.id in tasks
      modifies this`tasks, this`tombstones, this`tombstoneOrder
      ensures Valid()
      ensures tasks == old(tasks) - {e.id}
      ensures tombstones == old(tombstones)[e.id := e.tomb]
      ensures tombstoneOrder == old(tombstoneOrder) + [e.id]
    {
      NoDupSnoc(tombstoneOrder, e.id);
      TombstoneLocked(e.id, e.tomb);
      tasks := tasks - {e.id};
    }

    /** Records the tombstones in order and drops the live entries. */
    method ApplyEvictions(ev: seq<Eviction>, now: Time)
      requires Valid() && DistinctIds(ev) && forall e :: e in ev ==> EvictionOk(e, now)
      modifies this`tasks, this`tombstones, this`tombstoneOrder
      ensures Valid()
      ensures forall id :: id in Ids(ev) ==> id in old(View()).objs
      ensures View() == EvictAll(old(View()), Ids(ev), now)
    {
      ghost var was := View();
      assert forall j :: 0 <= j < |ev| ==> ev[j] in ev;
      for i := 0 to |ev|
        invariant Valid()
        invariant Applied(was, View(), ev, i)
        invariant objs == was.objs
      {
        StillLive(was, View(), ev, i);
        ghost var before := View();
        EvictOne(ev[i]);
        AppliedOne(was, before, View(), ev, i);
      }
      EvictedView(was, View(), ev, now);
    }

    /** The first `i` evictions are done. */
    static ghost predicate Applied(was: Mgr, m: Mgr, ev: seq<Eviction>, i: nat) {
      && i <= |ev|
      && m.tasks == was.tasks - Elems(Ids(ev)[..i])
      && m.order == was.order + Ids(ev)[..i]
      && m.tombs.Keys == was.tombs.Keys + Elems(Ids(ev)[..i])
      && (forall id :: id in was.tombs && id !in Ids(ev) ==> m.tombs[id] == was.tombs[id])
      && (forall j :: 0 <= j < i ==> ev[j].id in m.tombs && m.tombs[ev[j].id] == ev[j].tomb)
    }

    static lemma StillLive(was: Mgr, m: Mgr, ev: seq<Eviction>, i: nat)
      requires Applied(was, m, ev, i) && i < |ev| && DistinctIds(ev) && ev[i].id in was.tasks
      ensures ev[i].id in m.tasks
    {
      assert ev[i].id !in Ids(ev)[..i];
    }

    static lemma AppliedOne(was: Mgr, m: Mgr, n: Mgr, ev: seq<Eviction>, i: nat)
      requires Applied(was, m, ev, i) && i < |ev| && DistinctIds(ev)
      requires n.tasks == m.tasks - {ev[i].id} && n.order == m.order + [ev[i].id] && n.tombs == m.tombs[ev[i].id := ev[i].tomb]
      ensures Applied(was, n, ev, i + 1)
    {
      var ids := Ids(ev);
      assert ids[..i + 1] == ids[..i] + [ev[i].id];
      assert Elems(ids[..i + 1]) == Elems(ids[..i]) + {ev[i].id};
    }

    static lemma EvictedView(was: Mgr, m: Mgr, ev: seq<Eviction>, now: Time)
      requires m.objs == was.objs && Applied(was, m, ev, |ev|)
      requires was.tasks.Keys !! was.tombs.Keys
      requires forall j :: 0 <= j < |ev| ==>
                 ev[j].id in was.objs && ev[j].id in was.tasks && ev[j].tomb == Snapshot(was.objs[ev[j].id], now)
      ensures forall id :: id in Ids(ev) ==> id in was.objs
      ensures m == EvictAll(was, Ids(ev), now)
    {
      var ids := Ids(ev);
      assert ids[..|ev|] == ids;
      forall id | id in ids ensures id in was.objs && id in was.tasks && m.tombs[id] == Snapshot(was.objs[id], now) {
        var j :| 0 <= j < |ids| && ids[j] == id;
      }
    }

    /** Retires the expired prefix of the FIFO and stops at the first young tombstone. */
    method RetireTombstones(cutoff: Time)
      requires Valid()
      modifies this`tombstones, this`tombstoneOrder
      ensures Valid()
      ensures View() == Retire(old(View()), cutoff)
    {
      ghost var was := View();
      RetireIndex(was, cutoff);
      var retired := DeleteRetired(cutoff);
      if retired > 0 {
        tombstoneOrder := tombstoneOrder[retired..];
      } else {
        assert was.order[0..] == was.order;
      }
    }

    /** Deletes the tombstones at the head of the FIFO and counts them. */
    method DeleteRetired(cutoff: Time) returns (retired: nat)
      requires NoDup(tombstoneOrder)
      modifies this`tombstones
      ensures retired == RetireCount(old(tombstones), tombstoneOrder, cutoff)
      ensures tombstones == old(tombstones) - Elems(tombstoneOrder[..retired])
    {
      retired := 0;
      while retired < |tombstoneOrder| && Retirable(tombstones, tombstoneOrder[retired], cutoff)
        invariant 0 <= retired <= |tombstoneOrder|
        invariant tombstones == old(tombstones) - Elems(tombstoneOrder[..retired])
        invariant forall i :: 0 <= i < retired ==> Retirable(old(tombstones), tombstoneOrder[i], cutoff)
      {
        WithoutNext(old(tombstones), tombstoneOrder, retired);
        tombstones := tombstones - {tombstoneOrder[retired]};
        retired := retired + 1;
      }
      CountIs(old(tombstones), tombstoneOrder, cutoff, retired, tombstones);
    }

    /** The prune proper, when the manager has a retention window. */
    method EvictAndRetire(now: Time) returns (ghost batch: seq<Id>, ghost mid: Mgr)
      requires Valid() && cfg.ttl > 0
      modifies this`tasks, this`tombstones, this`tombstoneOrder
      ensures Valid()
      ensures WellFormed(old(View())) && IsBatch(cfg, old(View()), now, batch)
      ensures mid == EvictAll(old(View()), batch, now)
      ensures View() == Retire(mid, Cutoff(cfg, now))
    {
      var ev := CollectEvictions(now);
      ev := SortByFinish(ev);
      batch := Ids(ev);
      BatchIs(View(), ev, now);
      ApplyEvictions(ev, now);
      mid := View();
      RetireTombstones(Cutoff(cfg, now));
    }

    method PruneLocked(now: Time) returns (ghost batch: seq<Id>)
      requires Valid()
      modifies this`tasks, this`tombstones, this`tombstoneOrder
      ensures Valid()
      ensures WellFormed(old(View())) && IsBatch(cfg, old(View()), now, batch)
      ensures View() == Prune(cfg, old(View()), now, batch)
    {
      batch := [];
      if cfg.ttl > 0 {
        ghost var mid;
        batch, mid := EvictAndRetire(now);
      }
    }

    lemma BatchIs(m: Mgr, ev: seq<Eviction>, now: Time)
      requires Valid() && m == View() && cfg.ttl > 0
      requires SortedByFinish(ev) && DistinctIds(ev)
      requires forall e :: e in ev ==> EvictionOk(e, now)
      requires forall id :: id in tasks && Evictable(cfg, objs[id], tasks[id], now) ==> exists e :: e in ev && e.id == id
      ensures WellFormed(m) && IsBatch(cfg, m, now, Ids(ev))
    {
      var ids := Ids(ev);
      forall i | 0 <= i < |ids| ensures EvictionOk(ev[i], now) && ids[i] in EvictSet(cfg, m, now) {
        assert ev[i] in ev;
      }
      forall id | id in EvictSet(cfg, m, now) ensures id in ids {
        var e :| e in ev && e.id == id;
        var i :| 0 <= i < |ev| && ev[i] == e;
        assert ids[i] == id;
      }
      forall i, j | 0 <= i < j < |ids|
        ensures RetireKey(m.objs[ids[i]], now) <= RetireKey(m.objs[ids[j]], now)
      {
        assert FinishedBy(ev[i].tomb, ev[j].tomb);
      }
    }

    // -------------------------------------------------------------- slots

    /** Refuses when as many tasks as MaxActive are queued or running. */
    method AcquireSlotLocked() returns (full: bool)
      requires Valid()
      ensures full <==> !ActiveSlotFree(cfg, View())
    {
      if cfg.maxActive <= 0 {
        return false;
      }
      var active := 0;
      var todo := tasks.Keys;
      ghost var all := ActiveIds(View());
      assert all - todo == {};
      while todo != {}
        invariant todo <= tasks.Keys && active == |all - todo| < cfg.maxActive
        decreases |todo|
      {
        var id :| id in todo;
        SplitCount(all, todo, id);
        todo := todo - {id};
        if objs[id].state.Active() {
          active := active + 1;
          if active >= cfg.maxActive {
            SubsetSize(all - todo, all);
            return true;
          }
        }
      }
      assert all - todo == all;
      full := false;
    }

    /** Refuses when as many tasks as MaxPrepared still wait for bytes. */
    method AcquirePreparedSlotLocked() returns (full: bool)
      requires Valid()
      ensures full <==> !PreparedSlotFree(cfg, View())
    {
      if cfg.maxPrepared <= 0 {
        return false;
      }
      var prepared := 0;
      var todo := tasks.Keys;
      ghost var all := PreparedIds(View());
      assert all - todo == {};
      while todo != {}
        invariant todo <= tasks.Keys && prepared == |all - todo| < cfg.maxPrepared
        decreases |todo|
      {
        var id :| id in todo;
        SplitCount(all, todo, id);
        todo := todo - {id};
        if objs[id].state.Prepared? {
          prepared := prepared + 1;
          if prepared >= cfg.maxPrepared {
            SubsetSize(all - todo, all);
            return true;
          }
        }
      }
      assert all - todo == all;
      full := false;
    }

    // -------------------------------------------------------------- calls

    /** The registering half of beginLocked. */
    method RegisterLocked(id: Id, r: Reader, now: Time)
      requires Valid() && id in objs
      modifies this
      ensures Valid() && View() == Register(old(View()), id, r, now)
    {
      ghost var was := View();
      tasks := tasks[id := Entry(Some(r), 0, Unset, false)];
      UntombstoneLocked(id);
      objs := objs[id := objs[id].(state := Queued, startedAt := Some(now))];
      RegisterIndex(was, id, r, now);
    }

    /** Start, up to the end of its locked region. `id` is a fresh random handle. */
    method Start(id: Id, name: string, createdAt: Time, r: Reader, now: Time) returns (ok: bool, ghost batch: seq<Id>)
      requires Valid() && id !in objs
      modifies this
      ensures Valid() && WellFormed(old(View()))
      ensures !cfg.hasExec ==> View() == old(View()) && !ok
      ensures cfg.hasExec ==>
                && IsBatch(cfg, old(View()), now, batch)
                && (View(), ok) == StartLocked(cfg, old(View()), id, name, createdAt, r, now, batch)
    {
      if !cfg.hasExec {
        return false, [];
      }
      batch := PruneLocked(now);
      var full := AcquireSlotLocked();
      ok := !full;
      if ok {
        AdmitLocked(NewTask(id, name, Queued, createdAt), r, now);
      }
    }

    /** The rest of Start once it has a slot. */
    method AdmitLocked(t: Task, r: Reader, now: Time)
      requires Valid() && t.id !in objs
      modifies this
      ensures Valid() && View() == Register(old(View()).(objs := old(objs)[t.id := t]), t.id, r, now)
    {
      objs := objs[t.id := t];
      RegisterLocked(t.id, r, now);
    }

    /** Prepare, up to the end of its locked region. */
    method Prepare(id: Id, name: string, createdAt: Time, ttl: int, opts: seq<Option<PrepareOption>>, now: Time)
      returns (ok: bool, ghost batch: seq<Id>)
      requires Valid() && id !in objs
      modifies this
      ensures Valid() && WellFormed(old(View()))
      ensures !cfg.hasExec ==> View() == old(View()) && !ok
      ensures cfg.hasExec ==>
                && IsBatch(cfg, old(View()), now, batch)
                && (View(), ok) == PrepareLocked(cfg, old(View()), id, name, createdAt,
                                                 Entry(None, ttl, ModeOf(opts), WrapOf(opts)), now, batch)
    {
      if !cfg.hasExec {
        return false, [];
      }
      var mode, wrap := ApplyOptions(opts);
      ok, batch := ReserveLocked(NewTask(id, name, Prepared, createdAt), Entry(None, ttl, mode, wrap), now);
    }

    /** The locked region of Prepare. */
    method ReserveLocked(t: Task, e: Entry, now: Time) returns (ok: bool, ghost batch: seq<Id>)
      requires Valid() && t.id !in objs && !t.state.Terminal()
      modifies this
      ensures Valid() && WellFormed(old(View())) && IsBatch(cfg, old(View()), now, batch)
      ensures var p := Prune(cfg, old(View()), now, batch);
              && p.tasks.Keys <= p.objs.Keys && ok == PreparedSlotFree(cfg, p)
              && View() == if ok then p.(objs := p.objs[t.id := t], tasks := p.tasks[t.id := e]) else p
    {
      batch := PruneLocked(now);
      PruneFrame(cfg, old(View()), now, batch);
      var full := AcquirePreparedSlotLocked();
      ok := !full;
      if ok {
        AddPreparedLocked(t, e);
      }
    }

    /** The last assignment of Prepare: a brand-new task goes live. */
    method AddPreparedLocked(t: Task, e: Entry)
      requires Valid() && t.id !in objs && !t.state.Terminal()
      modifies this
      ensures Valid() && View() == old(View()).(objs := old(objs)[t.id := t], tasks := old(tasks)[t.id := e])
    {
      objs := objs[t.id := t];
      tasks := tasks[t.id := e];
    }

    /** Fulfill, up to the end of its locked region; also the name and the policy that its run will get. */
    method Fulfill(id: Id, r: Reader, name: string, now: Time)
      returns (outcome: FulfillOutcome, execName: string, mode: ArchiveMode, wrap: bool, ghost batch: seq<Id>)
      requires Valid()
      modifies this
      ensures Valid() && WellFormed(old(View()))
      ensures !cfg.hasExec ==> View() == old(View()) && outcome == NoExecutor
      ensures cfg.hasExec && FulfillCheck(old(View()), id) != Claimed ==>
                View() == old(View()) && outcome == FulfillCheck(old(View()), id)
      ensures cfg.hasExec && FulfillCheck(old(View()), id) == Claimed ==>
                && IsBatch(cfg, old(View()), now, batch)
                && (View(), outcome) == FulfillLocked(cfg, old(View()), id, r, now, batch)
                && mode == old(tasks)[id].archiveMode && wrap == old(tasks)[id].wrap
                && execName == if name == "" then old(objs)[id].name else name
    {
      batch, execName, mode, wrap := [], name, Unset, false;
      if !cfg.hasExec {
        outcome := NoExecutor;
        return;
      }
      outcome := FulfillCheck(Mgr(objs, tasks, tombstones, tombstoneOrder), id);
      if outcome == Claimed {
        if name == "" {
          execName := objs[id].name;
        }
        mode, wrap := tasks[id].archiveMode, tasks[id].wrap;
        batch := PruneLocked(now);
        var full := AcquireSlotLocked();
        if full {
          outcome := NoSlot;
        } else {
          RegisterLocked(id, r, now);
        }
      }
    }

    /** Cancel's locked region, and the tracked task whose reader it must close after unlocking. */
    method Cancel(id: Id, now: Time) returns (outcome: CancelOutcome, owner: Option<Reader>)
      requires Valid()
      modifies this`objs
      ensures Valid()
      ensures (View(), outcome) == CancelLocked(old(View()), id, now)
      ensures outcome == CancelOk ==> id in tasks && owner == tasks[id].owner
    {
      owner := None;
      if id !in tasks {
        return if id in tombstones then FinishedAlready(tombstones[id].state) else NoSuchHandle, None;
      }
      var t := objs[id];
      match t.state {
        case Prepared | Queued | Running =>
          objs := objs[id := t.(state := Cancelled, finishedAt := Some(now))];
          outcome, owner := CancelOk, tasks[id].owner;
        case _ => outcome := NotCancellable(t.state);
      }
    }

    method Get(id: Id, now: Time) returns (r: Option<Task>, ghost batch: seq<Id>)
      requires Valid()
      modifies this
      ensures Valid()
      ensures WellFormed(old(View())) && IsBatch(cfg, old(View()), now, batch)
      ensures View() == Prune(cfg, old(View()), now, batch)
      ensures r == Lookup(View(), id)
      ensures id in tasks ==> id in objs && r == Some(objs[id])
      ensures id !in tasks ==> r == if id in tombstones then Some(tombstones[id]) else None
    {
      batch := PruneLocked(now);
      r := if id in tasks then Some(objs[id]) else if id in tombstones then Some(tombstones[id]) else None;
    }

    /** All live tasks after a prune, each once, ordered by creation time by an exchange sort. */
    method List(now: Time) returns (out: seq<Task>, ghost batch: seq<Id>)
      requires Valid()
      modifies this
      ensures Valid()
      ensures WellFormed(old(View())) && IsBatch(cfg, old(View()), now, batch)
      ensures View() == Prune(cfg, old(View()), now, batch)
      ensures forall i, j :: 0 <= i < j < |out| ==> out[i] != out[j] && out[i].createdAt <= out[j].createdAt
      ensures forall t :: t in out <==> exists id :: id in tasks && id in objs && objs[id] == t
    {
      batch := PruneLocked(now);
      out := CopyTasks();
      out := ExchangeSort(out);
    }

    method CopyTasks() returns (out: seq<Task>)
      requires Valid()
      ensures Enumerates(out, LiveTasks(View(), tasks.Keys))
    {
      out := [];
      var todo := tasks.Keys;
      while todo != {}
        invariant todo <= tasks.Keys <= objs.Keys
        invariant Enumerates(out, LiveTasks(View(), tasks.Keys - todo))
        decreases |todo|
      {
        var id :| id in todo;
        OneMore(View(), tasks.Keys - todo, id);
        NoDupSnoc(out, objs[id]);
        out := out + [objs[id]];
        assert tasks.Keys - (todo - {id}) == (tasks.Keys - todo) + {id};
        todo := todo - {id};
      }
      assert tasks.Keys - todo == tasks.Keys;
    }

    static lemma OneMore(m: Mgr, ids: set<Id>, id: Id)
      requires WellFormed(m) && ids <= m.objs.Keys && id in m.objs && id !in ids
      ensures m.objs[id] !in LiveTasks(m, ids)
      ensures LiveTasks(m, ids + {id}) == LiveTasks(m, ids) + {m.objs[id]}
    {
    }

    // -------------------------------------------------------------- workers

    method WorkerBegin(id: Id, now: Time) returns (ok: bool)
      requires Valid() && id in objs
      modifies this`objs
      ensures Valid() && (View(), ok) == BeginRun(old(View()), id, now)
    {
      ok := objs[id].state.Queued?;
      if ok {
        objs := objs[id := objs[id].(state := Running, startedAt := Some(now))];
      }
    }

    /** The completion region. It leaves a cancelled task and a timed-out one as they are. */
    method WorkerComplete(id: Id, tt: TrackedTask, res: ExecResult, finished: Time)
      requires Valid() && id in objs
      modifies this`objs
      ensures Valid() && View() == FinishRun(old(View()), id, tt.timedOut, res, finished)
    {
      var aborted := objs[id].state.Cancelled? || tt.timedOut;
      if !aborted {
        var t := objs[id].(result := res.value, finishedAt := Some(finished));
        match res.error {
          case DeadlineExceeded => t := t.(state := Failed, err := ExecTimeoutMessage);
          case ContextCanceled =>
            if objs[id].state.Cancelled? {
              t := t.(state := Cancelled, err := NoMessage);
            } else {
              t := t.(state := Failed, err := ExecTimeoutMessage);
            }
          case OtherError(message) => t := t.(state := Failed, err := Message(message));
          case NoError => t := t.(state := Completed);
        }
        objs := objs[id := t];
      }
    }

    method WatchdogFail(id: Id, tt: TrackedTask, failedAt: Time)
      requires Valid() && id in objs
      modifies this`objs, tt`timedOut
      ensures Valid() && View() == ForceFail(old(View()), id, failedAt).0
      ensures tt.timedOut == (old(tt.timedOut) || ForceFail(old(View()), id, failedAt).1)
    {
      if objs[id].state.Queued? || objs[id].state.Running? {
        tt.timedOut := true;
        objs := objs[id := objs[id].(state := Failed, err := ExecTimeoutMessage, finishedAt := Some(failedAt))];
      }
    }
  }

  datatype PrepareOption = WithArchiveMode(mode: ArchiveMode) | WithWrap(wrap: bool)

  /** The last archive mode given wins; the empty one means convert, none at all means preserve. */
  function ModeOf(opts: seq<Option<PrepareOption>>): ArchiveMode {
    if opts == [] then Preserve
    else match opts[|opts| - 1]
      case Some(WithArchiveMode(m)) => if m == Unset then Convert else m
      case _ => ModeOf(opts[..|opts| - 1])
  }

  function WrapOf(opts: seq<Option<PrepareOption>>): bool {
    if opts == [] then false
    else match opts[|opts| - 1]
      case Some(WithWrap(w)) => w
      case _ => WrapOf(opts[..|opts| - 1])
  }

  ghost predicate GivesMode(o: Option<PrepareOption>) { o.Some? && o.value.WithArchiveMode? }

  ghost predicate GivesWrap(o: Option<PrepareOption>) { o.Some? && o.value.WithWrap? }

  /** The `i`-th option is the last of its kind. */
  ghost predicate LastOf(opts: seq<Option<PrepareOption>>, kind: Option<PrepareOption> -> bool, i: nat)
    requires i < |opts|
  {
    kind(opts[i]) && forall k :: i < k < |opts| ==> !kind(opts[k])
  }

  /** Which archive mode counts: the last one given, where an empty one means "convert"; with none at all it is
      "preserve". */
  lemma {:induction false} ModeExact(opts: seq<Option<PrepareOption>>)
    ensures (forall k :: 0 <= k < |opts| ==> !GivesMode(opts[k])) ==> ModeOf(opts) == Preserve
    ensures forall i :: 0 <= i < |opts| && LastOf(opts, GivesMode, i) ==>
              ModeOf(opts) == if opts[i].value.mode == Unset then Convert else opts[i].value.mode
  {
    if opts != [] && !GivesMode(opts[|opts| - 1]) {
      var rest := opts[..|opts| - 1];
      ModeExact(rest);
      assert ModeOf(opts) == ModeOf(rest);
      forall i | 0 <= i < |opts| && LastOf(opts, GivesMode, i) ensures i < |rest| && LastOf(rest, GivesMode, i) {
        assert i < |rest| ==> rest[i] == opts[i];
      }
    }
  }

  /** Which wrap flag counts: the last one given; with none nothing is wrapped. */
  lemma {:induction false} WrapExact(opts: seq<Option<PrepareOption>>)
    ensures (forall k :: 0 <= k < |opts| ==> !GivesWrap(opts[k])) ==> !WrapOf(opts)
    ensures forall i :: 0 <= i < |opts| && LastOf(opts, GivesWrap, i) ==> WrapOf(opts) == opts[i].value.wrap
  {
    if opts != [] && !GivesWrap(opts[|opts| - 1]) {
      var rest := opts[..|opts| - 1];
      WrapExact(rest);
      assert WrapOf(opts) == WrapOf(rest);
      forall i | 0 <= i < |opts| && LastOf(opts, GivesWrap, i) ensures i < |rest| && LastOf(rest, GivesWrap, i) {
        assert i < |rest| ==> rest[i] == opts[i];
      }
    }
  }

  /** Options apply in order; nil options are skipped. */
  method ApplyOptions(opts: seq<Option<PrepareOption>>) returns (mode: ArchiveMode, wrap: bool)
    ensures mode == ModeOf(opts) && wrap == WrapOf(opts)
  {
    mode, wrap := Preserve, false;
    for i := 0 to |opts|
      invariant mode == ModeOf(opts[..i]) && wrap == WrapOf(opts[..i])
    {
      assert opts[..i + 1][..i] == opts[..i];
      match opts[i]
      case None =>
      case Some(WithArchiveMode(m)) => mode := if m == Unset then Convert else m;
      case Some(WithWrap(w)) => wrap := w;
    }
    assert opts[..|opts|] == opts;
  }

  lemma SplitCount(all: set<Id>, todo: set<Id>, id: Id)
    requires id in todo
    ensures |all - (todo - {id})| == |all - todo| + if id in all then 1 else 0
  {
    assert all - (todo - {id}) == (all - todo) + if id in all then {id} else {};
  }

  /** The records of the live tasks. */
  ghost function LiveTasks(m: Mgr, ids: set<Id>): set<Task>
    requires ids <= m.objs.Keys
  {
    set id | id in ids :: m.objs[id]
  }

  ghost predicate ByCreation(ts: seq<Task>) {
    forall i, j :: 0 <= i < j < |ts| ==> ts[i].createdAt <= ts[j].createdAt
  }

  lemma SwapEnumerates<T(!new)>(s: seq<T>, k: set<T>, i: nat, j: nat)
    requires Enumerates(s, k) && i < j < |s|
    ensures Enumerates(s[i := s[j]][j := s[i]], k)
  {
    var t := s[i := s[j]][j := s[i]];
    assert forall x :: x in s ==> x in t by {
      forall x | x in s ensures x in t {
        var n :| 0 <= n < |s| && s[n] == x;
        assert t[if n == i then j else if n == j then i else n] == x;
      }
    }
  }

  /** The exchange sort of List: afterwards the same tasks are ordered by creation time. */
  method ExchangeSort(ts: seq<Task>) returns (out: seq<Task>)
    requires NoDup(ts)
    ensures ByCreation(out)
    ensures Enumerates(out, Elems(ts))
  {
    out := ts;
    for i := 0 to |ts|
      invariant |out| == |ts| && Enumerates(out, Elems(ts))
      invariant forall a, b :: 0 <= a < i && a < b < |out| ==> out[a].createdAt <= out[b].createdAt
    {
      for j := i + 1 to |ts|
        invariant |out| == |ts| && Enumerates(out, Elems(ts))
        invariant forall a, b :: 0 <= a < i && a < b < |out| ==> out[a].createdAt <= out[b].createdAt
        invariant forall b :: i < b < j ==> out[i].createdAt <= out[b].createdAt
      {
        if out[j].createdAt < out[i].createdAt {
          SwapEnumerates(out, Elems(ts), i, j);
          out := out[i := out[j]][j := out[i]];
        }
      }
    }
  }

  /** The retirement loop has counted exactly the retirable prefix. */
  lemma {:induction false} CountIs(tombs: map<Id, Task>, order: seq<Id>, cutoff: Time, k: nat, left: map<Id, Task>)
    requires NoDup(order) && k <= |order| && left == tombs - Elems(order[..k])
    requires forall i :: 0 <= i < k ==> Retirable(tombs, order[i], cutoff)
    requires k < |order| ==> !Retirable(left, order[k], cutoff)
    ensures RetireCount(tombs, order, cutoff) == k
  {
    assert forall i :: 0 <= i < k < |order| ==> order[i] != order[k];
    CountPrefix(tombs, order, cutoff, k);
  }

  lemma WithoutNext(tombs: map<Id, Task>, order: seq<Id>, k: nat)
    requires k < |order|
    ensures tombs - Elems(order[..k + 1]) == tombs - Elems(order[..k]) - {order[k]}
  {
    assert order[..k + 1] == order[..k] + [order[k]];
  }

  lemma {:induction false} CountPrefix(tombs: map<Id, Task>, order: seq<Id>, cutoff: Time, k: nat)
    requires k <= |order|
    requires forall i :: 0 <= i < k ==> Retirable(tombs, order[i], cutoff)
    requires k < |order| ==> !Retirable(tombs, order[k], cutoff)
    ensures RetireCount(tombs, order, cutoff) == k
  {
    if k > 0 {
      CountPrefix(tombs, order[1..], cutoff, k - 1);
    }
  }
}
