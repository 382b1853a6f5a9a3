/** How long the upload manager remembers a handle, over every behaviour. */
module UploadRetention {
  import opened Prelude
  import opened UploadModel
  import opened UploadInvariants
  import opened UploadCore
  import opened UploadSafety
  import opened UploadSteps
  import opened UploadTheorems

  // ---------------------------------------------------------------- one prune

  /** Both sides of eviction: a prune drops a live handle exactly when its own window has lapsed. */
  lemma PruneDropsExactly(cfg: Config, m: Mgr, now: Time, batch: seq<Id>, id: Id)
    requires MgrInv(cfg, m) && IsBatch(cfg, m, now, batch) && id in m.tasks
    ensures id !in Prune(cfg, m, now, batch).tasks <==>
            cfg.ttl > 0 &&
            var t := m.objs[id];
            var window := if m.tasks[id].preparedTTL <= 0 then cfg.preparedTTL else m.tasks[id].preparedTTL;
            || ((t.state == Completed || t.state == Failed || t.state == Cancelled) && t.finishedAt.value + cfg.ttl < now)
            || (t.state == Prepared && window > 0 && t.createdAt + window < now)
  {
    PruneFrame(cfg, m, now, batch);
  }

  /** An old tombstone leaves exactly when it and everything ahead of it in the FIFO is past the cutoff;
      otherwise it stays as it was. */
  lemma PruneRetires(cfg: Config, m: Mgr, now: Time, batch: seq<Id>, i: nat)
    requires MgrInv(cfg, m) && IsBatch(cfg, m, now, batch) && i < |m.order|
    ensures var id := m.order[i];
            && (id !in Prune(cfg, m, now, batch).tombs <==>
                  cfg.ttl > 0 && forall j :: 0 <= j <= i ==> Retirable(m.tombs, m.order[j], Cutoff(cfg, now)))
            && (id in Prune(cfg, m, now, batch).tombs ==> id in m.tombs && Prune(cfg, m, now, batch).tombs[id] == m.tombs[id])
  {
    assert m.order[i] in m.tombs.Keys;
    if cfg.ttl > 0 {
      var mid := EvictAll(m, batch, now);
      EvictAllIndex(cfg, m, now, batch);
      OldTombsStay(cfg, m, now, batch);
      RetiredExactly(mid, Cutoff(cfg, now), i);
      assert forall j :: 0 <= j <= i ==>
        mid.order[j] == m.order[j] && (Retirable(mid.tombs, mid.order[j], Cutoff(cfg, now)) <==> Retirable(m.tombs, m.order[j], Cutoff(cfg, now)));
    }
  }

  lemma OldTombsStay(cfg: Config, m: Mgr, now: Time, batch: seq<Id>)
    requires MgrInv(cfg, m) && IsBatch(cfg, m, now, batch) && cfg.ttl > 0
    ensures forall i :: 0 <= i < |m.order| ==>
              m.order[i] in m.tombs && m.order[i] in EvictAll(m, batch, now).tombs &&
              EvictAll(m, batch, now).tombs[m.order[i]] == m.tombs[m.order[i]]
  {
    forall i | 0 <= i < |m.order|
      ensures m.order[i] in m.tombs && m.order[i] in EvictAll(m, batch, now).tombs
      ensures EvictAll(m, batch, now).tombs[m.order[i]] == m.tombs[m.order[i]]
    {
      assert m.order[i] in m.tombs.Keys;
      assert m.order[i] !in EvictSet(cfg, m, now);
    }
  }

  /** Retirement drops an entry exactly when everything up to it is past the cutoff. */
  lemma RetiredExactly(m: Mgr, cutoff: Time, i: nat)
    requires IndexInv(m) && i < |m.order|
    ensures m.order[i] !in Retire(m, cutoff).tombs <==> forall j :: 0 <= j <= i ==> Retirable(m.tombs, m.order[j], cutoff)
    ensures m.order[i] in Retire(m, cutoff).tombs ==>
              m.order[i] in m.tombs && Retire(m, cutoff).tombs[m.order[i]] == m.tombs[m.order[i]]
  {
    var k := RetireCount(m.tombs, m.order, cutoff);
    assert m.order[i] in m.tombs.Keys;
    if i < k {
      assert m.order[i] == m.order[..k][i];
      assert m.order[i] in Elems(m.order[..k]);
    } else {
      NoDupCut(m.order, k);
      assert m.order[i] == m.order[k..][i - k];
      assert m.order[i] in Elems(m.order[k..]);
      assert !Retirable(m.tombs, m.order[k], cutoff);
    }
  }

  /** After a prune the head of the FIFO, if any, is not past the cutoff. */
  lemma PruneHead(cfg: Config, m: Mgr, now: Time, batch: seq<Id>)
    requires MgrInv(cfg, m) && IsBatch(cfg, m, now, batch) && cfg.ttl > 0
    requires Prune(cfg, m, now, batch).order != []
    ensures var p := Prune(cfg, m, now, batch);
            p.order[0] in p.tombs && (p.tombs[p.order[0]].finishedAt.Some? ==> p.tombs[p.order[0]].finishedAt.value >= now - cfg.ttl)
  {
    EvictAllIndex(cfg, m, now, batch);
    RetireHead(EvictAll(m, batch, now), Cutoff(cfg, now));
  }

  lemma RetireHead(m: Mgr, cutoff: Time)
    requires IndexInv(m) && Retire(m, cutoff).order != []
    ensures var p := Retire(m, cutoff); p.order[0] in p.tombs && !Retirable(p.tombs, p.order[0], cutoff)
  {
    RetireIndex(m, cutoff);
    var k := RetireCount(m.tombs, m.order, cutoff);
    var p := Retire(m, cutoff);
    assert p.order[0] == m.order[k];
    assert p.order[0] in p.tombs;
  }

  /** After a prune at time T every surviving tombstone was recorded no earlier than T - ttl. */
  lemma PruneLeavesRecent(cfg: Config, s: Core, batch: seq<Id>, id: Id)
    requires CoreInv(cfg, s) && BatchOk(cfg, s, batch) && cfg.ttl > 0
    requires id in DoPoll(cfg, s, batch).m.tombs
    ensures id in DoPoll(cfg, s, batch).recAt && DoPoll(cfg, s, batch).recAt[id] >= s.clock - cfg.ttl
  {
    var n := DoPoll(cfg, s, batch);
    PollStamps(cfg, s, batch);
    PruneIndex(cfg, s.m, s.clock, batch);
    PruneHead(cfg, s.m, s.clock, batch);
    RecentBehindHead(cfg, n, id);
  }

  /** Behind a head that is not past the cutoff everything was recorded within the last ttl. */
  lemma RecentBehindHead(cfg: Config, n: Core, id: Id)
    requires FifoInv(cfg, n) && cfg.ttl > 0 && id in n.m.order
    requires n.m.order[0] in n.m.tombs
    requires n.m.tombs[n.m.order[0]].finishedAt.Some? ==> n.m.tombs[n.m.order[0]].finishedAt.value >= n.clock - cfg.ttl
    ensures id in n.recAt && n.recAt[id] >= n.clock - cfg.ttl
  {
    var i :| 0 <= i < |n.m.order| && n.m.order[i] == id;
    assert StampOk(cfg, n.m.tombs[n.m.order[0]], n.recAt[n.m.order[0]], n.clock);
  }

  /** The steps whose locked region prunes. */
  ghost predicate Prunes(cfg: Config, s: Core, step: Step)
    requires Enabled(cfg, s, step)
  {
    || step.Poll? || step.PrepareLock? || (step.StartLock? && cfg.hasExec)
    || (step.FulfillLock? && cfg.hasExec && FulfillCheck(s.m, step.id) == Claimed)
  }

  /** What a pruning step leaves behind are tombstones of its prune, recorded as the prune recorded them. */
  lemma PruningStep(cfg: Config, s: Core, step: Step)
    requires Enabled(cfg, s, step) && Prunes(cfg, s, step)
    ensures BatchOk(cfg, s, step.batch) && LeavesOf(cfg, s, step.batch, Next(cfg, s, step))
  {
    if step.StartLock? {
      PruningStart(cfg, s, step.r, step.id, step.name, step.createdAt, step.batch);
    } else if step.FulfillLock? {
      PruningFulfill(cfg, s, step.r, step.id, step.batch);
    } else if step.PrepareLock? {
      PruningPrepare(cfg, s, step.id, step.name, step.createdAt, step.ttl, step.policy, step.batch);
    }
  }

  ghost predicate LeavesOf(cfg: Config, s: Core, batch: seq<Id>, n: Core)
    requires BatchOk(cfg, s, batch)
  {
    n.recAt == Stamp(s, batch) && n.m.tombs.Keys <= Prune(cfg, s.m, s.clock, batch).tombs.Keys
  }

  lemma SubmittedShape(s: Core, r: Reader, kind: SubKind, id: Id, policy: Policy, m: Mgr, batch: seq<Id>, ok: bool)
    ensures Submitted(s, r, kind, id, policy, m, batch, ok).m == m
    ensures Submitted(s, r, kind, id, policy, m, batch, ok).recAt == Stamp(s, batch)
  {
  }

  lemma StartTombs(cfg: Config, m: Mgr, id: Id, name: string, createdAt: Time, r: Reader, now: Time, batch: seq<Id>)
    requires WellFormed(m) && IsBatch(cfg, m, now, batch)
    ensures StartLocked(cfg, m, id, name, createdAt, r, now, batch).0.tombs.Keys <= Prune(cfg, m, now, batch).tombs.Keys
  {
    var p := Prune(cfg, m, now, batch);
    PruneFrame(cfg, m, now, batch);
    RegisterShape(p.(objs := p.objs[id := NewTask(id, name, Queued, createdAt)]), id, r, now);
  }

  lemma PruningStart(cfg: Config, s: Core, r: Reader, id: Id, name: string, createdAt: Time, batch: seq<Id>)
    requires BatchOk(cfg, s, batch) && cfg.hasExec
    ensures LeavesOf(cfg, s, batch, DoStart(cfg, s, r, id, name, createdAt, batch))
  {
    StartTombs(cfg, s.m, id, name, createdAt, r, s.clock, batch);
    var (m, ok) := StartLocked(cfg, s.m, id, name, createdAt, r, s.clock, batch);
    SubmittedShape(s, r, ViaStart, id, Policy(Preserve, false), m, batch, ok);
  }

  lemma FulfillTombs(cfg: Config, m: Mgr, id: Id, r: Reader, now: Time, batch: seq<Id>)
    requires WellFormed(m) && IsBatch(cfg, m, now, batch) && FulfillCheck(m, id) == Claimed
    ensures FulfillLocked(cfg, m, id, r, now, batch).0.tombs.Keys <= Prune(cfg, m, now, batch).tombs.Keys
  {
    PruneFrame(cfg, m, now, batch);
    RegisterShape(Prune(cfg, m, now, batch), id, r, now);
  }

  lemma PruningFulfill(cfg: Config, s: Core, r: Reader, id: Id, batch: seq<Id>)
    requires BatchOk(cfg, s, batch) && cfg.hasExec && FulfillCheck(s.m, id) == Claimed
    ensures LeavesOf(cfg, s, batch, DoFulfill(cfg, s, r, id, batch))
  {
    FulfillTombs(cfg, s.m, id, r, s.clock, batch);
    var e := s.m.tasks[id];
    var (m, out) := FulfillLocked(cfg, s.m, id, r, s.clock, batch);
    SubmittedShape(s, r, ViaFulfill, id, Policy(e.archiveMode, e.wrap), m, batch, out == Claimed);
  }

  lemma PruningPrepare(cfg: Config, s: Core, id: Id, name: string, createdAt: Time, ttl: int, policy: Policy, batch: seq<Id>)
    requires BatchOk(cfg, s, batch)
    ensures LeavesOf(cfg, s, batch, DoPrepare(cfg, s, id, name, createdAt, ttl, policy, batch))
  {
    var e := Entry(None, ttl, policy.mode, policy.wrap);
    PrepareTombs(cfg, s.m, id, name, createdAt, e, s.clock, batch);
    PrepareShape(cfg, s, id, name, createdAt, ttl, policy, batch);
  }

  lemma PrepareTombs(cfg: Config, m: Mgr, id: Id, name: string, createdAt: Time, e: Entry, now: Time, batch: seq<Id>)
    requires WellFormed(m) && IsBatch(cfg, m, now, batch)
    ensures PrepareLocked(cfg, m, id, name, createdAt, e, now, batch).0.tombs == Prune(cfg, m, now, batch).tombs
  {
  }

  lemma ReservedShape(s: Core, id: Id, policy: Policy, m: Mgr, batch: seq<Id>, ok: bool)
    ensures Reserved(s, id, policy, m, batch, ok).m == m && Reserved(s, id, policy, m, batch, ok).recAt == Stamp(s, batch)
  {
  }

  lemma PrepareShape(cfg: Config, s: Core, id: Id, name: string, createdAt: Time, ttl: int, policy: Policy, batch: seq<Id>)
    requires BatchOk(cfg, s, batch)
    ensures DoPrepare(cfg, s, id, name, createdAt, ttl, policy, batch).recAt == Stamp(s, batch)
    ensures DoPrepare(cfg, s, id, name, createdAt, ttl, policy, batch).m ==
            PrepareLocked(cfg, s.m, id, name, createdAt, Entry(None, ttl, policy.mode, policy.wrap), s.clock, batch).0
  {
    var (m, ok) := PrepareLocked(cfg, s.m, id, name, createdAt, Entry(None, ttl, policy.mode, policy.wrap), s.clock, batch);
    ReservedShape(s, id, policy, m, batch, ok);
  }

  /** After the prune of any call at time T, be it Start, Prepare, Fulfill or a poll, every surviving
      tombstone was recorded no earlier than T - ttl. */
  lemma TombstonesAreRecent(cfg: Config, s: Core, step: Step, id: Id)
    requires CoreInv(cfg, s) && Enabled(cfg, s, step) && Prunes(cfg, s, step) && cfg.ttl > 0
    requires id in Next(cfg, s, step).m.tombs
    ensures id in Next(cfg, s, step).recAt && Next(cfg, s, step).recAt[id] >= s.clock - cfg.ttl
  {
    PruningStep(cfg, s, step);
    PruneLeavesRecent(cfg, s, step.batch, id);
  }

  // ---------------------------------------------------------------- order in the FIFO

  /** The instant shown by the tombstone at index `i`. */
  ghost function FinishAt(m: Mgr, i: nat): Time
    requires i < |m.order| && m.order[i] in m.tombs && m.tombs[m.order[i]].finishedAt.Some?
  {
    m.tombs[m.order[i]].finishedAt.value
  }

  ghost predicate Shown(m: Mgr) {
    forall i :: 0 <= i < |m.order| ==> m.order[i] in m.tombs && m.tombs[m.order[i]].finishedAt.Some?
  }

  /** Finish times ascend along the FIFO. */
  ghost predicate FinishSorted(m: Mgr) {
    Shown(m) && forall i, j :: 0 <= i < j < |m.order| ==> FinishAt(m, i) <= FinishAt(m, j)
  }

  lemma AllShown(cfg: Config, n: Core)
    requires FifoInv(cfg, n) && IndexInv(n.m)
    ensures Shown(n.m)
  {
    forall i | 0 <= i < |n.m.order| ensures n.m.order[i] in n.m.tombs && n.m.tombs[n.m.order[i]].finishedAt.Some? {
      assert n.m.order[i] in n.m.tombs.Keys;
      assert StampOk(cfg, n.m.tombs[n.m.order[i]], n.recAt[n.m.order[i]], n.clock);
    }
  }

  /** After a prune the finish times ascend along the FIFO if and only if every surviving tombstone is an
      expiry notice: a finished task that survives always sits behind a younger head. */
  lemma FinishOrderExact(cfg: Config, s: Core, batch: seq<Id>)
    requires CoreInv(cfg, s) && BatchOk(cfg, s, batch) && cfg.ttl > 0
    ensures var m := DoPoll(cfg, s, batch).m;
            FinishSorted(m) <==> forall id :: id in m.tombs ==> m.tombs[id].state.Expired?
  {
    var n := DoPoll(cfg, s, batch);
    PollStamps(cfg, s, batch);
    PruneIndex(cfg, s.m, s.clock, batch);
    AllShown(cfg, n);
    if forall id :: id in n.m.tombs ==> n.m.tombs[id].state.Expired? {
      NoticesAscend(cfg, n);
    } else {
      var id :| id in n.m.tombs && !n.m.tombs[id].state.Expired?;
      PruneHead(cfg, s.m, s.clock, batch);
      FinishedBehindHead(cfg, n, id);
    }
  }

  lemma NoticesAscend(cfg: Config, n: Core)
    requires FifoInv(cfg, n) && Shown(n.m) && forall id :: id in n.m.tombs ==> n.m.tombs[id].state.Expired?
    ensures FinishSorted(n.m)
  {
    forall i, j | 0 <= i < j < |n.m.order| ensures FinishAt(n.m, i) <= FinishAt(n.m, j) {
      assert StampOk(cfg, n.m.tombs[n.m.order[i]], n.recAt[n.m.order[i]], n.clock);
      assert StampOk(cfg, n.m.tombs[n.m.order[j]], n.recAt[n.m.order[j]], n.clock);
    }
  }

  lemma FinishedBehindHead(cfg: Config, n: Core, id: Id)
    requires FifoInv(cfg, n) && Shown(n.m) && IndexInv(n.m)
    requires id in n.m.tombs && !n.m.tombs[id].state.Expired?
    requires n.m.order != [] ==> FinishAt(n.m, 0) >= n.clock - cfg.ttl
    ensures !FinishSorted(n.m)
  {
    assert id in n.m.tombs.Keys;
    var i :| 0 <= i < |n.m.order| && n.m.order[i] == id;
    assert StampOk(cfg, n.m.tombs[id], n.recAt[id], n.clock);
    assert FinishAt(n.m, i) < FinishAt(n.m, 0);
  }

  /** The tombstone of a finished task survives a prune if and only if an expiry notice that is still
      within retention stands ahead of it in the FIFO. */
  lemma FinishedTombstoneExact(cfg: Config, s: Core, batch: seq<Id>, i: nat)
    requires MgrInv(cfg, s.m) && FifoInv(cfg, s) && BatchOk(cfg, s, batch) && cfg.ttl > 0
    requires var mid := EvictAll(s.m, batch, s.clock);
             i < |mid.order| && mid.order[i] in mid.tombs && !mid.tombs[mid.order[i]].state.Expired?
    ensures var mid := EvictAll(s.m, batch, s.clock);
            mid.order[i] in Prune(cfg, s.m, s.clock, batch).tombs <==> exists j :: 0 <= j < i && FreshNotice(mid, j, Cutoff(cfg, s.clock))
  {
    var mid := EvictAll(s.m, batch, s.clock);
    var cutoff := Cutoff(cfg, s.clock);
    EvictAllIndex(cfg, s.m, s.clock, batch);
    MidStamps(cfg, s, batch);
    RetiredExactly(mid, cutoff, i);
    NoticesStopRetirement(cfg, mid, s.clock, i);
  }

  /** A finished task's tombstone at index `i` behind a notice within retention. */
  ghost predicate FinishedBehindNotice(m: Mgr, i: nat, j: nat, cutoff: Time)
    requires j < i < |m.order|
  {
    m.order[i] in m.tombs && !m.tombs[m.order[i]].state.Expired? && FreshNotice(m, j, cutoff)
  }

  /** The same on the FIFO as it stands when the evicted tasks have joined it, before anything is retired:
      after the prune the finish times ascend if and only if no finished task is queued behind an expiry
      notice within retention. */
  lemma FinishOrderBefore(cfg: Config, s: Core, batch: seq<Id>)
    requires CoreInv(cfg, s) && BatchOk(cfg, s, batch) && cfg.ttl > 0
    ensures var mid := EvictAll(s.m, batch, s.clock);
            FinishSorted(DoPoll(cfg, s, batch).m) <==>
            !exists i, j :: 0 <= j < i < |mid.order| && FinishedBehindNotice(mid, i, j, Cutoff(cfg, s.clock))
  {
    var mid := EvictAll(s.m, batch, s.clock);
    var cutoff := Cutoff(cfg, s.clock);
    var p := Prune(cfg, s.m, s.clock, batch);
    FinishOrderExact(cfg, s, batch);
    EvictAllIndex(cfg, s.m, s.clock, batch);
    if i, j :| 0 <= j < i < |mid.order| && FinishedBehindNotice(mid, i, j, cutoff) {
      FinishedTombstoneExact(cfg, s, batch, i);
      RetiredExactly(mid, cutoff, i);
    }
    if id :| id in p.tombs && !p.tombs[id].state.Expired? {
      var i := PlaceOfSurvivor(mid, cutoff, id);
      FinishedTombstoneExact(cfg, s, batch, i);
      var j :| 0 <= j < i && FreshNotice(mid, j, cutoff);
      assert FinishedBehindNotice(mid, i, j, cutoff);
    }
  }

  lemma PlaceOfSurvivor(m: Mgr, cutoff: Time, id: Id) returns (i: nat)
    requires IndexInv(m) && id in Retire(m, cutoff).tombs
    ensures i < |m.order| && m.order[i] == id && id in m.tombs && Retire(m, cutoff).tombs[id] == m.tombs[id]
  {
    assert id in m.tombs.Keys;
    i :| 0 <= i < |m.order| && m.order[i] == id;
    RetiredExactly(m, cutoff, i);
  }

  lemma NoticesStopRetirement(cfg: Config, m: Mgr, now: Time, i: nat)
    requires IndexInv(m) && i < |m.order| && m.order[i] in m.tombs && !m.tombs[m.order[i]].state.Expired?
    requires forall id :: id in m.tombs ==> MidOk(cfg, m.tombs[id], now)
    ensures (exists j :: 0 <= j < i && FreshNotice(m, j, Cutoff(cfg, now))) <==>
            !(forall j :: 0 <= j <= i ==> Retirable(m.tombs, m.order[j], Cutoff(cfg, now)))
  {
    forall j | 0 <= j <= i
      ensures !Retirable(m.tombs, m.order[j], Cutoff(cfg, now)) <==> j < i && FreshNotice(m, j, Cutoff(cfg, now))
    {
      assert m.order[j] in m.tombs.Keys;
      assert MidOk(cfg, m.tombs[m.order[j]], now);
    }
  }

  /** When a prune evicts a finished task, its handle goes from its result straight to unknown if and only
      if no expiry notice still within retention was in the FIFO before the prune. */
  lemma EvictedResultVanishes(cfg: Config, s: Core, batch: seq<Id>, id: Id)
    requires MgrInv(cfg, s.m) && FifoInv(cfg, s) && BatchOk(cfg, s, batch) && cfg.ttl > 0
    requires id in s.m.tasks && s.m.objs[id].state.Terminal() && Evictable(cfg, s.m.objs[id], s.m.tasks[id], s.clock)
    ensures WellFormed(Prune(cfg, s.m, s.clock, batch))
    ensures Lookup(Prune(cfg, s.m, s.clock, batch), id) == None <==>
            forall j :: 0 <= j < |s.m.order| ==> !FreshNotice(s.m, j, Cutoff(cfg, s.clock))
  {
    var b := PlaceInBatch(cfg, s.m, s.clock, batch, id);
    FinishedTombstoneExact(cfg, s, batch, |s.m.order| + b);
    OldNoticesAhead(cfg, s.m, s.clock, batch, b);
  }

  lemma OldNoticesAhead(cfg: Config, m: Mgr, now: Time, batch: seq<Id>, b: nat)
    requires MgrInv(cfg, m) && IsBatch(cfg, m, now, batch) && cfg.ttl > 0 && b < |batch|
    requires m.objs[batch[b]].state.Terminal()
    ensures var mid := EvictAll(m, batch, now);
            (exists j :: 0 <= j < |m.order| + b && FreshNotice(mid, j, Cutoff(cfg, now))) <==>
            (exists j :: 0 <= j < |m.order| && FreshNotice(m, j, Cutoff(cfg, now)))
  {
    OldTombsStay(cfg, m, now, batch);
    OnlyOldNotices(cfg, m, now, batch, b);
  }

  lemma PlaceInBatch(cfg: Config, m: Mgr, now: Time, batch: seq<Id>, id: Id) returns (b: nat)
    requires WellFormed(m) && IsBatch(cfg, m, now, batch) && cfg.ttl > 0
    requires id in m.tasks && m.objs[id].state.Terminal() && Evictable(cfg, m.objs[id], m.tasks[id], now)
    ensures b < |batch| && batch[b] == id
    ensures var mid := EvictAll(m, batch, now); mid.order[|m.order| + b] == id && id in mid.tombs && mid.tombs[id] == m.objs[id]
    ensures WellFormed(Prune(cfg, m, now, batch))
    ensures Lookup(Prune(cfg, m, now, batch), id) == None <==> id !in Prune(cfg, m, now, batch).tombs
  {
    PruneFrame(cfg, m, now, batch);
    assert id in EvictSet(cfg, m, now);
    b :| 0 <= b < |batch| && batch[b] == id;
  }

  /** Ahead of a finished task in its own batch there is no fresh notice. */
  lemma OnlyOldNotices(cfg: Config, m: Mgr, now: Time, batch: seq<Id>, b: nat)
    requires MgrInv(cfg, m) && IsBatch(cfg, m, now, batch) && cfg.ttl > 0 && b < |batch|
    requires m.objs[batch[b]].state.Terminal()
    requires forall i :: 0 <= i < |m.order| ==>
               m.order[i] in m.tombs && m.order[i] in EvictAll(m, batch, now).tombs &&
               EvictAll(m, batch, now).tombs[m.order[i]] == m.tombs[m.order[i]]
    ensures var mid := EvictAll(m, batch, now);
            (exists j :: 0 <= j < |m.order| + b && FreshNotice(mid, j, Cutoff(cfg, now))) <==>
            (exists j :: 0 <= j < |m.order| && FreshNotice(m, j, Cutoff(cfg, now)))
  {
    var mid := EvictAll(m, batch, now);
    assert batch[b] in EvictSet(cfg, m, now);
    forall j | 0 <= j < |m.order| + b
      ensures FreshNotice(mid, j, Cutoff(cfg, now)) <==> j < |m.order| && FreshNotice(m, j, Cutoff(cfg, now))
    {
      if j < |m.order| {
        assert mid.order[j] == m.order[j];
      } else {
        var x := batch[j - |m.order|];
        assert mid.order[j] == x && x in batch;
        assert mid.tombs[x] == Snapshot(m.objs[x], now);
        assert RetireKey(m.objs[x], now) <= RetireKey(m.objs[batch[b]], now);
      }
    }
  }

  ghost predicate FreshNotice(m: Mgr, j: nat, cutoff: Time)
    requires j < |m.order|
  {
    var id := m.order[j];
    id in m.tombs && m.tombs[id].state.Expired? && m.tombs[id].finishedAt.Some? && m.tombs[id].finishedAt.value >= cutoff
  }

  /** Every tombstone shows a finish time, and that of a finished task is past the cutoff. */
  ghost predicate MidOk(cfg: Config, t: Task, now: Time) {
    t.finishedAt.Some? && (!t.state.Expired? ==> t.finishedAt.value < Cutoff(cfg, now))
  }

  lemma MidStamps(cfg: Config, s: Core, batch: seq<Id>)
    requires FifoInv(cfg, s) && ObjInv(s.m) && BatchOk(cfg, s, batch) && cfg.ttl > 0
    ensures forall id :: id in EvictAll(s.m, batch, s.clock).tombs ==> MidOk(cfg, EvictAll(s.m, batch, s.clock).tombs[id], s.clock)
  {
    var mid := EvictAll(s.m, batch, s.clock);
    forall id | id in mid.tombs ensures MidOk(cfg, mid.tombs[id], s.clock) {
      if id in batch {
        assert id in EvictSet(cfg, s.m, s.clock);
      } else {
        assert StampOk(cfg, s.m.tombs[id], s.recAt[id], s.clock);
      }
    }
  }

  /** Fulfill of a live prepared handle succeeds exactly when an active slot is free, whether or not the
      handle's window has lapsed: the prune inside the call may tombstone it, and then the call takes it
      back out of the tombstones and the FIFO. Without a slot a lapsed handle stays dropped. */
  lemma FulfillRevives(cfg: Config, m: Mgr, id: Id, r: Reader, now: Time, batch: seq<Id>)
    requires MgrInv(cfg, m) && IsBatch(cfg, m, now, batch) && id in m.tasks && m.objs[id].state.Prepared?
    ensures var (n, out) := FulfillLocked(cfg, m, id, r, now, batch);
            && (out == Claimed <==> ActiveSlotFree(cfg, m))
            && (out == Claimed ==>
                  id in n.tasks && n.tasks[id].owner == Some(r) && id in n.objs && n.objs[id].state == Queued &&
                  id !in n.tombs && id !in n.order)
            && (out != Claimed ==>
                  out == NoSlot && (id !in n.tasks <==> cfg.ttl > 0 && Evictable(cfg, m.objs[id], m.tasks[id], now)))
  {
    var p := Prune(cfg, m, now, batch);
    PruneFrame(cfg, m, now, batch);
    PruneKeeps(cfg, m, now, batch);
    if ActiveSlotFree(cfg, m) {
      RegisterShape(p, id, r, now);
      RegisterIndex(p, id, r, now);
      assert id !in Register(p, id, r, now).tombs;
    }
  }

  // ---------------------------------------------------------------- one step

  /** A live handle leaves the live set, or changes its entry while prepared, only by a lapsed window. */
  ghost predicate EntryKept(cfg: Config, m: Mgr, n: Mgr, now: Time, id: Id)
    requires id in m.tasks && id in m.objs
  {
    && (id !in n.tasks ==> cfg.ttl > 0 && Evictable(cfg, m.objs[id], m.tasks[id], now))
    && (id in n.tasks && id in n.objs && n.objs[id].state.Prepared? ==> n.tasks[id] == m.tasks[id])
  }

  ghost predicate TombKept(cfg: Config, m: Mgr, n: Mgr, now: Time, id: Id)
    requires id in m.tombs
  {
    if id in n.tombs then n.tombs[id] == m.tombs[id] else cfg.ttl > 0 && Retirable(m.tombs, id, Cutoff(cfg, now))
  }

  ghost predicate Keeps(cfg: Config, m: Mgr, n: Mgr, now: Time)
    requires m.tasks.Keys <= m.objs.Keys
  {
    && (forall id :: id in m.tasks ==> EntryKept(cfg, m, n, now, id))
    && (forall id :: id in m.tombs ==> TombKept(cfg, m, n, now, id))
  }

  lemma PruneKeepsHandles(cfg: Config, m: Mgr, now: Time, batch: seq<Id>)
    requires MgrInv(cfg, m) && IsBatch(cfg, m, now, batch)
    ensures Keeps(cfg, m, Prune(cfg, m, now, batch), now)
  {
    PruneFrame(cfg, m, now, batch);
    forall id | id in m.tombs ensures TombKept(cfg, m, Prune(cfg, m, now, batch), now, id) {
      assert id in m.tombs.Keys;
      var i :| 0 <= i < |m.order| && m.order[i] == id;
      PruneRetires(cfg, m, now, batch, i);
    }
  }

  /** Registering `id`, which is not tombstoned in `m`, disturbs no other handle. */
  lemma RegisterKeepsHandles(cfg: Config, m: Mgr, p: Mgr, id: Id, r: Reader, now: Time)
    requires m.tasks.Keys <= m.objs.Keys && Keeps(cfg, m, p, now) && id !in m.tombs && id in p.objs
    ensures Keeps(cfg, m, Register(p, id, r, now), now)
  {
    RegisterShape(p, id, r, now);
    var n := Register(p, id, r, now);
    forall x | x in m.tasks ensures EntryKept(cfg, m, n, now, x) {
      assert EntryKept(cfg, m, p, now, x);
    }
    forall x | x in m.tombs ensures TombKept(cfg, m, n, now, x) {
      assert TombKept(cfg, m, p, now, x);
    }
  }

  lemma AddKeepsHandles(cfg: Config, m: Mgr, p: Mgr, t: Task, now: Time)
    requires WellFormed(m) && Keeps(cfg, m, p, now) && t.id !in m.objs
    ensures Keeps(cfg, m, p.(objs := p.objs[t.id := t]), now)
  {
    var n := p.(objs := p.objs[t.id := t]);
    forall x | x in m.tasks ensures EntryKept(cfg, m, n, now, x) { assert EntryKept(cfg, m, p, now, x); }
    forall x | x in m.tombs ensures TombKept(cfg, m, n, now, x) { assert TombKept(cfg, m, p, now, x); }
  }

  lemma StartKeepsHandles(cfg: Config, s: Core, r: Reader, id: Id, name: string, createdAt: Time, batch: seq<Id>)
    requires MgrInv(cfg, s.m) && Enabled(cfg, s, StartLock(r, id, name, createdAt, batch))
    ensures Keeps(cfg, s.m, StartLocked(cfg, s.m, id, name, createdAt, r, s.clock, batch).0, s.clock)
  {
    var p := Prune(cfg, s.m, s.clock, batch);
    PruneFrame(cfg, s.m, s.clock, batch);
    PruneKeepsHandles(cfg, s.m, s.clock, batch);
    var t := NewTask(id, name, Queued, createdAt);
    AddKeepsHandles(cfg, s.m, p, t, s.clock);
    RegisterKeepsHandles(cfg, s.m, p.(objs := p.objs[id := t]), id, r, s.clock);
  }

  lemma FulfillKeepsHandles(cfg: Config, s: Core, r: Reader, id: Id, batch: seq<Id>)
    requires MgrInv(cfg, s.m) && BatchOk(cfg, s, batch)
    ensures Keeps(cfg, s.m, FulfillLocked(cfg, s.m, id, r, s.clock, batch).0, s.clock)
  {
    if FulfillCheck(s.m, id) == Claimed {
      PruneFrame(cfg, s.m, s.clock, batch);
      PruneKeepsHandles(cfg, s.m, s.clock, batch);
      RegisterKeepsHandles(cfg, s.m, Prune(cfg, s.m, s.clock, batch), id, r, s.clock);
    }
  }

  lemma PrepareKeepsHandles(cfg: Config, s: Core, id: Id, name: string, createdAt: Time, e: Entry, batch: seq<Id>)
    requires MgrInv(cfg, s.m) && BatchOk(cfg, s, batch) && id !in s.m.objs
    ensures Keeps(cfg, s.m, PrepareLocked(cfg, s.m, id, name, createdAt, e, s.clock, batch).0, s.clock)
  {
    var p := Prune(cfg, s.m, s.clock, batch);
    PruneFrame(cfg, s.m, s.clock, batch);
    PruneKeepsHandles(cfg, s.m, s.clock, batch);
    var n := PrepareLocked(cfg, s.m, id, name, createdAt, e, s.clock, batch).0;
    forall x | x in s.m.tasks ensures EntryKept(cfg, s.m, n, s.clock, x) { assert EntryKept(cfg, s.m, p, s.clock, x); }
    forall x | x in s.m.tombs ensures TombKept(cfg, s.m, n, s.clock, x) { assert TombKept(cfg, s.m, p, s.clock, x); }
  }

  lemma SameEntriesKeepHandles(cfg: Config, m: Mgr, n: Mgr, now: Time)
    requires m.tasks.Keys <= m.objs.Keys && n.tasks == m.tasks && n.tombs == m.tombs
    ensures Keeps(cfg, m, n, now)
  {
  }

  lemma SubmitKeepsHandles(cfg: Config, s: Core, step: Step)
    requires MgrInv(cfg, s.m) && Enabled(cfg, s, step) && (step.StartLock? || step.FulfillLock?)
    ensures Keeps(cfg, s.m, Next(cfg, s, step).m, s.clock)
  {
    SameEntriesKeepHandles(cfg, s.m, s.m, s.clock);
    if step.StartLock? {
      StartKeepsHandles(cfg, s, step.r, step.id, step.name, step.createdAt, step.batch);
    } else {
      FulfillShape(cfg, s, step.r, step.id, step.batch);
      FulfillKeepsHandles(cfg, s, step.r, step.id, step.batch);
    }
  }

  lemma PrepareStepKeepsHandles(cfg: Config, s: Core, step: Step)
    requires MgrInv(cfg, s.m) && Enabled(cfg, s, step) && step.PrepareLock?
    ensures Keeps(cfg, s.m, Next(cfg, s, step).m, s.clock)
  {
    PrepareKeepsHandles(cfg, s, step.id, step.name, step.createdAt,
                        Entry(None, step.ttl, step.policy.mode, step.policy.wrap), step.batch);
  }

  lemma QuietCancel(s: Core, c: nat, id: Id)
    requires WellFormed(s.m)
    ensures DoCancel(s, c, id).m.tasks == s.m.tasks && DoCancel(s, c, id).m.tombs == s.m.tombs
  {
  }

  lemma QuietRewrite(cfg: Config, s: Core, step: Step)
    requires Enabled(cfg, s, step)
    requires step.WorkerBegin? || step.Complete? || step.DogFail?
    ensures Next(cfg, s, step).m.tasks == s.m.tasks && Next(cfg, s, step).m.tombs == s.m.tombs
  {
  }

  lemma QuietSame(cfg: Config, s: Core, step: Step)
    requires Enabled(cfg, s, step)
    requires PcStep(step) || step.CallExec? || step.Tick? || step.RefusedClose? || step.CancelClose?
    ensures Next(cfg, s, step).m == s.m
  {
  }

  lemma StepKeepsHandles(cfg: Config, s: Core, step: Step)
    requires MgrInv(cfg, s.m) && Enabled(cfg, s, step)
    ensures Keeps(cfg, s.m, Next(cfg, s, step).m, s.clock)
  {
    if step.StartLock? || step.FulfillLock? {
      SubmitKeepsHandles(cfg, s, step);
    } else if step.PrepareLock? {
      PrepareStepKeepsHandles(cfg, s, step);
    } else if step.Poll? {
      PruneKeepsHandles(cfg, s.m, s.clock, step.batch);
    } else {
      if step.CancelLock? {
        QuietCancel(s, step.c, step.id);
      } else if step.WorkerBegin? || step.Complete? || step.DogFail? {
        QuietRewrite(cfg, s, step);
      } else {
        QuietSame(cfg, s, step);
      }
      SameEntriesKeepHandles(cfg, s.m, Next(cfg, s, step).m, s.clock);
    }
  }

  // ---------------------------------------------------------------- whole behaviours

  /** Each step keeps handles as above, objects only move forward and time does not run back. */
  ghost predicate Retaining(cfg: Config, trace: seq<Core>) {
    && Monotone(trace)
    && forall k :: 0 <= k < |trace| - 1 ==> Keeps(cfg, trace[k].m, trace[k + 1].m, trace[k].clock)
  }

  lemma BehaviourRetains(cfg: Config, trace: seq<Core>, steps: seq<Step>)
    requires IsBehaviour(cfg, trace, steps)
    ensures Retaining(cfg, trace)
  {
    BehaviourMonotone(cfg, trace, steps);
    forall k | 0 <= k < |trace| - 1 ensures Keeps(cfg, trace[k].m, trace[k + 1].m, trace[k].clock) {
      Reachable(cfg, trace, steps, k);
      StepKeepsHandles(cfg, trace[k], steps[k]);
    }
  }

  lemma {:induction false} TerminalStays(cfg: Config, trace: seq<Core>, i: nat, j: nat, id: Id)
    requires Retaining(cfg, trace) && i <= j < |trace|
    requires id in trace[i].m.tasks && trace[i].m.objs[id].state.Terminal() && trace[i].m.objs[id].finishedAt.Some?
    requires cfg.ttl > 0 ==> trace[j].clock <= trace[i].m.objs[id].finishedAt.value + cfg.ttl
    ensures id in trace[j].m.tasks && trace[j].m.objs[id] == trace[i].m.objs[id]
    decreases j - i
  {
    if i < j {
      assert trace[j - 1].clock <= trace[j - 1 + 1].clock;
      TerminalStays(cfg, trace, i, j - 1, id);
      assert EntryKept(cfg, trace[j - 1].m, trace[j - 1 + 1].m, trace[j - 1].clock, id);
      assert TaskForward(trace[j - 1].m.objs[id], trace[j - 1 + 1].m.objs[id]);
    }
  }

  /** A finished task keeps its live entry, with its result, until FinishedAt + ttl, and for ever when there is
      no retention. */
  lemma FinishedTasksRetained(cfg: Config, trace: seq<Core>, steps: seq<Step>, i: nat, j: nat, id: Id)
    requires IsBehaviour(cfg, trace, steps) && i <= j < |trace|
    requires id in trace[i].m.tasks && id in trace[i].m.objs && trace[i].m.objs[id].state.Terminal()
    requires cfg.ttl > 0 && trace[i].m.objs[id].finishedAt.Some? ==>
               trace[j].clock <= trace[i].m.objs[id].finishedAt.value + cfg.ttl
    ensures id in trace[j].m.tasks && id in trace[j].m.objs && trace[j].m.objs[id] == trace[i].m.objs[id]
  {
    Reachable(cfg, trace, steps, i);
    BehaviourRetains(cfg, trace, steps);
    TerminalStays(cfg, trace, i, j, id);
  }

  lemma RetainingStep(cfg: Config, trace: seq<Core>, k: nat)
    requires Retaining(cfg, trace) && k + 1 < |trace|
    ensures trace[k].clock <= trace[k + 1].clock
    ensures trace[k].m.tasks.Keys <= trace[k].m.objs.Keys && trace[k + 1].m.tasks.Keys <= trace[k + 1].m.objs.Keys
    ensures MgrForward(trace[k].m, trace[k + 1].m)
    ensures Keeps(cfg, trace[k].m, trace[k + 1].m, trace[k].clock)
  {
  }

  ghost predicate PreparedAt(m: Mgr, id: Id, e: Entry, created: Time) {
    id in m.tasks && id in m.objs && m.tasks[id] == e && m.objs[id].state.Prepared? && m.objs[id].createdAt == created
  }

  lemma PreparedStep(cfg: Config, m: Mgr, n: Mgr, now: Time, id: Id, e: Entry, created: Time)
    requires m.tasks.Keys <= m.objs.Keys && n.tasks.Keys <= n.objs.Keys
    requires MgrForward(m, n) && Keeps(cfg, m, n, now) && PreparedAt(m, id, e, created)
    requires id in n.objs && n.objs[id].state.Prepared?
    requires Window(cfg, e) > 0 ==> now <= created + Window(cfg, e)
    ensures PreparedAt(n, id, e, created)
  {
    assert EntryKept(cfg, m, n, now, id);
    assert TaskForward(m.objs[id], n.objs[id]);
  }

  /** A task that is prepared later was prepared before. */
  lemma PreparedBefore(m: Mgr, n: Mgr, id: Id)
    requires m.tasks.Keys <= m.objs.Keys && n.tasks.Keys <= n.objs.Keys
    requires MgrForward(m, n) && id in m.objs && id in n.objs && n.objs[id].state.Prepared?
    ensures m.objs[id].state.Prepared? && m.objs[id].createdAt == n.objs[id].createdAt
  {
    assert TaskForward(m.objs[id], n.objs[id]);
  }

  lemma {:induction false} PreparedStays(cfg: Config, trace: seq<Core>, i: nat, j: nat, id: Id, e: Entry, created: Time)
    requires Retaining(cfg, trace) && i <= j < |trace|
    requires PreparedAt(trace[i].m, id, e, created)
    requires id in trace[j].m.objs && trace[j].m.objs[id].state.Prepared?
    requires Window(cfg, e) > 0 ==> trace[j].clock <= created + Window(cfg, e)
    ensures PreparedAt(trace[j].m, id, e, created)
    decreases j - i
  {
    if i < j {
      var k := j - 1;
      RetainingStep(cfg, trace, k);
      MonotoneForward(trace, i, k);
      assert id in trace[k].m.objs;
      PreparedBefore(trace[k].m, trace[k + 1].m, id);
      PreparedStays(cfg, trace, i, k, id, e, created);
      PreparedStep(cfg, trace[k].m, trace[k + 1].m, trace[k].clock, id, e, created);
    }
  }

  /** A prepared handle that nobody fulfilled or cancelled stays live until CreatedAt plus its own
      endpoint TTL (or the default window when it has none). */
  lemma PreparedTasksRetained(cfg: Config, trace: seq<Core>, steps: seq<Step>, i: nat, j: nat, id: Id)
    requires IsBehaviour(cfg, trace, steps) && i <= j < |trace|
    requires id in trace[i].m.tasks && id in trace[i].m.objs
    requires id in trace[j].m.objs && trace[j].m.objs[id].state.Prepared?
    requires var w := if trace[i].m.tasks[id].preparedTTL <= 0 then cfg.preparedTTL else trace[i].m.tasks[id].preparedTTL;
             w > 0 ==> trace[j].clock <= trace[i].m.objs[id].createdAt + w
    ensures id in trace[j].m.tasks && trace[j].m.tasks[id] == trace[i].m.tasks[id]
  {
    BehaviourRetains(cfg, trace, steps);
    MonotoneForward(trace, i, j);
    PreparedBefore(trace[i].m, trace[j].m, id);
    PreparedStays(cfg, trace, i, j, id, trace[i].m.tasks[id], trace[i].m.objs[id].createdAt);
  }

  /** While the task of a run is queued or running its handle is live and owned by that run: no prune
      ever drops it. */
  lemma ActiveRunsAreLive(cfg: Config, trace: seq<Core>, steps: seq<Step>, i: nat, r: Reader)
    requires IsBehaviour(cfg, trace, steps) && i < |trace| && r in trace[i].runs
    ensures trace[i].runs[r].id in trace[i].m.objs
    ensures trace[i].m.objs[trace[i].runs[r].id].state.Active() ==>
              trace[i].runs[r].id in trace[i].m.tasks && trace[i].m.tasks[trace[i].runs[r].id].owner == Some(r)
  {
    Reachable(cfg, trace, steps, i);
    assert RunInv(trace[i], r);
  }

  lemma {:induction false} ExpiryNoticeStays(cfg: Config, trace: seq<Core>, i: nat, j: nat, id: Id)
    requires Retaining(cfg, trace) && i <= j < |trace|
    requires id in trace[i].m.tombs && trace[i].m.tombs[id].finishedAt.Some?
    requires trace[j].clock <= trace[i].m.tombs[id].finishedAt.value + cfg.ttl
    ensures id in trace[j].m.tombs && trace[j].m.tombs[id] == trace[i].m.tombs[id]
    decreases j - i
  {
    if i < j {
      assert trace[j - 1].clock <= trace[j - 1 + 1].clock;
      ExpiryNoticeStays(cfg, trace, i, j - 1, id);
      assert TombKept(cfg, trace[j - 1].m, trace[j - 1 + 1].m, trace[j - 1].clock, id);
    }
  }

  /** An expiry notice recorded at R is shown unchanged at least until R + ttl. */
  lemma ExpiryNoticeRetained(cfg: Config, trace: seq<Core>, steps: seq<Step>, i: nat, j: nat, id: Id)
    requires IsBehaviour(cfg, trace, steps) && i <= j < |trace|
    requires id in trace[i].m.tombs && trace[i].m.tombs[id].state.Expired? && id in trace[i].recAt
    requires trace[j].clock <= trace[i].recAt[id] + cfg.ttl
    ensures id in trace[j].m.tombs && trace[j].m.tombs[id] == trace[i].m.tombs[id]
  {
    Reachable(cfg, trace, steps, i);
    assert StampOk(cfg, trace[i].m.tombs[id], trace[i].recAt[id], trace[i].clock);
    BehaviourRetains(cfg, trace, steps);
    ExpiryNoticeStays(cfg, trace, i, j, id);
  }
}
