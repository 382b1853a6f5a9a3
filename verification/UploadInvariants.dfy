/** Invariants of the manager state alone, and that every locked region keeps them. */
module UploadInvariants {
  import opened Prelude
  import opened UploadModel

  /** Live tasks and tombstones are disjoint; the FIFO lists each tombstone exactly once. */
  ghost predicate IndexInv(m: Mgr) {
    && Enumerates(m.order, m.tombs.Keys)
    && m.tasks.Keys !! m.tombs.Keys
  }

  /** A tombstone is the final record of a finished task, or the expiry notice of a prepared one. */
  ghost predicate TombOk(t: Task, tomb: Task) {
    || (t.state.Terminal() && tomb == t)
    || (t.state.Prepared? && tomb.finishedAt.Some? &&
        tomb == t.(state := Expired, err := ExpiredMessage, finishedAt := tomb.finishedAt))
  }

  ghost predicate ObjInv(m: Mgr) {
    && WellFormed(m)
    && (forall id :: id in m.objs ==>
          !m.objs[id].state.Expired? && (m.objs[id].state.Terminal() ==> m.objs[id].finishedAt.Some?))
    && (forall id :: id in m.tombs ==> id in m.objs && TombOk(m.objs[id], m.tombs[id]))
  }

  /** Queued plus running tasks stay within MaxActive and prepared ones within MaxPrepared. */
  ghost predicate CapInv(cfg: Config, m: Mgr)
    requires m.tasks.Keys <= m.objs.Keys
  {
    && (cfg.maxActive > 0 ==> |ActiveIds(m)| <= cfg.maxActive)
    && (cfg.maxPrepared > 0 ==> |PreparedIds(m)| <= cfg.maxPrepared)
  }

  ghost predicate MgrInv(cfg: Config, m: Mgr) {
    IndexInv(m) && ObjInv(m) && CapInv(cfg, m)
  }

  // ---------------------------------------------------------------- the exact effect of a prune

  lemma EvictAllIndex(cfg: Config, m: Mgr, now: Time, batch: seq<Id>)
    requires IndexInv(m) && WellFormed(m) && IsBatch(cfg, m, now, batch)
    ensures IndexInv(EvictAll(m, batch, now))
  {
    assert Elems(batch) <= m.tasks.Keys;
    NoDupAppend(m.order, batch);
    assert EvictAll(m, batch, now).tombs.Keys == m.tombs.Keys + Elems(batch);
  }

  lemma RetireIndex(m: Mgr, cutoff: Time)
    requires IndexInv(m)
    ensures IndexInv(Retire(m, cutoff))
  {
    var k := RetireCount(m.tombs, m.order, cutoff);
    NoDupCut(m.order, k);
    assert Retire(m, cutoff).tombs.Keys == Elems(m.order[k..]);
  }

  lemma PruneIndex(cfg: Config, m: Mgr, now: Time, batch: seq<Id>)
    requires IndexInv(m) && WellFormed(m) && IsBatch(cfg, m, now, batch)
    ensures IndexInv(Prune(cfg, m, now, batch))
  {
    if cfg.ttl > 0 {
      EvictAllIndex(cfg, m, now, batch);
      RetireIndex(EvictAll(m, batch, now), Cutoff(cfg, now));
    }
  }

  /** A tombstone after a prune is either an old one, unchanged, or the snapshot of an evicted task. */
  lemma PruneTombs(cfg: Config, m: Mgr, now: Time, batch: seq<Id>, id: Id)
    requires WellFormed(m) && IsBatch(cfg, m, now, batch)
    requires id in Prune(cfg, m, now, batch).tombs
    ensures id in m.tombs || id in EvictSet(cfg, m, now)
    ensures Prune(cfg, m, now, batch).tombs[id] ==
            if cfg.ttl > 0 && id in EvictSet(cfg, m, now) then Snapshot(m.objs[id], now) else m.tombs[id]
  {
    assert id in batch <==> id in Elems(batch);
  }

  lemma PruneObjects(cfg: Config, m: Mgr, now: Time, batch: seq<Id>)
    requires ObjInv(m) && IsBatch(cfg, m, now, batch)
    ensures ObjInv(Prune(cfg, m, now, batch))
  {
    var p := Prune(cfg, m, now, batch);
    PruneFrame(cfg, m, now, batch);
    forall id | id in p.tombs ensures id in p.objs && TombOk(p.objs[id], p.tombs[id]) {
      PruneTombs(cfg, m, now, batch, id);
    }
  }

  lemma PruneCaps(cfg: Config, m: Mgr, now: Time, batch: seq<Id>)
    requires WellFormed(m) && IsBatch(cfg, m, now, batch) && CapInv(cfg, m)
    ensures Prune(cfg, m, now, batch).tasks.Keys <= Prune(cfg, m, now, batch).objs.Keys
    ensures CapInv(cfg, Prune(cfg, m, now, batch))
    ensures ActiveIds(Prune(cfg, m, now, batch)) == ActiveIds(m)
  {
    var p := Prune(cfg, m, now, batch);
    PruneFrame(cfg, m, now, batch);
    assert ActiveIds(p) == ActiveIds(m);
    SubsetSize(PreparedIds(p), PreparedIds(m));
  }

  /** A prune keeps the invariant and never drops a queued or running task. */
  lemma PruneKeeps(cfg: Config, m: Mgr, now: Time, batch: seq<Id>)
    requires MgrInv(cfg, m) && IsBatch(cfg, m, now, batch)
    ensures MgrInv(cfg, Prune(cfg, m, now, batch))
    ensures ActiveIds(Prune(cfg, m, now, batch)) == ActiveIds(m)
  {
    PruneIndex(cfg, m, now, batch);
    PruneObjects(cfg, m, now, batch);
    PruneCaps(cfg, m, now, batch);
  }

  // ---------------------------------------------------------------- the other locked regions

  lemma RemoveFirstShape(order: seq<Id>, id: Id)
    requires NoDup(order)
    ensures Enumerates(RemoveFirst(order, id), Elems(order) - {id})
  {
    if id in order {
      var k :| 0 <= k < |order| && order[k] == id;
      RemoveFirstAt(order, k);
      NoDupRemove(order, k);
    } else {
      RemoveFirstAbsent(order, id);
      assert Elems(order) - {id} == Elems(order);
    }
  }

  lemma {:induction false} RemoveFirstAt(order: seq<Id>, k: nat)
    requires NoDup(order) && k < |order|
    ensures RemoveFirst(order, order[k]) == order[..k] + order[k + 1..]
  {
    if k > 0 {
      RemoveFirstAt(order[1..], k - 1);
      WithoutTail(order, k);
    }
  }

  lemma WithoutTail(order: seq<Id>, k: nat)
    requires 0 < k < |order|
    ensures [order[0]] + (order[1..][..k - 1] + order[1..][k..]) == order[..k] + order[k + 1..]
  {
  }

  lemma {:induction false} RemoveFirstAbsent(order: seq<Id>, id: Id)
    requires id !in order
    ensures RemoveFirst(order, id) == order
  {
    if order != [] {
      RemoveFirstAbsent(order[1..], id);
    }
  }

  lemma UntombstoneIndex(m: Mgr, id: Id)
    requires Enumerates(m.order, m.tombs.Keys)
    ensures Enumerates(Untombstone(m, id).order, m.tombs.Keys - {id})
    ensures Untombstone(m, id).tombs == m.tombs - {id}
  {
    RemoveFirstShape(m.order, id);
    if id !in m.tombs {
      assert m.tombs.Keys - {id} == m.tombs.Keys;
      assert m.tombs - {id} == m.tombs;
    }
  }

  lemma RegisterIndex(m: Mgr, id: Id, r: Reader, now: Time)
    requires IndexInv(m) && id in m.objs
    ensures IndexInv(Register(m, id, r, now))
    ensures Register(m, id, r, now).tombs == m.tombs - {id}
  {
    UntombstoneIndex(m.(tasks := m.tasks[id := Entry(Some(r), 0, Unset, false)]), id);
  }

  lemma RegisterCaps(cfg: Config, m: Mgr, id: Id, r: Reader, now: Time)
    requires m.tasks.Keys <= m.objs.Keys && CapInv(cfg, m) && ActiveSlotFree(cfg, m) && id in m.objs
    ensures Register(m, id, r, now).tasks.Keys <= Register(m, id, r, now).objs.Keys
    ensures CapInv(cfg, Register(m, id, r, now))
  {
    var n := Register(m, id, r, now);
    assert n.objs[id].state == Queued;
    assert ActiveIds(n) <= ActiveIds(m) + {id};
    SubsetSize(ActiveIds(n), ActiveIds(m) + {id});
    SubsetSize(PreparedIds(n), PreparedIds(m));
  }

  /** Registering a run takes one active slot, frees any prepared slot and drops a stale tombstone. */
  lemma RegisterKeeps(cfg: Config, m: Mgr, id: Id, r: Reader, now: Time)
    requires MgrInv(cfg, m) && ActiveSlotFree(cfg, m)
    requires id in m.objs
    ensures MgrInv(cfg, Register(m, id, r, now))
  {
    RegisterIndex(m, id, r, now);
    RegisterCaps(cfg, m, id, r, now);
  }

  /** Adding an object that is neither live nor tombstoned changes nothing else. */
  lemma NewObjectKeeps(cfg: Config, m: Mgr, t: Task)
    requires MgrInv(cfg, m) && t.id !in m.objs && !t.state.Expired? && !t.state.Terminal()
    ensures MgrInv(cfg, m.(objs := m.objs[t.id := t]))
    ensures ActiveIds(m.(objs := m.objs[t.id := t])) == ActiveIds(m)
    ensures PreparedIds(m.(objs := m.objs[t.id := t])) == PreparedIds(m)
  {
    var n := m.(objs := m.objs[t.id := t]);
    assert ActiveIds(n) == ActiveIds(m);
    assert PreparedIds(n) == PreparedIds(m);
  }

  lemma AddPreparedKeeps(cfg: Config, m: Mgr, id: Id, e: Entry)
    requires MgrInv(cfg, m) && PreparedSlotFree(cfg, m)
    requires id in m.objs && id !in m.tasks && id !in m.tombs && m.objs[id].state.Prepared?
    ensures MgrInv(cfg, m.(tasks := m.tasks[id := e]))
  {
    var n := m.(tasks := m.tasks[id := e]);
    assert ActiveIds(n) == ActiveIds(m);
    assert PreparedIds(n) == PreparedIds(m) + {id};
  }

  /** Rewriting one task object that has no tombstone, without entering prepared and without newly
      entering an active state, keeps the invariant. Cancel, the worker and the watchdog do only this. */
  lemma RewriteKeeps(cfg: Config, m: Mgr, id: Id, t: Task)
    requires MgrInv(cfg, m) && id in m.objs && id !in m.tombs
    requires t.id == id && !t.state.Prepared? && !t.state.Expired?
    requires t.state.Terminal() ==> t.finishedAt.Some?
    requires t.state.Active() ==> m.objs[id].state.Active()
    ensures MgrInv(cfg, m.(objs := m.objs[id := t]))
  {
    var n := m.(objs := m.objs[id := t]);
    SubsetSize(ActiveIds(n), ActiveIds(m));
    SubsetSize(PreparedIds(n), PreparedIds(m));
  }
}
