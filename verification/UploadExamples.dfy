/** Short behaviours of the upload manager that reach the states the retention theorems single out. */
module UploadExamples {
  import opened Prelude
  import opened UploadModel
  import opened UploadInvariants
  import opened UploadCore
  import opened UploadSafety
  import opened UploadSteps
  import opened UploadTheorems
  import opened UploadRetention

  /** Results and notices are retained for ten nanoseconds; one upload may run at a time. */
  const CFG := Config(true, 10, 1, 100, 64)

  const KEEP := Policy(Preserve, false)

  ghost function Waiting(id: Id): Task { NewTask(id, "", Prepared, 0) }

  ghost function Dropped(id: Id): Task { Waiting(id).(state := Cancelled, finishedAt := Some(0)) }

  ghost function Slot(ttl: int): Entry { Entry(None, ttl, Preserve, false) }

  /** No task and no tombstone is old enough for this prune. */
  ghost predicate NothingLapsed(m: Mgr, now: Time) {
    && WellFormed(m)
    && (forall id :: id in m.tasks ==> !Evictable(CFG, m.objs[id], m.tasks[id], now))
    && (m.order != [] ==> !Retirable(m.tombs, m.order[0], Cutoff(CFG, now)))
  }

  lemma QuietPrune(m: Mgr, now: Time)
    requires NothingLapsed(m, now)
    ensures IsBatch(CFG, m, now, []) && Prune(CFG, m, now, []) == m
  {
    assert EvictSet(CFG, m, now) == {};
    assert EvictAll(m, [], now) == m;
    assert m.order[..0] == [];
  }

  // ---------------------------------------------------------------- single steps

  lemma PrepareInMgr(m: Mgr, id: Id, ttl: int)
    requires NothingLapsed(m, 0) && |PreparedIds(m)| < 64 && id !in m.objs
    ensures IsBatch(CFG, m, 0, [])
    ensures PrepareLocked(CFG, m, id, "", 0, Slot(ttl), 0, []) ==
            (m.(objs := m.objs[id := Waiting(id)], tasks := m.tasks[id := Slot(ttl)]), true)
  {
    QuietPrune(m, 0);
  }

  lemma PrepareAt(s: Core, id: Id, ttl: int)
    requires s.clock == 0 && NothingLapsed(s.m, 0) && |PreparedIds(s.m)| < 64 && id !in s.m.objs
    ensures Enabled(CFG, s, PrepareLock(id, "", 0, ttl, KEEP, []))
    ensures var n := Next(CFG, s, PrepareLock(id, "", 0, ttl, KEEP, []));
            n.m == s.m.(objs := s.m.objs[id := Waiting(id)], tasks := s.m.tasks[id := Slot(ttl)])
            && n.clock == 0 && n.cancels == s.cancels
  {
    PrepareInMgr(s.m, id, ttl);
  }

  lemma CancelAt(s: Core, id: Id)
    requires s.clock == 0 && WellFormed(s.m) && id in s.m.tasks && s.m.objs[id] == Waiting(id) && s.cancels == map[]
    ensures Enabled(CFG, s, CancelLock(0, id))
    ensures var n := Next(CFG, s, CancelLock(0, id));
            n.m == s.m.(objs := s.m.objs[id := Dropped(id)]) && n.clock == 0
  {
  }

  /** A prune that evicts exactly `id` and, when the head is young, retires nothing. */
  lemma PruneOne(m: Mgr, now: Time, id: Id)
    requires WellFormed(m) && id in m.tasks && id !in m.tombs
    requires forall x :: x in m.tasks ==> (Evictable(CFG, m.objs[x], m.tasks[x], now) <==> x == id)
    ensures IsBatch(CFG, m, now, [id])
    ensures EvictAll(m, [id], now) == m.(tasks := m.tasks - {id}, tombs := m.tombs[id := Snapshot(m.objs[id], now)], order := m.order + [id])
  {
    assert EvictSet(CFG, m, now) == {id};
    assert Elems([id]) == {id};
  }

  // ---------------------------------------------------------------- building behaviours

  /** A behaviour of `n` steps and where it ends. */
  datatype Path = Path(trace: seq<Core>, steps: seq<Step>) {
    ghost predicate Ok() { IsBehaviour(CFG, trace, steps) }

    ghost function Last(): Core
      requires |trace| > 0
    {
      trace[|trace| - 1]
    }

    /** The behaviour ends with this manager at this instant; no Cancel was called unless `cancelled`. */
    ghost predicate At(m: Mgr, clock: Time, cancelled: bool) {
      Ok() && Last().m == m && Last().clock == clock && (!cancelled ==> Last().cancels == map[])
    }
  }

  ghost function Extend(p: Path, step: Step): Path
    requires p.Ok() && Enabled(CFG, p.Last(), step)
  {
    Path(p.trace + [Next(CFG, p.Last(), step)], p.steps + [step])
  }

  lemma ExtendOk(p: Path, step: Step)
    requires p.Ok() && Enabled(CFG, p.Last(), step)
    ensures Extend(p, step).Ok() && Extend(p, step).Last() == Next(CFG, p.Last(), step)
    ensures p.trace == Extend(p, step).trace[..|p.trace|] && |Extend(p, step).trace| == |p.trace| + 1
  {
  }

  /** `q` continues `p` by one step. */
  ghost predicate Follows(p: Path, q: Path) {
    |q.trace| == |p.trace| + 1 && q.trace[..|p.trace|] == p.trace
  }

  ghost function FirstCore(): Core {
    Core(0, InitMgr(), map[], map[], map[], [], map[], map[], map[])
  }

  lemma Begin() returns (p: Path)
    ensures p.At(InitMgr(), 0, false) && |p.trace| == 1
  {
    p := Path([FirstCore()], []);
  }

  lemma ThenPrepare(p: Path, m: Mgr, id: Id, ttl: int) returns (q: Path)
    requires p.At(m, 0, false) && NothingLapsed(m, 0) && |PreparedIds(m)| < 64 && id !in m.objs
    ensures Follows(p, q) && q.At(m.(objs := m.objs[id := Waiting(id)], tasks := m.tasks[id := Slot(ttl)]), 0, false)
  {
    PrepareAt(p.Last(), id, ttl);
    ExtendOk(p, PrepareLock(id, "", 0, ttl, KEEP, []));
    q := Extend(p, PrepareLock(id, "", 0, ttl, KEEP, []));
  }

  lemma ThenCancel(p: Path, m: Mgr, id: Id) returns (q: Path)
    requires p.At(m, 0, false) && WellFormed(m) && id in m.tasks && m.objs[id] == Waiting(id)
    ensures Follows(p, q) && q.At(m.(objs := m.objs[id := Dropped(id)]), 0, true)
  {
    CancelAt(p.Last(), id);
    ExtendOk(p, CancelLock(0, id));
    q := Extend(p, CancelLock(0, id));
  }

  lemma ThenTick(p: Path, m: Mgr, clock: Time, d: nat) returns (q: Path)
    requires p.At(m, clock, true)
    ensures Follows(p, q) && q.At(m, clock + d, true)
  {
    ExtendOk(p, Tick(d));
    q := Extend(p, Tick(d));
  }

  lemma ThenPoll(p: Path, m: Mgr, clock: Time, batch: seq<Id>) returns (q: Path)
    requires p.At(m, clock, true) && WellFormed(m) && IsBatch(CFG, m, clock, batch)
    ensures Follows(p, q) && q.At(Prune(CFG, m, clock, batch), clock, true)
  {
    ExtendOk(p, Poll(batch));
    q := Extend(p, Poll(batch));
  }

  // ---------------------------------------------------------------- a result that is lost

  ghost function OneFinished(): Mgr {
    Mgr(map[2 := Dropped(2)], map[2 := Slot(100)], map[], [])
  }

  lemma OneFinishedPath() returns (p: Path)
    ensures p.At(OneFinished(), 0, true)
  {
    var p0 := Begin();
    NoPrepared(InitMgr());
    var p1 := ThenPrepare(p0, InitMgr(), 2, 100);
    p := ThenCancel(p1, InitMgr().(objs := map[2 := Waiting(2)], tasks := map[2 := Slot(100)]), 2);
  }

  lemma NoPrepared(m: Mgr)
    requires m == InitMgr()
    ensures NothingLapsed(m, 0) && PreparedIds(m) == {}
  {
  }

  lemma LostInMgr()
    ensures WellFormed(OneFinished()) && IsBatch(CFG, OneFinished(), 11, [2])
    ensures Prune(CFG, OneFinished(), 11, [2]) == Lost()
  {
    PruneOne(OneFinished(), 11, 2);
    RetireOnly(EvictAll(OneFinished(), [2], 11), 2, 1);
  }

  lemma RetireOnly(m: Mgr, id: Id, cutoff: Time)
    requires m.order == [id] && m.tombs.Keys == {id} && Retirable(m.tombs, id, cutoff)
    ensures Retire(m, cutoff) == m.(tombs := map[], order := [])
  {
    assert RetireCount(m.tombs, [id], cutoff) == 1;
    assert Elems([id][..1]) == {id};
  }

  /** A handle that was cancelled, and then evicted by the first prune after its retention: the poll at
      that instant knows nothing of it any more. */
  lemma ResultIsLost() returns (p: Path, i: nat)
    ensures p.Ok() && i + 2 == |p.trace|
    ensures 2 in p.trace[i].m.tasks && 2 in p.trace[i].m.objs && p.trace[i].m.objs[2].state.Cancelled?
    ensures WellFormed(p.trace[i + 1].m) && Lookup(p.trace[i + 1].m, 2) == None
  {
    var p3 := OneFinishedPath();
    var p4 := ThenTick(p3, OneFinished(), 0, 11);
    p := ThenLost(p4);
    i := |p4.trace| - 1;
    assert p.trace[..|p4.trace|][i] == p4.trace[i];
    KnownThenLost(p.trace[i].m, p.trace[i + 1].m);
  }

  ghost function Lost(): Mgr { Mgr(map[2 := Dropped(2)], map[], map[], []) }

  lemma ThenLost(p: Path) returns (q: Path)
    requires p.At(OneFinished(), 11, true)
    ensures Follows(p, q) && q.Ok() && q.Last().m == Lost()
  {
    LostInMgr();
    q := ThenPoll(p, OneFinished(), 11, [2]);
  }

  lemma KnownThenLost(m: Mgr, n: Mgr)
    requires m == OneFinished() && n == Lost()
    ensures 2 in m.tasks && 2 in m.objs && m.objs[2].state.Cancelled?
    ensures WellFormed(n) && Lookup(n, 2) == None
  {
  }

  // ---------------------------------------------------------------- a result that is kept, out of order

  ghost function Notice(id: Id, at: Time): Task { Waiting(id).(state := Expired, err := ExpiredMessage, finishedAt := Some(at)) }

  /** A short-lived endpoint and a cancelled one. */
  ghost function Two(): Mgr {
    Mgr(map[1 := Waiting(1), 2 := Dropped(2)], map[1 := Slot(1), 2 := Slot(100)], map[], [])
  }

  ghost function AfterNotice(): Mgr {
    Mgr(map[1 := Waiting(1), 2 := Dropped(2)], map[2 := Slot(100)], map[1 := Notice(1, 5)], [1])
  }

  ghost function OutOfOrder(): Mgr {
    Mgr(map[1 := Waiting(1), 2 := Dropped(2)], map[], map[1 := Notice(1, 5), 2 := Dropped(2)], [1, 2])
  }

  lemma TwoPath() returns (p: Path)
    ensures p.At(Two(), 0, true)
  {
    var p0 := Begin();
    NoPrepared(InitMgr());
    var p1 := ThenPrepare(p0, InitMgr(), 1, 1);
    var m1 := InitMgr().(objs := map[1 := Waiting(1)], tasks := map[1 := Slot(1)]);
    assert PreparedIds(m1) == {1};
    var p2 := ThenPrepare(p1, m1, 2, 100);
    var m2 := m1.(objs := m1.objs[2 := Waiting(2)], tasks := m1.tasks[2 := Slot(100)]);
    p := ThenCancel(p2, m2, 2);
    assert m2.(objs := m2.objs[2 := Dropped(2)]) == Two();
  }

  lemma KeptHead(m: Mgr, cutoff: Time)
    requires m.order != [] && !Retirable(m.tombs, m.order[0], cutoff)
    ensures Retire(m, cutoff) == m
  {
    assert m.order[..0] == [];
  }

  lemma NoticeInMgr()
    ensures WellFormed(Two()) && IsBatch(CFG, Two(), 5, [1]) && Prune(CFG, Two(), 5, [1]) == AfterNotice()
  {
    PruneOne(Two(), 5, 1);
    assert EvictAll(Two(), [1], 5) == AfterNotice();
    KeptHead(AfterNotice(), -5);
  }

  lemma KeptInMgr()
    ensures WellFormed(AfterNotice()) && IsBatch(CFG, AfterNotice(), 11, [2]) && Prune(CFG, AfterNotice(), 11, [2]) == OutOfOrder()
  {
    PruneOne(AfterNotice(), 11, 2);
    assert EvictAll(AfterNotice(), [2], 11) == OutOfOrder();
    KeptHead(OutOfOrder(), 1);
  }

  /** The same cancelled handle behind an expiry notice: its tombstone survives the prune, and the finish
      times along the FIFO descend. */
  lemma ResultIsKeptOutOfOrder() returns (p: Path)
    ensures p.Ok() && 2 in p.Last().m.tombs && p.Last().m.tombs[2].state.Cancelled? && 2 !in p.Last().m.tasks
    ensures !FinishSorted(p.Last().m)
  {
    var p4 := TwoPath();
    var p5 := ThenTick(p4, Two(), 0, 5);
    NoticeInMgr();
    var p6 := ThenPoll(p5, Two(), 5, [1]);
    var p7 := ThenTick(p6, AfterNotice(), 5, 6);
    KeptInMgr();
    p := ThenPoll(p7, AfterNotice(), 11, [2]);
    Descends();
  }

  lemma Descends()
    ensures !FinishSorted(OutOfOrder())
  {
    var m := OutOfOrder();
    if Shown(m) {
      assert FinishAt(m, 0) == 5 && FinishAt(m, 1) == 0;
    }
  }
}
