/** Each step of the upload machine keeps the invariant. */
module UploadSteps {
  import opened Prelude
  import opened UploadModel
  import opened UploadInvariants
  import opened UploadCore
  import opened UploadSafety

  // ---------------------------------------------------------------- steps on one run

  /** `n` differs from `s` in run `r` and its submission's close count only, and moves forward. */
  ghost predicate RunOnly(s: Core, n: Core, r: Reader) {
    && r in s.runs && r in n.runs && r in s.subs && r in n.subs
    && n == s.(runs := s.runs[r := n.runs[r]], subs := s.subs[r := n.subs[r]])
    && n.runs[r].id == s.runs[r].id && n.runs[r].mode == s.runs[r].mode && n.runs[r].wrap == s.runs[r].wrap
    && (s.runs[r].closed ==> n.runs[r].closed)
    && (Started(s.runs[r].worker) ==> Started(n.runs[r].worker))
    && n.subs[r].kind == s.subs[r].kind
  }

  lemma RunOnlyRuns(s: Core, n: Core, r: Reader)
    requires RunsInv(s) && RunOnly(s, n, r) && RunInv(n, r)
    ensures RunsInv(n)
  {
    forall q | q in n.runs ensures RunInv(n, q) {
      if q != r { assert RunInv(s, q); }
    }
  }

  lemma RunOnlySubs(s: Core, n: Core, r: Reader)
    requires SubsInv(s) && EntriesInv(s) && PolicyInv(s) && RunOnly(s, n, r) && RunInv(n, r)
    ensures SubsInv(n) && EntriesInv(n) && PolicyInv(n)
  {
    forall q | q in n.subs ensures SubOk(n, q) {
      if q != r { assert SubOk(s, q); }
    }
    forall id | id in n.m.tasks ensures id in n.m.objs && EntryOk(n, id) {
      assert EntryOk(s, id);
    }
  }

  lemma RunOnlyCancels(s: Core, n: Core, r: Reader)
    requires CancelsInv(s) && RunOnly(s, n, r)
    ensures CancelsInv(n)
  {
    forall c | c in n.cancels ensures CancelInv(n, c) {
      assert CancelInv(s, c);
    }
  }

  lemma RunOnlyExecs(s: Core, n: Core, r: Reader)
    requires ExecsInv(s) && RunOnly(s, n, r)
    ensures ExecsInv(n)
  {
    forall i | 0 <= i < |n.execs| ensures ExecOk(n, n.execs[i]) {
      assert ExecOk(s, s.execs[i]);
    }
  }

  lemma RunOnlyKeeps(cfg: Config, s: Core, n: Core, r: Reader)
    requires CoreInv(cfg, s) && RunOnly(s, n, r) && RunInv(n, r)
    ensures CoreInv(cfg, n)
  {
    RunOnlyRuns(s, n, r);
    RunOnlySubs(s, n, r);
    RunOnlyCancels(s, n, r);
    RunOnlyExecs(s, n, r);
  }

  lemma CloseThenShape(s: Core, r: Reader, worker: WorkerPc, dog: DogPc)
    requires r in s.runs && RunInv(s, r)
    ensures var n := CloseThen(s, r, worker, dog);
      && r in n.runs && n.runs[r] == s.runs[r].(closed := true, worker := worker, dog := dog)
      && r in n.subs && n.subs[r] == s.subs[r].(closes := 1)
      && n == s.(runs := s.runs[r := n.runs[r]], subs := s.subs[r := n.subs[r]])
  {
  }

  /** Moving the program counters of a run, when they stay right for its task. */
  lemma SetRunOnly(s: Core, r: Reader, run: Run)
    requires r in s.runs && RunInv(s, r)
    requires run == s.runs[r].(worker := run.worker, dog := run.dog, res := run.res)
    requires Started(s.runs[r].worker) ==> Started(run.worker)
    requires PcOk(run, s.m.objs[run.id])
    ensures RunOnly(s, SetRun(s, r, run), r)
    ensures RunInv(SetRun(s, r, run), r)
  {
  }

  lemma ArmRun(cfg: Config, s: Core, r: Reader)
    requires Enabled(cfg, s, Arm(r)) && RunInv(s, r)
    ensures RunOnly(s, Next(cfg, s, Arm(r)), r) && RunInv(Next(cfg, s, Arm(r)), r)
  {
    SetRunOnly(s, r, s.runs[r].(worker := WArmed, dog := DArmed));
  }

  lemma ReturnRun(cfg: Config, s: Core, r: Reader, res: ExecResult)
    requires Enabled(cfg, s, ExecReturn(r, res)) && RunInv(s, r)
    ensures RunOnly(s, Next(cfg, s, ExecReturn(r, res)), r) && RunInv(Next(cfg, s, ExecReturn(r, res)), r)
  {
    SetRunOnly(s, r, s.runs[r].(worker := WReturned, res := Some(res)));
  }

  lemma StopRun(cfg: Config, s: Core, r: Reader)
    requires Enabled(cfg, s, StopDog(r)) && RunInv(s, r)
    ensures RunOnly(s, Next(cfg, s, StopDog(r)), r) && RunInv(Next(cfg, s, StopDog(r)), r)
  {
    var run := s.runs[r];
    SetRunOnly(s, r, if run.dog == DArmed then run.(worker := WReady, dog := DStopped) else run.(worker := WFired));
  }

  lemma FireRun(cfg: Config, s: Core, r: Reader)
    requires Enabled(cfg, s, DogFire(r)) && RunInv(s, r)
    ensures RunOnly(s, Next(cfg, s, DogFire(r)), r) && RunInv(Next(cfg, s, DogFire(r)), r)
  {
    SetRunOnly(s, r, s.runs[r].(dog := DFired));
  }

  lemma WorkerPcRun(cfg: Config, s: Core, step: Step, r: Reader)
    requires Enabled(cfg, s, step) && r in s.runs && RunInv(s, r)
    requires step == Arm(r) || step == StopDog(r) || step == DogFire(r) || (step.ExecReturn? && step.r == r)
    ensures RunOnly(s, Next(cfg, s, step), r) && RunInv(Next(cfg, s, step), r)
  {
    if step.Arm? {
      ArmRun(cfg, s, r);
    } else if step.ExecReturn? {
      ReturnRun(cfg, s, r, step.res);
    } else if step.StopDog? {
      StopRun(cfg, s, r);
    } else {
      FireRun(cfg, s, r);
    }
  }

  lemma WorkerPcKeeps(cfg: Config, s: Core, step: Step, r: Reader)
    requires CoreInv(cfg, s) && Enabled(cfg, s, step)
    requires step == Arm(r) || step == StopDog(r) || step == DogFire(r) || (step.ExecReturn? && step.r == r)
    ensures CoreInv(cfg, Next(cfg, s, step))
  {
    WorkerPcRun(cfg, s, step, r);
    RunOnlyKeeps(cfg, s, Next(cfg, s, step), r);
  }

  lemma ClosePcRun(cfg: Config, s: Core, step: Step, r: Reader)
    requires Enabled(cfg, s, step) && r in s.runs && RunInv(s, r)
    requires step == FiredClose(r) || step == WorkerClose(r) || step == DogClose(r)
    ensures RunOnly(s, Next(cfg, s, step), r)
    ensures RunInv(Next(cfg, s, step), r)
  {
    var n := Next(cfg, s, step);
    CloseThenShape(s, r, n.runs[r].worker, n.runs[r].dog);
  }

  lemma ClosePcKeeps(cfg: Config, s: Core, step: Step, r: Reader)
    requires CoreInv(cfg, s) && Enabled(cfg, s, step)
    requires step == FiredClose(r) || step == WorkerClose(r) || step == DogClose(r)
    ensures CoreInv(cfg, Next(cfg, s, step))
  {
    ClosePcRun(cfg, s, step, r);
    RunOnlyKeeps(cfg, s, Next(cfg, s, step), r);
  }

  lemma CallExecRun(s: Core, n: Core, r: Reader)
    requires WorkerAt(s, r, WArmed) && RunInv(s, r) && n == SetRun(s, r, s.runs[r].(worker := WExecuting))
    ensures RunOnly(s, n, r) && RunInv(n, r)
  {
  }

  lemma CallExecLog(s: Core, r: Reader)
    requires WorkerAt(s, r, WArmed) && ExecsInv(s)
    ensures ExecsInv(DoExec(s, r))
  {
    var x := DoExec(s, r);
    forall i | 0 <= i < |x.execs| ensures ExecOk(x, x.execs[i]) {
      if i < |s.execs| { assert ExecOk(s, s.execs[i]); }
    }
    forall i | 0 <= i < |s.execs| ensures s.execs[i].reader != r {
      assert ExecOk(s, s.execs[i]);
    }
  }

  /** The executor is called for a run that has not called it before. */
  lemma CallExecKeeps(cfg: Config, s: Core, r: Reader)
    requires CoreInv(cfg, s) && WorkerAt(s, r, WArmed)
    ensures CoreInv(cfg, DoExec(s, r))
  {
    var n := SetRun(s, r, s.runs[r].(worker := WExecuting));
    CallExecRun(s, n, r);
    RunOnlyKeeps(cfg, s, n, r);
    CallExecLog(s, r);
    SameButExecs(cfg, n, DoExec(s, r));
  }

  lemma SameButExecs(cfg: Config, s: Core, n: Core)
    requires CoreInv(cfg, s) && n == s.(execs := n.execs) && ExecsInv(n)
    ensures CoreInv(cfg, n)
  {
    SameButExecsRuns(s, n);
    SameButExecsRest(s, n);
  }

  lemma SameButExecsRuns(s: Core, n: Core)
    requires RunsInv(s) && SubsInv(s) && n == s.(execs := n.execs)
    ensures RunsInv(n) && SubsInv(n)
  {
    forall r | r in n.runs ensures RunInv(n, r) { assert RunInv(s, r); }
    forall r | r in n.subs ensures SubOk(n, r) { assert SubOk(s, r); }
  }

  lemma SameButExecsRest(s: Core, n: Core)
    requires EntriesInv(s) && CancelsInv(s) && n == s.(execs := n.execs)
    ensures EntriesInv(n) && CancelsInv(n)
  {
    forall id | id in n.m.tasks ensures id in n.m.objs && EntryOk(n, id) { assert EntryOk(s, id); }
    forall c | c in n.cancels ensures CancelInv(n, c) { assert CancelInv(s, c); }
  }

  // ---------------------------------------------------------------- steps that rewrite one task

  /** `n` rewrites the task of run `r` to `t` and changes nothing else but the run itself. */
  ghost predicate TaskStep(s: Core, n: Core, r: Reader, t: Task) {
    && r in s.runs && r in n.runs && s.runs[r].id in s.m.objs
    && n == s.(m := s.m.(objs := s.m.objs[s.runs[r].id := t]), runs := s.runs[r := n.runs[r]])
    && n.runs[r].id == s.runs[r].id && n.runs[r].mode == s.runs[r].mode && n.runs[r].wrap == s.runs[r].wrap
    && n.runs[r].closed == s.runs[r].closed
    && (Started(s.runs[r].worker) ==> Started(n.runs[r].worker))
  }

  /** Workers and watchdogs move a task forward, never into or out of cancelled. */
  ghost predicate Rewrites(s: Core, before: Task, t: Task) {
    && t.id == before.id && t.createdAt == before.createdAt
    && !t.state.Prepared? && !t.state.Expired?
    && (t.state.Cancelled? <==> before.state.Cancelled?)
    && (before.state.Terminal() ==> t == before)
    && (t.state.Active() ==> before.state.Active())
    && (t.state.Terminal() ==> t.finishedAt.Some?)
    && (t.finishedAt.Some? ==> t.finishedAt.value <= s.clock)
  }

  lemma TaskStepRuns(s: Core, n: Core, r: Reader, t: Task)
    requires RunsInv(s) && TaskStep(s, n, r, t) && RunInv(n, r)
    ensures RunsInv(n)
  {
    forall q | q in n.runs ensures RunInv(n, q) {
      if q != r { assert RunInv(s, q); }
    }
  }

  lemma TaskStepEntries(s: Core, n: Core, r: Reader, t: Task)
    requires EntriesInv(s) && RunsInv(s)
    requires TaskStep(s, n, r, t) && RunInv(n, r) && Rewrites(s, s.m.objs[s.runs[r].id], t)
    ensures EntriesInv(n)
  {
    forall id | id in n.m.tasks ensures id in n.m.objs && EntryOk(n, id) {
      assert EntryOk(s, id);
      if id == s.runs[r].id {
        assert RunInv(s, r);
      }
    }
  }

  lemma TaskStepSubs(s: Core, n: Core, r: Reader, t: Task)
    requires SubsInv(s) && PolicyInv(s) && TaskStep(s, n, r, t)
    ensures SubsInv(n) && PolicyInv(n)
  {
    forall q | q in n.subs ensures SubOk(n, q) {
      assert SubOk(s, q);
    }
  }

  lemma TaskStepCancels(s: Core, n: Core, r: Reader, t: Task)
    requires CancelsInv(s) && TaskStep(s, n, r, t) && Rewrites(s, s.m.objs[s.runs[r].id], t)
    ensures CancelsInv(n)
  {
    forall c | c in n.cancels ensures CancelInv(n, c) {
      assert CancelInv(s, c);
    }
  }

  lemma TaskStepExecs(s: Core, n: Core, r: Reader, t: Task)
    requires ExecsInv(s) && TaskStep(s, n, r, t)
    ensures ExecsInv(n)
  {
    forall i | 0 <= i < |n.execs| ensures ExecOk(n, n.execs[i]) {
      assert ExecOk(s, s.execs[i]);
    }
  }

  lemma TaskStepMgr(cfg: Config, s: Core, n: Core, r: Reader, t: Task)
    requires MgrInv(cfg, s.m) && RunsInv(s) && TaskStep(s, n, r, t) && Rewrites(s, s.m.objs[s.runs[r].id], t)
    ensures MgrInv(cfg, n.m)
  {
    var id := s.runs[r].id;
    assert RunInv(s, r);
    if s.m.objs[id].state.Terminal() {
      assert n.m == s.m;
    } else {
      RewriteKeeps(cfg, s.m, id, t);
    }
  }

  lemma TaskStepTimes(cfg: Config, s: Core, n: Core, r: Reader, t: Task)
    requires TimeInv(s) && FifoInv(cfg, s) && TaskStep(s, n, r, t) && Rewrites(s, s.m.objs[s.runs[r].id], t)
    ensures TimeInv(n) && FifoInv(cfg, n)
  {
  }

  lemma TaskStepKeeps(cfg: Config, s: Core, n: Core, r: Reader, t: Task)
    requires CoreInv(cfg, s) && TaskStep(s, n, r, t) && RunInv(n, r)
    requires Rewrites(s, s.m.objs[s.runs[r].id], t)
    ensures CoreInv(cfg, n)
  {
    TaskStepMgr(cfg, s, n, r, t);
    TaskStepRuns(s, n, r, t);
    TaskStepEntries(s, n, r, t);
    TaskStepSubs(s, n, r, t);
    TaskStepCancels(s, n, r, t);
    TaskStepExecs(s, n, r, t);
    TaskStepTimes(cfg, s, n, r, t);
  }

  ghost predicate TaskFit(s: Core, t: Task, id: Id) {
    t.id == id && (t.state.Terminal() ==> t.finishedAt.Some?) && (t.finishedAt.Some? ==> t.finishedAt.value <= s.clock)
  }

  /** Rewriting the task of a run while its program counters move, when they stay right for it. */
  lemma SetTaskOnly(s: Core, n: Core, r: Reader, t: Task)
    requires r in s.runs && RunInv(s, r) && TaskStep(s, n, r, t) && PcOk(n.runs[r], t)
    requires t.state.Active() ==> s.m.objs[s.runs[r].id].state.Active()
    ensures RunInv(n, r)
  {
  }

  lemma BeginTask(s: Core, r: Reader)
    requires WorkerAt(s, r, WSpawned) && RunInv(s, r) && TaskFit(s, s.m.objs[s.runs[r].id], s.runs[r].id)
    ensures var n := DoBegin(s, r); s.runs[r].id in n.m.objs && var t := n.m.objs[s.runs[r].id];
            Rewrites(s, s.m.objs[s.runs[r].id], t) && TaskStep(s, n, r, t) && RunInv(n, r)
  {
    var n := DoBegin(s, r);
    assert n.m.objs == s.m.objs[s.runs[r].id := n.m.objs[s.runs[r].id]];
    SetTaskOnly(s, n, r, n.m.objs[s.runs[r].id]);
  }

  lemma CompleteTask(cfg: Config, s: Core, r: Reader, finished: Time)
    requires Enabled(cfg, s, Complete(r, finished))
    requires RunInv(s, r) && TaskFit(s, s.m.objs[s.runs[r].id], s.runs[r].id)
    ensures var n := DoComplete(s, r, finished); s.runs[r].id in n.m.objs && var t := n.m.objs[s.runs[r].id];
            Rewrites(s, s.m.objs[s.runs[r].id], t) && TaskStep(s, n, r, t) && RunInv(n, r)
  {
    var n := DoComplete(s, r, finished);
    assert n.m.objs == s.m.objs[s.runs[r].id := n.m.objs[s.runs[r].id]];
    SetTaskOnly(s, n, r, n.m.objs[s.runs[r].id]);
  }

  lemma DogFailTask(cfg: Config, s: Core, r: Reader, failedAt: Time)
    requires Enabled(cfg, s, DogFail(r, failedAt))
    requires RunInv(s, r) && TaskFit(s, s.m.objs[s.runs[r].id], s.runs[r].id)
    ensures var n := DoDogFail(s, r, failedAt); s.runs[r].id in n.m.objs && var t := n.m.objs[s.runs[r].id];
            Rewrites(s, s.m.objs[s.runs[r].id], t) && TaskStep(s, n, r, t) && RunInv(n, r)
  {
    var n := DoDogFail(s, r, failedAt);
    assert n.m.objs == s.m.objs[s.runs[r].id := n.m.objs[s.runs[r].id]];
    SetTaskOnly(s, n, r, n.m.objs[s.runs[r].id]);
  }

  lemma BeginKeeps(cfg: Config, s: Core, r: Reader)
    requires CoreInv(cfg, s) && WorkerAt(s, r, WSpawned)
    ensures CoreInv(cfg, DoBegin(s, r))
  {
    BeginTask(s, r);
    TaskStepKeeps(cfg, s, DoBegin(s, r), r, DoBegin(s, r).m.objs[s.runs[r].id]);
  }

  lemma CompleteKeeps(cfg: Config, s: Core, r: Reader, finished: Time)
    requires CoreInv(cfg, s) && Enabled(cfg, s, Complete(r, finished))
    ensures CoreInv(cfg, DoComplete(s, r, finished))
  {
    CompleteTask(cfg, s, r, finished);
    TaskStepKeeps(cfg, s, DoComplete(s, r, finished), r, DoComplete(s, r, finished).m.objs[s.runs[r].id]);
  }

  lemma DogFailKeeps(cfg: Config, s: Core, r: Reader, failedAt: Time)
    requires CoreInv(cfg, s) && Enabled(cfg, s, DogFail(r, failedAt))
    ensures CoreInv(cfg, DoDogFail(s, r, failedAt))
  {
    DogFailTask(cfg, s, r, failedAt);
    TaskStepKeeps(cfg, s, DoDogFail(s, r, failedAt), r, DoDogFail(s, r, failedAt).m.objs[s.runs[r].id]);
  }

  // ---------------------------------------------------------------- pruning

  ghost function DoPoll(cfg: Config, s: Core, batch: seq<Id>): Core
    requires BatchOk(cfg, s, batch)
  {
    s.(m := Prune(cfg, s.m, s.clock, batch), recAt := Stamp(s, batch))
  }

  lemma PollRuns(cfg: Config, s: Core, batch: seq<Id>)
    requires BatchOk(cfg, s, batch) && RunsInv(s)
    ensures RunsInv(DoPoll(cfg, s, batch))
  {
    PruneFrame(cfg, s.m, s.clock, batch);
    var n := DoPoll(cfg, s, batch);
    forall q | q in n.runs ensures RunInv(n, q) {
      assert RunInv(s, q);
    }
  }

  lemma PollEntries(cfg: Config, s: Core, batch: seq<Id>)
    requires BatchOk(cfg, s, batch) && SubsInv(s) && EntriesInv(s) && PolicyInv(s)
    ensures SubsInv(DoPoll(cfg, s, batch)) && EntriesInv(DoPoll(cfg, s, batch)) && PolicyInv(DoPoll(cfg, s, batch))
  {
    PruneFrame(cfg, s.m, s.clock, batch);
    var n := DoPoll(cfg, s, batch);
    forall id | id in n.m.tasks ensures id in n.m.objs && EntryOk(n, id) {
      assert EntryOk(s, id);
    }
    forall q | q in n.subs ensures SubOk(n, q) { assert SubOk(s, q); }
  }

  lemma PollRest(cfg: Config, s: Core, batch: seq<Id>)
    requires BatchOk(cfg, s, batch) && CancelsInv(s) && ExecsInv(s) && TimeInv(s)
    ensures CancelsInv(DoPoll(cfg, s, batch)) && ExecsInv(DoPoll(cfg, s, batch)) && TimeInv(DoPoll(cfg, s, batch))
  {
    PruneFrame(cfg, s.m, s.clock, batch);
    var n := DoPoll(cfg, s, batch);
    forall c | c in n.cancels ensures CancelInv(n, c) { assert CancelInv(s, c); }
    forall i | 0 <= i < |n.execs| ensures ExecOk(n, n.execs[i]) { assert ExecOk(s, s.execs[i]); }
  }

  /** Appending entries stamped with the newest instant keeps the order of stamps. */
  lemma StampSortedAppend(order: seq<Id>, at: map<Id, Time>, batch: seq<Id>, now: Time)
    requires StampSorted(order, at)
    requires forall id :: id in order ==> id !in batch && at[id] <= now
    ensures StampSorted(order + batch, at + map id | id in batch :: now)
  {
    var all := order + batch;
    var later := at + map id | id in batch :: now;
    forall i | 0 <= i < |all| ensures all[i] in later && later[all[i]] == if i < |order| then at[all[i]] else now {
      if i < |order| { assert all[i] in order; } else { assert all[i] in batch; }
    }
  }

  lemma StampSortedDrop(order: seq<Id>, at: map<Id, Time>, k: nat)
    requires StampSorted(order, at) && k <= |order|
    ensures StampSorted(order[k..], at)
  {
  }

  lemma BatchIsFresh(cfg: Config, s: Core, batch: seq<Id>)
    requires BatchOk(cfg, s, batch) && FifoInv(cfg, s) && IndexInv(s.m)
    ensures forall id :: id in s.m.order ==> id !in batch && s.recAt[id] <= s.clock
  {
    forall id | id in s.m.order ensures id !in batch && s.recAt[id] <= s.clock {
      assert id in s.m.tombs && id !in s.m.tasks;
    }
  }

  /** The batch joins the FIFO with the newest stamp, and retirement keeps a suffix: still sorted. */
  lemma PollFifoSorted(cfg: Config, s: Core, batch: seq<Id>)
    requires BatchOk(cfg, s, batch) && FifoInv(cfg, s) && IndexInv(s.m)
    ensures StampSorted(DoPoll(cfg, s, batch).m.order, DoPoll(cfg, s, batch).recAt)
  {
    if cfg.ttl > 0 {
      BatchIsFresh(cfg, s, batch);
      StampSortedAppend(s.m.order, s.recAt, batch, s.clock);
      var mid := EvictAll(s.m, batch, s.clock);
      StampSortedDrop(s.m.order + batch, Stamp(s, batch), RetireCount(mid.tombs, mid.order, Cutoff(cfg, s.clock)));
    }
  }

  lemma PollStamps(cfg: Config, s: Core, batch: seq<Id>)
    requires BatchOk(cfg, s, batch) && FifoInv(cfg, s) && IndexInv(s.m) && ObjInv(s.m)
    ensures FifoInv(cfg, DoPoll(cfg, s, batch))
  {
    PollFifoSorted(cfg, s, batch);
    var n := DoPoll(cfg, s, batch);
    forall id | id in n.m.tombs ensures id in n.recAt && StampOk(cfg, n.m.tombs[id], n.recAt[id], n.clock) {
      PruneTombs(cfg, s.m, s.clock, batch, id);
      assert id in EvictSet(cfg, s.m, s.clock) <==> id in batch;
    }
  }

  lemma PollKeeps(cfg: Config, s: Core, batch: seq<Id>)
    requires CoreInv(cfg, s) && BatchOk(cfg, s, batch)
    ensures CoreInv(cfg, DoPoll(cfg, s, batch))
  {
    PruneKeeps(cfg, s.m, s.clock, batch);
    PollRuns(cfg, s, batch);
    PollEntries(cfg, s, batch);
    PollRest(cfg, s, batch);
    PollStamps(cfg, s, batch);
  }

  // ---------------------------------------------------------------- registering a task

  /** `n` registers a run for `r` on task `t0`, which is brand new (Start) or still prepared (Fulfill). */
  ghost predicate AddsRun(s: Core, n: Core, r: Reader, t0: Task, kind: SubKind, policy: Policy) {
    && r !in s.subs
    && (if kind.ViaStart? then t0.id !in s.m.objs && policy == Policy(Preserve, false)
        else t0.id in s.m.objs && s.m.objs[t0.id] == t0 && t0.state.Prepared? &&
             t0.id in s.policies && policy == s.policies[t0.id])
    && !t0.state.Cancelled? && t0.createdAt <= s.clock && (t0.finishedAt.Some? ==> t0.finishedAt.value <= s.clock)
    && n == s.(m := Register(s.m.(objs := s.m.objs[t0.id := t0]), t0.id, r, s.clock),
               subs := s.subs[r := Sub(kind, t0.id, SubAccepted, 0)],
               runs := s.runs[r := Run(t0.id, policy.mode, policy.wrap, WSpawned, DNone, None, false, false)])
  }

  lemma AddsRunShape(s: Core, n: Core, r: Reader, t0: Task, kind: SubKind, policy: Policy)
    requires AddsRun(s, n, r, t0, kind, policy)
    ensures n.m.objs == s.m.objs[t0.id := t0.(state := Queued, startedAt := Some(s.clock))]
    ensures n.m.tasks == s.m.tasks[t0.id := Entry(Some(r), 0, Unset, false)]
    ensures n.m.tombs == s.m.tombs - {t0.id}
  {
  }

  /** No run ever existed for a task that is new or still prepared. */
  lemma NoRunYet(s: Core, n: Core, r: Reader, t0: Task, kind: SubKind, policy: Policy)
    requires RunsInv(s) && AddsRun(s, n, r, t0, kind, policy)
    ensures forall q :: q in s.runs ==> s.runs[q].id != t0.id
    ensures r !in s.runs
  {
    forall q | q in s.runs ensures s.runs[q].id != t0.id && q in s.subs {
      assert RunInv(s, q);
    }
  }

  lemma AddsRunRuns(s: Core, n: Core, r: Reader, t0: Task, kind: SubKind, policy: Policy)
    requires RunsInv(s) && AddsRun(s, n, r, t0, kind, policy)
    ensures RunsInv(n)
  {
    NoRunYet(s, n, r, t0, kind, policy);
    AddsRunShape(s, n, r, t0, kind, policy);
    forall q | q in n.runs ensures RunInv(n, q) {
      if q != r { assert RunInv(s, q); }
    }
  }

  lemma AddsRunSubs(s: Core, n: Core, r: Reader, t0: Task, kind: SubKind, policy: Policy)
    requires RunsInv(s) && SubsInv(s) && AddsRun(s, n, r, t0, kind, policy)
    ensures SubsInv(n)
  {
    NoRunYet(s, n, r, t0, kind, policy);
    forall q | q in n.subs ensures SubOk(n, q) {
      if q != r { assert SubOk(s, q); }
    }
  }

  lemma AddsRunEntries(s: Core, n: Core, r: Reader, t0: Task, kind: SubKind, policy: Policy)
    requires RunsInv(s) && EntriesInv(s) && AddsRun(s, n, r, t0, kind, policy)
    ensures EntriesInv(n)
  {
    NoRunYet(s, n, r, t0, kind, policy);
    AddsRunShape(s, n, r, t0, kind, policy);
    forall id | id in n.m.tasks ensures id in n.m.objs && EntryOk(n, id) {
      if id != t0.id { assert EntryOk(s, id); }
    }
  }

  lemma AddsRunPolicy(s: Core, n: Core, r: Reader, t0: Task, kind: SubKind, policy: Policy)
    requires RunsInv(s) && PolicyInv(s) && AddsRun(s, n, r, t0, kind, policy)
    ensures PolicyInv(n)
  {
    NoRunYet(s, n, r, t0, kind, policy);
    AddsRunShape(s, n, r, t0, kind, policy);
  }

  lemma AddsRunCancels(s: Core, n: Core, r: Reader, t0: Task, kind: SubKind, policy: Policy)
    requires RunsInv(s) && CancelsInv(s) && AddsRun(s, n, r, t0, kind, policy)
    ensures CancelsInv(n)
  {
    NoRunYet(s, n, r, t0, kind, policy);
    AddsRunShape(s, n, r, t0, kind, policy);
    forall c | c in n.cancels ensures CancelInv(n, c) {
      assert CancelInv(s, c);
    }
  }

  lemma AddsRunExecs(s: Core, n: Core, r: Reader, t0: Task, kind: SubKind, policy: Policy)
    requires RunsInv(s) && ExecsInv(s) && TimeInv(s) && AddsRun(s, n, r, t0, kind, policy)
    ensures ExecsInv(n) && TimeInv(n)
  {
    NoRunYet(s, n, r, t0, kind, policy);
    AddsRunShape(s, n, r, t0, kind, policy);
    forall i | 0 <= i < |n.execs| ensures ExecOk(n, n.execs[i]) {
      assert ExecOk(s, s.execs[i]);
    }
  }

  /** Taking an id out of the middle of the FIFO keeps the order of stamps. */
  lemma RemoveFirstSorted(order: seq<Id>, at: map<Id, Time>, id: Id)
    requires NoDup(order) && StampSorted(order, at)
    ensures StampSorted(RemoveFirst(order, id), at)
  {
    if id in order {
      var k :| 0 <= k < |order| && order[k] == id;
      RemoveFirstAt(order, k);
    } else {
      RemoveFirstAbsent(order, id);
    }
  }

  lemma AddsRunFifo(cfg: Config, s: Core, n: Core, r: Reader, t0: Task, kind: SubKind, policy: Policy)
    requires FifoInv(cfg, s) && IndexInv(s.m) && AddsRun(s, n, r, t0, kind, policy)
    ensures FifoInv(cfg, n)
  {
    AddsRunShape(s, n, r, t0, kind, policy);
    RemoveFirstSorted(s.m.order, s.recAt, t0.id);
    assert StampSorted(n.m.order, n.recAt);
  }

  lemma AddsRunMgr(cfg: Config, s: Core, n: Core, r: Reader, t0: Task, kind: SubKind, policy: Policy)
    requires MgrInv(cfg, s.m) && ActiveSlotFree(cfg, s.m) && AddsRun(s, n, r, t0, kind, policy)
    requires kind.ViaStart? ==> t0.state.Queued?
    ensures MgrInv(cfg, n.m)
  {
    if kind.ViaStart? {
      NewObjectKeeps(cfg, s.m, t0);
    } else {
      assert s.m.(objs := s.m.objs[t0.id := t0]) == s.m;
    }
    RegisterKeeps(cfg, s.m.(objs := s.m.objs[t0.id := t0]), t0.id, r, s.clock);
  }

  lemma AddsRunKeeps(cfg: Config, s: Core, n: Core, r: Reader, t0: Task, kind: SubKind, policy: Policy)
    requires CoreInv(cfg, s) && ActiveSlotFree(cfg, s.m) && AddsRun(s, n, r, t0, kind, policy)
    requires kind.ViaStart? ==> t0.state.Queued?
    ensures CoreInv(cfg, n)
  {
    AddsRunMgr(cfg, s, n, r, t0, kind, policy);
    AddsRunRuns(s, n, r, t0, kind, policy);
    AddsRunSubs(s, n, r, t0, kind, policy);
    AddsRunEntries(s, n, r, t0, kind, policy);
    AddsRunPolicy(s, n, r, t0, kind, policy);
    AddsRunCancels(s, n, r, t0, kind, policy);
    AddsRunExecs(s, n, r, t0, kind, policy);
    AddsRunFifo(cfg, s, n, r, t0, kind, policy);
  }

  /** A refused submission only leaves its reader to be closed. */
  lemma RefuseKeeps(cfg: Config, s: Core, r: Reader, kind: SubKind, id: Id)
    requires CoreInv(cfg, s) && r !in s.subs
    ensures CoreInv(cfg, s.(subs := s.subs[r := Sub(kind, id, SubClosing, 0)]))
  {
    var n := s.(subs := s.subs[r := Sub(kind, id, SubClosing, 0)]);
    SubOnlyKeeps(cfg, s, n, r);
  }

  lemma RefusedCloseKeeps(cfg: Config, s: Core, n: Core, r: Reader)
    requires CoreInv(cfg, s) && r in s.subs && s.subs[r].pc == SubClosing
    requires n == s.(subs := s.subs[r := s.subs[r].(pc := SubRefused, closes := s.subs[r].closes + 1)])
    ensures CoreInv(cfg, n)
  {
    assert SubOk(s, r);
    SubOnlyKeeps(cfg, s, n, r);
  }

  lemma SubOnlyRuns(s: Core, n: Core, r: Reader)
    requires RunsInv(s) && (r in s.subs ==> s.subs[r].pc == SubClosing) && SubsInv(s)
    requires r in n.subs && n == s.(subs := s.subs[r := n.subs[r]])
    ensures RunsInv(n)
    ensures r !in s.runs
  {
    assert r in s.subs ==> SubOk(s, r);
    assert r in s.runs ==> RunInv(s, r);
    forall q | q in n.runs ensures RunInv(n, q) { assert RunInv(s, q); }
  }

  lemma SubOnlyKeeps(cfg: Config, s: Core, n: Core, r: Reader)
    requires CoreInv(cfg, s) && (r in s.subs ==> s.subs[r].pc == SubClosing)
    requires r in n.subs && n == s.(subs := s.subs[r := n.subs[r]])
    requires (n.subs[r].pc == SubClosing && n.subs[r].closes == 0) || (n.subs[r].pc == SubRefused && n.subs[r].closes == 1)
    ensures CoreInv(cfg, n)
  {
    SubOnlyRuns(s, n, r);
    SubOnlySubs(s, n, r);
    SubOnlyRest(s, n, r);
  }

  lemma SubOnlySubs(s: Core, n: Core, r: Reader)
    requires SubsInv(s) && EntriesInv(s) && PolicyInv(s) && r !in s.runs
    requires r in n.subs && n == s.(subs := s.subs[r := n.subs[r]])
    requires (n.subs[r].pc == SubClosing && n.subs[r].closes == 0) || (n.subs[r].pc == SubRefused && n.subs[r].closes == 1)
    ensures SubsInv(n) && EntriesInv(n) && PolicyInv(n)
  {
    forall q | q in n.subs ensures SubOk(n, q) {
      if q != r { assert SubOk(s, q); }
    }
    forall id | id in n.m.tasks ensures id in n.m.objs && EntryOk(n, id) { assert EntryOk(s, id); }
  }

  lemma SubOnlyRest(s: Core, n: Core, r: Reader)
    requires CancelsInv(s) && ExecsInv(s)
    requires r in n.subs && n == s.(subs := s.subs[r := n.subs[r]])
    ensures CancelsInv(n) && ExecsInv(n)
  {
    forall c | c in n.cancels ensures CancelInv(n, c) { assert CancelInv(s, c); }
    forall i | 0 <= i < |n.execs| ensures ExecOk(n, n.execs[i]) { assert ExecOk(s, s.execs[i]); }
  }

  lemma StartSlotStep(cfg: Config, s: Core, r: Reader, id: Id, name: string, createdAt: Time, batch: seq<Id>)
    requires CoreInv(cfg, s) && Enabled(cfg, s, StartLock(r, id, name, createdAt, batch)) && cfg.hasExec
    requires Prune(cfg, s.m, s.clock, batch).tasks.Keys <= Prune(cfg, s.m, s.clock, batch).objs.Keys
    requires ActiveSlotFree(cfg, Prune(cfg, s.m, s.clock, batch))
    ensures CoreInv(cfg, DoStart(cfg, s, r, id, name, createdAt, batch))
  {
    PruneFrame(cfg, s.m, s.clock, batch);
    StartAddsRun(cfg, s, r, id, name, createdAt, batch);
    PollKeeps(cfg, s, batch);
    AddsRunKeeps(cfg, DoPoll(cfg, s, batch), DoStart(cfg, s, r, id, name, createdAt, batch), r,
                 NewTask(id, name, Queued, createdAt), ViaStart, Policy(Preserve, false));
  }

  lemma StartedMgr(cfg: Config, m: Mgr, id: Id, name: string, createdAt: Time, r: Reader, now: Time, batch: seq<Id>)
    requires WellFormed(m) && IsBatch(cfg, m, now, batch)
    requires Prune(cfg, m, now, batch).tasks.Keys <= Prune(cfg, m, now, batch).objs.Keys
    ensures var p := Prune(cfg, m, now, batch);
            StartLocked(cfg, m, id, name, createdAt, r, now, batch) ==
            if ActiveSlotFree(cfg, p) then (Register(p.(objs := p.objs[id := NewTask(id, name, Queued, createdAt)]), id, r, now), true)
            else (p, false)
  {
  }

  lemma StartAddsRun(cfg: Config, s: Core, r: Reader, id: Id, name: string, createdAt: Time, batch: seq<Id>)
    requires Enabled(cfg, s, StartLock(r, id, name, createdAt, batch)) && cfg.hasExec
    requires Prune(cfg, s.m, s.clock, batch).objs == s.m.objs
    requires Prune(cfg, s.m, s.clock, batch).tasks.Keys <= s.m.objs.Keys
    requires ActiveSlotFree(cfg, Prune(cfg, s.m, s.clock, batch))
    ensures AddsRun(DoPoll(cfg, s, batch), DoStart(cfg, s, r, id, name, createdAt, batch), r,
                    NewTask(id, name, Queued, createdAt), ViaStart, Policy(Preserve, false))
  {
    StartedMgr(cfg, s.m, id, name, createdAt, r, s.clock, batch);
  }

  lemma StartFullStep(cfg: Config, s: Core, r: Reader, id: Id, name: string, createdAt: Time, batch: seq<Id>)
    requires CoreInv(cfg, s) && Enabled(cfg, s, StartLock(r, id, name, createdAt, batch)) && cfg.hasExec
    requires Prune(cfg, s.m, s.clock, batch).tasks.Keys <= Prune(cfg, s.m, s.clock, batch).objs.Keys
    requires !ActiveSlotFree(cfg, Prune(cfg, s.m, s.clock, batch))
    ensures CoreInv(cfg, DoStart(cfg, s, r, id, name, createdAt, batch))
  {
    PollKeeps(cfg, s, batch);
    RefuseKeeps(cfg, DoPoll(cfg, s, batch), r, ViaStart, id);
    StartFullShape(cfg, s, r, id, name, createdAt, batch);
  }

  lemma StartFullShape(cfg: Config, s: Core, r: Reader, id: Id, name: string, createdAt: Time, batch: seq<Id>)
    requires BatchOk(cfg, s, batch) && cfg.hasExec
    requires Prune(cfg, s.m, s.clock, batch).tasks.Keys <= Prune(cfg, s.m, s.clock, batch).objs.Keys
    requires !ActiveSlotFree(cfg, Prune(cfg, s.m, s.clock, batch))
    ensures DoStart(cfg, s, r, id, name, createdAt, batch) ==
            DoPoll(cfg, s, batch).(subs := s.subs[r := Sub(ViaStart, id, SubClosing, 0)])
  {
    StartedMgr(cfg, s.m, id, name, createdAt, r, s.clock, batch);
  }

  lemma StartStep(cfg: Config, s: Core, r: Reader, id: Id, name: string, createdAt: Time, batch: seq<Id>)
    requires CoreInv(cfg, s) && Enabled(cfg, s, StartLock(r, id, name, createdAt, batch))
    ensures CoreInv(cfg, DoStart(cfg, s, r, id, name, createdAt, batch))
  {
    if !cfg.hasExec {
      RefuseKeeps(cfg, s, r, ViaStart, id);
    } else {
      PruneFrame(cfg, s.m, s.clock, batch);
      if ActiveSlotFree(cfg, Prune(cfg, s.m, s.clock, batch)) {
        StartSlotStep(cfg, s, r, id, name, createdAt, batch);
      } else {
        StartFullStep(cfg, s, r, id, name, createdAt, batch);
      }
    }
  }

  /** A claimable handle has no run and still carries the policy of its Prepare. */
  lemma ClaimableEntry(s: Core, id: Id)
    requires RunsInv(s) && EntriesInv(s) && WellFormed(s.m)
    requires id in s.m.tasks && s.m.objs[id].state.Prepared?
    ensures id in s.policies && s.policies[id] == Policy(s.m.tasks[id].archiveMode, s.m.tasks[id].wrap)
  {
    assert EntryOk(s, id);
  }

  lemma ClaimAddsRun(cfg: Config, s: Core, r: Reader, id: Id, batch: seq<Id>)
    requires Enabled(cfg, s, FulfillLock(r, id, batch))
    requires cfg.hasExec && FulfillCheck(s.m, id) == Claimed && TimeInv(s)
    requires id in s.policies && s.policies[id] == Policy(s.m.tasks[id].archiveMode, s.m.tasks[id].wrap)
    requires DoPoll(cfg, s, batch).m.tasks.Keys <= s.m.objs.Keys && DoPoll(cfg, s, batch).m.objs == s.m.objs
    requires ActiveSlotFree(cfg, DoPoll(cfg, s, batch).m)
    ensures AddsRun(DoPoll(cfg, s, batch), DoFulfill(cfg, s, r, id, batch), r, s.m.objs[id], ViaFulfill, s.policies[id])
  {
    ClaimedMgr(cfg, s.m, id, r, s.clock, batch);
  }

  /** On the manager alone: a claim registers the task it found. */
  lemma ClaimedMgr(cfg: Config, m: Mgr, id: Id, r: Reader, now: Time, batch: seq<Id>)
    requires WellFormed(m) && IsBatch(cfg, m, now, batch) && FulfillCheck(m, id) == Claimed
    requires Prune(cfg, m, now, batch).objs == m.objs && Prune(cfg, m, now, batch).tasks.Keys <= m.objs.Keys
    requires ActiveSlotFree(cfg, Prune(cfg, m, now, batch))
    ensures var p := Prune(cfg, m, now, batch);
            FulfillLocked(cfg, m, id, r, now, batch) == (Register(p.(objs := p.objs[id := m.objs[id]]), id, r, now), Claimed)
  {
    var p := Prune(cfg, m, now, batch);
    SameTask(p, id);
  }

  lemma SameTask(m: Mgr, id: Id)
    requires id in m.objs
    ensures m.(objs := m.objs[id := m.objs[id]]) == m
  {
    assert m.objs[id := m.objs[id]] == m.objs;
  }

  lemma ClaimStep(cfg: Config, s: Core, r: Reader, id: Id, batch: seq<Id>)
    requires CoreInv(cfg, s) && Enabled(cfg, s, FulfillLock(r, id, batch))
    requires cfg.hasExec && FulfillCheck(s.m, id) == Claimed
    requires Prune(cfg, s.m, s.clock, batch).tasks.Keys <= Prune(cfg, s.m, s.clock, batch).objs.Keys
    requires ActiveSlotFree(cfg, Prune(cfg, s.m, s.clock, batch))
    ensures CoreInv(cfg, DoFulfill(cfg, s, r, id, batch))
  {
    ClaimableEntry(s, id);
    PruneFrame(cfg, s.m, s.clock, batch);
    ClaimAddsRun(cfg, s, r, id, batch);
    PollKeeps(cfg, s, batch);
    AddsRunKeeps(cfg, DoPoll(cfg, s, batch), DoFulfill(cfg, s, r, id, batch), r, s.m.objs[id], ViaFulfill, s.policies[id]);
  }

  lemma NoSlotStep(cfg: Config, s: Core, r: Reader, id: Id, batch: seq<Id>)
    requires CoreInv(cfg, s) && Enabled(cfg, s, FulfillLock(r, id, batch))
    requires cfg.hasExec && FulfillCheck(s.m, id) == Claimed
    requires Prune(cfg, s.m, s.clock, batch).tasks.Keys <= Prune(cfg, s.m, s.clock, batch).objs.Keys
    requires !ActiveSlotFree(cfg, Prune(cfg, s.m, s.clock, batch))
    ensures CoreInv(cfg, DoFulfill(cfg, s, r, id, batch))
  {
    PollKeeps(cfg, s, batch);
    RefuseKeeps(cfg, DoPoll(cfg, s, batch), r, ViaFulfill, id);
    NoSlotShape(cfg, s, r, id, batch);
  }

  lemma NoSlotShape(cfg: Config, s: Core, r: Reader, id: Id, batch: seq<Id>)
    requires BatchOk(cfg, s, batch) && cfg.hasExec && FulfillCheck(s.m, id) == Claimed
    requires Prune(cfg, s.m, s.clock, batch).tasks.Keys <= Prune(cfg, s.m, s.clock, batch).objs.Keys
    requires !ActiveSlotFree(cfg, Prune(cfg, s.m, s.clock, batch))
    ensures DoFulfill(cfg, s, r, id, batch) ==
            DoPoll(cfg, s, batch).(subs := s.subs[r := Sub(ViaFulfill, id, SubClosing, 0)])
  {
  }

  lemma FulfillStep(cfg: Config, s: Core, r: Reader, id: Id, batch: seq<Id>)
    requires CoreInv(cfg, s) && Enabled(cfg, s, FulfillLock(r, id, batch))
    ensures CoreInv(cfg, DoFulfill(cfg, s, r, id, batch))
  {
    if !cfg.hasExec || FulfillCheck(s.m, id) != Claimed {
      RefuseKeeps(cfg, s, r, ViaFulfill, id);
    } else {
      PruneFrame(cfg, s.m, s.clock, batch);
      if ActiveSlotFree(cfg, Prune(cfg, s.m, s.clock, batch)) {
        ClaimStep(cfg, s, r, id, batch);
      } else {
        NoSlotStep(cfg, s, r, id, batch);
      }
    }
  }

  // ---------------------------------------------------------------- Prepare

  /** `n` makes the prepared task `t` live with entry `e`. */
  ghost predicate AddsPrepared(s: Core, n: Core, t: Task, e: Entry) {
    && t.id !in s.m.objs && t.state.Prepared? && t.createdAt <= s.clock && t.finishedAt.None? && e.owner.None?
    && n == s.(m := s.m.(objs := s.m.objs[t.id := t], tasks := s.m.tasks[t.id := e]),
               policies := s.policies[t.id := Policy(e.archiveMode, e.wrap)])
  }

  lemma AddsPreparedRuns(s: Core, n: Core, t: Task, e: Entry)
    requires RunsInv(s) && PolicyInv(s) && AddsPrepared(s, n, t, e)
    ensures RunsInv(n) && PolicyInv(n)
  {
    forall q | q in n.runs ensures RunInv(n, q) && s.runs[q].id != t.id {
      assert RunInv(s, q);
    }
  }

  lemma AddsPreparedEntries(s: Core, n: Core, t: Task, e: Entry)
    requires EntriesInv(s) && SubsInv(s) && AddsPrepared(s, n, t, e)
    ensures EntriesInv(n) && SubsInv(n)
  {
    forall id | id in n.m.tasks ensures id in n.m.objs && EntryOk(n, id) {
      if id != t.id { assert EntryOk(s, id); }
    }
    forall q | q in n.subs ensures SubOk(n, q) { assert SubOk(s, q); }
  }

  lemma AddsPreparedRest(cfg: Config, s: Core, n: Core, t: Task, e: Entry)
    requires CancelsInv(s) && ExecsInv(s) && TimeInv(s) && FifoInv(cfg, s) && AddsPrepared(s, n, t, e)
    ensures CancelsInv(n) && ExecsInv(n) && TimeInv(n) && FifoInv(cfg, n)
  {
    forall c | c in n.cancels ensures CancelInv(n, c) { assert CancelInv(s, c); }
    forall i | 0 <= i < |n.execs| ensures ExecOk(n, n.execs[i]) { assert ExecOk(s, s.execs[i]); }
  }

  lemma AddsPreparedKeeps(cfg: Config, s: Core, n: Core, t: Task, e: Entry)
    requires CoreInv(cfg, s) && AddsPrepared(s, n, t, e) && PreparedSlotFree(cfg, s.m)
    ensures CoreInv(cfg, n)
  {
    NewObjectKeeps(cfg, s.m, t);
    AddPreparedKeeps(cfg, s.m.(objs := s.m.objs[t.id := t]), t.id, e);
    AddsPreparedRuns(s, n, t, e);
    AddsPreparedEntries(s, n, t, e);
    AddsPreparedRest(cfg, s, n, t, e);
  }

  lemma PreparedShape(cfg: Config, s: Core, id: Id, name: string, createdAt: Time, ttl: int, policy: Policy, batch: seq<Id>)
    requires BatchOk(cfg, s, batch)
    requires Prune(cfg, s.m, s.clock, batch).tasks.Keys <= Prune(cfg, s.m, s.clock, batch).objs.Keys
    ensures var p, t, e := DoPoll(cfg, s, batch), NewTask(id, name, Prepared, createdAt), Entry(None, ttl, policy.mode, policy.wrap);
            DoPrepare(cfg, s, id, name, createdAt, ttl, policy, batch) ==
            if PreparedSlotFree(cfg, p.m)
            then p.(m := p.m.(objs := p.m.objs[id := t], tasks := p.m.tasks[id := e]), policies := p.policies[id := policy])
            else p
  {
  }

  lemma PrepareStep(cfg: Config, s: Core, id: Id, name: string, createdAt: Time, ttl: int, policy: Policy, batch: seq<Id>)
    requires CoreInv(cfg, s) && Enabled(cfg, s, PrepareLock(id, name, createdAt, ttl, policy, batch))
    ensures CoreInv(cfg, DoPrepare(cfg, s, id, name, createdAt, ttl, policy, batch))
  {
    PruneFrame(cfg, s.m, s.clock, batch);
    PollKeeps(cfg, s, batch);
    PreparedShape(cfg, s, id, name, createdAt, ttl, policy, batch);
    if PreparedSlotFree(cfg, DoPoll(cfg, s, batch).m) {
      PrepareSlotStep(cfg, s, id, name, createdAt, ttl, policy, batch);
    }
  }

  lemma PrepareSlotStep(cfg: Config, s: Core, id: Id, name: string, createdAt: Time, ttl: int, policy: Policy, batch: seq<Id>)
    requires Enabled(cfg, s, PrepareLock(id, name, createdAt, ttl, policy, batch)) && CoreInv(cfg, DoPoll(cfg, s, batch))
    requires DoPoll(cfg, s, batch).m.objs == s.m.objs && DoPoll(cfg, s, batch).m.tasks.Keys <= s.m.objs.Keys
    requires PreparedSlotFree(cfg, DoPoll(cfg, s, batch).m)
    ensures CoreInv(cfg, DoPrepare(cfg, s, id, name, createdAt, ttl, policy, batch))
  {
    PreparedShape(cfg, s, id, name, createdAt, ttl, policy, batch);
    AddsPreparedKeeps(cfg, DoPoll(cfg, s, batch), DoPrepare(cfg, s, id, name, createdAt, ttl, policy, batch),
                      NewTask(id, name, Prepared, createdAt), Entry(None, ttl, policy.mode, policy.wrap));
  }

  // ---------------------------------------------------------------- Cancel

  /** `n` commits call `c` to cancelling task `id`. */
  ghost predicate Commits(s: Core, n: Core, c: nat, id: Id) {
    && c !in s.cancels && id in s.m.tasks && id in s.m.objs
    && (s.m.objs[id].state.Prepared? || s.m.objs[id].state.Active())
    && n == s.(m := s.m.(objs := s.m.objs[id := s.m.objs[id].(state := Cancelled, finishedAt := Some(s.clock))]),
               cancels := s.cancels[c := Cancel(id, CancelClosing(s.m.tasks[id].owner))],
               cancelledBy := s.cancelledBy[id := c])
  }

  lemma CommitRuns(s: Core, n: Core, c: nat, id: Id)
    requires RunsInv(s) && SubsInv(s) && PolicyInv(s) && Commits(s, n, c, id)
    ensures RunsInv(n) && SubsInv(n) && PolicyInv(n)
  {
    forall q | q in n.runs ensures RunInv(n, q) { assert RunInv(s, q); }
    forall q | q in n.subs ensures SubOk(n, q) { assert SubOk(s, q); }
  }

  lemma CommitEntries(s: Core, n: Core, c: nat, id: Id)
    requires EntriesInv(s) && ExecsInv(s) && TimeInv(s) && Commits(s, n, c, id)
    ensures EntriesInv(n) && ExecsInv(n) && TimeInv(n)
  {
    forall q | q in n.m.tasks ensures q in n.m.objs && EntryOk(n, q) { assert EntryOk(s, q); }
    forall i | 0 <= i < |n.execs| ensures ExecOk(n, n.execs[i]) { assert ExecOk(s, s.execs[i]); }
  }

  /** The Cancel that commits is the only one, and it will close the reader of the task's run. */
  lemma CommitCancels(s: Core, n: Core, c: nat, id: Id)
    requires RunsInv(s) && CancelsInv(s) && Commits(s, n, c, id)
    ensures CancelsInv(n)
  {
    forall k | k in n.cancels ensures CancelInv(n, k) {
      if k != c {
        assert CancelInv(s, k);
      } else {
        forall q | q in n.runs && n.runs[q].id == id ensures s.m.tasks[id].owner == Some(q) {
          assert RunInv(s, q);
        }
      }
    }
  }

  lemma CommitKeeps(cfg: Config, s: Core, n: Core, c: nat, id: Id)
    requires CoreInv(cfg, s) && Commits(s, n, c, id)
    ensures CoreInv(cfg, n)
  {
    RewriteKeeps(cfg, s.m, id, s.m.objs[id].(state := Cancelled, finishedAt := Some(s.clock)));
    CommitRuns(s, n, c, id);
    CommitEntries(s, n, c, id);
    CommitCancels(s, n, c, id);
  }

  /** Only the record of call `c` changes. */
  lemma CancelOnlyKeeps(cfg: Config, s: Core, n: Core, c: nat)
    requires CoreInv(cfg, s) && c in n.cancels && n == s.(cancels := s.cancels[c := n.cancels[c]])
    requires CancelInv(n, c)
    requires c in s.cancels && s.cancels[c].Committed() ==> n.cancels[c].Committed() && n.cancels[c].id == s.cancels[c].id
    ensures CoreInv(cfg, n)
  {
    CancelOnlyCancels(s, n, c);
    CancelOnlyRest(s, n, c);
  }

  lemma CancelOnlyCancels(s: Core, n: Core, c: nat)
    requires CancelsInv(s) && c in n.cancels && n == s.(cancels := s.cancels[c := n.cancels[c]])
    requires CancelInv(n, c)
    requires c in s.cancels && s.cancels[c].Committed() ==> n.cancels[c].Committed() && n.cancels[c].id == s.cancels[c].id
    ensures CancelsInv(n)
  {
    forall k | k in n.cancels ensures CancelInv(n, k) {
      if k != c { assert CancelInv(s, k); }
    }
  }

  lemma CancelOnlyRest(s: Core, n: Core, c: nat)
    requires RunsInv(s) && SubsInv(s) && EntriesInv(s) && ExecsInv(s)
    requires c in n.cancels && n == s.(cancels := s.cancels[c := n.cancels[c]])
    ensures RunsInv(n) && SubsInv(n) && EntriesInv(n) && ExecsInv(n)
  {
    forall q | q in n.runs ensures RunInv(n, q) { assert RunInv(s, q); }
    forall q | q in n.subs ensures SubOk(n, q) { assert SubOk(s, q); }
    forall q | q in n.m.tasks ensures q in n.m.objs && EntryOk(n, q) { assert EntryOk(s, q); }
    forall i | 0 <= i < |n.execs| ensures ExecOk(n, n.execs[i]) { assert ExecOk(s, s.execs[i]); }
  }

  lemma CancelStep(cfg: Config, s: Core, c: nat, id: Id)
    requires CoreInv(cfg, s) && Enabled(cfg, s, CancelLock(c, id))
    ensures CoreInv(cfg, DoCancel(s, c, id))
  {
    var n := DoCancel(s, c, id);
    if CancelLocked(s.m, id, s.clock).1 == CancelOk {
      CommitKeeps(cfg, s, n, c, id);
    } else {
      CancelOnlyKeeps(cfg, s, n, c);
    }
  }

  lemma CloseOnceKeeps(cfg: Config, s: Core, r: Reader)
    requires CoreInv(cfg, s)
    ensures CoreInv(cfg, CloseOnce(s, r))
    ensures r in s.runs ==> r in CloseOnce(s, r).runs && CloseOnce(s, r).runs[r] == s.runs[r].(closed := true)
  {
    if r in s.runs {
      assert RunInv(s, r);
      CloseOnceRun(s, r);
      if !s.runs[r].closed { RunOnlyKeeps(cfg, s, CloseOnce(s, r), r); }
    }
  }

  lemma CloseOnceRun(s: Core, r: Reader)
    requires r in s.runs && RunInv(s, r)
    ensures !s.runs[r].closed ==> RunOnly(s, CloseOnce(s, r), r) && RunInv(CloseOnce(s, r), r)
    ensures CloseOnce(s, r).runs[r] == s.runs[r].(closed := true)
  {
  }

  lemma CancelCloseStep(cfg: Config, s: Core, c: nat)
    requires CoreInv(cfg, s) && Enabled(cfg, s, CancelClose(c))
    ensures CoreInv(cfg, DoCancelClose(s, c))
  {
    var owner := s.cancels[c].pc.owner;
    if owner.Some? { CloseOnceKeeps(cfg, s, owner.value); }
    CancelCloseOwed(s, c);
    CancelOnlyKeeps(cfg, if owner.Some? then CloseOnce(s, owner.value) else s, DoCancelClose(s, c), c);
  }

  /** When a committed Cancel returns, the reader of the run it cancelled has been closed. */
  lemma CancelCloseOwed(s: Core, c: nat)
    requires RunsInv(s) && CancelsInv(s) && c in s.cancels && s.cancels[c].pc.CancelClosing?
    ensures CancelInv(DoCancelClose(s, c), c)
  {
    assert CancelInv(s, c);
    var owner := s.cancels[c].pc.owner;
    if owner.Some? && owner.value in s.runs {
      assert RunInv(s, owner.value);
      CloseOnceRun(s, owner.value);
    }
  }

  lemma TickStep(cfg: Config, s: Core, n: Core, d: nat)
    requires CoreInv(cfg, s) && n == s.(clock := s.clock + d)
    ensures CoreInv(cfg, n)
  {
    TickRest(s, d);
  }

  lemma TickRest(s: Core, d: nat)
    requires RunsInv(s) && SubsInv(s) && EntriesInv(s) && CancelsInv(s) && ExecsInv(s)
    ensures var n := s.(clock := s.clock + d);
            RunsInv(n) && SubsInv(n) && EntriesInv(n) && CancelsInv(n) && ExecsInv(n)
  {
    var n := s.(clock := s.clock + d);
    forall q | q in n.runs ensures RunInv(n, q) { assert RunInv(s, q); }
    forall q | q in n.subs ensures SubOk(n, q) { assert SubOk(s, q); }
    forall q | q in n.m.tasks ensures q in n.m.objs && EntryOk(n, q) { assert EntryOk(s, q); }
    forall c | c in n.cancels ensures CancelInv(n, c) { assert CancelInv(s, c); }
    forall i | 0 <= i < |n.execs| ensures ExecOk(n, n.execs[i]) { assert ExecOk(s, s.execs[i]); }
  }

  // ---------------------------------------------------------------- every step, every behaviour

  lemma SubmitStepKeeps(cfg: Config, s: Core, step: Step)
    requires CoreInv(cfg, s) && Enabled(cfg, s, step)
    requires step.StartLock? || step.PrepareLock? || step.FulfillLock?
    ensures CoreInv(cfg, Next(cfg, s, step))
  {
    match step
    case StartLock(r, id, name, createdAt, batch) => StartStep(cfg, s, r, id, name, createdAt, batch);
    case PrepareLock(id, name, createdAt, ttl, policy, batch) => PrepareStep(cfg, s, id, name, createdAt, ttl, policy, batch);
    case FulfillLock(r, id, batch) => FulfillStep(cfg, s, r, id, batch);
    case _ =>
  }

  lemma CancelCallKeeps(cfg: Config, s: Core, step: Step)
    requires CoreInv(cfg, s) && Enabled(cfg, s, step)
    requires step.CancelLock? || step.CancelClose?
    ensures CoreInv(cfg, Next(cfg, s, step))
  {
    if step.CancelLock? { CancelStep(cfg, s, step.c, step.id); } else { CancelCloseStep(cfg, s, step.c); }
  }

  lemma TickKeeps(cfg: Config, s: Core, step: Step)
    requires CoreInv(cfg, s) && step.Tick?
    ensures CoreInv(cfg, Next(cfg, s, step))
  {
    TickStep(cfg, s, Next(cfg, s, step), step.d);
  }

  lemma PollStepKeeps(cfg: Config, s: Core, step: Step)
    requires CoreInv(cfg, s) && Enabled(cfg, s, step) && step.Poll?
    ensures CoreInv(cfg, Next(cfg, s, step))
  {
    PollKeeps(cfg, s, step.batch);
  }

  lemma WorkerStepKeeps(cfg: Config, s: Core, step: Step)
    requires CoreInv(cfg, s) && Enabled(cfg, s, step)
    requires step.WorkerBegin? || step.CallExec?
    ensures CoreInv(cfg, Next(cfg, s, step))
  {
    if step.WorkerBegin? { BeginKeeps(cfg, s, step.r); } else { CallExecKeeps(cfg, s, step.r); }
  }

  lemma OutcomeStepKeeps(cfg: Config, s: Core, step: Step)
    requires CoreInv(cfg, s) && Enabled(cfg, s, step)
    requires step.Complete? || step.DogFail?
    ensures CoreInv(cfg, Next(cfg, s, step))
  {
    if step.Complete? { CompleteKeeps(cfg, s, step.r, step.finished); } else { DogFailKeeps(cfg, s, step.r, step.failedAt); }
  }

  predicate PcStep(step: Step) {
    step.Arm? || step.ExecReturn? || step.StopDog? || step.DogFire? ||
    step.FiredClose? || step.WorkerClose? || step.DogClose?
  }

  lemma PcStepKeeps(cfg: Config, s: Core, step: Step)
    requires CoreInv(cfg, s) && Enabled(cfg, s, step) && PcStep(step)
    ensures CoreInv(cfg, Next(cfg, s, step))
  {
    if step.FiredClose? || step.WorkerClose? || step.DogClose? {
      ClosePcKeeps(cfg, s, step, step.r);
    } else {
      WorkerPcKeeps(cfg, s, step, step.r);
    }
  }

  lemma RefusedStepKeeps(cfg: Config, s: Core, step: Step)
    requires CoreInv(cfg, s) && Enabled(cfg, s, step) && step.RefusedClose?
    ensures CoreInv(cfg, Next(cfg, s, step))
  {
    RefusedCloseKeeps(cfg, s, Next(cfg, s, step), step.r);
  }

  lemma BystanderKeeps(cfg: Config, s: Core, step: Step)
    requires CoreInv(cfg, s) && Enabled(cfg, s, step) && (step.RefusedClose? || step.Tick? || step.Poll?)
    ensures CoreInv(cfg, Next(cfg, s, step))
  {
    if step.RefusedClose? {
      RefusedStepKeeps(cfg, s, step);
    } else if step.Tick? {
      TickKeeps(cfg, s, step);
    } else {
      PollStepKeeps(cfg, s, step);
    }
  }

  /** A step of a worker or a watchdog. */
  lemma PartyKeeps(cfg: Config, s: Core, step: Step)
    requires CoreInv(cfg, s) && Enabled(cfg, s, step)
    requires PcStep(step) || step.WorkerBegin? || step.CallExec? || step.Complete? || step.DogFail?
    ensures CoreInv(cfg, Next(cfg, s, step))
  {
    if PcStep(step) {
      PcStepKeeps(cfg, s, step);
    } else if step.WorkerBegin? || step.CallExec? {
      WorkerStepKeeps(cfg, s, step);
    } else {
      OutcomeStepKeeps(cfg, s, step);
    }
  }

  /** Every step of every party keeps the invariant. */
  lemma StepKeeps(cfg: Config, s: Core, step: Step)
    requires CoreInv(cfg, s) && Enabled(cfg, s, step)
    ensures CoreInv(cfg, Next(cfg, s, step))
  {
    if step.StartLock? || step.PrepareLock? || step.FulfillLock? {
      SubmitStepKeeps(cfg, s, step);
    } else if step.RefusedClose? || step.Tick? || step.Poll? {
      BystanderKeeps(cfg, s, step);
    } else if step.CancelLock? || step.CancelClose? {
      CancelCallKeeps(cfg, s, step);
    } else {
      PartyKeeps(cfg, s, step);
    }
  }

  lemma InitInv(cfg: Config, s: Core)
    requires Init(s)
    ensures CoreInv(cfg, s)
  {
    assert ActiveIds(s.m) == {} && PreparedIds(s.m) == {};
  }

  /** The invariant holds in every state of every behaviour. */
  lemma {:induction false} Reachable(cfg: Config, trace: seq<Core>, steps: seq<Step>, i: nat)
    requires IsBehaviour(cfg, trace, steps) && i < |trace|
    ensures CoreInv(cfg, trace[i])
  {
    if i == 0 {
      InitInv(cfg, trace[0]);
    } else {
      Reachable(cfg, trace, steps, i - 1);
      StepKeeps(cfg, trace[i - 1], steps[i - 1]);
    }
  }
}
