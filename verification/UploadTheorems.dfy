/** What the upload manager promises over every behaviour, that is every interleaving. */
module UploadTheorems {
  import opened Prelude
  import opened UploadModel
  import opened UploadInvariants
  import opened UploadCore
  import opened UploadSafety
  import opened UploadSteps

  // ---------------------------------------------------------------- promises about each state

  /** Slot caps: queued plus running tasks, and prepared tasks, never exceed their bounds. */
  lemma SlotCaps(cfg: Config, trace: seq<Core>, steps: seq<Step>, i: nat)
    requires IsBehaviour(cfg, trace, steps) && i < |trace|
    ensures trace[i].m.tasks.Keys <= trace[i].m.objs.Keys
    ensures var m := trace[i].m;
            && (cfg.maxActive > 0 ==> |set x | x in m.tasks && (m.objs[x].state == Queued || m.objs[x].state == Running)| <= cfg.maxActive)
            && (cfg.maxPrepared > 0 ==> |set x | x in m.tasks && m.objs[x].state == Prepared| <= cfg.maxPrepared)
  {
    Reachable(cfg, trace, steps, i);
    CountedIds(trace[i].m);
  }

  /** What the two slot checks count. */
  lemma CountedIds(m: Mgr)
    requires m.tasks.Keys <= m.objs.Keys
    ensures ActiveIds(m) == set x | x in m.tasks && (m.objs[x].state == Queued || m.objs[x].state == Running)
    ensures PreparedIds(m) == set x | x in m.tasks && m.objs[x].state == Prepared
  {
  }

  /** A live handle never has a tombstone, and the FIFO lists exactly the tombstones, each once. */
  lemma TombstoneIndex(cfg: Config, trace: seq<Core>, steps: seq<Step>, i: nat)
    requires IsBehaviour(cfg, trace, steps) && i < |trace|
    ensures trace[i].m.tasks.Keys !! trace[i].m.tombs.Keys
    ensures NoDup(trace[i].m.order) && Elems(trace[i].m.order) == trace[i].m.tombs.Keys
  {
    Reachable(cfg, trace, steps, i);
  }

  /** No Cancel still owes reader `r` its close and no watchdog is about to close it. */
  ghost predicate NothingPending(s: Core, r: Reader) {
    && (forall c :: c in s.cancels ==> s.cancels[c].pc != CancelClosing(Some(r)))
    && (r in s.runs ==> !s.runs[r].dog.DFired?)
  }

  predicate WorkerGone(w: WorkerPc) { w.WBailed? || w.WDone? }

  /** Reader ownership: never closed twice; closed exactly once when its call was refused, or when its
      worker has gone and neither a Cancel nor the watchdog is about to act. */
  lemma ReaderClosedOnce(cfg: Config, trace: seq<Core>, steps: seq<Step>, i: nat, r: Reader)
    requires IsBehaviour(cfg, trace, steps) && i < |trace| && r in trace[i].subs
    ensures trace[i].subs[r].closes <= 1
    ensures trace[i].subs[r].pc.SubRefused? ==> trace[i].subs[r].closes == 1
    ensures r in trace[i].runs && WorkerGone(trace[i].runs[r].worker) && NothingPending(trace[i], r) ==>
              trace[i].subs[r].closes == 1
  {
    var s := trace[i];
    Reachable(cfg, trace, steps, i);
    assert SubOk(s, r);
    if r in s.runs {
      assert RunInv(s, r);
      var id := s.runs[r].id;
      if s.runs[r].worker.WBailed? {
        assert CancelInv(s, s.cancelledBy[id]);
      }
    }
  }

  /** Outcome attribution: a task is cancelled exactly when some Cancel on it committed to success. */
  lemma CancelledIff(cfg: Config, trace: seq<Core>, steps: seq<Step>, i: nat, id: Id)
    requires IsBehaviour(cfg, trace, steps) && i < |trace| && id in trace[i].m.objs
    ensures trace[i].m.objs[id].state.Cancelled? <==>
            exists c :: c in trace[i].cancels && trace[i].cancels[c].id == id && trace[i].cancels[c].Committed()
  {
    var s := trace[i];
    Reachable(cfg, trace, steps, i);
    if s.m.objs[id].state.Cancelled? {
      assert s.cancelledBy[id] in s.cancels;
    }
    forall c | c in s.cancels && s.cancels[c].id == id && s.cancels[c].Committed()
      ensures s.m.objs[id].state.Cancelled?
    {
      assert CancelInv(s, c);
    }
  }

  /** At most one Cancel on a task ever succeeds. */
  lemma OneSuccessfulCancel(cfg: Config, trace: seq<Core>, steps: seq<Step>, i: nat, c: nat, d: nat)
    requires IsBehaviour(cfg, trace, steps) && i < |trace| && c in trace[i].cancels && d in trace[i].cancels
    requires trace[i].cancels[c].Committed() && trace[i].cancels[d].Committed()
    requires trace[i].cancels[c].id == trace[i].cancels[d].id
    ensures c == d
  {
    Reachable(cfg, trace, steps, i);
    assert CancelInv(trace[i], c) && CancelInv(trace[i], d);
  }

  /** A finished run that was not cancelled shows what the executor returned, unless the watchdog failed
      it first; a timeout and a context error always show as the timeout failure. */
  lemma OutcomeRecorded(cfg: Config, trace: seq<Core>, steps: seq<Step>, i: nat, r: Reader)
    requires IsBehaviour(cfg, trace, steps) && i < |trace|
    requires r in trace[i].runs && (trace[i].runs[r].worker.WCompleted? || trace[i].runs[r].worker.WDone?)
    ensures trace[i].runs[r].id in trace[i].m.objs && trace[i].runs[r].res.Some?
    ensures var t := trace[i].m.objs[trace[i].runs[r].id];
            var res := trace[i].runs[r].res.value;
            var timedOut := trace[i].runs[r].timedOut;
            && t.state.Terminal()
            && (!t.state.Cancelled? ==> (t.state.Completed? <==> res.error.NoError? && !timedOut))
            && (!t.state.Cancelled? && !timedOut ==> t.result == res.value)
            && (t.state.Failed? && (timedOut || res.error.DeadlineExceeded? || res.error.ContextCanceled?) ==> t.err == ExecTimeoutMessage)
            && (t.state.Failed? && !timedOut && res.error.OtherError? ==> t.err == Message(res.error.message))
  {
    Reachable(cfg, trace, steps, i);
    assert RunInv(trace[i], r);
  }

  /** The executor runs at most once per handle, with exactly the policy recorded at Prepare, or with
      preserve/false for a handle made by Start. */
  lemma ExecutorOnce(cfg: Config, trace: seq<Core>, steps: seq<Step>, i: nat, x: nat, y: nat)
    requires IsBehaviour(cfg, trace, steps) && i < |trace| && x < |trace[i].execs| && y < |trace[i].execs|
    ensures trace[i].execs[x].id == trace[i].execs[y].id ==> x == y
    ensures var e := trace[i].execs[x];
            Policy(e.mode, e.wrap) == if e.id in trace[i].policies then trace[i].policies[e.id] else Policy(Preserve, false)
    ensures trace[i].execs[x].reader in trace[i].subs
    ensures trace[i].subs[trace[i].execs[x].reader].kind.ViaFulfill? <==> trace[i].execs[x].id in trace[i].policies
  {
    var s := trace[i];
    Reachable(cfg, trace, steps, i);
    assert ExecOk(s, s.execs[x]) && ExecOk(s, s.execs[y]);
    assert RunInv(s, s.execs[x].reader);
  }

  // ---------------------------------------------------------------- nothing goes backwards

  function Rank(st: TaskState): nat {
    match st
    case Prepared => 0
    case Queued => 1
    case Running => 2
    case _ => 3
  }

  /** A task object keeps its identity, never moves back, and is frozen once terminal. */
  ghost predicate TaskForward(t: Task, u: Task) {
    && u.id == t.id && u.createdAt == t.createdAt
    && Rank(t.state) <= Rank(u.state)
    && (t.state.Terminal() ==> u == t)
  }

  /** What a poller may see next: the same or a later status; after a final status the very same
      record or nothing; after nothing, nothing. Only a prepared handle ever shows as expired. */
  ghost predicate ViewForward(a: Option<Task>, b: Option<Task>) {
    match a
    case None => b == None
    case Some(t) =>
      && (b.Some? ==> Rank(t.state) <= Rank(b.value.state) && (Rank(t.state) == 3 ==> b == a))
      && (b.Some? && b.value.state.Expired? ==> t.state.Prepared? || t.state.Expired?)
  }

  ghost predicate MgrForward(a: Mgr, b: Mgr)
    requires a.tasks.Keys <= a.objs.Keys && b.tasks.Keys <= b.objs.Keys
  {
    && a.objs.Keys <= b.objs.Keys
    && forall id :: id in a.objs ==>
         TaskForward(a.objs[id], b.objs[id]) && ViewForward(Lookup(a, id), Lookup(b, id))
  }

  lemma PruneForward(cfg: Config, m: Mgr, now: Time, batch: seq<Id>)
    requires MgrInv(cfg, m) && IsBatch(cfg, m, now, batch)
    ensures Prune(cfg, m, now, batch).tasks.Keys <= m.objs.Keys
    ensures Prune(cfg, m, now, batch).objs == m.objs
    ensures MgrForward(m, Prune(cfg, m, now, batch))
  {
    PruneFrame(cfg, m, now, batch);
    var p := Prune(cfg, m, now, batch);
    forall id | id in m.objs ensures ViewForward(Lookup(m, id), Lookup(p, id)) {
      if id in p.tombs {
        PruneTombs(cfg, m, now, batch, id);
      }
    }
  }

  lemma RewriteForward(m: Mgr, id: Id, t: Task)
    requires m.tasks.Keys <= m.objs.Keys && id in m.objs && id !in m.tombs
    requires TaskForward(m.objs[id], t) && !t.state.Expired? && !m.objs[id].state.Expired?
    ensures MgrForward(m, m.(objs := m.objs[id := t]))
  {
  }

  lemma RegisterForward(cfg: Config, m: Mgr, p: Mgr, t0: Task, r: Reader, now: Time)
    requires m.tasks.Keys <= m.objs.Keys && p.tasks.Keys <= p.objs.Keys && MgrForward(m, p)
    requires if t0.id in m.objs then t0.id in m.tasks && p.objs[t0.id] == t0 && t0.state.Prepared? else t0.id !in p.tasks
    requires p.objs.Keys == m.objs.Keys
    ensures Register(p.(objs := p.objs[t0.id := t0]), t0.id, r, now).tasks.Keys
              <= Register(p.(objs := p.objs[t0.id := t0]), t0.id, r, now).objs.Keys
    ensures MgrForward(m, Register(p.(objs := p.objs[t0.id := t0]), t0.id, r, now))
  {
    var n := Register(p.(objs := p.objs[t0.id := t0]), t0.id, r, now);
    RegisterShape(p.(objs := p.objs[t0.id := t0]), t0.id, r, now);
    forall id | id in m.objs
      ensures TaskForward(m.objs[id], n.objs[id]) && ViewForward(Lookup(m, id), Lookup(n, id))
    {
      if id != t0.id {
        assert Lookup(n, id) == Lookup(p, id);
      }
    }
  }

  lemma ForwardTrans(a: Mgr, b: Mgr, c: Mgr)
    requires a.tasks.Keys <= a.objs.Keys && b.tasks.Keys <= b.objs.Keys && c.tasks.Keys <= c.objs.Keys
    requires MgrForward(a, b) && MgrForward(b, c)
    ensures MgrForward(a, c)
  {
    forall id | id in a.objs
      ensures TaskForward(a.objs[id], c.objs[id]) && ViewForward(Lookup(a, id), Lookup(c, id))
    {
      assert TaskForward(a.objs[id], b.objs[id]) && ViewForward(Lookup(a, id), Lookup(b, id));
      assert TaskForward(b.objs[id], c.objs[id]) && ViewForward(Lookup(b, id), Lookup(c, id));
    }
  }

  /** A new prepared handle disturbs no other. */
  lemma NewObjectForward(m: Mgr, p: Mgr, t: Task, e: Entry)
    requires m.tasks.Keys <= m.objs.Keys && p.tasks.Keys <= p.objs.Keys && MgrForward(m, p)
    requires t.id !in m.objs && p.objs.Keys == m.objs.Keys
    ensures MgrForward(m, p.(objs := p.objs[t.id := t], tasks := p.tasks[t.id := e]))
  {
    var n := p.(objs := p.objs[t.id := t], tasks := p.tasks[t.id := e]);
    forall id | id in m.objs
      ensures TaskForward(m.objs[id], n.objs[id]) && ViewForward(Lookup(m, id), Lookup(n, id))
    {
      assert Lookup(n, id) == Lookup(p, id);
    }
  }

  lemma StartForward(cfg: Config, m: Mgr, id: Id, name: string, createdAt: Time, r: Reader, now: Time, batch: seq<Id>)
    requires MgrInv(cfg, m) && IsBatch(cfg, m, now, batch) && id !in m.objs
    ensures var n := StartLocked(cfg, m, id, name, createdAt, r, now, batch).0;
            n.tasks.Keys <= n.objs.Keys && MgrForward(m, n)
  {
    PruneForward(cfg, m, now, batch);
    RegisterForward(cfg, m, Prune(cfg, m, now, batch), NewTask(id, name, Queued, createdAt), r, now);
  }

  lemma ClaimForward(cfg: Config, m: Mgr, id: Id, r: Reader, now: Time, batch: seq<Id>)
    requires MgrInv(cfg, m) && IsBatch(cfg, m, now, batch) && FulfillCheck(m, id) == Claimed
    ensures id in Prune(cfg, m, now, batch).objs
    ensures var n := Register(Prune(cfg, m, now, batch), id, r, now); n.tasks.Keys <= n.objs.Keys && MgrForward(m, n)
  {
    PruneForward(cfg, m, now, batch);
    RegisterSame(cfg, m, Prune(cfg, m, now, batch), id, r, now);
  }

  lemma RegisterSame(cfg: Config, m: Mgr, p: Mgr, id: Id, r: Reader, now: Time)
    requires m.tasks.Keys <= m.objs.Keys && p.tasks.Keys <= p.objs.Keys && MgrForward(m, p)
    requires p.objs == m.objs && id in m.tasks && m.objs[id].id == id && m.objs[id].state.Prepared?
    ensures var n := Register(p, id, r, now); n.tasks.Keys <= n.objs.Keys && MgrForward(m, n)
  {
    assert p.(objs := p.objs[id := p.objs[id]]) == p;
    RegisterForward(cfg, m, p, p.objs[id], r, now);
  }

  lemma SameForward(m: Mgr)
    requires m.tasks.Keys <= m.objs.Keys
    ensures MgrForward(m, m)
  {
  }

  lemma FulfillForward(cfg: Config, m: Mgr, id: Id, r: Reader, now: Time, batch: seq<Id>)
    requires MgrInv(cfg, m) && IsBatch(cfg, m, now, batch)
    ensures var n := FulfillLocked(cfg, m, id, r, now, batch).0;
            n.tasks.Keys <= n.objs.Keys && MgrForward(m, n)
  {
    if FulfillCheck(m, id) == Claimed {
      ClaimForward(cfg, m, id, r, now, batch);
      PruneForward(cfg, m, now, batch);
    } else {
      SameForward(m);
    }
  }

  lemma PrepareForward(cfg: Config, m: Mgr, id: Id, name: string, createdAt: Time, e: Entry, now: Time, batch: seq<Id>)
    requires MgrInv(cfg, m) && IsBatch(cfg, m, now, batch) && id !in m.objs
    ensures var n := PrepareLocked(cfg, m, id, name, createdAt, e, now, batch).0;
            n.tasks.Keys <= n.objs.Keys && MgrForward(m, n)
  {
    PruneForward(cfg, m, now, batch);
    NewObjectForward(m, Prune(cfg, m, now, batch), NewTask(id, name, Prepared, createdAt), e);
  }

  lemma CancelForward(cfg: Config, m: Mgr, id: Id, now: Time)
    requires MgrInv(cfg, m)
    ensures var n := CancelLocked(m, id, now).0; n.tasks.Keys <= n.objs.Keys && MgrForward(m, n)
  {
    if CancelLocked(m, id, now).1 == CancelOk {
      RewriteForward(m, id, m.objs[id].(state := Cancelled, finishedAt := Some(now)));
    } else {
      SameForward(m);
    }
  }

  /** A worker or watchdog step on run `r` leaves every other object alone and moves its own forward. */
  lemma TaskPcShape(cfg: Config, s: Core, step: Step)
    requires Enabled(cfg, s, step) && (step.WorkerBegin? || step.Complete? || step.DogFail?)
    requires RunInv(s, step.r)
    ensures s.runs[step.r].id in Next(cfg, s, step).m.objs
    ensures var id := s.runs[step.r].id; var t := Next(cfg, s, step).m.objs[id];
      && Next(cfg, s, step).m == s.m.(objs := s.m.objs[id := t])
      && TaskForward(s.m.objs[id], t) && !t.state.Expired?
      && (t != s.m.objs[id] ==> s.m.objs[id].state.Active())
  {
  }

  lemma TaskPcForward(cfg: Config, s: Core, step: Step)
    requires MgrInv(cfg, s.m) && Enabled(cfg, s, step) && (step.WorkerBegin? || step.Complete? || step.DogFail?)
    requires RunInv(s, step.r)
    ensures var n := Next(cfg, s, step); n.m.tasks.Keys <= n.m.objs.Keys && MgrForward(s.m, n.m)
  {
    TaskPcShape(cfg, s, step);
    var id := s.runs[step.r].id;
    var t := Next(cfg, s, step).m.objs[id];
    if t == s.m.objs[id] {
      assert s.m.(objs := s.m.objs[id := t]) == s.m;
      SameForward(s.m);
    } else {
      RewriteForward(s.m, id, t);
    }
  }

  lemma StartStepForward(cfg: Config, s: Core, step: Step)
    requires MgrInv(cfg, s.m) && Enabled(cfg, s, step) && step.StartLock?
    ensures Next(cfg, s, step).m.tasks.Keys <= Next(cfg, s, step).m.objs.Keys
    ensures MgrForward(s.m, Next(cfg, s, step).m)
  {
    SameForward(s.m);
    StartForward(cfg, s.m, step.id, step.name, step.createdAt, step.r, s.clock, step.batch);
  }

  lemma FulfillStepForward(cfg: Config, s: Core, step: Step)
    requires MgrInv(cfg, s.m) && Enabled(cfg, s, step) && step.FulfillLock?
    ensures Next(cfg, s, step).m.tasks.Keys <= Next(cfg, s, step).m.objs.Keys
    ensures MgrForward(s.m, Next(cfg, s, step).m)
  {
    FulfillShape(cfg, s, step.r, step.id, step.batch);
    if cfg.hasExec { FulfillForward(cfg, s.m, step.id, step.r, s.clock, step.batch); } else { SameForward(s.m); }
  }

  lemma FulfillShape(cfg: Config, s: Core, r: Reader, id: Id, batch: seq<Id>)
    requires BatchOk(cfg, s, batch)
    ensures DoFulfill(cfg, s, r, id, batch).m == if cfg.hasExec then FulfillLocked(cfg, s.m, id, r, s.clock, batch).0 else s.m
  {
  }

  lemma PrepareStepForward(cfg: Config, s: Core, step: Step)
    requires MgrInv(cfg, s.m) && Enabled(cfg, s, step) && step.PrepareLock?
    ensures Next(cfg, s, step).m.tasks.Keys <= Next(cfg, s, step).m.objs.Keys
    ensures MgrForward(s.m, Next(cfg, s, step).m)
  {
    PrepareForward(cfg, s.m, step.id, step.name, step.createdAt,
                   Entry(None, step.ttl, step.policy.mode, step.policy.wrap), s.clock, step.batch);
  }

  lemma CancelStepForward(cfg: Config, s: Core, c: nat, id: Id)
    requires MgrInv(cfg, s.m) && Enabled(cfg, s, CancelLock(c, id))
    ensures DoCancel(s, c, id).m.tasks.Keys <= DoCancel(s, c, id).m.objs.Keys
    ensures MgrForward(s.m, DoCancel(s, c, id).m)
  {
    CancelForward(cfg, s.m, id, s.clock);
    CancelShape(s, c, id);
  }

  lemma CancelShape(s: Core, c: nat, id: Id)
    requires WellFormed(s.m)
    ensures DoCancel(s, c, id).m == CancelLocked(s.m, id, s.clock).0
  {
  }

  /** One step of any party moves every handle forward. */
  lemma StepForward(cfg: Config, s: Core, step: Step)
    requires MgrInv(cfg, s.m) && Enabled(cfg, s, step)
    requires forall r :: r in s.runs ==> RunInv(s, r)
    ensures Next(cfg, s, step).m.tasks.Keys <= Next(cfg, s, step).m.objs.Keys
    ensures MgrForward(s.m, Next(cfg, s, step).m)
  {
    if step.StartLock? {
      StartStepForward(cfg, s, step);
    } else if step.FulfillLock? {
      FulfillStepForward(cfg, s, step);
    } else if step.PrepareLock? {
      PrepareStepForward(cfg, s, step);
    } else if step.CancelLock? {
      CancelStepForward(cfg, s, step.c, step.id);
    } else if step.Poll? {
      PruneForward(cfg, s.m, s.clock, step.batch);
    } else if step.WorkerBegin? || step.Complete? || step.DogFail? {
      TaskPcForward(cfg, s, step);
    } else {
      assert Next(cfg, s, step).m == s.m;
      SameForward(s.m);
    }
  }

  /** Time never runs back, and each step of a behaviour moves every handle forward. */
  lemma BehaviourStep(cfg: Config, trace: seq<Core>, steps: seq<Step>, i: nat)
    requires IsBehaviour(cfg, trace, steps) && i < |steps|
    ensures trace[i].m.tasks.Keys <= trace[i].m.objs.Keys && trace[i + 1].m.tasks.Keys <= trace[i + 1].m.objs.Keys
    ensures MgrForward(trace[i].m, trace[i + 1].m)
    ensures trace[i].clock <= trace[i + 1].clock
  {
    Reachable(cfg, trace, steps, i);
    StepForward(cfg, trace[i], steps[i]);
    ClockForward(cfg, trace[i], steps[i]);
  }

  lemma ClockForward(cfg: Config, s: Core, step: Step)
    requires Enabled(cfg, s, step)
    ensures s.clock <= Next(cfg, s, step).clock
  {
    if step.StartLock? {
      StartClock(cfg, s, step);
    } else if step.PrepareLock? {
      PrepareClock(cfg, s, step);
    } else if step.FulfillLock? {
      FulfillClock(cfg, s, step.r, step.id, step.batch);
    } else if step.CancelClose? {
      CancelCloseClock(s, step.c);
    }
  }

  lemma StartClock(cfg: Config, s: Core, step: Step)
    requires Enabled(cfg, s, step) && step.StartLock?
    ensures Next(cfg, s, step).clock == s.clock
  {
  }

  lemma PrepareClock(cfg: Config, s: Core, step: Step)
    requires Enabled(cfg, s, step) && step.PrepareLock?
    ensures Next(cfg, s, step).clock == s.clock
  {
  }

  lemma FulfillClock(cfg: Config, s: Core, r: Reader, id: Id, batch: seq<Id>)
    requires BatchOk(cfg, s, batch)
    ensures DoFulfill(cfg, s, r, id, batch).clock == s.clock
  {
  }

  lemma CancelCloseClock(s: Core, c: nat)
    requires c in s.cancels && s.cancels[c].pc.CancelClosing?
    ensures s.clock == DoCancelClose(s, c).clock
  {
  }

  ghost predicate Monotone(trace: seq<Core>) {
    && (forall k :: 0 <= k < |trace| ==> trace[k].m.tasks.Keys <= trace[k].m.objs.Keys)
    && (forall k :: 0 <= k < |trace| - 1 ==> MgrForward(trace[k].m, trace[k + 1].m) && trace[k].clock <= trace[k + 1].clock)
  }

  lemma BehaviourMonotone(cfg: Config, trace: seq<Core>, steps: seq<Step>)
    requires IsBehaviour(cfg, trace, steps)
    ensures Monotone(trace)
  {
    forall k | 0 <= k < |trace| ensures trace[k].m.tasks.Keys <= trace[k].m.objs.Keys {
      Reachable(cfg, trace, steps, k);
    }
    forall k | 0 <= k < |trace| - 1
      ensures MgrForward(trace[k].m, trace[k + 1].m) && trace[k].clock <= trace[k + 1].clock
    {
      BehaviourStep(cfg, trace, steps, k);
    }
  }

  lemma {:induction false} MonotoneForward(trace: seq<Core>, i: nat, j: nat)
    requires Monotone(trace) && i <= j < |trace|
    ensures MgrForward(trace[i].m, trace[j].m)
    ensures trace[i].clock <= trace[j].clock
    decreases j - i
  {
    if i == j {
      SameForward(trace[i].m);
    } else {
      MonotoneForward(trace, i, j - 1);
      ForwardTrans(trace[i].m, trace[j - 1].m, trace[j - 1 + 1].m);
    }
  }

  lemma BehaviourForward(cfg: Config, trace: seq<Core>, steps: seq<Step>, i: nat, j: nat)
    requires IsBehaviour(cfg, trace, steps) && i <= j < |trace|
    ensures trace[i].m.tasks.Keys <= trace[i].m.objs.Keys && trace[j].m.tasks.Keys <= trace[j].m.objs.Keys
    ensures MgrForward(trace[i].m, trace[j].m)
    ensures trace[i].clock <= trace[j].clock
  {
    BehaviourMonotone(cfg, trace, steps);
    MonotoneForward(trace, i, j);
  }

  /** Terminal states are irrevocable: state, result, error and finish time never change again. */
  lemma TerminalIrrevocable(cfg: Config, trace: seq<Core>, steps: seq<Step>, i: nat, j: nat, id: Id)
    requires IsBehaviour(cfg, trace, steps) && i <= j < |trace|
    requires id in trace[i].m.objs && trace[i].m.objs[id].state.Terminal()
    ensures id in trace[j].m.objs && trace[j].m.objs[id] == trace[i].m.objs[id]
  {
    BehaviourForward(cfg, trace, steps, i, j);
  }

  /** The answer of a status poll, a step that prunes and then looks the handle up. */
  ghost function Answer(trace: seq<Core>, i: nat, id: Id): Option<Task>
    requires i + 1 < |trace| && trace[i + 1].m.tasks.Keys <= trace[i + 1].m.objs.Keys
  {
    Lookup(trace[i + 1].m, id)
  }

  /** Successive status polls on a minted handle never go backwards: prepared, queued, running, then
      one fixed final or expired record, then unknown. So a handle seen expired is never seen live. */
  lemma PollsNeverGoBack(cfg: Config, trace: seq<Core>, steps: seq<Step>, i: nat, j: nat, id: Id)
    requires IsBehaviour(cfg, trace, steps) && i <= j < |steps| && steps[i].Poll? && steps[j].Poll?
    requires id in trace[i].m.objs
    ensures trace[i + 1].m.tasks.Keys <= trace[i + 1].m.objs.Keys
    ensures trace[j + 1].m.tasks.Keys <= trace[j + 1].m.objs.Keys
    ensures ViewForward(Answer(trace, i, id), Answer(trace, j, id))
  {
    BehaviourForward(cfg, trace, steps, i, i + 1);
    BehaviourForward(cfg, trace, steps, i + 1, j + 1);
  }
}
