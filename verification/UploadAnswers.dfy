/** What a task's record says and what the calls of the manager answer, over every behaviour, told by the
    steps that made it so. */
module UploadAnswers {
  import opened Prelude
  import opened UploadModel
  import opened UploadInvariants
  import opened UploadCore
  import opened UploadSafety
  import opened UploadSteps
  import opened UploadTheorems
  import opened UploadRetention

  // ---------------------------------------------------------------- the record, step by step

  /** The step submits or prepares task `id`, and the manager takes it: its record as of then. */
  ghost predicate Creates(s: Core, step: Step, n: Core, id: Id) {
    match step
    case StartLock(_, x, name, createdAt, _) =>
      x == id && id in n.m.objs &&
      n.m.objs[id] == Task(id, if name == "" then "upload" else name, Queued, createdAt, Some(s.clock), None, None, NoMessage)
    case PrepareLock(x, name, createdAt, _, _, _) =>
      x == id && id in n.m.objs &&
      n.m.objs[id] == Task(id, if name == "" then "upload" else name, Prepared, createdAt, None, None, None, NoMessage)
    case _ => false
  }

  /** What the executor's result makes of a task, at the instant at which it returned. */
  ghost predicate ShowsResult(t: Task, u: Task, res: ExecResult, at: Time) {
    && u.id == t.id && u.name == t.name && u.createdAt == t.createdAt && u.startedAt == t.startedAt
    && u.finishedAt == Some(at) && u.result == res.value
    && (res.error == NoError ==> u.state == Completed && u.err == t.err)
    && (res.error == DeadlineExceeded || res.error == ContextCanceled ==> u.state == Failed && u.err == ExecTimeoutMessage)
    && (res.error.OtherError? ==> u.state == Failed && u.err == Message(res.error.message))
  }

  /** How one step may change the record of task `id` from `t` to `u`. */
  ghost predicate RecordMoves(s: Core, step: Step, n: Core, id: Id, t: Task, u: Task) {
    match step
    case FulfillLock(r, x, _) =>
      u == if x == id && r in n.runs then t.(state := Queued, startedAt := Some(s.clock)) else t
    case CancelLock(c, x) =>
      u == if x == id && c in n.cancels && n.cancels[c].pc.CancelClosing?
           then t.(state := Cancelled, finishedAt := Some(s.clock)) else t
    case WorkerBegin(r) =>
      r in s.runs &&
      u == if s.runs[r].id == id && t.state == Queued then t.(state := Running, startedAt := Some(s.clock)) else t
    case Complete(r, finished) =>
      r in s.runs && s.runs[r].res.Some? &&
      if s.runs[r].id == id && t.state != Cancelled && !s.runs[r].timedOut then ShowsResult(t, u, s.runs[r].res.value, finished) else u == t
    case DogFail(r, failedAt) =>
      r in s.runs &&
      u == if s.runs[r].id == id && (t.state == Queued || t.state == Running)
           then t.(state := Failed, err := ExecTimeoutMessage, finishedAt := Some(failedAt)) else t
    case _ => u == t
  }

  lemma StartRecords(cfg: Config, s: Core, step: Step, id: Id)
    requires CoreInv(cfg, s) && Enabled(cfg, s, step) && step.StartLock?
    ensures var n := Next(cfg, s, step);
            && (id in s.m.objs ==> id in n.m.objs && n.m.objs[id] == s.m.objs[id])
            && (id !in s.m.objs && id in n.m.objs ==> Creates(s, step, n, id))
  {
    if cfg.hasExec {
      StartedRecords(cfg, s.m, step.id, step.name, step.createdAt, step.r, s.clock, step.batch);
      var (m, ok) := StartLocked(cfg, s.m, step.id, step.name, step.createdAt, step.r, s.clock, step.batch);
      SubmittedShape(s, step.r, ViaStart, step.id, Policy(Preserve, false), m, step.batch, ok);
    }
  }

  lemma StartedRecords(cfg: Config, m: Mgr, id: Id, name: string, createdAt: Time, r: Reader, now: Time, batch: seq<Id>)
    requires WellFormed(m) && IsBatch(cfg, m, now, batch)
    ensures var (n, ok) := StartLocked(cfg, m, id, name, createdAt, r, now, batch);
            n.objs == (if ok then m.objs[id := Task(id, if name == "" then "upload" else name, Queued, createdAt, Some(now), None, None, NoMessage)]
                       else m.objs)
  {
    var p := Prune(cfg, m, now, batch);
    PruneFrame(cfg, m, now, batch);
    var q := p.(objs := p.objs[id := NewTask(id, name, Queued, createdAt)]);
    RegisterShape(q, id, r, now);
  }

  lemma PrepareRecords(cfg: Config, s: Core, step: Step, id: Id)
    requires CoreInv(cfg, s) && Enabled(cfg, s, step) && step.PrepareLock?
    ensures var n := Next(cfg, s, step);
            && (id in s.m.objs ==> id in n.m.objs && n.m.objs[id] == s.m.objs[id])
            && (id !in s.m.objs && id in n.m.objs ==> Creates(s, step, n, id))
  {
    PrepareShape(cfg, s, step.id, step.name, step.createdAt, step.ttl, step.policy, step.batch);
    PruneFrame(cfg, s.m, s.clock, step.batch);
  }

  lemma FulfillRecords(cfg: Config, s: Core, r: Reader, x: Id, batch: seq<Id>, id: Id)
    requires CoreInv(cfg, s) && Enabled(cfg, s, FulfillLock(r, x, batch))
    ensures var n := DoFulfill(cfg, s, r, x, batch);
            && n.m.objs.Keys == s.m.objs.Keys
            && (id in s.m.objs ==> RecordMoves(s, FulfillLock(r, x, batch), n, id, s.m.objs[id], n.m.objs[id]))
  {
    FulfillRuns(cfg, s, r, x, batch);
    FulfillShape(cfg, s, r, x, batch);
    FulfilledRecords(cfg, s.m, x, r, s.clock, batch);
    ClaimMoves(s, DoFulfill(cfg, s, r, x, batch), r, x, batch, id);
  }

  lemma ClaimMoves(s: Core, n: Core, r: Reader, x: Id, batch: seq<Id>, id: Id)
    requires r in n.runs ==> x in s.m.objs && n.m.objs == s.m.objs[x := s.m.objs[x].(state := Queued, startedAt := Some(s.clock))]
    requires r !in n.runs ==> n.m.objs == s.m.objs
    ensures n.m.objs.Keys == s.m.objs.Keys
    ensures id in s.m.objs ==> RecordMoves(s, FulfillLock(r, x, batch), n, id, s.m.objs[id], n.m.objs[id])
  {
  }

  lemma FulfilledRecords(cfg: Config, m: Mgr, id: Id, r: Reader, now: Time, batch: seq<Id>)
    requires WellFormed(m) && IsBatch(cfg, m, now, batch)
    ensures var (n, out) := FulfillLocked(cfg, m, id, r, now, batch);
            && (out == Claimed ==> id in m.objs && n.objs == m.objs[id := m.objs[id].(state := Queued, startedAt := Some(now))])
            && (out != Claimed ==> n.objs == m.objs)
  {
    if FulfillCheck(m, id) == Claimed {
      PruneFrame(cfg, m, now, batch);
      RegisterShape(Prune(cfg, m, now, batch), id, r, now);
    }
  }

  /** Fulfill makes a run exactly when it claims. */
  lemma FulfillRuns(cfg: Config, s: Core, r: Reader, x: Id, batch: seq<Id>)
    requires CoreInv(cfg, s) && Enabled(cfg, s, FulfillLock(r, x, batch))
    ensures var n := DoFulfill(cfg, s, r, x, batch);
            && (r in n.runs <==> cfg.hasExec && FulfillLocked(cfg, s.m, x, r, s.clock, batch).1 == Claimed)
            && r in n.subs && (n.subs[r].pc.SubAccepted? <==> r in n.runs)
  {
    assert r in s.runs ==> RunInv(s, r);
    if cfg.hasExec && FulfillCheck(s.m, x) == Claimed {
      var e := s.m.tasks[x];
      var (m, out) := FulfillLocked(cfg, s.m, x, r, s.clock, batch);
      SubmittedRuns(s, r, ViaFulfill, x, Policy(e.archiveMode, e.wrap), m, batch, out == Claimed);
    }
  }

  lemma SubmittedRuns(s: Core, r: Reader, kind: SubKind, id: Id, policy: Policy, m: Mgr, batch: seq<Id>, ok: bool)
    requires r !in s.runs
    ensures var n := Submitted(s, r, kind, id, policy, m, batch, ok);
            (r in n.runs <==> ok) && r in n.subs && (n.subs[r].pc.SubAccepted? <==> ok)
  {
  }

  lemma CancelRecords(cfg: Config, s: Core, c: nat, x: Id, id: Id)
    requires CoreInv(cfg, s) && Enabled(cfg, s, CancelLock(c, x))
    ensures var n := DoCancel(s, c, x);
            && n.m.objs.Keys == s.m.objs.Keys
            && (id in s.m.objs ==> RecordMoves(s, CancelLock(c, x), n, id, s.m.objs[id], n.m.objs[id]))
  {
    CancelShape(s, c, x);
    CancelledRecords(s.m, x, s.clock);
    CancelCommits(s, c, x);
  }

  lemma CancelledRecords(m: Mgr, id: Id, now: Time)
    requires m.tasks.Keys <= m.objs.Keys
    ensures var (n, out) := CancelLocked(m, id, now);
            && (out == CancelOk ==> id in m.objs && n.objs == m.objs[id := m.objs[id].(state := Cancelled, finishedAt := Some(now))])
            && (out != CancelOk ==> n.objs == m.objs)
  {
  }

  lemma CancelCommits(s: Core, c: nat, x: Id)
    requires WellFormed(s.m)
    ensures var n := DoCancel(s, c, x);
            c in n.cancels && (n.cancels[c].pc.CancelClosing? <==> CancelLocked(s.m, x, s.clock).1 == CancelOk)
  {
  }

  lemma RunRecords(cfg: Config, s: Core, step: Step, id: Id)
    requires CoreInv(cfg, s) && Enabled(cfg, s, step) && (step.WorkerBegin? || step.Complete? || step.DogFail?)
    ensures var n := Next(cfg, s, step);
            && n.m.objs.Keys == s.m.objs.Keys
            && (id in s.m.objs ==> RecordMoves(s, step, n, id, s.m.objs[id], n.m.objs[id]))
  {
    assert RunInv(s, step.r);
    if step.Complete? {
      CompleteRecords(cfg, s, step.r, step.finished, id);
    } else if step.DogFail? {
      DogRecords(cfg, s, step.r, step.failedAt, id);
    } else {
      BeginRecords(cfg, s, step.r, id);
    }
  }

  lemma BeginRecords(cfg: Config, s: Core, r: Reader, id: Id)
    requires Enabled(cfg, s, WorkerBegin(r))
    ensures var n := DoBegin(s, r);
            && n.m.objs.Keys == s.m.objs.Keys
            && (id in s.m.objs ==> RecordMoves(s, WorkerBegin(r), n, id, s.m.objs[id], n.m.objs[id]))
  {
  }

  lemma DogRecords(cfg: Config, s: Core, r: Reader, failedAt: Time, id: Id)
    requires Enabled(cfg, s, DogFail(r, failedAt))
    ensures var n := DoDogFail(s, r, failedAt);
            && n.m.objs.Keys == s.m.objs.Keys
            && (id in s.m.objs ==> RecordMoves(s, DogFail(r, failedAt), n, id, s.m.objs[id], n.m.objs[id]))
  {
  }

  lemma CompleteRecords(cfg: Config, s: Core, r: Reader, finished: Time, id: Id)
    requires Enabled(cfg, s, Complete(r, finished)) && RunInv(s, r)
    ensures var n := DoComplete(s, r, finished);
            && n.m.objs.Keys == s.m.objs.Keys
            && (id in s.m.objs ==> RecordMoves(s, Complete(r, finished), n, id, s.m.objs[id], n.m.objs[id]))
  {
  }

  lemma CallRecords(cfg: Config, s: Core, step: Step, id: Id)
    requires CoreInv(cfg, s) && Enabled(cfg, s, step) && (step.FulfillLock? || step.CancelLock?)
    ensures var n := Next(cfg, s, step);
            && n.m.objs.Keys == s.m.objs.Keys
            && (id in s.m.objs ==> RecordMoves(s, step, n, id, s.m.objs[id], n.m.objs[id]))
  {
    if step.FulfillLock? {
      FulfillRecords(cfg, s, step.r, step.id, step.batch, id);
    } else {
      CancelRecords(cfg, s, step.c, step.id, id);
    }
  }

  lemma NewRecords(cfg: Config, s: Core, step: Step, id: Id)
    requires CoreInv(cfg, s) && Enabled(cfg, s, step) && (step.StartLock? || step.PrepareLock?)
    ensures var n := Next(cfg, s, step);
            && (id in s.m.objs ==> id in n.m.objs && n.m.objs[id] == s.m.objs[id])
            && (id !in s.m.objs && id in n.m.objs ==> Creates(s, step, n, id))
  {
    if step.StartLock? {
      StartRecords(cfg, s, step, id);
    } else {
      PrepareRecords(cfg, s, step, id);
    }
  }

  /** Neither a status poll nor any other step touches a record. */
  lemma OtherRecords(cfg: Config, s: Core, step: Step)
    requires CoreInv(cfg, s) && Enabled(cfg, s, step)
    requires step.Poll? || PcStep(step) || step.CallExec? || step.Tick? || step.RefusedClose? || step.CancelClose?
    ensures Next(cfg, s, step).m.objs == s.m.objs
  {
    if step.Poll? {
      PruneFrame(cfg, s.m, s.clock, step.batch);
    } else {
      QuietSame(cfg, s, step);
    }
  }

  /** Every step of every party changes records in these ways only. */
  lemma StepRecords(cfg: Config, s: Core, step: Step, id: Id)
    requires CoreInv(cfg, s) && Enabled(cfg, s, step)
    ensures var n := Next(cfg, s, step);
            && (id in s.m.objs ==> id in n.m.objs && RecordMoves(s, step, n, id, s.m.objs[id], n.m.objs[id]))
            && (id !in s.m.objs && id in n.m.objs ==> Creates(s, step, n, id))
  {
    if step.StartLock? || step.PrepareLock? {
      NewRecords(cfg, s, step, id);
    } else if step.FulfillLock? || step.CancelLock? {
      CallRecords(cfg, s, step, id);
    } else if step.WorkerBegin? || step.Complete? || step.DogFail? {
      RunRecords(cfg, s, step, id);
    } else {
      OtherRecords(cfg, s, step);
    }
  }

  // ---------------------------------------------------------------- where a record comes from

  ghost predicate SameBirth(t: Task, u: Task) { u.id == t.id && u.name == t.name && u.createdAt == t.createdAt }

  lemma MovesKeepBirth(s: Core, step: Step, n: Core, id: Id, t: Task, u: Task)
    requires RecordMoves(s, step, n, id, t, u)
    ensures SameBirth(t, u)
  {
  }

  /** What one step means for the birth of task `id`. */
  ghost predicate BirthMoves(s: Core, step: Step, n: Core, id: Id) {
    && (id in s.m.objs ==> id in n.m.objs && SameBirth(s.m.objs[id], n.m.objs[id]))
    && (id !in s.m.objs && id in n.m.objs ==> Creates(s, step, n, id))
  }

  lemma {:induction false} BirthAlong(trace: seq<Core>, steps: seq<Step>, j: nat, id: Id) returns (k: nat)
    requires |trace| == |steps| + 1 && j < |trace| && id !in trace[0].m.objs && id in trace[j].m.objs
    requires forall i :: 0 <= i < |steps| ==> BirthMoves(trace[i], steps[i], trace[i + 1], id)
    ensures k < j && Creates(trace[k], steps[k], trace[k + 1], id) && SameBirth(trace[k + 1].m.objs[id], trace[j].m.objs[id])
  {
    assert BirthMoves(trace[j - 1], steps[j - 1], trace[j - 1 + 1], id);
    if id in trace[j - 1].m.objs {
      k := BirthAlong(trace, steps, j - 1, id);
    } else {
      k := j - 1;
    }
  }

  /** Every record shows the name and the instant of the Start or Prepare that made it; without a name the
      task is called "upload". */
  lemma RecordBirth(cfg: Config, trace: seq<Core>, steps: seq<Step>, j: nat, id: Id) returns (k: nat)
    requires IsBehaviour(cfg, trace, steps) && j < |trace| && id in trace[j].m.objs
    ensures k < j && Creates(trace[k], steps[k], trace[k + 1], id) && SameBirth(trace[k + 1].m.objs[id], trace[j].m.objs[id])
  {
    forall i | 0 <= i < |steps| ensures BirthMoves(trace[i], steps[i], trace[i + 1], id) {
      Reachable(cfg, trace, steps, i);
      StepRecords(cfg, trace[i], steps[i], id);
      if id in trace[i].m.objs {
        MovesKeepBirth(trace[i], steps[i], trace[i + 1], id, trace[i].m.objs[id], trace[i + 1].m.objs[id]);
      }
    }
    k := BirthAlong(trace, steps, j, id);
  }

  // ---------------------------------------------------------------- the instant at which a task ends

  ghost predicate Over(t: Task) { t.state == Completed || t.state == Failed || t.state == Cancelled }

  /** The instant that goes with a step: the one it was given, else that of its locked region. */
  ghost function EndTime(s: Core, step: Step): Time {
    match step
    case Complete(_, finished) => finished
    case DogFail(_, failedAt) => failedAt
    case _ => s.clock
  }

  /** This step ends task `id`. */
  ghost predicate Ends(s: Core, n: Core, id: Id) {
    id in s.m.objs && id in n.m.objs && !Over(s.m.objs[id]) && Over(n.m.objs[id])
  }

  lemma MovesEnd(s: Core, step: Step, n: Core, id: Id, t: Task, u: Task)
    requires RecordMoves(s, step, n, id, t, u) && !Over(t) && Over(u)
    ensures step.Complete? || step.CancelLock? || step.DogFail?
    ensures u.finishedAt == Some(EndTime(s, step))
    ensures step.Complete? ==> ShowsResult(t, u, s.runs[step.r].res.value, step.finished) && s.runs[step.r].id == id
    ensures step.CancelLock? ==> u == t.(state := Cancelled, finishedAt := Some(s.clock)) && step.id == id
    ensures step.DogFail? ==> u == t.(state := Failed, err := ExecTimeoutMessage, finishedAt := Some(step.failedAt)) && s.runs[step.r].id == id
  {
  }

  /** A task that ends was live, and stays so in that step. */
  lemma EndsLive(cfg: Config, s: Core, step: Step, id: Id)
    requires CoreInv(cfg, s) && Enabled(cfg, s, step) && Ends(s, Next(cfg, s, step), id)
    ensures id in Next(cfg, s, step).m.tasks
  {
    StepRecords(cfg, s, step, id);
    MovesEnd(s, step, Next(cfg, s, step), id, s.m.objs[id], Next(cfg, s, step).m.objs[id]);
    if step.CancelLock? {
      QuietCancel(s, step.c, step.id);
      CommitsLive(s, step.c, step.id);
    } else {
      QuietRewrite(cfg, s, step);
      assert RunInv(s, step.r);
      EndedWasActive(s, step.r);
    }
  }

  lemma CommitsLive(s: Core, c: nat, x: Id)
    requires WellFormed(s.m)
    ensures DoCancel(s, c, x).m != s.m ==> x in s.m.tasks
  {
    CancelShape(s, c, x);
  }

  lemma EndedWasActive(s: Core, r: Reader)
    requires r in s.runs && RunInv(s, r) && !Over(s.m.objs[s.runs[r].id])
    ensures s.runs[r].id in s.m.tasks
  {
  }

  /** A task ends by its worker's completion, by a Cancel or by its watchdog, and its record then shows the
      instant of just that step, and the result that belongs to it. */
  lemma EndInstant(cfg: Config, trace: seq<Core>, steps: seq<Step>, k: nat, id: Id)
    requires IsBehaviour(cfg, trace, steps) && k < |steps| && Ends(trace[k], trace[k + 1], id)
    ensures var t, u := trace[k].m.objs[id], trace[k + 1].m.objs[id];
            && u.finishedAt == Some(EndTime(trace[k], steps[k]))
            && match steps[k]
               case Complete(r, finished) =>
                 r in trace[k].runs && trace[k].runs[r].id == id && trace[k].runs[r].res.Some? &&
                 ShowsResult(t, u, trace[k].runs[r].res.value, finished)
               case CancelLock(_, x) => x == id && u == t.(state := Cancelled, finishedAt := Some(trace[k].clock))
               case DogFail(r, failedAt) =>
                 r in trace[k].runs && trace[k].runs[r].id == id &&
                 u == t.(state := Failed, err := ExecTimeoutMessage, finishedAt := Some(failedAt))
               case _ => false
    ensures id in trace[k + 1].m.tasks
  {
    Reachable(cfg, trace, steps, k);
    StepRecords(cfg, trace[k], steps[k], id);
    MovesEnd(trace[k], steps[k], trace[k + 1], id, trace[k].m.objs[id], trace[k + 1].m.objs[id]);
    EndsLive(cfg, trace[k], steps[k], id);
  }

  // ---------------------------------------------------------------- what a poll shows

  /** A status poll shows a live task's record as it is; of a task that is no longer live the final record or
      the expiry notice, while its tombstone is kept; and nothing otherwise. */
  lemma PollShows(cfg: Config, trace: seq<Core>, steps: seq<Step>, i: nat, id: Id)
    requires IsBehaviour(cfg, trace, steps) && i < |steps| && steps[i].Poll?
    ensures trace[i + 1].m.tasks.Keys <= trace[i + 1].m.objs.Keys
    ensures var n := trace[i + 1];
            var a := Answer(trace, i, id);
            if id in n.m.tasks then a == Some(n.m.objs[id])
            else if id in n.m.tombs then
              id in n.m.objs && id in n.recAt &&
              var t := n.m.objs[id];
              (Over(t) && a == Some(t)) ||
              (t.state == Prepared && a == Some(t.(state := Expired, err := ExpiredMessage, finishedAt := Some(n.recAt[id]))))
            else a == None
  {
    Reachable(cfg, trace, steps, i + 1);
    var n := trace[i + 1];
    if id !in n.m.tasks && id in n.m.tombs {
      assert StampOk(cfg, n.m.tombs[id], n.recAt[id], n.clock);
    }
  }

  /** After a task has ended, every poll within the retention, counted from the instant of the step that
      ended it, shows the record that this step made. */
  lemma EndIsShown(cfg: Config, trace: seq<Core>, steps: seq<Step>, k: nat, i: nat, id: Id)
    requires IsBehaviour(cfg, trace, steps) && k < i < |steps| && Ends(trace[k], trace[k + 1], id) && steps[i].Poll?
    requires cfg.ttl > 0 ==> trace[i].clock <= EndTime(trace[k], steps[k]) + cfg.ttl
    ensures trace[i + 1].m.tasks.Keys <= trace[i + 1].m.objs.Keys
    ensures Answer(trace, i, id) == Some(trace[k + 1].m.objs[id])
  {
    EndInstant(cfg, trace, steps, k, id);
    PollClock(cfg, trace[i], steps[i]);
    FinishedTasksRetained(cfg, trace, steps, k + 1, i + 1, id);
    PollShows(cfg, trace, steps, i, id);
  }

  lemma PollClock(cfg: Config, s: Core, step: Step)
    requires Enabled(cfg, s, step) && step.Poll?
    ensures Next(cfg, s, step).clock == s.clock
  {
  }

  /** The worker that completes a task which nobody cancelled or timed out ends it. */
  lemma CompletionEnds(cfg: Config, s: Core, r: Reader, finished: Time)
    requires CoreInv(cfg, s) && Enabled(cfg, s, Complete(r, finished))
    requires s.m.objs[s.runs[r].id].state != Cancelled && !s.runs[r].timedOut
    ensures Ends(s, Next(cfg, s, Complete(r, finished)), s.runs[r].id)
  {
    var id := s.runs[r].id;
    assert RunInv(s, r);
    ReadyIsRunning(s, r);
    CompleteRecords(cfg, s, r, finished, id);
    ResultMoves(s, DoComplete(s, r, finished), r, finished, id);
  }

  lemma ResultMoves(s: Core, n: Core, r: Reader, finished: Time, id: Id)
    requires id in s.m.objs && id in n.m.objs && RecordMoves(s, Complete(r, finished), n, id, s.m.objs[id], n.m.objs[id])
    requires s.runs[r].id == id && s.m.objs[id].state == Running && !s.runs[r].timedOut
    ensures Ends(s, n, id)
  {
    ResultEnds(s.m.objs[id], n.m.objs[id], s.runs[r].res.value, finished);
  }

  lemma ReadyIsRunning(s: Core, r: Reader)
    requires r in s.runs && RunInv(s, r) && s.runs[r].worker.WReady? && !s.runs[r].timedOut
    requires s.m.objs[s.runs[r].id].state != Cancelled
    ensures s.m.objs[s.runs[r].id].state == Running
  {
  }

  lemma ResultEnds(t: Task, u: Task, res: ExecResult, at: Time)
    requires ShowsResult(t, u, res, at)
    ensures Over(u)
  {
  }

  /** So an upload whose executor returned at `finished`, and which neither a Cancel nor the watchdog ended
      before, is shown with the executor's result at every poll until `finished` plus the TTL. */
  lemma ResultIsShown(cfg: Config, trace: seq<Core>, steps: seq<Step>, k: nat, i: nat, r: Reader, finished: Time)
    requires IsBehaviour(cfg, trace, steps) && k < i < |steps| && steps[k] == Complete(r, finished) && steps[i].Poll?
    requires var s := trace[k];
             r in s.runs && s.runs[r].id in s.m.objs && s.m.objs[s.runs[r].id].state != Cancelled && !s.runs[r].timedOut
    requires cfg.ttl > 0 ==> trace[i].clock <= finished + cfg.ttl
    ensures trace[i + 1].m.tasks.Keys <= trace[i + 1].m.objs.Keys && trace[k].runs[r].res.Some?
    ensures var a := Answer(trace, i, trace[k].runs[r].id);
            a.Some? && ShowsResult(trace[k].m.objs[trace[k].runs[r].id], a.value, trace[k].runs[r].res.value, finished)
  {
    var id := trace[k].runs[r].id;
    Reachable(cfg, trace, steps, k);
    CompletionEnds(cfg, trace[k], r, finished);
    EndInstant(cfg, trace, steps, k, id);
    EndIsShown(cfg, trace, steps, k, i, id);
  }

  /** The poll in which the window of an unfulfilled handle has run out shows the expiry notice, with the
      instant of the poll. */
  lemma ExpiryIsShown(cfg: Config, trace: seq<Core>, steps: seq<Step>, i: nat, id: Id)
    requires IsBehaviour(cfg, trace, steps) && i < |steps| && steps[i].Poll? && cfg.ttl > 0
    requires id in trace[i].m.tasks && id in trace[i].m.objs && trace[i].m.objs[id].state == Prepared
    requires var own := trace[i].m.tasks[id].preparedTTL;
             var window := if own <= 0 then cfg.preparedTTL else own;
             window > 0 && trace[i].m.objs[id].createdAt + window < trace[i].clock
    ensures trace[i + 1].m.tasks.Keys <= trace[i + 1].m.objs.Keys
    ensures Answer(trace, i, id) ==
            Some(trace[i].m.objs[id].(state := Expired, err := ExpiredMessage, finishedAt := Some(trace[i].clock)))
  {
    Reachable(cfg, trace, steps, i);
    LapsedEvictable(cfg, trace[i].m.objs[id], trace[i].m.tasks[id], trace[i].clock);
    NoticeSurvives(cfg, trace[i].m, trace[i].clock, steps[i].batch, id);
    PollMgr(cfg, trace[i], steps[i]);
    NoticeShown(trace[i + 1].m, id);
  }

  lemma LapsedEvictable(cfg: Config, t: Task, e: Entry, now: Time)
    requires t.state == Prepared
    requires var window := if e.preparedTTL <= 0 then cfg.preparedTTL else e.preparedTTL; window > 0 && t.createdAt + window < now
    ensures Evictable(cfg, t, e, now)
  {
  }

  lemma PollMgr(cfg: Config, s: Core, step: Step)
    requires Enabled(cfg, s, step) && step.Poll?
    ensures Next(cfg, s, step).m == Prune(cfg, s.m, s.clock, step.batch)
  {
  }

  lemma NoticeShown(m: Mgr, id: Id)
    requires m.tasks.Keys <= m.objs.Keys && id !in m.tasks && id in m.tombs
    ensures Lookup(m, id) == Some(m.tombs[id])
  {
  }

  lemma NoticeSurvives(cfg: Config, m: Mgr, now: Time, batch: seq<Id>, id: Id)
    requires MgrInv(cfg, m) && IsBatch(cfg, m, now, batch) && cfg.ttl > 0
    requires id in m.tasks && m.objs[id].state == Prepared && Evictable(cfg, m.objs[id], m.tasks[id], now)
    ensures var p := Prune(cfg, m, now, batch);
            p.tasks.Keys <= p.objs.Keys && id !in p.tasks && id in p.tombs &&
            p.tombs[id] == m.objs[id].(state := Expired, err := ExpiredMessage, finishedAt := Some(now))
  {
    PruneFrame(cfg, m, now, batch);
    EvictAllIndex(cfg, m, now, batch);
    var mid := EvictAll(m, batch, now);
    assert id in EvictSet(cfg, m, now);
    assert id in mid.tombs.Keys;
    var i :| 0 <= i < |mid.order| && mid.order[i] == id;
    RetiredExactly(mid, Cutoff(cfg, now), i);
    assert !Retirable(mid.tombs, mid.order[i], Cutoff(cfg, now));
  }

  // ---------------------------------------------------------------- who is admitted, and who is refused why

  /** Fewer tasks are queued or running than may be. */
  ghost predicate RoomToRun(cfg: Config, m: Mgr)
    requires m.tasks.Keys <= m.objs.Keys
  {
    cfg.maxActive <= 0 || |set x | x in m.tasks && (m.objs[x].state == Queued || m.objs[x].state == Running)| < cfg.maxActive
  }

  lemma RoomIsSlot(cfg: Config, m: Mgr)
    requires m.tasks.Keys <= m.objs.Keys
    ensures ActiveSlotFree(cfg, m) <==> RoomToRun(cfg, m)
  {
    CountedIds(m);
  }

  /** A Start is accepted if and only if there is an executor and room to run. */
  lemma StartExact(cfg: Config, trace: seq<Core>, steps: seq<Step>, i: nat)
    requires IsBehaviour(cfg, trace, steps) && i < |steps| && steps[i].StartLock?
    ensures trace[i].m.tasks.Keys <= trace[i].m.objs.Keys && steps[i].r in trace[i + 1].subs
    ensures trace[i + 1].subs[steps[i].r].pc.SubAccepted? <==> cfg.hasExec && RoomToRun(cfg, trace[i].m)
  {
    var s, x := trace[i], steps[i];
    Reachable(cfg, trace, steps, i);
    RoomIsSlot(cfg, s.m);
    StartAnswer(cfg, s, x.r, x.id, x.name, x.createdAt, x.batch);
  }

  lemma StartAnswer(cfg: Config, s: Core, r: Reader, id: Id, name: string, createdAt: Time, batch: seq<Id>)
    requires CoreInv(cfg, s) && Enabled(cfg, s, StartLock(r, id, name, createdAt, batch))
    ensures var n := DoStart(cfg, s, r, id, name, createdAt, batch);
            r in n.subs && (n.subs[r].pc.SubAccepted? <==> cfg.hasExec && ActiveSlotFree(cfg, s.m))
  {
    if cfg.hasExec {
      SlotsKept(cfg, s.m, s.clock, batch);
      var (m, ok) := StartLocked(cfg, s.m, id, name, createdAt, r, s.clock, batch);
      StartSlot(cfg, s.m, id, name, createdAt, r, s.clock, batch);
      assert r in s.runs ==> RunInv(s, r);
      SubmittedRuns(s, r, ViaStart, id, Policy(Preserve, false), m, batch, ok);
    }
  }

  lemma StartSlot(cfg: Config, m: Mgr, id: Id, name: string, createdAt: Time, r: Reader, now: Time, batch: seq<Id>)
    requires WellFormed(m) && IsBatch(cfg, m, now, batch) && Prune(cfg, m, now, batch).tasks.Keys <= Prune(cfg, m, now, batch).objs.Keys
    ensures StartLocked(cfg, m, id, name, createdAt, r, now, batch).1 <==> ActiveSlotFree(cfg, Prune(cfg, m, now, batch))
  {
  }

  /** A prune frees no slot, because it drops neither queued nor running tasks. */
  lemma SlotsKept(cfg: Config, m: Mgr, now: Time, batch: seq<Id>)
    requires MgrInv(cfg, m) && IsBatch(cfg, m, now, batch)
    ensures var p := Prune(cfg, m, now, batch); p.tasks.Keys <= p.objs.Keys && (ActiveSlotFree(cfg, p) <==> ActiveSlotFree(cfg, m))
  {
    PruneKeeps(cfg, m, now, batch);
  }

  /** The window of an unfulfilled task has run out. */
  ghost predicate Lapsed(cfg: Config, m: Mgr, x: Id, now: Time)
    requires x in m.tasks && x in m.objs
  {
    var window := if m.tasks[x].preparedTTL <= 0 then cfg.preparedTTL else m.tasks[x].preparedTTL;
    cfg.ttl > 0 && m.objs[x].state == Prepared && window > 0 && m.objs[x].createdAt + window < now
  }

  /** A Prepare is accepted if and only if fewer tasks than may be still wait for bytes, those whose window has
      run out not counted. */
  lemma PrepareExact(cfg: Config, trace: seq<Core>, steps: seq<Step>, i: nat)
    requires IsBehaviour(cfg, trace, steps) && i < |steps| && steps[i].PrepareLock?
    ensures trace[i].m.tasks.Keys <= trace[i].m.objs.Keys
    ensures var m := trace[i].m;
            steps[i].id in trace[i + 1].m.tasks <==>
            cfg.maxPrepared <= 0 ||
            |set x | x in m.tasks && m.objs[x].state == Prepared && !Lapsed(cfg, m, x, trace[i].clock)| < cfg.maxPrepared
  {
    var s, x := trace[i], steps[i];
    Reachable(cfg, trace, steps, i);
    PrepareShape(cfg, s, x.id, x.name, x.createdAt, x.ttl, x.policy, x.batch);
    PrepareSlot(cfg, s.m, x.id, x.name, x.createdAt, Entry(None, x.ttl, x.policy.mode, x.policy.wrap), s.clock, x.batch);
  }

  lemma PrepareSlot(cfg: Config, m: Mgr, id: Id, name: string, createdAt: Time, e: Entry, now: Time, batch: seq<Id>)
    requires MgrInv(cfg, m) && IsBatch(cfg, m, now, batch) && id !in m.objs
    ensures id in PrepareLocked(cfg, m, id, name, createdAt, e, now, batch).0.tasks <==>
            cfg.maxPrepared <= 0 || |set x | x in m.tasks && m.objs[x].state == Prepared && !Lapsed(cfg, m, x, now)| < cfg.maxPrepared
  {
    PruneFrame(cfg, m, now, batch);
    PreparedTaken(cfg, m, id, name, createdAt, e, now, batch);
    StillPrepared(cfg, m, Prune(cfg, m, now, batch), now);
  }

  lemma PreparedTaken(cfg: Config, m: Mgr, id: Id, name: string, createdAt: Time, e: Entry, now: Time, batch: seq<Id>)
    requires WellFormed(m) && IsBatch(cfg, m, now, batch) && id !in m.objs
    requires Prune(cfg, m, now, batch).tasks.Keys <= Prune(cfg, m, now, batch).objs.Keys && Prune(cfg, m, now, batch).objs == m.objs
    ensures id in PrepareLocked(cfg, m, id, name, createdAt, e, now, batch).0.tasks <==> PreparedSlotFree(cfg, Prune(cfg, m, now, batch))
  {
  }

  lemma StillPrepared(cfg: Config, m: Mgr, p: Mgr, now: Time)
    requires WellFormed(m) && p.objs == m.objs && p.tasks == if cfg.ttl <= 0 then m.tasks else m.tasks - EvictSet(cfg, m, now)
    ensures p.tasks.Keys <= p.objs.Keys
    ensures PreparedIds(p) == set x | x in m.tasks && m.objs[x].state == Prepared && !Lapsed(cfg, m, x, now)
  {
  }

  /** Why a Fulfill is refused, or not: told by the record and the tombstone of the handle. */
  lemma FulfillReasons(cfg: Config, m: Mgr, id: Id, r: Reader, now: Time, batch: seq<Id>)
    requires MgrInv(cfg, m) && IsBatch(cfg, m, now, batch)
    ensures var out := FulfillLocked(cfg, m, id, r, now, batch).1;
            && (out == HandleExpired <==> id in m.tombs)
            && (out == UnknownHandle <==> id !in m.tombs && id !in m.tasks)
            && (out == InProgress <==> id in m.tasks && (m.objs[id].state == Queued || m.objs[id].state == Running))
            && (forall st :: out == AlreadyFinished(st) <==> id in m.tasks && Over(m.objs[id]) && m.objs[id].state == st)
            && (out == NoSlot <==> id in m.tasks && m.objs[id].state == Prepared && !RoomToRun(cfg, m))
            && (out == Claimed <==> id in m.tasks && m.objs[id].state == Prepared && RoomToRun(cfg, m))
  {
    RoomIsSlot(cfg, m);
    if id in m.tasks && m.objs[id].state == Prepared {
      FulfillRevives(cfg, m, id, r, now, batch);
    }
  }

  /** A Fulfill is accepted if and only if there is an executor, the handle is live and still waits for bytes,
      and there is room to run. */
  lemma FulfillExact(cfg: Config, trace: seq<Core>, steps: seq<Step>, i: nat)
    requires IsBehaviour(cfg, trace, steps) && i < |steps| && steps[i].FulfillLock?
    ensures trace[i].m.tasks.Keys <= trace[i].m.objs.Keys && steps[i].r in trace[i + 1].subs
    ensures var m := trace[i].m;
            trace[i + 1].subs[steps[i].r].pc.SubAccepted? <==>
            cfg.hasExec && steps[i].id in m.tasks && m.objs[steps[i].id].state == Prepared && RoomToRun(cfg, m)
  {
    var s, x := trace[i], steps[i];
    Reachable(cfg, trace, steps, i);
    FulfillRuns(cfg, s, x.r, x.id, x.batch);
    FulfillReasons(cfg, s.m, x.id, x.r, s.clock, x.batch);
  }

  /** What a Cancel does or answers: it succeeds on a live task that is not over; of one that is over it reports
      the state, as it does from the tombstone of one that is gone; otherwise it knows no such handle. */
  lemma CancelExact(cfg: Config, trace: seq<Core>, steps: seq<Step>, i: nat)
    requires IsBehaviour(cfg, trace, steps) && i < |steps| && steps[i].CancelLock?
    ensures trace[i].m.tasks.Keys <= trace[i].m.objs.Keys && steps[i].c in trace[i + 1].cancels
    ensures var m, x, pc := trace[i].m, steps[i].id, trace[i + 1].cancels[steps[i].c].pc;
            && (forall owner :: pc == CancelClosing(owner) <==> x in m.tasks && !Over(m.objs[x]) && m.tasks[x].owner == owner)
            && (forall st :: pc == CancelReturned(NotCancellable(st)) <==> x in m.tasks && Over(m.objs[x]) && m.objs[x].state == st)
            && (forall st :: pc == CancelReturned(FinishedAlready(st)) <==> x !in m.tasks && x in m.tombs && m.tombs[x].state == st)
            && (pc == CancelReturned(NoSuchHandle) <==> x !in m.tasks && x !in m.tombs)
  {
    Reachable(cfg, trace, steps, i);
    CancelPc(trace[i], steps[i].c, steps[i].id);
    CancelAnswers(trace[i].m, steps[i].id, trace[i].clock);
  }

  lemma CancelPc(s: Core, c: nat, x: Id)
    requires WellFormed(s.m)
    ensures var out := CancelLocked(s.m, x, s.clock).1;
            && (out == CancelOk ==> x in s.m.tasks)
            && c in DoCancel(s, c, x).cancels
            && DoCancel(s, c, x).cancels[c].pc == if out == CancelOk then CancelClosing(s.m.tasks[x].owner) else CancelReturned(out)
  {
  }

  lemma CancelAnswers(m: Mgr, id: Id, now: Time)
    requires ObjInv(m)
    ensures var out := CancelLocked(m, id, now).1;
            && (out == CancelOk <==> id in m.tasks && !Over(m.objs[id]))
            && (forall st :: out == NotCancellable(st) <==> id in m.tasks && Over(m.objs[id]) && m.objs[id].state == st)
            && (forall st :: out == FinishedAlready(st) <==> id !in m.tasks && id in m.tombs && m.tombs[id].state == st)
            && (out == NoSuchHandle <==> id !in m.tasks && id !in m.tombs)
  {
  }
}
