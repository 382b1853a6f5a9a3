/** The inductive invariant of the upload machine, kept by every step of every party. */
module UploadSafety {
  import opened Prelude
  import opened UploadModel
  import opened UploadInvariants
  import opened UploadCore

  // ---------------------------------------------------------------- the invariant

  /** The worker has reached its executor call. */
  predicate Started(w: WorkerPc) {
    w.WExecuting? || w.WReturned? || w.WFired? || w.WReady? || w.WCompleted? || w.WDone?
  }

  /** What the completion path records when the task was neither cancelled nor timed out. */
  ghost predicate Recorded(t: Task, res: ExecResult) {
    && t.result == res.value
    && match res.error
       case NoError => t.state == Completed
       case DeadlineExceeded => t.state == Failed && t.err == ExecTimeoutMessage
       case ContextCanceled => t.state == Failed && t.err == ExecTimeoutMessage
       case OtherError(message) => t.state == Failed && t.err == Message(message)
  }

  /** The task of a run whose worker has not completed it: running, or finished by someone else. */
  ghost predicate Uncompleted(run: Run, t: Task) {
    (t.state.Running? && run.dog != DDone) || t.state.Cancelled? || run.timedOut
  }

  ghost predicate WorkerOk(run: Run, t: Task) {
    match run.worker
    case WSpawned => (t.state.Queued? || t.state.Cancelled?) && run.dog.DNone?
    case WBailed => t.state.Cancelled? && run.dog.DNone?
    case WRunning => (t.state.Running? || t.state.Cancelled?) && run.dog.DNone?
    case WArmed => Uncompleted(run, t) && !run.dog.DNone? && !run.dog.DStopped?
    case WExecuting => Uncompleted(run, t) && !run.dog.DNone? && !run.dog.DStopped?
    case WReturned => Uncompleted(run, t) && !run.dog.DNone? && !run.dog.DStopped? && run.res.Some?
    case WFired => Uncompleted(run, t) && !run.dog.DNone? && !run.dog.DStopped? && !run.dog.DArmed? && run.res.Some?
    case WReady => Uncompleted(run, t) && !run.dog.DNone? && !run.dog.DArmed? && run.res.Some?
    case WCompleted => AfterCompletion(run, t)
    case WDone => AfterCompletion(run, t) && run.closed
  }

  ghost predicate AfterCompletion(run: Run, t: Task) {
    && !run.dog.DNone? && !run.dog.DArmed? && run.res.Some?
    && (t.state.Cancelled? || run.timedOut || Recorded(t, run.res.value))
  }

  ghost predicate PcOk(run: Run, t: Task) {
    && WorkerOk(run, t)
    && (run.dog.DClosed? || run.dog.DDone? ==> run.closed)
    && (run.timedOut ==> run.dog.DDone? && t.state.Failed? && t.err == ExecTimeoutMessage)
  }

  /** A run, its submission, its task and its entry agree; its reader was closed `closed` times. */
  ghost predicate RunInv(s: Core, r: Reader)
    requires r in s.runs
  {
    var run := s.runs[r];
    && r in s.subs && s.subs[r].pc == SubAccepted && s.subs[r].id == run.id
    && s.subs[r].closes == (if run.closed then 1 else 0)
    && run.id in s.m.objs
    && (s.m.objs[run.id].state.Active() ==> run.id in s.m.tasks && s.m.tasks[run.id].owner == Some(r))
    && PcOk(run, s.m.objs[run.id])
  }

  ghost predicate RunsInv(s: Core) {
    && (forall r :: r in s.runs ==> RunInv(s, r))
    && (forall r, q :: r in s.runs && q in s.runs && s.runs[r].id == s.runs[q].id ==> r == q)
  }

  ghost predicate SubOk(s: Core, r: Reader)
    requires r in s.subs
  {
    match s.subs[r].pc
    case SubAccepted => r in s.runs
    case SubClosing => r !in s.runs && s.subs[r].closes == 0
    case SubRefused => r !in s.runs && s.subs[r].closes == 1
  }

  ghost predicate SubsInv(s: Core) {
    forall r :: r in s.subs ==> SubOk(s, r)
  }

  /** A live entry belongs to its run, or it still waits for bytes with the policy of its Prepare. */
  ghost predicate EntryOk(s: Core, id: Id)
    requires id in s.m.tasks && id in s.m.objs
  {
    match s.m.tasks[id].owner
    case Some(r) => r in s.runs && s.runs[r].id == id
    case None =>
      && (s.m.objs[id].state.Prepared? || s.m.objs[id].state.Cancelled?)
      && id in s.policies && s.policies[id] == Policy(s.m.tasks[id].archiveMode, s.m.tasks[id].wrap)
  }

  ghost predicate EntriesInv(s: Core) {
    forall id :: id in s.m.tasks ==> id in s.m.objs && EntryOk(s, id)
  }

  /** Every run got the policy recorded at Prepare, or preserve/false when there was no Prepare. */
  ghost predicate PolicyInv(s: Core) {
    && s.policies.Keys <= s.m.objs.Keys
    && forall r :: r in s.runs && r in s.subs ==>
         Policy(s.runs[r].mode, s.runs[r].wrap) ==
           (if s.runs[r].id in s.policies then s.policies[s.runs[r].id] else Policy(Preserve, false))
         && (s.subs[r].kind.ViaFulfill? <==> s.runs[r].id in s.policies)
  }

  /** A committed Cancel owns the cancelled state, and until it returns it owes the reader a close. */
  ghost predicate CancelInv(s: Core, c: nat)
    requires c in s.cancels
  {
    var k := s.cancels[c];
    k.Committed() ==>
      && k.id in s.m.objs && s.m.objs[k.id].state.Cancelled?
      && k.id in s.cancelledBy && s.cancelledBy[k.id] == c
      && (k.pc.CancelClosing? ==> forall r :: r in s.runs && s.runs[r].id == k.id ==> k.pc.owner == Some(r))
      && (k.pc.CancelReturned? ==> forall r :: r in s.runs && s.runs[r].id == k.id ==> s.runs[r].closed)
  }

  ghost predicate CancelsInv(s: Core) {
    && (forall c :: c in s.cancels ==> CancelInv(s, c))
    && (forall id :: id in s.m.objs && s.m.objs[id].state.Cancelled? ==>
          id in s.cancelledBy && s.cancelledBy[id] in s.cancels &&
          s.cancels[s.cancelledBy[id]].id == id && s.cancels[s.cancelledBy[id]].Committed())
  }

  ghost predicate ExecOk(s: Core, e: Exec) {
    && e.reader in s.runs && Started(s.runs[e.reader].worker)
    && e == Exec(e.reader, s.runs[e.reader].id, s.runs[e.reader].mode, s.runs[e.reader].wrap)
  }

  ghost predicate ExecsInv(s: Core) {
    && (forall i :: 0 <= i < |s.execs| ==> ExecOk(s, s.execs[i]))
    && (forall i, j :: 0 <= i < j < |s.execs| ==> s.execs[i].reader != s.execs[j].reader)
  }

  ghost predicate TimeInv(s: Core) {
    forall id :: id in s.m.objs ==>
      s.m.objs[id].createdAt <= s.clock && (s.m.objs[id].finishedAt.Some? ==> s.m.objs[id].finishedAt.value <= s.clock)
  }

  /** When a tombstone was recorded relative to the finish time it shows. */
  ghost predicate StampOk(cfg: Config, tomb: Task, at: Time, clock: Time) {
    && at <= clock
    && tomb.finishedAt.Some?
    && (tomb.state.Expired? ==> tomb.finishedAt.value == at)
    && (!tomb.state.Expired? ==> tomb.finishedAt.value < at - cfg.ttl)
  }

  /** The FIFO is ordered by the instant each tombstone was recorded. */
  ghost predicate FifoInv(cfg: Config, s: Core) {
    && (cfg.ttl <= 0 ==> s.m.tombs == map[])
    && (forall id :: id in s.m.tombs ==> id in s.recAt && StampOk(cfg, s.m.tombs[id], s.recAt[id], s.clock))
    && StampSorted(s.m.order, s.recAt)
  }

  ghost predicate StampSorted(order: seq<Id>, at: map<Id, Time>) {
    && (forall i :: 0 <= i < |order| ==> order[i] in at)
    && (forall i, j :: 0 <= i < j < |order| ==> at[order[i]] <= at[order[j]])
  }

  ghost predicate CoreInv(cfg: Config, s: Core) {
    && MgrInv(cfg, s.m)
    && RunsInv(s) && SubsInv(s) && EntriesInv(s) && PolicyInv(s) && CancelsInv(s) && ExecsInv(s)
    && TimeInv(s) && FifoInv(cfg, s)
  }
}
