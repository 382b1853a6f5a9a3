/** The upload manager as a step machine: any number of Start, Prepare, Fulfill, Cancel and status
    calls, workers and watchdogs, interleaved at the points where the code takes or drops its lock.

    One locked region is one step and so is each unlocked action on shared state. A submission (one
    Start or Fulfill call), the run it may begin, that run's worker and its watchdog all go by the
    reader that was handed over, which is fresh for each call. A clock value that the code reads
    before it takes the lock is any instant up to the clock of the step. */
module UploadCore {
  import opened Prelude
  import opened UploadModel

  datatype SubKind = ViaStart | ViaFulfill

  /** A refused submission closes the reader itself, after it has dropped the lock. */
  datatype SubPc = SubClosing | SubRefused | SubAccepted

  /** `closes` counts the Close calls the reader has received. */
  datatype Sub = Sub(kind: SubKind, id: Id, pc: SubPc, closes: nat)

  datatype WorkerPc =
    | WSpawned    // about to take the lock
    | WBailed     // found the task no longer queued
    | WRunning    // marked the task running, watchdog not armed yet
    | WArmed
    | WExecuting
    | WReturned   // about to stop the watchdog
    | WFired      // the watchdog had fired: about to close the reader
    | WReady      // about to take the lock for completion
    | WCompleted  // about to close the reader
    | WDone

  datatype DogPc =
    | DNone
    | DArmed
    | DStopped
    | DFired      // about to close the reader
    | DClosed     // about to take the lock
    | DDone

  datatype Run = Run(id: Id, mode: ArchiveMode, wrap: bool, worker: WorkerPc, dog: DogPc,
                     res: Option<ExecResult>, closed: bool, timedOut: bool)

  /** A Cancel call that has left its locked region. */
  datatype CancelPc = CancelClosing(owner: Option<Reader>) | CancelReturned(outcome: CancelOutcome)
  datatype Cancel = Cancel(id: Id, pc: CancelPc) {
    predicate Committed() { pc.CancelClosing? || pc.outcome.CancelOk? }
  }

  /** One call of the executor. */
  datatype Exec = Exec(reader: Reader, id: Id, mode: ArchiveMode, wrap: bool)

  datatype Policy = Policy(mode: ArchiveMode, wrap: bool)

  /** The last four fields are history: executor calls in order, the policy recorded at each Prepare,
      when each tombstone was recorded, and which Cancel cancelled a task. */
  datatype Core = Core(
    clock: Time, m: Mgr, subs: map<Reader, Sub>, runs: map<Reader, Run>, cancels: map<nat, Cancel>,
    execs: seq<Exec>, policies: map<Id, Policy>, recAt: map<Id, Time>, cancelledBy: map<Id, nat>)

  datatype Step =
    | Tick(d: nat)
    | StartLock(r: Reader, id: Id, name: string, createdAt: Time, batch: seq<Id>)
    | PrepareLock(id: Id, name: string, createdAt: Time, ttl: int, policy: Policy, batch: seq<Id>)
    | FulfillLock(r: Reader, id: Id, batch: seq<Id>)
    | RefusedClose(r: Reader)
    | CancelLock(c: nat, id: Id)
    | CancelClose(c: nat)
    | Poll(batch: seq<Id>)
    | WorkerBegin(r: Reader)
    | Arm(r: Reader)
    | CallExec(r: Reader)
    | ExecReturn(r: Reader, res: ExecResult)
    | StopDog(r: Reader)
    | FiredClose(r: Reader)
    | Complete(r: Reader, finished: Time)
    | WorkerClose(r: Reader)
    | DogFire(r: Reader)
    | DogClose(r: Reader)
    | DogFail(r: Reader, failedAt: Time)

  ghost predicate BatchOk(cfg: Config, s: Core, batch: seq<Id>) {
    WellFormed(s.m) && IsBatch(cfg, s.m, s.clock, batch)
  }

  ghost predicate WorkerAt(s: Core, r: Reader, pc: WorkerPc) {
    r in s.runs && s.runs[r].worker == pc && s.runs[r].id in s.m.objs
  }

  ghost predicate DogAt(s: Core, r: Reader, pc: DogPc) {
    r in s.runs && s.runs[r].dog == pc && s.runs[r].id in s.m.objs
  }

  ghost predicate Enabled(cfg: Config, s: Core, step: Step) {
    match step
    case Tick(d) => true
    case StartLock(r, id, name, createdAt, batch) =>
      r !in s.subs && id !in s.m.objs && createdAt <= s.clock && BatchOk(cfg, s, batch)
    case PrepareLock(id, name, createdAt, ttl, policy, batch) =>
      cfg.hasExec && id !in s.m.objs && createdAt <= s.clock && BatchOk(cfg, s, batch)
    case FulfillLock(r, id, batch) => r !in s.subs && BatchOk(cfg, s, batch)
    case RefusedClose(r) => r in s.subs && s.subs[r].pc == SubClosing
    case CancelLock(c, id) => c !in s.cancels && WellFormed(s.m)
    case CancelClose(c) => c in s.cancels && s.cancels[c].pc.CancelClosing?
    case Poll(batch) => BatchOk(cfg, s, batch)
    case WorkerBegin(r) => WorkerAt(s, r, WSpawned)
    case Arm(r) => WorkerAt(s, r, WRunning)
    case CallExec(r) => WorkerAt(s, r, WArmed)
    case ExecReturn(r, res) => WorkerAt(s, r, WExecuting)
    case StopDog(r) => WorkerAt(s, r, WReturned)
    case FiredClose(r) => WorkerAt(s, r, WFired)
    case Complete(r, finished) => WorkerAt(s, r, WReady) && s.runs[r].res.Some? && finished <= s.clock
    case WorkerClose(r) => WorkerAt(s, r, WCompleted)
    case DogFire(r) => DogAt(s, r, DArmed)
    case DogClose(r) => DogAt(s, r, DFired)
    case DogFail(r, failedAt) => DogAt(s, r, DClosed) && failedAt <= s.clock
  }

  /** Records when the tombstones of a prune were made. */
  ghost function Stamp(s: Core, batch: seq<Id>): map<Id, Time> {
    s.recAt + map id | id in batch :: s.clock
  }

  /** closeReader: only the first call on a tracked task closes its reader. */
  function CloseOnce(s: Core, r: Reader): Core {
    if r !in s.runs || r !in s.subs || s.runs[r].closed then s
    else s.(runs := s.runs[r := s.runs[r].(closed := true)],
            subs := s.subs[r := s.subs[r].(closes := s.subs[r].closes + 1)])
  }

  /** The state after a submission left its locked region. */
  ghost function Submitted(s: Core, r: Reader, kind: SubKind, id: Id, policy: Policy, m: Mgr, batch: seq<Id>, ok: bool): Core {
    var t := s.(m := m, recAt := Stamp(s, batch),
                subs := s.subs[r := Sub(kind, id, if ok then SubAccepted else SubClosing, 0)]);
    if ok then t.(runs := t.runs[r := Run(id, policy.mode, policy.wrap, WSpawned, DNone, None, false, false)]) else t
  }

  ghost function DoStart(cfg: Config, s: Core, r: Reader, id: Id, name: string, createdAt: Time, batch: seq<Id>): Core
    requires BatchOk(cfg, s, batch)
  {
    if !cfg.hasExec then s.(subs := s.subs[r := Sub(ViaStart, id, SubClosing, 0)])
    else
      var (m, ok) := StartLocked(cfg, s.m, id, name, createdAt, r, s.clock, batch);
      Submitted(s, r, ViaStart, id, Policy(Preserve, false), m, batch, ok)
  }

  ghost function DoFulfill(cfg: Config, s: Core, r: Reader, id: Id, batch: seq<Id>): Core
    requires BatchOk(cfg, s, batch)
  {
    if !cfg.hasExec || FulfillCheck(s.m, id) != Claimed then
      s.(subs := s.subs[r := Sub(ViaFulfill, id, SubClosing, 0)])
    else
      var e := s.m.tasks[id];
      var (m, out) := FulfillLocked(cfg, s.m, id, r, s.clock, batch);
      Submitted(s, r, ViaFulfill, id, Policy(e.archiveMode, e.wrap), m, batch, out == Claimed)
  }

  ghost function DoPrepare(cfg: Config, s: Core, id: Id, name: string, createdAt: Time, ttl: int, policy: Policy, batch: seq<Id>): Core
    requires BatchOk(cfg, s, batch)
  {
    var (m, ok) := PrepareLocked(cfg, s.m, id, name, createdAt, Entry(None, ttl, policy.mode, policy.wrap), s.clock, batch);
    Reserved(s, id, policy, m, batch, ok)
  }

  /** The state after a Prepare left its locked region. */
  ghost function Reserved(s: Core, id: Id, policy: Policy, m: Mgr, batch: seq<Id>, ok: bool): Core {
    var t := s.(m := m, recAt := Stamp(s, batch));
    if ok then t.(policies := t.policies[id := policy]) else t
  }

  ghost function DoCancel(s: Core, c: nat, id: Id): Core
    requires WellFormed(s.m)
  {
    var (m, out) := CancelLocked(s.m, id, s.clock);
    if out == CancelOk then
      s.(m := m, cancels := s.cancels[c := Cancel(id, CancelClosing(s.m.tasks[id].owner))], cancelledBy := s.cancelledBy[id := c])
    else s.(cancels := s.cancels[c := Cancel(id, CancelReturned(out))])
  }

  ghost function DoCancelClose(s: Core, c: nat): Core
    requires c in s.cancels && s.cancels[c].pc.CancelClosing?
  {
    var owner := s.cancels[c].pc.owner;
    var t := if owner.Some? then CloseOnce(s, owner.value) else s;
    t.(cancels := t.cancels[c := Cancel(s.cancels[c].id, CancelReturned(CancelOk))])
  }

  ghost function SetRun(s: Core, r: Reader, run: Run): Core {
    s.(runs := s.runs[r := run])
  }

  ghost function DoBegin(s: Core, r: Reader): Core
    requires WorkerAt(s, r, WSpawned)
  {
    var run := s.runs[r];
    var (m, ok) := BeginRun(s.m, run.id, s.clock);
    SetRun(s.(m := m), r, run.(worker := if ok then WRunning else WBailed))
  }

  ghost function DoComplete(s: Core, r: Reader, finished: Time): Core
    requires WorkerAt(s, r, WReady) && s.runs[r].res.Some?
  {
    var run := s.runs[r];
    SetRun(s.(m := FinishRun(s.m, run.id, run.timedOut, run.res.value, finished)), r, run.(worker := WCompleted))
  }

  ghost function DoDogFail(s: Core, r: Reader, failedAt: Time): Core
    requires DogAt(s, r, DClosed)
  {
    var run := s.runs[r];
    var (m, forced) := ForceFail(s.m, run.id, failedAt);
    SetRun(s.(m := m), r, run.(dog := DDone, timedOut := run.timedOut || forced))
  }

  ghost function DoExec(s: Core, r: Reader): Core
    requires r in s.runs
  {
    var run := s.runs[r];
    SetRun(s, r, run.(worker := WExecuting)).(execs := s.execs + [Exec(r, run.id, run.mode, run.wrap)])
  }

  /** Closes the reader of run `r`, then moves its worker or watchdog on. */
  ghost function CloseThen(s: Core, r: Reader, worker: WorkerPc, dog: DogPc): Core
    requires r in s.runs
  {
    var t := CloseOnce(s, r);
    SetRun(t, r, t.runs[r].(worker := worker, dog := dog))
  }

  ghost function Next(cfg: Config, s: Core, step: Step): Core
    requires Enabled(cfg, s, step)
  {
    match step
    case Tick(d) => s.(clock := s.clock + d)
    case StartLock(r, id, name, createdAt, batch) => DoStart(cfg, s, r, id, name, createdAt, batch)
    case PrepareLock(id, name, createdAt, ttl, policy, batch) => DoPrepare(cfg, s, id, name, createdAt, ttl, policy, batch)
    case FulfillLock(r, id, batch) => DoFulfill(cfg, s, r, id, batch)
    case RefusedClose(r) => s.(subs := s.subs[r := s.subs[r].(pc := SubRefused, closes := s.subs[r].closes + 1)])
    case CancelLock(c, id) => DoCancel(s, c, id)
    case CancelClose(c) => DoCancelClose(s, c)
    case Poll(batch) => s.(m := Prune(cfg, s.m, s.clock, batch), recAt := Stamp(s, batch))
    case WorkerBegin(r) => DoBegin(s, r)
    case Arm(r) => SetRun(s, r, s.runs[r].(worker := WArmed, dog := DArmed))
    case CallExec(r) => DoExec(s, r)
    case ExecReturn(r, res) => SetRun(s, r, s.runs[r].(worker := WReturned, res := Some(res)))
    case StopDog(r) =>
      if s.runs[r].dog == DArmed then SetRun(s, r, s.runs[r].(worker := WReady, dog := DStopped))
      else SetRun(s, r, s.runs[r].(worker := WFired))
    case FiredClose(r) => CloseThen(s, r, WReady, s.runs[r].dog)
    case Complete(r, finished) => DoComplete(s, r, finished)
    case WorkerClose(r) => CloseThen(s, r, WDone, s.runs[r].dog)
    case DogFire(r) => SetRun(s, r, s.runs[r].(dog := DFired))
    case DogClose(r) => CloseThen(s, r, s.runs[r].worker, DClosed)
    case DogFail(r, failedAt) => DoDogFail(s, r, failedAt)
  }

  ghost function InitMgr(): Mgr { Mgr(map[], map[], map[], []) }

  ghost predicate Init(s: Core) {
    s == Core(s.clock, InitMgr(), map[], map[], map[], [], map[], map[], map[])
  }

  /** A behaviour of the manager: `trace[i + 1]` follows from `trace[i]` by `steps[i]`. */
  ghost predicate IsBehaviour(cfg: Config, trace: seq<Core>, steps: seq<Step>) {
    && |trace| == |steps| + 1
    && Init(trace[0])
    && forall i :: 0 <= i < |steps| ==>
         Enabled(cfg, trace[i], steps[i]) && trace[i + 1] == Next(cfg, trace[i], steps[i])
  }
}
