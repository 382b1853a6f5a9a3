/** The PUT handler on top of the upload machine. The handler copies the request body into an io.Pipe
    whose read end is the reader it handed to Start or Fulfill; the executor of that run reads the other
    end. A pipe read sees EOF only when the writer is closed and the reader is not. */
module PutPipeline {
  import opened Prelude
  import opened UploadModel
  import opened UploadInvariants
  import opened UploadCore
  import opened UploadSafety
  import opened UploadSteps
  import opened UploadTheorems

  datatype Status = Accepted202 | TooLarge413 | Internal500

  datatype PutPc =
    | Calling                       // Start or Fulfill has not returned
    | Copying                       // in io.Copy
    | Failing(status: Status)       // the copy failed: about to Cancel
    | Cancelling(c: nat, status: Status)
    | Closing(status: Status)       // about to close the pipe writer
    | Closed(status: Status)        // about to reply
    | Replied(status: Status)

  /** `left` has not been received yet, `pending` is the chunk being written to the pipe and `got` is
      what the executor has read. */
  datatype Put = Put(pc: PutPc, body: seq<byte>, cap: nat, left: seq<byte>, pending: seq<byte>, got: seq<byte>,
                     writerClosed: bool, sawEOF: bool)

  datatype Sys = Sys(core: Core, puts: map<Reader, Put>)

  datatype SysStep =
    | Inner(step: Step)                                   // any step of the manager or its callers
    | Submit(step: Step, body: seq<byte>, cap: nat)       // the handler calls Start or Fulfill
    | Returned(r: Reader)
    | Receive(r: Reader, n: nat)
    | Read(r: Reader, n: nat)
    | ReadEOF(r: Reader)
    | WriteFails(r: Reader)
    | BodyEOF(r: Reader)
    | BodyOverCap(r: Reader)
    | BodyFails(r: Reader)
    | CallCancel(r: Reader, c: nat)
    | CancelReturns(r: Reader)
    | CloseWriter(r: Reader)
    | Reply(r: Reader)

  predicate PutAt(s: Sys, r: Reader, pc: PutPc) {
    r in s.puts && s.puts[r].pc == pc
  }

  /** The executor of run `r` is inside its call. */
  predicate Reading(s: Sys, r: Reader) {
    r in s.puts && r in s.core.runs && s.core.runs[r].worker.WExecuting?
  }

  ghost predicate SysEnabled(cfg: Config, s: Sys, x: SysStep) {
    match x
    case Inner(step) =>
      Enabled(cfg, s.core, step) && ((step.StartLock? || step.FulfillLock?) ==> step.r !in s.puts)
    case Submit(step, body, cap) =>
      Enabled(cfg, s.core, step) && (step.StartLock? || step.FulfillLock?) && step.r !in s.puts
    case Returned(r) => PutAt(s, r, Calling) && r in s.core.subs && !s.core.subs[r].pc.SubClosing?
    case Receive(r, n) =>
      PutAt(s, r, Copying) && s.puts[r].pending == [] && 0 < n <= |s.puts[r].left| &&
      |s.puts[r].body| - |s.puts[r].left| + n <= s.puts[r].cap
    case Read(r, n) =>
      Reading(s, r) && 0 < n <= |s.puts[r].pending| && !s.core.runs[r].closed && !s.puts[r].writerClosed
    case ReadEOF(r) => Reading(s, r) && s.puts[r].writerClosed && !s.core.runs[r].closed
    case WriteFails(r) =>
      PutAt(s, r, Copying) && s.puts[r].pending != [] && r in s.core.runs && s.core.runs[r].closed
    case BodyEOF(r) =>
      PutAt(s, r, Copying) && s.puts[r].pending == [] && s.puts[r].left == [] && |s.puts[r].body| <= s.puts[r].cap
    case BodyOverCap(r) =>
      PutAt(s, r, Copying) && s.puts[r].pending == [] && s.puts[r].left != [] &&
      |s.puts[r].body| - |s.puts[r].left| == s.puts[r].cap
    case BodyFails(r) => PutAt(s, r, Copying) && s.puts[r].pending == []
    case CallCancel(r, c) =>
      r in s.puts && s.puts[r].pc.Failing? && r in s.core.subs && Enabled(cfg, s.core, CancelLock(c, s.core.subs[r].id))
    case CancelReturns(r) =>
      r in s.puts && s.puts[r].pc.Cancelling? && s.puts[r].pc.c in s.core.cancels &&
      s.core.cancels[s.puts[r].pc.c].pc.CancelReturned?
    case CloseWriter(r) => r in s.puts && s.puts[r].pc.Closing?
    case Reply(r) => r in s.puts && s.puts[r].pc.Closed?
  }

  function SetPut(s: Sys, r: Reader, p: Put): Sys {
    s.(puts := s.puts[r := p])
  }

  function MovePut(s: Sys, r: Reader, pc: PutPc): Sys
    requires r in s.puts
  {
    SetPut(s, r, s.puts[r].(pc := pc))
  }

  ghost function SysNext(cfg: Config, s: Sys, x: SysStep): Sys
    requires SysEnabled(cfg, s, x)
  {
    match x
    case Inner(step) => s.(core := Next(cfg, s.core, step))
    case Submit(step, body, cap) =>
      Sys(Next(cfg, s.core, step), s.puts[step.r := Put(Calling, body, cap, body, [], [], false, false)])
    case Returned(r) => MovePut(s, r, if s.core.subs[r].pc.SubAccepted? then Copying else Closing(Internal500))
    case Receive(r, n) =>
      var p := s.puts[r];
      SetPut(s, r, p.(pending := p.left[..n], left := p.left[n..]))
    case Read(r, n) =>
      var p := s.puts[r];
      SetPut(s, r, p.(got := p.got + p.pending[..n], pending := p.pending[n..]))
    case ReadEOF(r) => SetPut(s, r, s.puts[r].(sawEOF := true))
    case WriteFails(r) => MovePut(s, r, Failing(Internal500))
    case BodyEOF(r) => MovePut(s, r, Closing(Accepted202))
    case BodyOverCap(r) => MovePut(s, r, Failing(TooLarge413))
    case BodyFails(r) => MovePut(s, r, Failing(Internal500))
    case CallCancel(r, c) =>
      Sys(Next(cfg, s.core, CancelLock(c, s.core.subs[r].id)),
          s.puts[r := s.puts[r].(pc := Cancelling(c, s.puts[r].pc.status))])
    case CancelReturns(r) => MovePut(s, r, Closing(s.puts[r].pc.status))
    case CloseWriter(r) => SetPut(s, r, s.puts[r].(pc := Closed(s.puts[r].pc.status), writerClosed := true))
    case Reply(r) => MovePut(s, r, Replied(s.puts[r].pc.status))
  }

  ghost predicate IsSysBehaviour(cfg: Config, trace: seq<Sys>, steps: seq<SysStep>) {
    && |trace| == |steps| + 1
    && Init(trace[0].core) && trace[0].puts == map[]
    && forall i :: 0 <= i < |steps| ==>
         SysEnabled(cfg, trace[i], steps[i]) && trace[i + 1] == SysNext(cfg, trace[i], steps[i])
  }

  // ---------------------------------------------------------------- invariant

  /** The handler has a final status to give. */
  predicate Decided(pc: PutPc) {
    pc.Closing? || pc.Closed? || pc.Replied?
  }

  /** The handler gave up on this upload and its Cancel has left the locked region. */
  predicate GaveUp(pc: PutPc) {
    pc.Cancelling? || (Decided(pc) && pc.status != Accepted202)
  }

  /** No byte of the body is lost, invented or reordered on its way through the pipe. */
  ghost predicate PipeOk(p: Put) {
    && p.body == p.got + p.pending + p.left
    && |p.got| + |p.pending| <= p.cap
    && (p.sawEOF ==> p.writerClosed)
    && (p.writerClosed <==> p.pc.Closed? || p.pc.Replied?)
    && (p.pc.Failing? || p.pc.Cancelling? ==> p.pc.status != Accepted202)
    && (Decided(p.pc) && p.pc.status == Accepted202 ==> p.pending == [] && p.left == [] && |p.body| <= p.cap)
  }

  /** Once the handler gave up, the task of its run is terminal, and not completed after an EOF. */
  ghost predicate RunLink(core: Core, r: Reader, p: Put)
  {
    && r in core.subs
    && (p.pc.Calling? || r in core.runs || (Decided(p.pc) && p.pc.status == Internal500))
    && (r in core.runs ==> core.runs[r].id in core.m.objs && core.runs[r].id == core.subs[r].id)
    && (r in core.runs && GaveUp(p.pc) ==> core.m.objs[core.runs[r].id].state.Terminal())
    && (r in core.runs && GaveUp(p.pc) && p.sawEOF ==> !core.m.objs[core.runs[r].id].state.Completed?)
    && (r !in core.runs ==> !p.sawEOF)
  }

  ghost predicate PutInv(s: Sys, r: Reader)
    requires r in s.puts
  {
    PipeOk(s.puts[r]) && RunLink(s.core, r, s.puts[r])
  }

  ghost predicate PutsInv(s: Sys) {
    forall r :: r in s.puts ==> PutInv(s, r)
  }

  // ---------------------------------------------------------------- what core steps leave alone

  /** Submissions and runs keep their identity, no run appears for an old submission, and terminal
      tasks are frozen. */
  ghost predicate CoreStable(s: Core, n: Core) {
    && s.subs.Keys <= n.subs.Keys && s.m.objs.Keys <= n.m.objs.Keys
    && (forall r :: r in s.subs ==> n.subs[r].id == s.subs[r].id)
    && (forall r :: r in s.subs ==> (r in n.runs <==> r in s.runs))
    && (forall r :: r in s.subs && r in s.runs ==> n.runs[r].id == s.runs[r].id)
    && (forall id :: id in s.m.objs ==> TaskForward(s.m.objs[id], n.m.objs[id]))
  }

  /** The same submissions and runs, each with its identity. */
  ghost predicate SameParties(s: Core, n: Core) {
    && n.subs.Keys == s.subs.Keys && n.runs.Keys == s.runs.Keys
    && (forall r :: r in s.subs ==> n.subs[r].id == s.subs[r].id)
    && (forall r :: r in s.runs ==> n.runs[r].id == s.runs[r].id)
  }

  lemma QuietParties(cfg: Config, s: Core, step: Step)
    requires Enabled(cfg, s, step) && (step.Tick? || step.PrepareLock? || step.Poll?)
    ensures Next(cfg, s, step).subs == s.subs && Next(cfg, s, step).runs == s.runs
  {
    if step.PrepareLock? {
      PrepareParties(cfg, s, step.id, step.name, step.createdAt, step.ttl, step.policy, step.batch);
    }
  }

  lemma PrepareParties(cfg: Config, s: Core, id: Id, name: string, createdAt: Time, ttl: int, policy: Policy, batch: seq<Id>)
    requires BatchOk(cfg, s, batch)
    ensures DoPrepare(cfg, s, id, name, createdAt, ttl, policy, batch).subs == s.subs
    ensures DoPrepare(cfg, s, id, name, createdAt, ttl, policy, batch).runs == s.runs
  {
  }

  lemma UnchangedParties(s: Core, n: Core)
    requires n.subs == s.subs && n.runs == s.runs
    ensures SameParties(s, n)
  {
  }

  lemma CancelParties(cfg: Config, s: Core, step: Step)
    requires Enabled(cfg, s, step) && (step.CancelLock? || step.RefusedClose?)
    ensures SameParties(s, Next(cfg, s, step))
  {
  }

  lemma WorkerParties(cfg: Config, s: Core, step: Step)
    requires Enabled(cfg, s, step)
    requires step.WorkerBegin? || step.Complete? || step.DogFail? || step.CallExec?
    ensures SameParties(s, Next(cfg, s, step))
  {
    var n := Next(cfg, s, step);
    assert n.subs == s.subs && step.r in n.runs && n.runs == s.runs[step.r := n.runs[step.r]];
  }

  lemma PcParties(cfg: Config, s: Core, step: Step)
    requires Enabled(cfg, s, step)
    requires step.Arm? || step.ExecReturn? || step.StopDog? || step.DogFire?
    ensures SameParties(s, Next(cfg, s, step))
  {
    if step.StopDog? {
      StopParties(s, step.r);
    } else {
      OneRunMoved(s, Next(cfg, s, step), step.r);
    }
  }

  lemma OneRunMoved(s: Core, n: Core, r: Reader)
    requires n.subs == s.subs && r in s.runs && r in n.runs && n.runs == s.runs[r := n.runs[r]] && n.runs[r].id == s.runs[r].id
    ensures SameParties(s, n)
  {
  }

  lemma StopParties(s: Core, r: Reader)
    requires WorkerAt(s, r, WReturned)
    ensures SameParties(s, SetRun(s, r, s.runs[r].(worker := WReady, dog := DStopped)))
    ensures SameParties(s, SetRun(s, r, s.runs[r].(worker := WFired)))
  {
  }

  lemma CloseParties(s: Core, r: Reader, n: Core)
    requires n == CloseOnce(s, r)
    ensures SameParties(s, n)
  {
  }

  lemma ClosingParties(cfg: Config, s: Core, step: Step)
    requires Enabled(cfg, s, step)
    requires step.CancelClose? || step.FiredClose? || step.WorkerClose? || step.DogClose?
    ensures SameParties(s, Next(cfg, s, step))
  {
    var n := Next(cfg, s, step);
    if step.CancelClose? {
      var owner := s.cancels[step.c].pc.owner;
      if owner.Some? { CloseParties(s, owner.value, CloseOnce(s, owner.value)); }
    } else {
      var t := CloseOnce(s, step.r);
      CloseParties(s, step.r, t);
      assert n.subs == t.subs && n.runs == t.runs[step.r := n.runs[step.r]];
    }
  }

  lemma OtherParties(cfg: Config, s: Core, step: Step)
    requires Enabled(cfg, s, step) && !step.StartLock? && !step.FulfillLock?
    ensures SameParties(s, Next(cfg, s, step))
  {
    if step.Tick? || step.PrepareLock? || step.Poll? {
      QuietParties(cfg, s, step);
      UnchangedParties(s, Next(cfg, s, step));
    } else if step.CancelLock? || step.RefusedClose? {
      CancelParties(cfg, s, step);
    } else if step.CancelClose? || step.FiredClose? || step.WorkerClose? || step.DogClose? {
      ClosingParties(cfg, s, step);
    } else if step.Arm? || step.ExecReturn? || step.StopDog? || step.DogFire? {
      PcParties(cfg, s, step);
    } else {
      WorkerParties(cfg, s, step);
    }
  }

  /** A submission adds itself, and perhaps its run, and touches no other. */
  ghost predicate AddsParty(s: Core, n: Core, r: Reader) {
    && r in n.subs && n.subs == s.subs[r := n.subs[r]]
    && (n.runs == s.runs || (r in n.runs && n.runs == s.runs[r := n.runs[r]] && n.runs[r].id == n.subs[r].id))
  }

  lemma SubmittedParties(s: Core, r: Reader, kind: SubKind, id: Id, policy: Policy, m: Mgr, batch: seq<Id>, ok: bool)
    ensures AddsParty(s, Submitted(s, r, kind, id, policy, m, batch, ok), r)
  {
  }

  lemma StartParties(cfg: Config, s: Core, r: Reader, id: Id, name: string, createdAt: Time, batch: seq<Id>)
    requires BatchOk(cfg, s, batch)
    ensures AddsParty(s, DoStart(cfg, s, r, id, name, createdAt, batch), r)
  {
    var (m, ok) := StartLocked(cfg, s.m, id, name, createdAt, r, s.clock, batch);
    SubmittedParties(s, r, ViaStart, id, Policy(Preserve, false), m, batch, ok);
  }

  lemma FulfillParties(cfg: Config, s: Core, r: Reader, id: Id, batch: seq<Id>)
    requires BatchOk(cfg, s, batch)
    ensures AddsParty(s, DoFulfill(cfg, s, r, id, batch), r)
  {
    if FulfillCheck(s.m, id) == Claimed {
      var e := s.m.tasks[id];
      var (m, out) := FulfillLocked(cfg, s.m, id, r, s.clock, batch);
      SubmittedParties(s, r, ViaFulfill, id, Policy(e.archiveMode, e.wrap), m, batch, out == Claimed);
    }
  }

  lemma SamePartiesStable(s: Core, n: Core)
    requires SameParties(s, n) && s.m.objs.Keys <= n.m.objs.Keys
    requires forall id :: id in s.m.objs ==> TaskForward(s.m.objs[id], n.m.objs[id])
    ensures CoreStable(s, n)
  {
  }

  lemma AddsPartyStable(s: Core, n: Core, r: Reader)
    requires AddsParty(s, n, r) && r !in s.subs && s.m.objs.Keys <= n.m.objs.Keys
    requires forall id :: id in s.m.objs ==> TaskForward(s.m.objs[id], n.m.objs[id])
    ensures CoreStable(s, n)
  {
  }

  lemma SubmitStable(cfg: Config, s: Core, step: Step)
    requires Enabled(cfg, s, step) && (step.StartLock? || step.FulfillLock?)
    requires s.m.objs.Keys <= Next(cfg, s, step).m.objs.Keys
    requires forall id :: id in s.m.objs ==> TaskForward(s.m.objs[id], Next(cfg, s, step).m.objs[id])
    ensures CoreStable(s, Next(cfg, s, step))
  {
    if step.StartLock? {
      StartParties(cfg, s, step.r, step.id, step.name, step.createdAt, step.batch);
    } else {
      FulfillParties(cfg, s, step.r, step.id, step.batch);
    }
    AddsPartyStable(s, Next(cfg, s, step), step.r);
  }

  lemma StepStable(cfg: Config, s: Core, step: Step)
    requires CoreInv(cfg, s) && Enabled(cfg, s, step)
    ensures CoreStable(s, Next(cfg, s, step))
  {
    StepForward(cfg, s, step);
    if step.StartLock? || step.FulfillLock? {
      SubmitStable(cfg, s, step);
    } else {
      OtherParties(cfg, s, step);
      SamePartiesStable(s, Next(cfg, s, step));
    }
  }

  // ---------------------------------------------------------------- every step keeps every handler right

  lemma LinkStable(s: Core, n: Core, r: Reader, p: Put)
    requires RunLink(s, r, p) && CoreStable(s, n)
    ensures RunLink(n, r, p)
  {
    if r in s.runs {
      assert TaskForward(s.m.objs[s.runs[r].id], n.m.objs[s.runs[r].id]);
    }
  }

  lemma InnerKeeps(cfg: Config, s: Sys, step: Step)
    requires CoreInv(cfg, s.core) && PutsInv(s) && Enabled(cfg, s.core, step)
    ensures PutsInv(s.(core := Next(cfg, s.core, step)))
  {
    var n := s.(core := Next(cfg, s.core, step));
    StepStable(cfg, s.core, step);
    forall r | r in n.puts ensures PutInv(n, r) {
      assert PutInv(s, r);
      LinkStable(s.core, n.core, r, s.puts[r]);
    }
  }

  lemma NewPut(cfg: Config, core: Core, r: Reader, body: seq<byte>, cap: nat)
    requires CoreInv(cfg, core) && r in core.subs
    ensures PipeOk(Put(Calling, body, cap, body, [], [], false, false))
    ensures RunLink(core, r, Put(Calling, body, cap, body, [], [], false, false))
  {
    assert [] + [] + body == body;
    assert r in core.runs ==> RunInv(core, r);
  }

  lemma SubmitKeeps(cfg: Config, s: Sys, x: SysStep)
    requires CoreInv(cfg, s.core) && PutsInv(s) && SysEnabled(cfg, s, x) && x.Submit?
    ensures PutsInv(SysNext(cfg, s, x))
  {
    var n := SysNext(cfg, s, x);
    InnerKeeps(cfg, s, x.step);
    StepKeeps(cfg, s.core, x.step);
    SubmitAdds(cfg, s.core, x.step);
    NewPut(cfg, n.core, x.step.r, x.body, x.cap);
    var t := s.(core := n.core);
    forall r | r in n.puts ensures PutInv(n, r) {
      if r != x.step.r { assert PutInv(t, r); }
    }
  }

  lemma SubmitAdds(cfg: Config, s: Core, step: Step)
    requires Enabled(cfg, s, step) && (step.StartLock? || step.FulfillLock?)
    ensures step.r in Next(cfg, s, step).subs
  {
    if step.StartLock? {
      StartParties(cfg, s, step.r, step.id, step.name, step.createdAt, step.batch);
    } else {
      FulfillParties(cfg, s, step.r, step.id, step.batch);
    }
  }

  /** The executor of a run whose handler gave up never completes it after it read an EOF. */
  lemma ReadingUncompleted(s: Core, r: Reader)
    requires r in s.runs && RunInv(s, r) && s.runs[r].worker.WExecuting?
    ensures !s.m.objs[s.runs[r].id].state.Completed?
  {
  }

  lemma AcceptedHasRun(s: Core, r: Reader)
    requires SubsInv(s) && r in s.subs && !s.subs[r].pc.SubClosing?
    ensures s.subs[r].pc.SubAccepted? <==> r in s.runs
  {
    assert SubOk(s, r);
  }

  lemma CopyKeeps(cfg: Config, s: Sys, x: SysStep, r: Reader)
    requires SysEnabled(cfg, s, x) && r in s.puts && PutInv(s, r)
    requires x == BodyEOF(r) || x == BodyOverCap(r) || x == BodyFails(r) || x == WriteFails(r) ||
             (x.Receive? && x.r == r) || (x.Read? && x.r == r)
    ensures r in SysNext(cfg, s, x).puts && PutInv(SysNext(cfg, s, x), r)
  {
    var p := s.puts[r];
    if x.Receive? {
      assert p.got + [] + p.left == p.got + p.left[..x.n] + p.left[x.n..];
    } else if x.Read? {
      assert p.got + p.pending[..x.n] + p.pending[x.n..] + p.left == p.got + p.pending + p.left;
    } else if x.BodyEOF? {
      assert p.got + [] + [] == p.got;
    }
  }

  lemma FinishKeeps(cfg: Config, s: Sys, x: SysStep, r: Reader)
    requires SysEnabled(cfg, s, x) && r in s.puts && PutInv(s, r)
    requires x == CancelReturns(r) || x == CloseWriter(r) || x == Reply(r)
    ensures r in SysNext(cfg, s, x).puts && PutInv(SysNext(cfg, s, x), r)
  {
  }

  lemma ReturnedKeeps(cfg: Config, s: Sys, r: Reader)
    requires SysEnabled(cfg, s, Returned(r)) && PutInv(s, r) && SubsInv(s.core)
    ensures r in SysNext(cfg, s, Returned(r)).puts && PutInv(SysNext(cfg, s, Returned(r)), r)
  {
    AcceptedHasRun(s.core, r);
  }

  lemma ReadEOFKeeps(cfg: Config, s: Sys, r: Reader)
    requires SysEnabled(cfg, s, ReadEOF(r)) && PutInv(s, r) && RunInv(s.core, r)
    ensures r in SysNext(cfg, s, ReadEOF(r)).puts && PutInv(SysNext(cfg, s, ReadEOF(r)), r)
  {
    ReadingUncompleted(s.core, r);
  }

  lemma LocalKeeps(cfg: Config, s: Sys, x: SysStep, r: Reader)
    requires CoreInv(cfg, s.core) && SysEnabled(cfg, s, x) && !x.Inner? && !x.Submit? && !x.CallCancel? && x.r == r
    requires r in s.puts && PutInv(s, r)
    ensures r in SysNext(cfg, s, x).puts && PutInv(SysNext(cfg, s, x), r)
  {
    if x.Returned? {
      ReturnedKeeps(cfg, s, r);
    } else if x.ReadEOF? {
      assert RunInv(s.core, r);
      ReadEOFKeeps(cfg, s, r);
    } else if x.CancelReturns? || x.CloseWriter? || x.Reply? {
      FinishKeeps(cfg, s, x, r);
    } else {
      CopyKeeps(cfg, s, x, r);
    }
  }

  /** Cancel on a task that has a run leaves it terminal, whatever Cancel answers. */
  lemma CancelEndsTask(cfg: Config, s: Core, c: nat, r: Reader)
    requires MgrInv(cfg, s.m) && r in s.runs && RunInv(s, r)
    ensures var n := DoCancel(s, c, s.runs[r].id); s.runs[r].id in n.m.objs && n.m.objs[s.runs[r].id].state.Terminal()
  {
    var id := s.runs[r].id;
    assert id in s.m.tombs ==> TombOk(s.m.objs[id], s.m.tombs[id]);
  }

  /** The handler that cancels has moved on, and the task of its run is terminal. */
  lemma CancelledPut(cfg: Config, core: Core, n: Core, r: Reader, c: nat, p: Put, q: Put)
    requires MgrInv(cfg, core.m) && r in core.runs && RunInv(core, r) && n == DoCancel(core, c, core.runs[r].id)
    requires RunLink(n, r, p) && PipeOk(p) && p.pc.Failing? && q.pc.Cancelling? && q == p.(pc := q.pc)
    requires r in n.runs && n.runs[r].id == core.runs[r].id
    ensures RunLink(n, r, q)
  {
    CancelEndsTask(cfg, core, c, r);
    CancelLink(n, r, p, q);
  }

  lemma FailingHasRun(s: Core, r: Reader, p: Put)
    requires RunLink(s, r, p) && p.pc.Failing?
    ensures r in s.runs && r in s.subs && s.runs[r].id == s.subs[r].id
  {
  }

  lemma CancelKeepsRuns(s: Core, c: nat, id: Id)
    requires WellFormed(s.m)
    ensures DoCancel(s, c, id).runs == s.runs
  {
  }

  /** Giving up is right once the task of the run is terminal. */
  lemma CancelLink(core: Core, r: Reader, p: Put, q: Put)
    requires RunLink(core, r, p) && PipeOk(p) && p.pc.Failing? && q.pc.Cancelling? && q == p.(pc := q.pc)
    requires r in core.runs && core.m.objs[core.runs[r].id].state.Terminal()
    ensures RunLink(core, r, q)
  {
  }

  lemma CallCancelKeeps(cfg: Config, s: Sys, r: Reader, c: nat)
    requires CoreInv(cfg, s.core) && PutsInv(s) && SysEnabled(cfg, s, CallCancel(r, c))
    ensures PutsInv(SysNext(cfg, s, CallCancel(r, c)))
  {
    var id := s.core.subs[r].id;
    InnerKeeps(cfg, s, CancelLock(c, id));
    var t := s.(core := DoCancel(s.core, c, id));
    var n := SysNext(cfg, s, CallCancel(r, c));
    assert PutInv(s, r) && PutInv(t, r);
    FailingHasRun(s.core, r, s.puts[r]);
    assert RunInv(s.core, r);
    CancelKeepsRuns(s.core, c, id);
    CancelledPut(cfg, s.core, t.core, r, c, s.puts[r], n.puts[r]);
    OnePutChanged(t, n, r);
  }

  lemma OnePutChanged(t: Sys, n: Sys, r: Reader)
    requires PutsInv(t) && r in n.puts && n == t.(puts := t.puts[r := n.puts[r]])
    requires PutInv(n, r)
    ensures PutsInv(n)
  {
    forall q | q in n.puts ensures PutInv(n, q) {
      if q != r { assert PutInv(t, q); }
    }
  }

  lemma SysKeeps(cfg: Config, s: Sys, x: SysStep)
    requires CoreInv(cfg, s.core) && PutsInv(s) && SysEnabled(cfg, s, x)
    ensures PutsInv(SysNext(cfg, s, x))
  {
    if x.Inner? {
      InnerKeeps(cfg, s, x.step);
    } else if x.Submit? {
      SubmitKeeps(cfg, s, x);
    } else if x.CallCancel? {
      CallCancelKeeps(cfg, s, x.r, x.c);
    } else {
      LocalStepKeeps(cfg, s, x, x.r);
    }
  }

  /** A step of handler or executor `r` touches no other handler and not the manager. */
  lemma LocalFrame(cfg: Config, s: Sys, x: SysStep, r: Reader)
    requires SysEnabled(cfg, s, x) && !x.Inner? && !x.Submit? && !x.CallCancel? && x.r == r
    ensures r in s.puts && SysNext(cfg, s, x).core == s.core && r in SysNext(cfg, s, x).puts
    ensures SysNext(cfg, s, x).puts == s.puts[r := SysNext(cfg, s, x).puts[r]]
  {
  }

  lemma LocalStepKeeps(cfg: Config, s: Sys, x: SysStep, r: Reader)
    requires CoreInv(cfg, s.core) && PutsInv(s) && SysEnabled(cfg, s, x)
    requires !x.Inner? && !x.Submit? && !x.CallCancel? && x.r == r
    ensures PutsInv(SysNext(cfg, s, x))
  {
    LocalFrame(cfg, s, x, r);
    assert PutInv(s, r);
    LocalKeeps(cfg, s, x, r);
    var n := SysNext(cfg, s, x);
    forall q | q in n.puts ensures PutInv(n, q) {
      if q != r { assert PutInv(s, q); }
    }
  }

  /** The manager inside a system behaviour takes a manager step or stands still. */
  lemma CoreOf(cfg: Config, s: Sys, x: SysStep)
    requires CoreInv(cfg, s.core) && SysEnabled(cfg, s, x)
    ensures CoreInv(cfg, SysNext(cfg, s, x).core)
  {
    if x.Inner? || x.Submit? {
      StepKeeps(cfg, s.core, x.step);
    } else if x.CallCancel? {
      StepKeeps(cfg, s.core, CancelLock(x.c, s.core.subs[x.r].id));
    } else {
      LocalFrame(cfg, s, x, x.r);
    }
  }

  lemma {:induction false} SysReachable(cfg: Config, trace: seq<Sys>, steps: seq<SysStep>, i: nat)
    requires IsSysBehaviour(cfg, trace, steps) && i < |trace|
    ensures CoreInv(cfg, trace[i].core) && PutsInv(trace[i])
  {
    if i == 0 {
      InitInv(cfg, trace[0].core);
    } else {
      SysReachable(cfg, trace, steps, i - 1);
      CoreOf(cfg, trace[i - 1], steps[i - 1]);
      SysKeeps(cfg, trace[i - 1], steps[i - 1]);
    }
  }

  /** In every interleaving: if the executor read EOF from the pipe and its task is completed, the bytes
      it read are the whole request body, which fits the cap. */
  lemma CompletedMeansWholeBody(cfg: Config, trace: seq<Sys>, steps: seq<SysStep>, i: nat, r: Reader)
    requires IsSysBehaviour(cfg, trace, steps) && i < |trace|
    requires r in trace[i].puts && r in trace[i].core.runs && trace[i].core.runs[r].id in trace[i].core.m.objs
    requires trace[i].puts[r].sawEOF && trace[i].core.m.objs[trace[i].core.runs[r].id].state.Completed?
    ensures trace[i].puts[r].got == trace[i].puts[r].body && |trace[i].puts[r].body| <= trace[i].puts[r].cap
  {
    SysReachable(cfg, trace, steps, i);
    assert PutInv(trace[i], r);
    var p := trace[i].puts[r];
    assert p.got + [] + [] == p.got;
  }

  /** 202 is sent only when the executor has read the whole body and the body fits the cap. */
  lemma AcceptedMeansWholeBody(cfg: Config, trace: seq<Sys>, steps: seq<SysStep>, i: nat, r: Reader)
    requires IsSysBehaviour(cfg, trace, steps) && i < |trace|
    requires r in trace[i].puts && trace[i].puts[r].pc == Replied(Accepted202)
    ensures trace[i].puts[r].got == trace[i].puts[r].body && |trace[i].puts[r].body| <= trace[i].puts[r].cap
    ensures r in trace[i].core.runs
  {
    SysReachable(cfg, trace, steps, i);
    assert PutInv(trace[i], r);
    var p := trace[i].puts[r];
    assert p.got + [] + [] == p.got;
  }

  /** A body cut off by the cap or by a transfer error is never recorded as completed after an EOF, from
      the moment its Cancel leaves the lock on; and its run always has a terminal task by then. */
  lemma TruncatedNeverCompletes(cfg: Config, trace: seq<Sys>, steps: seq<SysStep>, i: nat, r: Reader)
    requires IsSysBehaviour(cfg, trace, steps) && i < |trace|
    requires r in trace[i].puts && GaveUp(trace[i].puts[r].pc) && r in trace[i].core.runs
    ensures trace[i].core.runs[r].id in trace[i].core.m.objs
    ensures var t := trace[i].core.m.objs[trace[i].core.runs[r].id];
            t.state.Terminal() && (trace[i].puts[r].sawEOF ==> !t.state.Completed?)
  {
    SysReachable(cfg, trace, steps, i);
    assert PutInv(trace[i], r);
  }

  /** At every moment the bytes read, in flight and still to come are exactly the body, in order, and
      the executor never reads more than the cap. */
  lemma PipeConserves(cfg: Config, trace: seq<Sys>, steps: seq<SysStep>, i: nat, r: Reader)
    requires IsSysBehaviour(cfg, trace, steps) && i < |trace| && r in trace[i].puts
    ensures var p := trace[i].puts[r]; p.got + p.pending + p.left == p.body && |p.got| <= p.cap
  {
    SysReachable(cfg, trace, steps, i);
    assert PutInv(trace[i], r);
  }

  // ---------------------------------------------------------------- what the client is told

  /** The status that a handler in this place is going to give, or has given. */
  function StatusOf(pc: PutPc): Option<Status> {
    match pc
    case Failing(st) => Some(st)
    case Cancelling(_, st) => Some(st)
    case Closing(st) => Some(st)
    case Closed(st) => Some(st)
    case Replied(st) => Some(st)
    case _ => None
  }

  /** The event that decides the status of PUT `r`, and which: the whole body copied, the cap reached with
      more to come, a failed copy, or a refused Start or Fulfill. */
  ghost predicate Decides(s: Sys, x: SysStep, r: Reader, st: Status) {
    match x
    case BodyEOF(q) => q == r && st == Accepted202
    case BodyOverCap(q) => q == r && st == TooLarge413
    case BodyFails(q) => q == r && st == Internal500
    case WriteFails(q) => q == r && st == Internal500
    case Returned(q) => q == r && st == Internal500 && r in s.core.subs && !s.core.subs[r].pc.SubAccepted?
    case _ => false
  }

  /** What one step means for the status of PUT `r`. */
  ghost predicate StatusMoves(s: Sys, x: SysStep, n: Sys, r: Reader) {
    && (r in s.puts ==> r in n.puts && n.puts[r].body == s.puts[r].body && n.puts[r].cap == s.puts[r].cap)
    && (r in s.puts && StatusOf(s.puts[r].pc).Some? ==>
          StatusOf(n.puts[r].pc) == StatusOf(s.puts[r].pc) && forall st :: !Decides(s, x, r, st))
    && (r in s.puts && StatusOf(s.puts[r].pc).None? ==>
          forall st :: StatusOf(n.puts[r].pc) == Some(st) <==> Decides(s, x, r, st))
    && (r !in s.puts && r in n.puts ==> StatusOf(n.puts[r].pc).None?)
  }

  lemma MovesStatus(cfg: Config, s: Sys, x: SysStep, r: Reader)
    requires SysEnabled(cfg, s, x)
    ensures StatusMoves(s, x, SysNext(cfg, s, x), r)
  {
  }

  ghost predicate Moving(trace: seq<Sys>, steps: seq<SysStep>, r: Reader) {
    |trace| == |steps| + 1 && r !in trace[0].puts &&
    forall i :: 0 <= i < |steps| ==> StatusMoves(trace[i], steps[i], trace[i + 1], r)
  }

  lemma {:induction false} StatusAlong(trace: seq<Sys>, steps: seq<SysStep>, j: nat, r: Reader, st: Status)
    requires Moving(trace, steps, r) && j < |trace| && r in trace[j].puts
    ensures StatusOf(trace[j].puts[r].pc) == Some(st) <==> exists i :: 0 <= i < j && Decides(trace[i], steps[i], r, st) && r in trace[i].puts
  {
    assert StatusMoves(trace[j - 1], steps[j - 1], trace[j - 1 + 1], r);
    if r in trace[j - 1].puts {
      StatusAlong(trace, steps, j - 1, r, st);
    } else {
      NoEarlier(trace, steps, j - 1, r);
    }
  }

  /** A PUT that is not there yet never was. */
  lemma {:induction false} NoEarlier(trace: seq<Sys>, steps: seq<SysStep>, j: nat, r: Reader)
    requires Moving(trace, steps, r) && j < |trace| && r !in trace[j].puts
    ensures forall i :: 0 <= i <= j ==> r !in trace[i].puts
  {
    if j > 0 {
      assert StatusMoves(trace[j - 1], steps[j - 1], trace[j - 1 + 1], r);
      NoEarlier(trace, steps, j - 1, r);
    }
  }

  /** The reply tells what happened: over every interleaving a status is given exactly if its event has
      occurred, 202 for a body copied to its end, 413 for one that exceeds the cap, and 500 for a copy that
      failed or a submission that was refused. */
  lemma ReplyExact(cfg: Config, trace: seq<Sys>, steps: seq<SysStep>, j: nat, r: Reader, st: Status)
    requires IsSysBehaviour(cfg, trace, steps) && j < |trace| && r in trace[j].puts
    ensures StatusOf(trace[j].puts[r].pc) == Some(st) <==> exists i :: 0 <= i < j && Decides(trace[i], steps[i], r, st) && r in trace[i].puts
  {
    forall i | 0 <= i < |steps| ensures StatusMoves(trace[i], steps[i], trace[i + 1], r) {
      MovesStatus(cfg, trace[i], steps[i], r);
    }
    StatusAlong(trace, steps, j, r, st);
  }

  /** Too large is said only of bodies that exceed the cap, once the executor has read as much as the cap allows. */
  lemma TooLargeIsTooLarge(cfg: Config, trace: seq<Sys>, steps: seq<SysStep>, i: nat, r: Reader)
    requires IsSysBehaviour(cfg, trace, steps) && i < |steps| && steps[i] == BodyOverCap(r)
    ensures r in trace[i].puts && |trace[i].puts[r].body| > trace[i].puts[r].cap
    ensures |trace[i].puts[r].got| == trace[i].puts[r].cap
  {
    PipeConserves(cfg, trace, steps, i, r);
  }
}
