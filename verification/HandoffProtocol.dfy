/** The resume registry and the store behind it under every interleaving: calls that register, prune and
    end flows, the cleanups they owe once they have dropped the registry lock, operations on the store,
    and resume calls, which take the two locks one after the other around a continuation of any length. */
module HandoffProtocol {
  import opened Prelude
  import S = AsyncStore
  import opened AsyncStore
  import opened HandoffRegistry

  datatype Config = Config(ttl: int, max: int, storeTtl: int, storeMax: int)

  datatype CallPc =
    | Live       // in the store: about to read the registry
    | Running    // in the continuation
    | Ending     // about to take the registry lock for End
    | Returned(outcome: Outcome)

  /** One resume call. `seen` is the continuation that was registered when the call made the read that
      may lead it to End: the one it runs, or the one that stood with a dead handle, if any. */
  datatype ResumeCall = ResumeCall(handle: Handle, data: Option<Data>, seen: Option<Cont>, pc: CallPc, result: Outcome)

  /** `pending` are the retirements still to run, of all calls that have dropped the registry lock;
      `dropped` and `passed` count every drop and every cleanup call so far; `owed` are the handles
      dropped since they were last created in the store; `used` are all continuations ever registered. */
  datatype Sys = Sys(clock: Time, cont: Conts, items: Items, pending: multiset<Handle>, dropped: multiset<Handle>,
                     passed: multiset<Handle>, owed: set<Handle>, used: set<Cont>, calls: map<nat, ResumeCall>)

  datatype Step =
    | Tick(d: nat)
    | BeginStep(handle: Handle, cont: Cont, walk: seq<Handle>)
    | EndStep(handle: Handle)
    | PruneStep
    | CleanupStep(handle: Handle)
    | StoreStep(op: S.Op)
    | StoreRead(k: nat, handle: Handle)
    | RegistryRead(k: nat)
    | AnswerStep(k: nat, answer: Answer)
    | ResumeEnd(k: nat)

  predicate CallAt(s: Sys, k: nat, pc: CallPc) { k in s.calls && s.calls[k].pc == pc }

  /** Each Begin registers a continuation of its own. */
  ghost predicate Enabled(cfg: Config, s: Sys, step: Step) {
    match step
    case BeginStep(_, c, walk) => c !in s.used && Enumerates(walk, Kept(s.cont, cfg.ttl, s.clock).Keys)
    case CleanupStep(h) => h in s.pending
    case StoreStep(op) => !op.Wait?
    case StoreRead(k, _) => k !in s.calls
    case RegistryRead(k) => CallAt(s, k, Live)
    case AnswerStep(k, _) => CallAt(s, k, Running)
    case ResumeEnd(k) => CallAt(s, k, Ending)
    case _ => true
  }

  /** The entries that really leave when `c` becomes `n`: handles that are gone, and the stale entry that
      the registration of `handles` replaces. */
  ghost function Left(c: Conts, n: Conts, handles: set<Handle>, ttl: int, now: Time): set<Handle> {
    (c.Keys - n.Keys) + (set h | h in handles && h in c && Stale(c[h], ttl, now))
  }

  /** A locked region that turns the registry into `n` and hands `retire` to the cleanup loop. */
  ghost function Dropping(s: Sys, n: Conts, left: set<Handle>, retire: set<Handle>): Sys {
    s.(cont := n, dropped := s.dropped + multiset(left), owed := s.owed + (left - {EMPTY}),
       pending := s.pending + multiset(retire - {EMPTY}))
  }

  function Created(op: S.Op): set<Handle> {
    match op
    case OpCreate(id, _, _) => {id}
    case OpCreateWithID(id, _, _) => {id}
    case _ => {}
  }

  function Registered(c: Conts, h: Handle): Option<Cont> {
    if h in c then Some(c[h].cont) else None
  }

  function SetCall(s: Sys, k: nat, call: ResumeCall): Sys { s.(calls := s.calls[k := call]) }

  function DoStoreRead(s: Sys, k: nat, h: Handle): Sys {
    if h == EMPTY then SetCall(s, k, ResumeCall(h, None, None, Returned(HandleRequired), HandleRequired))
    else
      var (items, r) := S.Get(s.items, h, s.clock);
      SetCall(s.(items := items), k,
              if r.Found? then ResumeCall(h, r.data, None, Live, NoContinuation)
              else ResumeCall(h, None, Registered(s.cont, h), Ending, DeadHandle(r.HandleExpired?)))
  }

  function DoRegistryRead(s: Sys, ttl: int, k: nat): Sys
    requires k in s.calls
  {
    var call := s.calls[k];
    match Lookup(s.cont, ttl, call.handle, s.clock)
    case None => SetCall(s, k, call.(pc := Returned(NoContinuation)))
    case Some(c) => SetCall(s, k, call.(seen := Some(c), pc := Running))
  }

  function DoAnswered(s: Sys, k: nat, a: Answer): Sys
    requires k in s.calls
  {
    var call := s.calls[k];
    if a.Failure? then SetCall(s, k, call.(pc := Returned(ContinuationFailed)))
    else if IsTerminal(a) then SetCall(s, k, call.(pc := Ending, result := Answered(a)))
    else SetCall(s, k, call.(pc := Returned(Answered(a))))
  }

  function DoResumeEnd(s: Sys, k: nat): Sys
    requires k in s.calls
  {
    var call := s.calls[k];
    SetCall(s.(cont := s.cont - {call.handle}), k, call.(pc := Returned(call.result)))
  }

  ghost function DoBegin(cfg: Config, s: Sys, h: Handle, c: Cont, walk: seq<Handle>): Sys
    requires Enumerates(walk, Kept(s.cont, cfg.ttl, s.clock).Keys)
  {
    var n := Begun(s.cont, cfg.ttl, cfg.max, h, c, s.clock, walk);
    Dropping(s, n, Left(s.cont, n, {h}, cfg.ttl, s.clock), Dropped(s.cont, cfg.ttl, cfg.max, h, s.clock, walk))
      .(used := s.used + {c})
  }

  ghost function DoPrune(cfg: Config, s: Sys): Sys {
    var n := Kept(s.cont, cfg.ttl, s.clock);
    Dropping(s, n, Left(s.cont, n, {}, cfg.ttl, s.clock), StaleSet(s.cont, cfg.ttl, s.clock))
  }

  ghost function Next(cfg: Config, s: Sys, step: Step): Sys
    requires Enabled(cfg, s, step)
  {
    match step
    case Tick(d) => s.(clock := s.clock + d)
    case BeginStep(h, c, walk) => DoBegin(cfg, s, h, c, walk)
    case EndStep(h) => s.(cont := s.cont - {h})
    case PruneStep => DoPrune(cfg, s)
    case CleanupStep(h) =>
      s.(items := s.items - {h}, pending := s.pending - multiset{h}, passed := s.passed + multiset{h})
    case StoreStep(op) =>
      s.(items := S.DoReal(s.items, cfg.storeMax, cfg.storeTtl, op, s.clock), owed := s.owed - Created(op))
    case StoreRead(k, h) => DoStoreRead(s, k, h)
    case RegistryRead(k) => DoRegistryRead(s, cfg.ttl, k)
    case AnswerStep(k, a) => DoAnswered(s, k, a)
    case ResumeEnd(k) => DoResumeEnd(s, k)
  }

  ghost predicate Init(s: Sys) {
    s == Sys(s.clock, map[], map[], multiset{}, multiset{}, multiset{}, {}, {}, map[])
  }

  ghost predicate IsRun(cfg: Config, trace: seq<Sys>, steps: seq<Step>) {
    && |trace| == |steps| + 1
    && Init(trace[0])
    && forall i :: 0 <= i < |steps| ==> Enabled(cfg, trace[i], steps[i]) && trace[i + 1] == Next(cfg, trace[i], steps[i])
  }

  // ---------------------------------------------------------------- what leaves is what is retired

  /** The handles that a Begin lists for retirement are exactly those whose entries leave. */
  lemma BeginRetiresWhatLeaves(c: Conts, ttl: int, max: int, h: Handle, cont: Cont, now: Time, walk: seq<Handle>)
    requires Enumerates(walk, Kept(c, ttl, now).Keys)
    ensures Left(c, Begun(c, ttl, max, h, cont, now, walk), {h}, ttl, now) == Dropped(c, ttl, max, h, now, walk)
  {
    VictimInside(Kept(c, ttl, now), max, h, walk);
    OwnHandleDropped(c, ttl, max, h, now, walk);
  }

  lemma PruneRetiresWhatLeaves(c: Conts, ttl: int, now: Time)
    ensures Left(c, Kept(c, ttl, now), {}, ttl, now) == StaleSet(c, ttl, now)
  {
  }

  ghost predicate Conserved(s: Sys) {
    && s.passed[EMPTY] == 0 && s.pending[EMPTY] == 0
    && forall h :: h != EMPTY ==> s.dropped[h] == s.passed[h] + s.pending[h]
  }

  ghost predicate Retired(s: Sys) {
    forall h :: h in s.owed ==> h in s.pending || h !in s.items
  }

  lemma DroppingKeeps(s: Sys, n: Conts, d: set<Handle>)
    requires Conserved(s) && Retired(s)
    ensures Conserved(Dropping(s, n, d, d)) && Retired(Dropping(s, n, d, d))
  {
  }

  lemma BeginKeeps(cfg: Config, s: Sys, h: Handle, c: Cont, walk: seq<Handle>)
    requires Conserved(s) && Retired(s) && Enumerates(walk, Kept(s.cont, cfg.ttl, s.clock).Keys)
    ensures Conserved(DoBegin(cfg, s, h, c, walk)) && Retired(DoBegin(cfg, s, h, c, walk))
  {
    var d := Dropped(s.cont, cfg.ttl, cfg.max, h, s.clock, walk);
    BeginRetiresWhatLeaves(s.cont, cfg.ttl, cfg.max, h, c, s.clock, walk);
    DroppingKeeps(s, Begun(s.cont, cfg.ttl, cfg.max, h, c, s.clock, walk), d);
  }

  lemma PruneKeeps(cfg: Config, s: Sys)
    requires Conserved(s) && Retired(s)
    ensures Conserved(DoPrune(cfg, s)) && Retired(DoPrune(cfg, s))
  {
    PruneRetiresWhatLeaves(s.cont, cfg.ttl, s.clock);
    DroppingKeeps(s, Kept(s.cont, cfg.ttl, s.clock), StaleSet(s.cont, cfg.ttl, s.clock));
  }

  lemma CleanupKeeps(cfg: Config, s: Sys, h: Handle)
    requires Conserved(s) && Retired(s) && h in s.pending
    ensures Conserved(Next(cfg, s, CleanupStep(h))) && Retired(Next(cfg, s, CleanupStep(h)))
  {
  }

  lemma StoreStepKeeps(cfg: Config, s: Sys, op: S.Op)
    requires Conserved(s) && Retired(s) && !op.Wait?
    ensures Conserved(Next(cfg, s, StoreStep(op))) && Retired(Next(cfg, s, StoreStep(op)))
  {
    assert S.DoReal(s.items, cfg.storeMax, cfg.storeTtl, op, s.clock).Keys <= s.items.Keys + Created(op);
  }

  /** The other steps count and owe nothing and at most remove items. */
  lemma QuietKeeps(s: Sys, n: Sys)
    requires Conserved(s) && Retired(s) && n.items.Keys <= s.items.Keys
    requires n.pending == s.pending && n.dropped == s.dropped && n.passed == s.passed && n.owed == s.owed
    ensures Conserved(n) && Retired(n)
  {
  }

  lemma ResumeIsQuiet(cfg: Config, s: Sys, step: Step)
    requires Enabled(cfg, s, step) && (step.StoreRead? || step.RegistryRead? || step.AnswerStep? || step.ResumeEnd?)
    ensures var n := Next(cfg, s, step);
            n.items.Keys <= s.items.Keys && n.pending == s.pending && n.dropped == s.dropped && n.passed == s.passed && n.owed == s.owed
  {
  }

  lemma NextKeeps(cfg: Config, s: Sys, step: Step)
    requires Conserved(s) && Retired(s) && Enabled(cfg, s, step)
    ensures Conserved(Next(cfg, s, step)) && Retired(Next(cfg, s, step))
  {
    match step
    case BeginStep(h, c, walk) => BeginKeeps(cfg, s, h, c, walk);
    case PruneStep => PruneKeeps(cfg, s);
    case CleanupStep(h) => CleanupKeeps(cfg, s, h);
    case StoreStep(op) => StoreStepKeeps(cfg, s, op);
    case Tick(_) => QuietKeeps(s, Next(cfg, s, step));
    case EndStep(_) => QuietKeeps(s, Next(cfg, s, step));
    case _ =>
      ResumeIsQuiet(cfg, s, step);
      QuietKeeps(s, Next(cfg, s, step));
  }

  lemma {:induction false} RunInv(cfg: Config, trace: seq<Sys>, steps: seq<Step>, i: nat)
    requires IsRun(cfg, trace, steps) && i < |trace|
    ensures Conserved(trace[i]) && Retired(trace[i])
  {
    if i > 0 {
      RunInv(cfg, trace, steps, i - 1);
      NextKeeps(cfg, trace[i - 1], steps[i - 1]);
    }
  }

  /** Over every run each entry that left by expiry or capacity had its handle passed to cleanup once, or
      its cleanup is still pending; the empty handle is never passed. */
  lemma DropsAreConserved(cfg: Config, trace: seq<Sys>, steps: seq<Step>, i: nat, h: Handle)
    requires IsRun(cfg, trace, steps) && i < |trace|
    ensures trace[i].passed[h] + trace[i].pending[h] == if h == EMPTY then 0 else trace[i].dropped[h]
  {
    RunInv(cfg, trace, steps, i);
  }

  /** When no cleanup of it is pending, a handle whose entry left, and that was not created again since, is
      gone from the store. */
  lemma DroppedIsGone(cfg: Config, trace: seq<Sys>, steps: seq<Step>, i: nat, h: Handle)
    requires IsRun(cfg, trace, steps) && i < |trace| && h !in trace[i].pending
    requires h in trace[i].owed
    ensures h !in trace[i].items
  {
    RunInv(cfg, trace, steps, i);
  }

  /** A Begin over an entry past its TTL, followed by its own cleanup, leaves a live continuation whose
      backing handle is gone. */
  lemma RefreshedFlowIsDead(cfg: Config, s: Sys, h: Handle, c: Cont, walk: seq<Handle>)
    requires Enabled(cfg, s, BeginStep(h, c, walk)) && cfg.ttl >= 0
    requires h != EMPTY && h in s.cont && Stale(s.cont[h], cfg.ttl, s.clock)
    ensures var t := Next(cfg, s, BeginStep(h, c, walk));
            Enabled(cfg, t, CleanupStep(h)) &&
            var u := Next(cfg, t, CleanupStep(h));
            Lookup(u.cont, cfg.ttl, h, u.clock) == Some(c) && h !in u.items
  {
    OwnHandleDropped(s.cont, cfg.ttl, cfg.max, h, s.clock, walk);
  }

  // ---------------------------------------------------------------- the cap

  /** What a step that registers nothing takes out of the registry. */
  function TakenOut(cfg: Config, s: Sys, step: Step): set<Handle> {
    match step
    case EndStep(h) => {h}
    case PruneStep => StaleSet(s.cont, cfg.ttl, s.clock)
    case ResumeEnd(k) => if k in s.calls then {s.calls[k].handle} else {}
    case _ => {}
  }

  /** Every step but Begin leaves the registry alone or takes entries out. */
  lemma OnlyBeginAdds(cfg: Config, s: Sys, step: Step)
    requires Enabled(cfg, s, step) && !step.BeginStep?
    ensures Next(cfg, s, step).cont == s.cont - TakenOut(cfg, s, step)
    ensures Next(cfg, s, step).used == s.used
  {
    if step.EndStep? || step.PruneStep? || step.ResumeEnd? {
      TakersTake(cfg, s, step);
    } else {
      TakeNothing(s.cont);
      OthersTakeNothing(cfg, s, step);
    }
  }

  lemma TakersTake(cfg: Config, s: Sys, step: Step)
    requires Enabled(cfg, s, step) && (step.EndStep? || step.PruneStep? || step.ResumeEnd?)
    ensures Next(cfg, s, step).cont == s.cont - TakenOut(cfg, s, step)
    ensures Next(cfg, s, step).used == s.used
  {
  }

  lemma OthersTakeNothing(cfg: Config, s: Sys, step: Step)
    requires Enabled(cfg, s, step) && !step.BeginStep? && !step.EndStep? && !step.PruneStep? && !step.ResumeEnd?
    ensures Next(cfg, s, step).cont == s.cont && Next(cfg, s, step).used == s.used
  {
    if step.StoreRead? || step.RegistryRead? || step.AnswerStep? {
      ReadsTakeNothing(cfg, s, step);
    }
  }

  lemma ReadsTakeNothing(cfg: Config, s: Sys, step: Step)
    requires Enabled(cfg, s, step) && (step.StoreRead? || step.RegistryRead? || step.AnswerStep?)
    ensures Next(cfg, s, step).cont == s.cont && Next(cfg, s, step).used == s.used
  {
  }

  lemma TakeNothing(c: Conts)
    ensures c - {} == c
  {
  }

  lemma BeginShape(cfg: Config, s: Sys, h: Handle, c: Cont, walk: seq<Handle>)
    requires Enabled(cfg, s, BeginStep(h, c, walk))
    ensures Next(cfg, s, BeginStep(h, c, walk)).cont == Begun(s.cont, cfg.ttl, cfg.max, h, c, s.clock, walk)
    ensures Next(cfg, s, BeginStep(h, c, walk)).used == s.used + {c}
    ensures Next(cfg, s, BeginStep(h, c, walk)).calls == s.calls
  {
  }

  /** In every run that never registers the empty handle the registry stays within its cap. */
  lemma {:induction false} WithinCap(cfg: Config, trace: seq<Sys>, steps: seq<Step>, i: nat)
    requires IsRun(cfg, trace, steps) && i < |trace| && cfg.max >= 1
    requires forall j :: 0 <= j < i && steps[j].BeginStep? ==> steps[j].handle != EMPTY
    ensures |trace[i].cont| <= cfg.max && EMPTY !in trace[i].cont
  {
    if i > 0 {
      WithinCap(cfg, trace, steps, i - 1);
      StepWithinCap(cfg, trace[i - 1], steps[i - 1]);
    }
  }

  lemma StepWithinCap(cfg: Config, s: Sys, step: Step)
    requires Enabled(cfg, s, step) && cfg.max >= 1 && (step.BeginStep? ==> step.handle != EMPTY)
    requires |s.cont| <= cfg.max && EMPTY !in s.cont
    ensures |Next(cfg, s, step).cont| <= cfg.max && EMPTY !in Next(cfg, s, step).cont
  {
    if step.BeginStep? {
      BeginShape(cfg, s, step.handle, step.cont, step.walk);
      BeginWithinCap(s.cont, cfg.ttl, cfg.max, step.handle, step.cont, s.clock, step.walk);
    } else {
      OnlyBeginAdds(cfg, s, step);
      FewerEntries(s.cont, TakenOut(cfg, s, step));
    }
  }

  // ---------------------------------------------------------------- a run that goes over the cap

  /** A registry of `n` entries, the empty handle's strictly the oldest, the others one instant younger. */
  ghost predicate Filled(c: Conts, n: nat) {
    && n >= 1 && |c.Keys| == n && (forall h: Handle :: h in c <==> h < n)
    && c[EMPTY].createdAt == 0
    && (forall h :: h in c && h != EMPTY ==> c[h].createdAt == 1)
  }

  ghost predicate FilledAt(s: Sys, n: nat) {
    Filled(s.cont, n) && s.clock == 1 && forall c :: c in s.used ==> c < n
  }

  lemma NothingStale(c: Conts, ttl: int, n: nat)
    requires Filled(c, n) && ttl >= 1
    ensures Kept(c, ttl, 1) == c && EmptyIsOldest(c) && |c| == n
  {
    assert StaleSet(c, ttl, 1) == {};
    assert |c| == |c.Keys|;
  }

  lemma FilledMore(c: Conts, n: nat)
    requires Filled(c, n)
    ensures Filled(c[n := Entry(1, n)], n + 1)
  {
    assert c[n := Entry(1, n)].Keys == c.Keys + {n};
  }

  lemma BegunMore(c: Conts, ttl: int, max: int, n: nat, walk: seq<Handle>)
    requires Filled(c, n) && ttl >= 1 && n < max && Enumerates(walk, c.Keys)
    ensures Kept(c, ttl, 1) == c && Begun(c, ttl, max, n, n, 1, walk) == c[n := Entry(1, n)]
  {
    NothingStale(c, ttl, n);
    TakeNothing(c);
  }

  /** Nothing is stale yet, so a Begin with room adds its handle and drops nothing. */
  lemma BeginAdds(cfg: Config, s: Sys, n: nat) returns (step: Step)
    requires FilledAt(s, n) && cfg.ttl >= 1 && n < cfg.max
    ensures Enabled(cfg, s, step) && FilledAt(Next(cfg, s, step), n + 1)
  {
    var walk := WalkExists(s.cont.Keys);
    EnumeratesElems(walk, s.cont.Keys);
    BegunMore(s.cont, cfg.ttl, cfg.max, n, walk);
    step := BeginStep(n, n, walk);
    BeginShape(cfg, s, n, n, walk);
    FilledMore(s.cont, n);
  }

  lemma {:induction false} FillRegistry(cfg: Config, n: nat) returns (trace: seq<Sys>, steps: seq<Step>)
    requires cfg.ttl >= 1 && 1 <= n <= cfg.max
    ensures IsRun(cfg, trace, steps) && FilledAt(trace[|steps|], n)
  {
    if n == 1 {
      trace, steps := OneEntry(cfg);
    } else {
      var t, o := FillRegistry(cfg, n - 1);
      var step := BeginAdds(cfg, t[|o|], n - 1);
      trace, steps := Extended(cfg, t, o, step);
    }
  }

  lemma Extended(cfg: Config, t: seq<Sys>, o: seq<Step>, step: Step) returns (t': seq<Sys>, o': seq<Step>)
    requires IsRun(cfg, t, o) && Enabled(cfg, t[|o|], step)
    ensures IsRun(cfg, t', o') && o' == o + [step] && t' == t + [Next(cfg, t[|o|], step)]
  {
    var n := Next(cfg, t[|o|], step);
    t', o' := t + [n], o + [step];
    forall i | 0 <= i < |o'| ensures Enabled(cfg, t'[i], o'[i]) && t'[i + 1] == Next(cfg, t'[i], o'[i]) {
      assert t'[i] == t[i];
      if i < |o| {
        assert t'[i + 1] == t[i + 1] && o'[i] == o[i];
      } else {
        assert t'[i + 1] == n;
      }
    }
  }

  lemma OneEntry(cfg: Config) returns (trace: seq<Sys>, steps: seq<Step>)
    requires cfg.max >= 1
    ensures IsRun(cfg, trace, steps) && FilledAt(trace[|steps|], 1)
  {
    var s0 := Sys(0, map[], map[], multiset{}, multiset{}, multiset{}, {}, {}, map[]);
    var b := BeginStep(EMPTY, 0, []);
    FirstBegin(cfg, s0);
    var t, o := Extended(cfg, [s0], [], b);
    trace, steps := Extended(cfg, t, o, Tick(1));
  }

  lemma FirstConts(ttl: int, max: int)
    requires max >= 1
    ensures Kept(map[], ttl, 0) == map[] && Begun(map[], ttl, max, EMPTY, 0, 0, []) == map[EMPTY := Entry(0, 0)]
  {
    var none: Conts := map[];
    assert StaleSet(none, ttl, 0) == {};
    TakeNothing(none);
    assert Kept(none, ttl, 0) == none;
    assert Victim(none, max, EMPTY, []) == {};
  }

  lemma FilledOne()
    ensures Filled(map[EMPTY := Entry(0, 0)], 1)
  {
    var c: Conts := map[EMPTY := Entry(0, 0)];
    assert c.Keys == {EMPTY};
  }

  lemma FirstBegin(cfg: Config, s: Sys)
    requires s.cont == map[] && s.clock == 0 && s.used == {} && cfg.max >= 1
    ensures Enabled(cfg, s, BeginStep(EMPTY, 0, []))
    ensures var n := Next(cfg, s, BeginStep(EMPTY, 0, [])); Filled(n.cont, 1) && n.clock == 0 && n.used == {0}
  {
    FirstConts(cfg.ttl, cfg.max);
    FilledOne();
    BeginShape(cfg, s, EMPTY, 0, []);
  }

  /** The cap is really exceeded, whatever it is: the empty handle is registered first, the registry
      fills up, and one more flow begins. */
  lemma OverCapIsReached(cfg: Config) returns (trace: seq<Sys>, steps: seq<Step>)
    requires cfg.ttl >= 1 && cfg.max >= 1
    ensures IsRun(cfg, trace, steps) && |trace[|steps|].cont| > cfg.max
  {
    var n := cfg.max;
    var t, o := FillRegistry(cfg, n);
    var s := t[|o|];
    NothingStale(s.cont, cfg.ttl, n);
    var walk := EmptyLast(s.cont);
    var step := BeginStep(n, n, walk);
    BeginShape(cfg, s, n, n, walk);
    BegunSize(s.cont, cfg.ttl, n, n, n, 1, walk);
    trace, steps := Extended(cfg, t, o, step);
  }

  // ---------------------------------------------------------------- continuations

  ghost predicate Absent(c: Conts, cont: Cont) {
    forall h :: h in c ==> c[h].cont != cont
  }

  /** Registered continuations are known and stand under one handle each; calls have seen known ones. */
  ghost predicate UsedInv(s: Sys) {
    && EntriesUsed(s.cont, s.used)
    && (forall k :: k in s.calls && s.calls[k].seen.Some? ==> s.calls[k].seen.value in s.used)
  }

  /** A Begin keeps the other entries it does not drop and registers the new one. */
  lemma BegunEntries(c: Conts, ttl: int, max: int, h: Handle, cont: Cont, now: Time, walk: seq<Handle>, g: Handle)
    requires Enumerates(walk, Kept(c, ttl, now).Keys)
    requires g in Begun(c, ttl, max, h, cont, now, walk)
    ensures g == h ==> Begun(c, ttl, max, h, cont, now, walk)[g] == Entry(now, cont)
    ensures g != h ==> g in c && Begun(c, ttl, max, h, cont, now, walk)[g] == c[g]
  {
  }

  /** What may stand under a handle after a step: what stood there before, or what the step registers. */
  lemma EntryStep(cfg: Config, s: Sys, step: Step, g: Handle)
    requires Enabled(cfg, s, step) && g in Next(cfg, s, step).cont
    ensures var n := Next(cfg, s, step);
            if step.BeginStep? && step.handle == g then n.cont[g] == Entry(s.clock, step.cont)
            else g in s.cont && n.cont[g] == s.cont[g]
  {
    if step.BeginStep? {
      BeginShape(cfg, s, step.handle, step.cont, step.walk);
      BegunEntries(s.cont, cfg.ttl, cfg.max, step.handle, step.cont, s.clock, step.walk, g);
    } else {
      OnlyBeginAdds(cfg, s, step);
    }
  }

  lemma UsedStep(cfg: Config, s: Sys, step: Step)
    requires Enabled(cfg, s, step)
    ensures Next(cfg, s, step).used == if step.BeginStep? then s.used + {step.cont} else s.used
  {
    if step.BeginStep? {
      BeginShape(cfg, s, step.handle, step.cont, step.walk);
    } else {
      OnlyBeginAdds(cfg, s, step);
    }
  }

  ghost predicate EntriesUsed(c: Conts, used: set<Cont>) {
    && (forall h :: h in c ==> c[h].cont in used)
    && (forall h, g :: h in c && g in c && c[h].cont == c[g].cont ==> h == g)
  }

  lemma EntriesKeepUsed(cfg: Config, s: Sys, step: Step)
    requires UsedInv(s) && Enabled(cfg, s, step)
    ensures EntriesUsed(Next(cfg, s, step).cont, Next(cfg, s, step).used)
  {
    var n := Next(cfg, s, step);
    UsedStep(cfg, s, step);
    forall h | h in n.cont
      ensures if step.BeginStep? && step.handle == h then n.cont[h].cont == step.cont else h in s.cont && n.cont[h] == s.cont[h]
    {
      EntryStep(cfg, s, step, h);
    }
    EntriesFrom(s, step, n.cont, n.used);
  }

  lemma EntriesFrom(s: Sys, step: Step, c: Conts, used: set<Cont>)
    requires EntriesUsed(s.cont, s.used) && (step.BeginStep? ==> step.cont !in s.used)
    requires used == if step.BeginStep? then s.used + {step.cont} else s.used
    requires forall h :: h in c ==>
               if step.BeginStep? && step.handle == h then c[h].cont == step.cont else h in s.cont && c[h] == s.cont[h]
    ensures EntriesUsed(c, used)
  {
  }

  /** A call keeps what it has seen, or has just read it from the registry. */
  lemma SeenStep(cfg: Config, s: Sys, step: Step, k: nat)
    requires Enabled(cfg, s, step) && k in Next(cfg, s, step).calls
    ensures var seen := Next(cfg, s, step).calls[k].seen;
            || seen.None?
            || (k in s.calls && seen == s.calls[k].seen)
            || (exists h :: h in s.cont && seen == Some(s.cont[h].cont))
  {
    if step.StoreRead? || step.RegistryRead? {
      SeenByReads(cfg, s, step, k);
    }
  }

  lemma SeenByReads(cfg: Config, s: Sys, step: Step, k: nat)
    requires Enabled(cfg, s, step) && k in Next(cfg, s, step).calls && (step.StoreRead? || step.RegistryRead?)
    ensures var seen := Next(cfg, s, step).calls[k].seen;
            || seen.None?
            || (k in s.calls && seen == s.calls[k].seen)
            || (exists h :: h in s.cont && seen == Some(s.cont[h].cont))
  {
  }

  lemma NextUsed(cfg: Config, s: Sys, step: Step)
    requires UsedInv(s) && Enabled(cfg, s, step)
    ensures UsedInv(Next(cfg, s, step))
  {
    var n := Next(cfg, s, step);
    EntriesKeepUsed(cfg, s, step);
    UsedStep(cfg, s, step);
    forall k | k in n.calls && n.calls[k].seen.Some? ensures n.calls[k].seen.value in n.used {
      SeenStep(cfg, s, step, k);
    }
  }

  lemma {:induction false} RunUsed(cfg: Config, trace: seq<Sys>, steps: seq<Step>, i: nat)
    requires IsRun(cfg, trace, steps) && i < |trace|
    ensures UsedInv(trace[i])
  {
    if i > 0 {
      RunUsed(cfg, trace, steps, i - 1);
      NextUsed(cfg, trace[i - 1], steps[i - 1]);
    }
  }

  // ---------------------------------------------------------------- what one step means for entries and calls

  /** Where the entry under `g` comes from. */
  ghost predicate EntryFrom(s: Sys, step: Step, n: Sys, g: Handle)
    requires g in n.cont
  {
    if step.BeginStep? && step.handle == g then n.cont[g] == Entry(s.clock, step.cont)
    else g in s.cont && n.cont[g] == s.cont[g]
  }

  /** A call that has made its last read keeps what it saw; one that has not is as its store read left it. */
  ghost predicate CallFrom(a: ResumeCall, b: ResumeCall) {
    && (!a.pc.Live? ==> !b.pc.Live? && b.handle == a.handle && b.seen == a.seen)
    && (b.pc.Live? ==> b == a)
  }

  /** A store read that found its handle live. */
  ghost predicate ReadLive(s: Sys, h: Handle, call: ResumeCall) {
    h != EMPTY && Alive(s.items, h, s.clock) && call.handle == h && call.data == s.items[h].data
  }

  ghost predicate Follows(s: Sys, step: Step, n: Sys) {
    && n.used == (if step.BeginStep? then s.used + {step.cont} else s.used)
    && (step.BeginStep? ==> step.cont !in s.used)
    && (forall g :: g in n.cont ==> EntryFrom(s, step, n, g))
    && (forall k :: k in s.calls ==> k in n.calls && CallFrom(s.calls[k], n.calls[k]))
    && (step.StoreRead? ==> step.k in n.calls && (n.calls[step.k].pc.Live? ==> ReadLive(s, step.handle, n.calls[step.k])))
  }

  lemma CallsFrom(cfg: Config, s: Sys, step: Step, k: nat)
    requires Enabled(cfg, s, step) && k in s.calls
    ensures k in Next(cfg, s, step).calls && CallFrom(s.calls[k], Next(cfg, s, step).calls[k])
  {
    if step.StoreRead? || step.RegistryRead? || step.AnswerStep? || step.ResumeEnd? {
      ResumeCallsFrom(cfg, s, step, k);
    } else {
      SameCalls(cfg, s, step);
    }
  }

  lemma SameCalls(cfg: Config, s: Sys, step: Step)
    requires Enabled(cfg, s, step) && !step.StoreRead? && !step.RegistryRead? && !step.AnswerStep? && !step.ResumeEnd?
    ensures Next(cfg, s, step).calls == s.calls
  {
    if step.BeginStep? {
      BeginShape(cfg, s, step.handle, step.cont, step.walk);
    }
  }

  lemma ResumeCallsFrom(cfg: Config, s: Sys, step: Step, k: nat)
    requires Enabled(cfg, s, step) && (step.StoreRead? || step.RegistryRead? || step.AnswerStep? || step.ResumeEnd?)
    requires k in s.calls
    ensures k in Next(cfg, s, step).calls && CallFrom(s.calls[k], Next(cfg, s, step).calls[k])
  {
  }

  lemma StoreReadLive(cfg: Config, s: Sys, k: nat, h: Handle)
    requires Enabled(cfg, s, StoreRead(k, h))
    ensures var n := Next(cfg, s, StoreRead(k, h));
            k in n.calls && (n.calls[k].pc.Live? ==> ReadLive(s, h, n.calls[k]))
  {
  }

  lemma NextFollows(cfg: Config, s: Sys, step: Step)
    requires Enabled(cfg, s, step)
    ensures Follows(s, step, Next(cfg, s, step))
  {
    var n := Next(cfg, s, step);
    UsedStep(cfg, s, step);
    forall g | g in n.cont ensures EntryFrom(s, step, n, g) {
      EntryStep(cfg, s, step, g);
    }
    forall k | k in s.calls ensures k in n.calls && CallFrom(s.calls[k], n.calls[k]) {
      CallsFrom(cfg, s, step, k);
    }
    if step.StoreRead? {
      StoreReadLive(cfg, s, step.k, step.handle);
    }
  }

  ghost predicate Story(trace: seq<Sys>, steps: seq<Step>) {
    |trace| == |steps| + 1 && forall i :: 0 <= i < |steps| ==> Follows(trace[i], steps[i], trace[i + 1])
  }

  lemma RunStory(cfg: Config, trace: seq<Sys>, steps: seq<Step>)
    requires IsRun(cfg, trace, steps)
    ensures Story(trace, steps)
  {
    forall i | 0 <= i < |steps| ensures Follows(trace[i], steps[i], trace[i + 1]) {
      NextFollows(cfg, trace[i], steps[i]);
    }
  }

  lemma {:induction false} UsedGrows(trace: seq<Sys>, steps: seq<Step>, i: nat, j: nat)
    requires Story(trace, steps) && i <= j < |trace|
    ensures trace[i].used <= trace[j].used
  {
    if i < j {
      UsedGrows(trace, steps, i, j - 1);
      assert Follows(trace[j - 1], steps[j - 1], trace[j - 1 + 1]);
    }
  }

  lemma {:induction false} StaysAbsent(trace: seq<Sys>, steps: seq<Step>, i: nat, j: nat, c: Cont)
    requires Story(trace, steps) && i <= j < |trace| && c in trace[i].used && Absent(trace[i].cont, c)
    ensures Absent(trace[j].cont, c)
  {
    if i < j {
      StaysAbsent(trace, steps, i, j - 1, c);
      UsedGrows(trace, steps, i, j - 1);
      assert Follows(trace[j - 1], steps[j - 1], trace[j - 1 + 1]);
      forall h | h in trace[j].cont ensures trace[j].cont[h].cont != c {
        assert EntryFrom(trace[j - 1], steps[j - 1], trace[j], h);
      }
    }
  }

  /** A continuation that has left the registry is never registered again. */
  lemma NeverRegisteredAgain(cfg: Config, trace: seq<Sys>, steps: seq<Step>, i: nat, j: nat, c: Cont)
    requires IsRun(cfg, trace, steps) && i <= j < |trace| && c in trace[i].used && Absent(trace[i].cont, c)
    ensures Absent(trace[j].cont, c)
  {
    RunStory(cfg, trace, steps);
    StaysAbsent(trace, steps, i, j, c);
  }

  // ---------------------------------------------------------------- resume calls among others

  /** A resume call runs a continuation only if its handle was live when it read the store, and exactly if
      the registry then held an entry within its TTL, whose continuation it is. */
  lemma ResumeRuns(cfg: Config, trace: seq<Sys>, steps: seq<Step>, p: nat, q: nat, k: nat, h: Handle)
    requires IsRun(cfg, trace, steps) && p < q < |steps|
    requires steps[p] == StoreRead(k, h) && steps[q] == RegistryRead(k)
    ensures h != 0 && h in trace[p].items && trace[p].clock <= trace[p].items[h].expiresAt
    ensures k in trace[q + 1].calls
    ensures trace[q + 1].calls[k].pc.Running? <==> h in trace[q].cont && trace[q].clock - trace[q].cont[h].createdAt <= cfg.ttl
    ensures trace[q + 1].calls[k].pc.Running? ==>
              trace[q + 1].calls[k].seen == Some(trace[q].cont[h].cont) && trace[q + 1].calls[k].data == trace[p].items[h].data
  {
    RunStory(cfg, trace, steps);
    LiveStays(trace, steps, p, q, k, h);
    RegistryReadRuns(cfg, trace[q], k);
  }

  lemma RegistryReadRuns(cfg: Config, s: Sys, k: nat)
    requires Enabled(cfg, s, RegistryRead(k))
    ensures var h, n := s.calls[k].handle, Next(cfg, s, RegistryRead(k));
            && k in n.calls
            && (n.calls[k].pc.Running? <==> h in s.cont && !Stale(s.cont[h], cfg.ttl, s.clock))
            && (n.calls[k].pc.Running? ==> n.calls[k].seen == Some(s.cont[h].cont) && n.calls[k].data == s.calls[k].data)
  {
  }

  /** Until it reads the registry a call stays as its store read left it. */
  lemma {:induction false} LiveStays(trace: seq<Sys>, steps: seq<Step>, p: nat, q: nat, k: nat, h: Handle)
    requires Story(trace, steps) && p < q < |trace|
    requires steps[p] == StoreRead(k, h) && CallAt(trace[q], k, Live)
    ensures ReadLive(trace[p], h, trace[q].calls[k])
  {
    assert Follows(trace[q - 1], steps[q - 1], trace[q - 1 + 1]);
    if p + 1 < q {
      CreatedOnce(trace, steps, p, q - 1, k, h);
      assert CallFrom(trace[q - 1].calls[k], trace[q].calls[k]);
      LiveStays(trace, steps, p, q - 1, k, h);
    }
  }

  lemma {:induction false} CreatedOnce(trace: seq<Sys>, steps: seq<Step>, p: nat, q: nat, k: nat, h: Handle)
    requires Story(trace, steps) && p < q < |trace| && steps[p] == StoreRead(k, h)
    ensures k in trace[q].calls
  {
    assert Follows(trace[q - 1], steps[q - 1], trace[q - 1 + 1]);
    if p + 1 < q {
      CreatedOnce(trace, steps, p, q - 1, k, h);
    }
  }

  /** Step `step` is the read that may lead call `k` to its End: a store read that found the handle dead,
      or a registry read that found the continuation to run. */
  ghost predicate Fixes(cfg: Config, s: Sys, step: Step, k: nat)
    requires Enabled(cfg, s, step)
  {
    (step.StoreRead? || step.RegistryRead?) && step.k == k && k in Next(cfg, s, step).calls &&
    (Next(cfg, s, step).calls[k].pc.Ending? || Next(cfg, s, step).calls[k].pc.Running?)
  }

  /** The read fixes what the call has seen: what then stands under its handle. */
  lemma FixesSeen(cfg: Config, s: Sys, step: Step, k: nat)
    requires Enabled(cfg, s, step) && Fixes(cfg, s, step, k)
    ensures var n := Next(cfg, s, step);
            n.cont == s.cont && n.calls[k].seen == Registered(s.cont, n.calls[k].handle)
  {
    if step.StoreRead? {
      StoreReadSeen(cfg, s, k, step.handle);
    } else {
      RegistryReadRuns(cfg, s, k);
      RegistryReadKeeps(cfg, s, k);
    }
  }

  lemma StoreReadSeen(cfg: Config, s: Sys, k: nat, h: Handle)
    requires Enabled(cfg, s, StoreRead(k, h))
    ensures var n := Next(cfg, s, StoreRead(k, h));
            && n.cont == s.cont && k in n.calls && n.calls[k].handle == h && !n.calls[k].pc.Running?
            && (n.calls[k].pc.Ending? ==> n.calls[k].seen == Registered(s.cont, h))
  {
  }

  lemma RegistryReadKeeps(cfg: Config, s: Sys, k: nat)
    requires Enabled(cfg, s, RegistryRead(k))
    ensures var n := Next(cfg, s, RegistryRead(k));
            n.cont == s.cont && k in n.calls && n.calls[k].handle == s.calls[k].handle && !n.calls[k].pc.Ending?
  {
  }

  lemma {:induction false} CallStays(trace: seq<Sys>, steps: seq<Step>, p: nat, q: nat, k: nat)
    requires Story(trace, steps) && p <= q < |trace| && k in trace[p].calls && !trace[p].calls[k].pc.Live?
    ensures k in trace[q].calls && !trace[q].calls[k].pc.Live?
    ensures trace[q].calls[k].handle == trace[p].calls[k].handle && trace[q].calls[k].seen == trace[p].calls[k].seen
  {
    if p < q {
      CallStays(trace, steps, p, q - 1, k);
      assert Follows(trace[q - 1], steps[q - 1], trace[q - 1 + 1]);
      assert CallFrom(trace[q - 1].calls[k], trace[q].calls[k]);
    }
  }

  /** A Begin of `h` at step `i`, after which `h` has stood in the registry until state `q`. */
  ghost predicate BegunSince(trace: seq<Sys>, steps: seq<Step>, i: nat, q: nat, h: Handle)
    requires i < q < |trace| == |steps| + 1
  {
    steps[i].BeginStep? && steps[i].handle == h && forall j :: i < j <= q ==> h in trace[j].cont
  }

  /** What stands under a handle either stood there all along or was begun meanwhile. */
  lemma {:induction false} EntryHistory(trace: seq<Sys>, steps: seq<Step>, p: nat, q: nat, h: Handle)
    requires Story(trace, steps) && p < q < |trace| && h in trace[q].cont
    ensures (h in trace[p + 1].cont && trace[q].cont[h] == trace[p + 1].cont[h]) ||
            (exists i :: p < i < q && BegunSince(trace, steps, i, q, h))
  {
    if p + 1 < q {
      assert Follows(trace[q - 1], steps[q - 1], trace[q - 1 + 1]);
      assert EntryFrom(trace[q - 1], steps[q - 1], trace[q], h);
      if steps[q - 1].BeginStep? && steps[q - 1].handle == h {
        assert BegunSince(trace, steps, q - 1, q, h);
      } else {
        var r: nat := q - 1;
        EntryHistory(trace, steps, p, r, h);
        if i :| p < i < r && BegunSince(trace, steps, i, r, h) {
          assert BegunSince(trace, steps, i, q, h);
        }
      }
    }
  }

  /** What was begun meanwhile is new. */
  lemma {:induction false} NewSince(trace: seq<Sys>, steps: seq<Step>, i: nat, q: nat, h: Handle)
    requires Story(trace, steps) && i < q < |trace| && BegunSince(trace, steps, i, q, h)
    ensures h in trace[q].cont && trace[q].cont[h].cont !in trace[i].used
  {
    assert Follows(trace[q - 1], steps[q - 1], trace[q - 1 + 1]);
    assert EntryFrom(trace[q - 1], steps[q - 1], trace[q], h);
    if i + 1 < q {
      UsedGrows(trace, steps, i, q - 1);
      assert BegunSince(trace, steps, i, q - 1, h);
      NewSince(trace, steps, i, q - 1, h);
    }
  }

  /** Over every interleaving, the End of a resume call takes out a continuation other than the one it ran,
      or than the one that stood with its dead handle, if and only if the same handle was begun again
      between the call's read and its End and that new flow was still registered. */
  lemma EndTakesAnother(cfg: Config, trace: seq<Sys>, steps: seq<Step>, p: nat, q: nat, k: nat)
    requires IsRun(cfg, trace, steps) && p < q < |steps|
    requires Fixes(cfg, trace[p], steps[p], k) && steps[q] == ResumeEnd(k)
    ensures k in trace[q].calls
    ensures var call := trace[q].calls[k];
            call.handle in trace[q].cont && Some(trace[q].cont[call.handle].cont) != call.seen <==>
            exists i :: p < i < q && BegunSince(trace, steps, i, q, call.handle)
  {
    FixesSeen(cfg, trace[p], steps[p], k);
    RunUsed(cfg, trace, steps, p + 1);
    RunStory(cfg, trace, steps);
    CallStays(trace, steps, p + 1, q, k);
    OtherThanSeen(trace, steps, p, q, k);
  }

  lemma OtherThanSeen(trace: seq<Sys>, steps: seq<Step>, p: nat, q: nat, k: nat)
    requires Story(trace, steps) && p < q < |steps| && k in trace[q].calls && UsedInv(trace[p + 1])
    requires var call := trace[q].calls[k];
             call.seen == Registered(trace[p + 1].cont, call.handle) && (call.seen.Some? ==> call.seen.value in trace[p + 1].used)
    ensures var call := trace[q].calls[k];
            call.handle in trace[q].cont && Some(trace[q].cont[call.handle].cont) != call.seen <==>
            exists i :: p < i < q && BegunSince(trace, steps, i, q, call.handle)
  {
    var call := trace[q].calls[k];
    if call.handle in trace[q].cont {
      EntryHistory(trace, steps, p, q, call.handle);
    }
    if i :| p < i < q && BegunSince(trace, steps, i, q, call.handle) {
      NewSince(trace, steps, i, q, call.handle);
      UsedGrows(trace, steps, p + 1, i);
    }
  }

  /** Once an End has taken a continuation out, no later registry read of any call finds it again. */
  lemma EndedNeverRuns(cfg: Config, trace: seq<Sys>, steps: seq<Step>, q: nat, j: nat, k: nat, m: nat)
    requires IsRun(cfg, trace, steps) && q < j < |steps| && steps[q] == ResumeEnd(k) && steps[j] == RegistryRead(m)
    requires trace[q].calls[k].handle in trace[q].cont
    ensures m in trace[j + 1].calls
    ensures trace[j + 1].calls[m].pc.Running? ==>
              trace[j + 1].calls[m].seen != Some(trace[q].cont[trace[q].calls[k].handle].cont)
  {
    var h := trace[q].calls[k].handle;
    var c := trace[q].cont[h].cont;
    RunUsed(cfg, trace, steps, q);
    RunStory(cfg, trace, steps);
    UsedGrows(trace, steps, q, q + 1);
    EndTakesOut(cfg, trace[q], k);
    NeverRegisteredAgain(cfg, trace, steps, q + 1, j, c);
    RegistryReadRuns(cfg, trace[j], m);
  }

  lemma EndTakesOut(cfg: Config, s: Sys, k: nat)
    requires UsedInv(s) && Enabled(cfg, s, ResumeEnd(k)) && s.calls[k].handle in s.cont
    ensures Absent(Next(cfg, s, ResumeEnd(k)).cont, s.cont[s.calls[k].handle].cont)
  {
  }

  // ---------------------------------------------------------------- a fresh flow that is lost

  lemma StartFlow(cfg: Config, h: Handle) returns (trace: seq<Sys>, steps: seq<Step>)
    requires cfg.max >= 1 && cfg.ttl >= 0 && cfg.storeTtl >= 0 && h != EMPTY
    ensures IsRun(cfg, trace, steps)
    ensures var s := trace[|steps|];
            s.cont == map[h := Entry(0, 0)] && s.items == map[h := S.Fresh("", None, 0, cfg.storeTtl)] &&
            s.calls == map[] && s.used == {0} && s.pending == multiset{} && s.clock == 0
  {
    var s0 := Sys(0, map[], map[], multiset{}, multiset{}, multiset{}, {}, {}, map[]);
    var a := StoreStep(S.OpCreate(h, "", None));
    var b := BeginStep(h, 0, []);
    FirstItem(cfg, s0, h);
    var t, o := Extended(cfg, [s0], [], a);
    FirstFlow(cfg, t[|o|], h);
    trace, steps := Extended(cfg, t, o, b);
  }

  lemma FirstItem(cfg: Config, s: Sys, h: Handle)
    requires s.items == map[]
    ensures Next(cfg, s, StoreStep(S.OpCreate(h, "", None))) ==
            s.(items := map[h := S.Fresh("", None, s.clock, cfg.storeTtl)], owed := s.owed - {h})
  {
    var none: Items := map[];
    assert S.Sweep(none, s.clock) == none;
  }

  lemma FirstFlow(cfg: Config, s: Sys, h: Handle)
    requires s.cont == map[] && s.used == {} && s.pending == multiset{} && s.clock == 0 && cfg.max >= 1 && h != EMPTY
    ensures Enabled(cfg, s, BeginStep(h, 0, []))
    ensures var n := Next(cfg, s, BeginStep(h, 0, []));
            n.cont == map[h := Entry(0, 0)] && n.used == {0} && n.calls == s.calls && n.items == s.items
            && n.pending == multiset{} && n.clock == 0
  {
    var none: Conts := map[];
    assert StaleSet(none, cfg.ttl, 0) == {};
    TakeNothing(none);
    assert Victim(none, cfg.max, h, []) == {};
    BeginShape(cfg, s, h, 0, []);
  }

  lemma SecondFlow(cfg: Config, s: Sys, h: Handle)
    requires s.cont == map[h := Entry(0, 0)] && s.used == {0} && s.pending == multiset{} && s.clock == 0
    requires cfg.max >= 1 && cfg.ttl >= 0 && h != EMPTY
    ensures Enabled(cfg, s, BeginStep(h, 1, [h]))
    ensures var n := Next(cfg, s, BeginStep(h, 1, [h]));
            n.cont == map[h := Entry(0, 1)] && n.calls == s.calls && n.items == s.items && n.pending == multiset{} && n.clock == 0
  {
    BegunAgain(cfg.ttl, cfg.max, h);
    BeginShape(cfg, s, h, 1, [h]);
    NothingLeaves(s.cont, cfg.ttl, h);
  }

  lemma BegunAgain(ttl: int, max: int, h: Handle)
    requires max >= 1 && ttl >= 0 && h != EMPTY
    ensures Kept(map[h := Entry(0, 0)], ttl, 0) == map[h := Entry(0, 0)]
    ensures Begun(map[h := Entry(0, 0)], ttl, max, h, 1, 0, [h]) == map[h := Entry(0, 1)]
    ensures Dropped(map[h := Entry(0, 0)], ttl, max, h, 0, [h]) == {}
    ensures Enumerates([h], (map[h := Entry(0, 0)]).Keys)
  {
    var c: Conts := map[h := Entry(0, 0)];
    assert StaleSet(c, ttl, 0) == {};
    TakeNothing(c);
    ChooseOnly(c, h);
    assert Victim(c, max, h, [h]) == {};
  }

  lemma ChooseOnly(c: Conts, h: Handle)
    requires h in c
    ensures Choose(c, [h]).handle == h
  {
    assert [h][..0] == [];
    assert Choose(c, []).handle == EMPTY;
  }

  lemma NothingLeaves(c: Conts, ttl: int, h: Handle)
    requires c == map[h := Entry(0, 0)] && ttl >= 0
    ensures Left(c, map[h := Entry(0, 1)], {h}, ttl, 0) == {}
  {
  }

  lemma ReadsFindFlow(cfg: Config, s: Sys, h: Handle)
    requires s.cont == map[h := Entry(0, 0)] && s.items == map[h := S.Fresh("", None, 0, cfg.storeTtl)] && s.calls == map[] && s.clock == 0
    requires cfg.ttl >= 0 && cfg.storeTtl >= 0 && h != EMPTY
    ensures Enabled(cfg, s, StoreRead(0, h)) && Enabled(cfg, Next(cfg, s, StoreRead(0, h)), RegistryRead(0))
    ensures Next(cfg, Next(cfg, s, StoreRead(0, h)), RegistryRead(0)) ==
            s.(calls := map[0 := ResumeCall(h, None, Some(0), Running, NoContinuation)])
  {
  }

  const DONE := Answer(Some("done"))

  lemma AnswerEnds(cfg: Config, s: Sys, h: Handle)
    requires CallAt(s, 0, Running) && s.calls[0].handle == h
    ensures Enabled(cfg, s, AnswerStep(0, DONE)) && Enabled(cfg, Next(cfg, s, AnswerStep(0, DONE)), ResumeEnd(0))
    ensures var n := Next(cfg, Next(cfg, s, AnswerStep(0, DONE)), ResumeEnd(0));
            n.cont == s.cont - {h} && n.items == s.items && n.clock == s.clock && n.pending == s.pending
    ensures Next(cfg, s, AnswerStep(0, DONE)).cont == s.cont && Next(cfg, s, AnswerStep(0, DONE)).calls[0].seen == s.calls[0].seen
  {
  }

  /** The race is real: a flow is begun again while a resume call is inside the first flow's continuation.
      The call's End takes the new continuation out, and leaves a live handle that cannot be resumed. */
  lemma FreshFlowIsLost(cfg: Config, h: Handle) returns (trace: seq<Sys>, steps: seq<Step>)
    requires cfg.max >= 1 && cfg.ttl >= 0 && cfg.storeTtl >= 0 && h != EMPTY
    ensures IsRun(cfg, trace, steps) && |steps| > 0 && steps[|steps| - 1] == ResumeEnd(0)
    ensures var s, n := trace[|steps| - 1], trace[|steps|];
            && h in s.cont && Some(s.cont[h].cont) != s.calls[0].seen
            && h !in n.cont && Alive(n.items, h, n.clock) && n.pending == multiset{}
  {
    var t, o := BegunInside(cfg, h);
    AnswerEnds(cfg, t[|o|], h);
    var t4, o4 := Extended(cfg, t, o, AnswerStep(0, DONE));
    trace, steps := Extended(cfg, t4, o4, ResumeEnd(0));
    assert trace[|o4|] == t4[|o4|];
  }

  /** A run in which a flow is begun again inside the continuation of call 0. */
  lemma BegunInside(cfg: Config, h: Handle) returns (t: seq<Sys>, o: seq<Step>)
    requires cfg.max >= 1 && cfg.ttl >= 0 && cfg.storeTtl >= 0 && h != EMPTY
    ensures IsRun(cfg, t, o)
    ensures var s := t[|o|];
            && CallAt(s, 0, Running) && s.calls[0].handle == h && s.calls[0].seen == Some(0)
            && s.cont == map[h := Entry(0, 1)] && Alive(s.items, h, s.clock) && s.pending == multiset{}
  {
    var t0, o0 := StartFlow(cfg, h);
    ReadsFindFlow(cfg, t0[|o0|], h);
    var t1, o1 := Extended(cfg, t0, o0, StoreRead(0, h));
    var t2, o2 := Extended(cfg, t1, o1, RegistryRead(0));
    SecondFlow(cfg, t2[|o2|], h);
    t, o := Extended(cfg, t2, o2, BeginStep(h, 1, [h]));
  }

  // ---------------------------------------------------------------- a refreshed flow that is dead

  /** Flow 0 is past its TTL, while its handle lives in the store. */
  ghost predicate PastTtl(cfg: Config, s: Sys, h: Handle) {
    s.cont == map[h := Entry(0, 0)] && s.clock == cfg.ttl + 1 && s.used == {0} && Alive(s.items, h, s.clock)
  }

  lemma KeptAlive(cfg: Config, s: Sys, h: Handle)
    requires s.cont == map[h := Entry(0, 0)] && s.clock == cfg.ttl + 1 && s.used == {0} && cfg.storeTtl >= 0
    requires h in s.items
    ensures PastTtl(cfg, Next(cfg, s, StoreStep(S.OpCreateWithID(h, "", None))), h)
  {
  }

  lemma StaleFlow(cfg: Config, h: Handle) returns (t: seq<Sys>, o: seq<Step>)
    requires cfg.max >= 1 && cfg.ttl >= 0 && cfg.storeTtl >= 0 && h != EMPTY
    ensures IsRun(cfg, t, o) && PastTtl(cfg, t[|o|], h)
  {
    var t0, o0 := StartFlow(cfg, h);
    var t1, o1 := Extended(cfg, t0, o0, Tick(cfg.ttl + 1));
    KeptAlive(cfg, t1[|o1|], h);
    t, o := Extended(cfg, t1, o1, StoreStep(S.OpCreateWithID(h, "", None)));
  }

  lemma BeginOverStale(cfg: Config, s: Sys, h: Handle)
    requires PastTtl(cfg, s, h) && cfg.ttl >= 0
    ensures Enabled(cfg, s, BeginStep(h, 1, [])) && Stale(s.cont[h], cfg.ttl, s.clock)
  {
    assert StaleSet(s.cont, cfg.ttl, s.clock) == {h};
  }

  /** Such a flow is reached: the handle is refreshed in the store and its flow begun again after the
      session TTL; the Begin's own cleanup then leaves the new flow without its handle. */
  lemma DeadFlowIsReached(cfg: Config, h: Handle) returns (trace: seq<Sys>, steps: seq<Step>)
    requires cfg.max >= 1 && cfg.ttl >= 0 && cfg.storeTtl >= 0 && h != EMPTY
    ensures IsRun(cfg, trace, steps) && |steps| >= 2 && steps[|steps| - 2] == BeginStep(h, 1, []) && steps[|steps| - 1] == CleanupStep(h)
    ensures Alive(trace[|steps| - 2].items, h, trace[|steps| - 2].clock)
    ensures var s := trace[|steps|]; Lookup(s.cont, cfg.ttl, h, s.clock) == Some(1) && h !in s.items
  {
    var t0, o0 := StaleFlow(cfg, h);
    BeginOverStale(cfg, t0[|o0|], h);
    RefreshedFlowIsDead(cfg, t0[|o0|], h, 1, []);
    var t1, o1 := Extended(cfg, t0, o0, BeginStep(h, 1, []));
    trace, steps := Extended(cfg, t1, o1, CleanupStep(h));
    assert trace[|o0|] == t0[|o0|];
  }

  // ---------------------------------------------------------------- the handler on its own

  /** Where call `k` gets when only time passes between its steps. */
  function Alone(s: Sys, ttl: int, k: nat, h: Handle, d: nat, answer: Answer): Sys
    requires k !in s.calls
  {
    var a := DoStoreRead(s, k, h);
    if a.calls[k].pc.Ending? then DoResumeEnd(a, k)
    else if !a.calls[k].pc.Live? then a
    else
      var b := DoRegistryRead(a.(clock := a.clock + d), ttl, k);
      if !b.calls[k].pc.Running? then b
      else
        var c := DoAnswered(b, k, answer);
        if c.calls[k].pc.Ending? then DoResumeEnd(c, k) else c
  }

  /** Registry, store, outcome and invoked continuation are the handler's. */
  ghost predicate AsHandled(s: Sys, ttl: int, k: nat, h: Handle, d: nat, answer: Answer)
    requires k !in s.calls
  {
    var r := Resumed(s.cont, ttl, s.items, h, s.clock, s.clock + d, answer);
    var n := Alone(s, ttl, k, h, d, answer);
    && n.cont == r.cont && n.items == r.items && k in n.calls && n.calls[k].pc == Returned(r.outcome)
    && (r.ran.Some? ==> n.calls[k].seen == Some(r.ran.value.0) && n.calls[k].data == r.ran.value.1)
  }

  lemma DeadAlone(s: Sys, ttl: int, k: nat, h: Handle, d: nat, answer: Answer)
    requires k !in s.calls && !Alive(s.items, h, s.clock)
    ensures AsHandled(s, ttl, k, h, d, answer)
  {
  }

  lemma UnregisteredAlone(s: Sys, ttl: int, k: nat, h: Handle, d: nat, answer: Answer)
    requires k !in s.calls && h != EMPTY && Alive(s.items, h, s.clock) && Lookup(s.cont, ttl, h, s.clock + d).None?
    ensures AsHandled(s, ttl, k, h, d, answer)
  {
  }

  lemma EndedAlone(s: Sys, ttl: int, k: nat, h: Handle, d: nat, answer: Answer)
    requires k !in s.calls && h != EMPTY && Alive(s.items, h, s.clock) && Lookup(s.cont, ttl, h, s.clock + d).Some?
    requires IsTerminal(answer)
    ensures AsHandled(s, ttl, k, h, d, answer)
  {
  }

  lemma KeptAlone(s: Sys, ttl: int, k: nat, h: Handle, d: nat, answer: Answer)
    requires k !in s.calls && h != EMPTY && Alive(s.items, h, s.clock) && Lookup(s.cont, ttl, h, s.clock + d).Some?
    requires !IsTerminal(answer)
    ensures AsHandled(s, ttl, k, h, d, answer)
  {
  }

  /** The steps of a call make up the handler: with nobody else at work they do to registry and store, and
      return, what the handler does. */
  lemma StepsMakeTheHandler(s: Sys, ttl: int, k: nat, h: Handle, d: nat, answer: Answer)
    requires k !in s.calls
    ensures AsHandled(s, ttl, k, h, d, answer)
  {
    if !Alive(s.items, h, s.clock) || h == EMPTY {
      if h != EMPTY {
        DeadAlone(s, ttl, k, h, d, answer);
      }
    } else if Lookup(s.cont, ttl, h, s.clock + d).None? {
      UnregisteredAlone(s, ttl, k, h, d, answer);
    } else if IsTerminal(answer) {
      EndedAlone(s, ttl, k, h, d, answer);
    } else {
      KeptAlone(s, ttl, k, h, d, answer);
    }
  }
}
