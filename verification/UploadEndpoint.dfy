/** The upload coordinator and the upload manager together, each under its own lock. Preparing an endpoint
    takes the two locks one after the other and reads the clock under each; so does a PUT, which claims its
    token under the one lock and calls Fulfill or Start under the other. */
module UploadEndpoint {
  import opened Prelude
  import opened UploadModel
  import opened UploadInvariants
  import opened UploadCore
  import opened UploadSafety
  import opened UploadSteps
  import opened UploadTheorems
  import opened UploadRetention
  import H = UploadHttp

  /** `awaiting` are prepared tasks whose endpoint has not been minted yet; `ttls` is the endpoint TTL of
      every task prepared through the coordinator. `inHand` are the claimed tokens whose PUT has not called
      Fulfill or Start yet, `delivered` those whose PUT has. */
  datatype Sys = Sys(core: Core, http: H.State, awaiting: set<Id>, ttls: map<Id, int>,
                     inHand: multiset<H.Token>, delivered: multiset<H.Token>)

  datatype SysStep =
    | Manager(step: Step)
    | PrepareTask(id: Id, name: string, createdAt: Time, ttl: int, policy: Policy, batch: seq<Id>)
    | MintEndpoint(token: H.Token, id: Id, name: string, jwt: string)
    | MintBare(token: H.Token, name: string, ttl: int, jwt: string)
    | ClaimEndpoint(token: H.Token)
    | PutFulfill(token: H.Token, r: Reader, batch: seq<Id>)
    | PutStart(token: H.Token, r: Reader, id: Id, createdAt: Time, batch: seq<Id>)

  /** The TTL that the coordinator uses for both halves of an endpoint. */
  function EndpointTtl(ttl: int): int { if ttl <= 0 then DEFAULT_HTTP_UPLOAD_TTL else ttl }

  /** The manager step inside a step of the whole. A PUT fulfills the handle its token was minted with, and
      without one starts a task under the name of its token. */
  function Inner(s: Sys, x: SysStep): Option<Step> {
    match x
    case Manager(step) => Some(step)
    case PrepareTask(id, name, createdAt, ttl, policy, batch) =>
      Some(PrepareLock(id, name, createdAt, EndpointTtl(ttl), policy, batch))
    case PutFulfill(token, r, batch) =>
      if token in s.http.minted && s.http.minted[token].handle.Some?
      then Some(FulfillLock(r, s.http.minted[token].handle.value, batch)) else None
    case PutStart(token, r, id, createdAt, batch) =>
      if token in s.http.minted && s.http.minted[token].handle.None?
      then Some(StartLock(r, id, s.http.minted[token].name, createdAt, batch)) else None
    case _ => None
  }

  ghost predicate InnerEnabled(cfg: Config, s: Sys, x: SysStep) {
    Inner(s, x).Some? && Enabled(cfg, s.core, Inner(s, x).value)
  }

  ghost predicate SysEnabled(cfg: Config, s: Sys, x: SysStep) {
    match x
    case Manager(_) => InnerEnabled(cfg, s, x)
    case PrepareTask(_, _, _, _, _, _) => InnerEnabled(cfg, s, x)
    case MintEndpoint(token, id, _, _) => token !in s.http.minted && id in s.awaiting && id in s.ttls
    case MintBare(token, _, _, _) => token !in s.http.minted
    case ClaimEndpoint(_) => true
    case PutFulfill(token, _, _) => token in s.inHand && InnerEnabled(cfg, s, x)
    case PutStart(token, _, _, _, _) => token in s.inHand && InnerEnabled(cfg, s, x)
  }

  /** The PUT that claimed `token` has handed its reader over. */
  function Delivered(s: Sys, core: Core, token: H.Token): Sys {
    s.(core := core, inHand := s.inHand - multiset{token}, delivered := s.delivered + multiset{token})
  }

  ghost function SysNext(cfg: Config, s: Sys, x: SysStep): Sys
    requires SysEnabled(cfg, s, x)
  {
    match x
    case Manager(step) =>
      s.(core := Next(cfg, s.core, step), http := if step.Tick? then H.Do(s.http, H.Wait(step.d)) else s.http)
    case PrepareTask(id, _, _, ttl, _, _) =>
      var core := Next(cfg, s.core, Inner(s, x).value);
      if id in core.m.tasks then s.(core := core, awaiting := s.awaiting + {id}, ttls := s.ttls[id := EndpointTtl(ttl)])
      else s.(core := core)
    case MintEndpoint(token, id, name, jwt) =>
      s.(http := H.Do(s.http, H.Mint(token, name, s.ttls[id], Some(id), jwt)), awaiting := s.awaiting - {id})
    case MintBare(token, name, ttl, jwt) => s.(http := H.Do(s.http, H.Mint(token, name, ttl, None, jwt)))
    case ClaimEndpoint(token) =>
      s.(http := H.Do(s.http, H.TryClaim(token)),
         inHand := if H.Consumed(s.http.c, token, s.http.clock).1.Some? then s.inHand + multiset{token} else s.inHand)
    case PutFulfill(token, _, _) => Delivered(s, Next(cfg, s.core, Inner(s, x).value), token)
    case PutStart(token, _, _, _, _) => Delivered(s, Next(cfg, s.core, Inner(s, x).value), token)
  }

  ghost predicate SysInit(s: Sys) {
    Init(s.core) && s.http == H.State(s.core.clock, H.Coord(map[], map[]), map[], []) && s.awaiting == {} && s.ttls == map[]
    && s.inHand == multiset{} && s.delivered == multiset{}
  }

  ghost predicate IsSysRun(cfg: Config, trace: seq<Sys>, steps: seq<SysStep>) {
    && |trace| == |steps| + 1
    && SysInit(trace[0])
    && forall i :: 0 <= i < |steps| ==>
         SysEnabled(cfg, trace[i], steps[i]) && trace[i + 1] == SysNext(cfg, trace[i], steps[i])
  }

  // ---------------------------------------------------------------- invariant

  /** A task prepared through the coordinator keeps its TTL for as long as it waits for bytes. */
  ghost predicate TtlOk(s: Sys, id: Id)
    requires id in s.ttls
  {
    && s.ttls[id] > 0 && id in s.core.m.objs
    && (id in s.core.m.tasks && s.core.m.objs[id].state.Prepared? ==> s.core.m.tasks[id].preparedTTL == s.ttls[id])
  }

  /** An endpoint belongs to such a task and expires no earlier than the task's window. */
  ghost predicate TokenOk(s: Sys, t: H.Token)
    requires t in s.http.minted
  {
    s.http.minted[t].handle.Some? ==>
      var id := s.http.minted[t].handle.value;
      id in s.ttls && id !in s.awaiting && id in s.core.m.objs &&
      s.core.m.objs[id].createdAt + s.ttls[id] <= s.http.minted[t].expiresAt
  }

  ghost predicate LinkInv(s: Sys) {
    && s.http.clock == s.core.clock
    && s.awaiting <= s.ttls.Keys
    && (forall id :: id in s.ttls ==> TtlOk(s, id))
    && (forall t :: t in s.http.minted ==> TokenOk(s, t))
  }

  /** Every successful claim is in some PUT's hand or has been delivered. */
  ghost predicate HandInv(s: Sys) {
    s.inHand + s.delivered == multiset(s.http.claims)
  }

  ghost predicate SysInv(cfg: Config, s: Sys) {
    && CoreInv(cfg, s.core) && H.Inv(s.http) && LinkInv(s) && HandInv(s)
    && (s.ttls != map[] ==> cfg.hasExec)
  }

  // ---------------------------------------------------------------- what a manager step does to a waiting task

  /** While a task stays prepared, its live entry leaves exactly by a prune after its window, and never
      comes back. */
  ghost predicate StaysOrLapses(cfg: Config, s: Core, step: Step, id: Id)
    requires Enabled(cfg, s, step) && id in s.m.objs
  {
    id !in Next(cfg, s, step).m.tasks <==>
    id !in s.m.tasks || (Prunes(cfg, s, step) && cfg.ttl > 0 && Evictable(cfg, s.m.objs[id], s.m.tasks[id], s.clock))
  }

  lemma RegisterOther(m: Mgr, id: Id, r: Reader, now: Time, other: Id)
    requires id in m.objs
    ensures other != id ==> (other in Register(m, id, r, now).tasks <==> other in m.tasks)
    ensures Register(m, id, r, now).objs[id].state.Queued?
  {
    RegisterShape(m, id, r, now);
  }

  lemma StartTasks(cfg: Config, m: Mgr, id: Id, name: string, createdAt: Time, r: Reader, now: Time, batch: seq<Id>, other: Id)
    requires WellFormed(m) && IsBatch(cfg, m, now, batch) && other != id
    ensures other in StartLocked(cfg, m, id, name, createdAt, r, now, batch).0.tasks <==> other in Prune(cfg, m, now, batch).tasks
  {
    var p := Prune(cfg, m, now, batch);
    PruneFrame(cfg, m, now, batch);
    RegisterOther(p.(objs := p.objs[id := NewTask(id, name, Queued, createdAt)]), id, r, now, other);
  }

  lemma FulfillTasks(cfg: Config, m: Mgr, id: Id, r: Reader, now: Time, batch: seq<Id>, other: Id)
    requires WellFormed(m) && IsBatch(cfg, m, now, batch) && FulfillCheck(m, id) == Claimed
    requires other in FulfillLocked(cfg, m, id, r, now, batch).0.objs
    requires FulfillLocked(cfg, m, id, r, now, batch).0.objs[other].state.Prepared?
    ensures other in FulfillLocked(cfg, m, id, r, now, batch).0.tasks <==> other in Prune(cfg, m, now, batch).tasks
  {
    PruneFrame(cfg, m, now, batch);
    RegisterOther(Prune(cfg, m, now, batch), id, r, now, other);
  }

  /** Whether a handle is live after a prune. */
  lemma PruneTasks(cfg: Config, m: Mgr, now: Time, batch: seq<Id>, id: Id)
    requires WellFormed(m) && IsBatch(cfg, m, now, batch)
    ensures id in Prune(cfg, m, now, batch).tasks <==>
            id in m.tasks && !(cfg.ttl > 0 && Evictable(cfg, m.objs[id], m.tasks[id], now))
  {
    PruneFrame(cfg, m, now, batch);
  }

  lemma StartLapses(cfg: Config, s: Core, step: Step, id: Id)
    requires WellFormed(s.m) && Enabled(cfg, s, step) && step.StartLock? && id in s.m.objs
    ensures StaysOrLapses(cfg, s, step, id)
  {
    PruneTasks(cfg, s.m, s.clock, step.batch, id);
    if cfg.hasExec {
      StartTasks(cfg, s.m, step.id, step.name, step.createdAt, step.r, s.clock, step.batch, id);
      StartMgr(cfg, s, step);
    }
  }

  lemma StartMgr(cfg: Config, s: Core, step: Step)
    requires Enabled(cfg, s, step) && step.StartLock? && cfg.hasExec
    ensures Next(cfg, s, step).m == StartLocked(cfg, s.m, step.id, step.name, step.createdAt, step.r, s.clock, step.batch).0
  {
  }

  lemma PrepareMgr(cfg: Config, s: Core, step: Step)
    requires Enabled(cfg, s, step) && step.PrepareLock?
    ensures Next(cfg, s, step).m ==
            PrepareLocked(cfg, s.m, step.id, step.name, step.createdAt, Entry(None, step.ttl, step.policy.mode, step.policy.wrap), s.clock, step.batch).0
  {
    PrepareShape(cfg, s, step.id, step.name, step.createdAt, step.ttl, step.policy, step.batch);
  }

  lemma PrepareTasks(cfg: Config, m: Mgr, id: Id, name: string, createdAt: Time, e: Entry, now: Time, batch: seq<Id>, other: Id)
    requires WellFormed(m) && IsBatch(cfg, m, now, batch) && other != id
    ensures other in PrepareLocked(cfg, m, id, name, createdAt, e, now, batch).0.tasks <==> other in Prune(cfg, m, now, batch).tasks
  {
  }

  lemma PrepareLapses(cfg: Config, s: Core, step: Step, id: Id)
    requires WellFormed(s.m) && Enabled(cfg, s, step) && step.PrepareLock? && id in s.m.objs
    ensures StaysOrLapses(cfg, s, step, id)
  {
    PruneTasks(cfg, s.m, s.clock, step.batch, id);
    PrepareMgr(cfg, s, step);
    PrepareTasks(cfg, s.m, step.id, step.name, step.createdAt, Entry(None, step.ttl, step.policy.mode, step.policy.wrap), s.clock, step.batch, id);
  }

  lemma FulfillLapses(cfg: Config, s: Core, r: Reader, f: Id, batch: seq<Id>, id: Id)
    requires WellFormed(s.m) && Enabled(cfg, s, FulfillLock(r, f, batch)) && id in s.m.objs
    requires id in DoFulfill(cfg, s, r, f, batch).m.objs && DoFulfill(cfg, s, r, f, batch).m.objs[id].state.Prepared?
    ensures StaysOrLapses(cfg, s, FulfillLock(r, f, batch), id)
  {
    PruneTasks(cfg, s.m, s.clock, batch, id);
    FulfillShape(cfg, s, r, f, batch);
    if cfg.hasExec && FulfillCheck(s.m, f) == Claimed {
      FulfillTasks(cfg, s.m, f, r, s.clock, batch, id);
    }
  }

  lemma QuietStays(cfg: Config, s: Core, step: Step, id: Id)
    requires WellFormed(s.m) && Enabled(cfg, s, step) && id in s.m.objs
    requires !step.StartLock? && !step.PrepareLock? && !step.FulfillLock? && !step.Poll?
    ensures StaysOrLapses(cfg, s, step, id)
  {
    if step.CancelLock? {
      QuietCancel(s, step.c, step.id);
    } else if step.WorkerBegin? || step.Complete? || step.DogFail? {
      QuietRewrite(cfg, s, step);
    } else {
      QuietSame(cfg, s, step);
    }
  }

  lemma WaitingStep(cfg: Config, s: Core, step: Step, id: Id)
    requires WellFormed(s.m) && Enabled(cfg, s, step) && id in s.m.objs
    requires id in Next(cfg, s, step).m.objs && Next(cfg, s, step).m.objs[id].state.Prepared?
    ensures StaysOrLapses(cfg, s, step, id)
  {
    if step.StartLock? {
      StartLapses(cfg, s, step, id);
    } else if step.PrepareLock? {
      PrepareLapses(cfg, s, step, id);
    } else if step.FulfillLock? {
      FulfillLapses(cfg, s, step.r, step.id, step.batch, id);
    } else if step.Poll? {
      PruneTasks(cfg, s.m, s.clock, step.batch, id);
    } else {
      QuietStays(cfg, s, step, id);
    }
  }

  // ---------------------------------------------------------------- the invariant is kept

  lemma LinkedTask(cfg: Config, s: Sys, core: Core, step: Step, id: Id)
    requires CoreInv(cfg, s.core) && Enabled(cfg, s.core, step) && core == Next(cfg, s.core, step)
    requires id in s.ttls && TtlOk(s, id)
    ensures id in core.m.objs && core.m.objs[id].createdAt == s.core.m.objs[id].createdAt
    ensures id in core.m.tasks && core.m.objs[id].state.Prepared? ==> core.m.tasks[id].preparedTTL == s.ttls[id]
  {
    StepForward(cfg, s.core, step);
    TaskMoves(s.core.m, core.m, id);
    if core.m.objs[id].state.Prepared? && id in core.m.tasks {
      PreparedBefore(s.core.m, core.m, id);
      WaitingStep(cfg, s.core, step, id);
      StepKeepsHandles(cfg, s.core, step);
      EntryStays(cfg, s.core.m, core.m, s.core.clock, id);
    }
  }

  lemma TaskMoves(m: Mgr, n: Mgr, id: Id)
    requires m.tasks.Keys <= m.objs.Keys && n.tasks.Keys <= n.objs.Keys && MgrForward(m, n) && id in m.objs
    ensures id in n.objs && TaskForward(m.objs[id], n.objs[id])
  {
  }

  lemma EntryStays(cfg: Config, m: Mgr, n: Mgr, now: Time, id: Id)
    requires m.tasks.Keys <= m.objs.Keys && Keeps(cfg, m, n, now)
    requires id in m.tasks && id in n.tasks && id in n.objs && n.objs[id].state.Prepared?
    ensures n.tasks[id] == m.tasks[id]
  {
    assert EntryKept(cfg, m, n, now, id);
  }

  /** A manager step keeps every link. */
  lemma CoreStepLinks(cfg: Config, s: Sys, core: Core, step: Step, http: H.State)
    requires CoreInv(cfg, s.core) && LinkInv(s) && Enabled(cfg, s.core, step) && core == Next(cfg, s.core, step)
    requires http.minted == s.http.minted && http.clock == core.clock
    ensures LinkInv(s.(core := core, http := http))
  {
    var n := s.(core := core, http := http);
    forall id | id in s.ttls ensures TtlOk(n, id) && core.m.objs[id].createdAt == s.core.m.objs[id].createdAt {
      assert TtlOk(s, id);
      LinkedTask(cfg, s, core, step, id);
    }
    forall t | t in http.minted ensures TokenOk(n, t) {
      assert TokenOk(s, t);
    }
  }

  lemma NewTaskLinks(s: Sys, id: Id, ttl: int)
    requires LinkInv(s) && id !in s.ttls && ttl > 0
    requires id in s.core.m.objs && id in s.core.m.tasks && s.core.m.tasks[id].preparedTTL == ttl
    ensures LinkInv(s.(awaiting := s.awaiting + {id}, ttls := s.ttls[id := ttl]))
  {
    var n := s.(awaiting := s.awaiting + {id}, ttls := s.ttls[id := ttl]);
    forall x | x in n.ttls ensures TtlOk(n, x) {
      if x != id { assert TtlOk(s, x); }
    }
    forall t | t in n.http.minted ensures TokenOk(n, t) {
      assert TokenOk(s, t);
    }
  }

  lemma PreparedEntry(cfg: Config, s: Core, step: Step)
    requires CoreInv(cfg, s) && Enabled(cfg, s, step) && step.PrepareLock?
    ensures var n := Next(cfg, s, step); step.id in n.m.tasks ==> step.id in n.m.objs && n.m.tasks[step.id].preparedTTL == step.ttl
    ensures Next(cfg, s, step).clock == s.clock
  {
    PrepareMgr(cfg, s, step);
    PrepareClock(cfg, s, step);
    PruneFrame(cfg, s.m, s.clock, step.batch);
    assert step.id !in s.m.tasks;
  }

  lemma PrepareLinks(cfg: Config, s: Sys, x: SysStep)
    requires SysInv(cfg, s) && SysEnabled(cfg, s, x) && x.PrepareTask?
    ensures LinkInv(SysNext(cfg, s, x))
  {
    var step := Inner(s, x).value;
    var core := Next(cfg, s.core, step);
    PreparedEntry(cfg, s.core, step);
    CoreStepLinks(cfg, s, core, step, s.http);
    assert x.id in s.ttls ==> TtlOk(s, x.id);
    if x.id in core.m.tasks {
      NewTaskLinks(s.(core := core), x.id, EndpointTtl(x.ttl));
    }
  }

  lemma MintLinks(cfg: Config, s: Sys, x: SysStep)
    requires SysInv(cfg, s) && SysEnabled(cfg, s, x) && (x.MintEndpoint? || x.MintBare?)
    ensures LinkInv(SysNext(cfg, s, x)) && H.Inv(SysNext(cfg, s, x).http)
  {
    var n := SysNext(cfg, s, x);
    if x.MintEndpoint? {
      assert TtlOk(s, x.id);
      assert forall t :: t in s.http.minted ==> TokenOk(s, t) && s.http.minted[t].handle != Some(x.id);
      H.MintKeeps(s.http, H.Mint(x.token, x.name, s.ttls[x.id], Some(x.id), x.jwt));
    } else {
      H.MintKeeps(s.http, H.Mint(x.token, x.name, x.ttl, None, x.jwt));
    }
    forall id | id in n.ttls ensures TtlOk(n, id) { assert TtlOk(s, id); }
    forall t | t in n.http.minted ensures TokenOk(n, t) {
      if t != x.token { assert TokenOk(s, t); }
    }
  }

  lemma HttpStepLinks(s: Sys, http: H.State)
    requires LinkInv(s) && http.minted == s.http.minted && http.clock == s.http.clock
    ensures LinkInv(s.(http := http))
  {
    var n := s.(http := http);
    forall id | id in n.ttls ensures TtlOk(n, id) { assert TtlOk(s, id); }
    forall t | t in n.http.minted ensures TokenOk(n, t) { assert TokenOk(s, t); }
  }

  lemma TickHttp(s: H.State, d: nat)
    requires H.Inv(s)
    ensures H.Inv(H.Do(s, H.Wait(d)))
  {
  }

  lemma ManagerClock(cfg: Config, s: Core, step: Step)
    requires Enabled(cfg, s, step)
    ensures Next(cfg, s, step).clock == if step.Tick? then s.clock + step.d else s.clock
  {
    if step.StartLock? {
      StartClock(cfg, s, step);
    } else if step.PrepareLock? {
      PrepareClock(cfg, s, step);
    } else if step.FulfillLock? {
      FulfillClock(cfg, s, step.r, step.id, step.batch);
    } else if step.CancelClose? {
      CancelCloseClock(s, step.c);
    }
  }

  lemma ManagerLinks(cfg: Config, s: Sys, step: Step)
    requires SysInv(cfg, s) && Enabled(cfg, s.core, step)
    ensures LinkInv(SysNext(cfg, s, Manager(step))) && H.Inv(SysNext(cfg, s, Manager(step)).http)
  {
    ManagerClock(cfg, s.core, step);
    if step.Tick? {
      TickHttp(s.http, step.d);
    }
    CoreStepLinks(cfg, s, Next(cfg, s.core, step), step, SysNext(cfg, s, Manager(step)).http);
  }

  lemma HandsKeepLinks(s: Sys, inHand: multiset<H.Token>, delivered: multiset<H.Token>)
    requires LinkInv(s)
    ensures LinkInv(s.(inHand := inHand, delivered := delivered))
  {
    var n := s.(inHand := inHand, delivered := delivered);
    forall id | id in n.ttls ensures TtlOk(n, id) { assert TtlOk(s, id); }
    forall t | t in n.http.minted ensures TokenOk(n, t) { assert TokenOk(s, t); }
  }

  lemma PutClock(cfg: Config, s: Core, step: Step)
    requires Enabled(cfg, s, step) && (step.StartLock? || step.FulfillLock?)
    ensures Next(cfg, s, step).clock == s.clock
  {
    if step.StartLock? {
      StartClock(cfg, s, step);
    } else {
      FulfillClock(cfg, s, step.r, step.id, step.batch);
    }
  }

  lemma PutLinks(cfg: Config, s: Sys, x: SysStep)
    requires SysInv(cfg, s) && SysEnabled(cfg, s, x) && (x.PutFulfill? || x.PutStart?)
    ensures LinkInv(SysNext(cfg, s, x))
  {
    var step := Inner(s, x).value;
    var core := Next(cfg, s.core, step);
    PutClock(cfg, s.core, step);
    CoreStepLinks(cfg, s, core, step, s.http);
    HandsKeepLinks(s.(core := core), s.inHand - multiset{x.token}, s.delivered + multiset{x.token});
  }

  lemma ClaimLinks(cfg: Config, s: Sys, x: SysStep)
    requires LinkInv(s) && x.ClaimEndpoint?
    ensures LinkInv(SysNext(cfg, s, x))
  {
    HttpStepLinks(s, H.Do(s.http, H.TryClaim(x.token)));
    HandsKeepLinks(s.(http := H.Do(s.http, H.TryClaim(x.token))), SysNext(cfg, s, x).inHand, s.delivered);
  }

  lemma LinksKept(cfg: Config, s: Sys, x: SysStep)
    requires SysInv(cfg, s) && SysEnabled(cfg, s, x)
    ensures LinkInv(SysNext(cfg, s, x)) && H.Inv(SysNext(cfg, s, x).http)
  {
    match x
    case Manager(step) => ManagerLinks(cfg, s, step);
    case PrepareTask(_, _, _, _, _, _) => PrepareLinks(cfg, s, x);
    case MintEndpoint(_, _, _, _) => MintLinks(cfg, s, x);
    case MintBare(_, _, _, _) => MintLinks(cfg, s, x);
    case ClaimEndpoint(token) =>
      H.ClaimKeeps(s.http, H.TryClaim(token));
      ClaimLinks(cfg, s, x);
    case PutFulfill(_, _, _) => PutLinks(cfg, s, x);
    case PutStart(_, _, _, _, _) => PutLinks(cfg, s, x);
  }

  lemma InnerNext(cfg: Config, s: Sys, x: SysStep)
    requires SysEnabled(cfg, s, x)
    ensures Inner(s, x).Some? ==>
              Enabled(cfg, s.core, Inner(s, x).value) && SysNext(cfg, s, x).core == Next(cfg, s.core, Inner(s, x).value)
    ensures Inner(s, x).None? ==> SysNext(cfg, s, x).core == s.core
  {
  }

  lemma HandsKept(cfg: Config, s: Sys, x: SysStep)
    requires HandInv(s) && SysEnabled(cfg, s, x)
    ensures HandInv(SysNext(cfg, s, x))
  {
    if x.ClaimEndpoint? {
      ClaimHands(s.http, x.token);
    } else {
      OthersClaimNothing(cfg, s, x);
    }
  }

  lemma ClaimHands(s: H.State, token: H.Token)
    ensures multiset(H.Do(s, H.TryClaim(token)).claims) ==
            multiset(s.claims) + if H.Consumed(s.c, token, s.clock).1.Some? then multiset{token} else multiset{}
  {
  }

  lemma OthersClaimNothing(cfg: Config, s: Sys, x: SysStep)
    requires SysEnabled(cfg, s, x) && !x.ClaimEndpoint?
    ensures var n := SysNext(cfg, s, x); n.http.claims == s.http.claims && n.inHand + n.delivered == s.inHand + s.delivered
  {
  }

  lemma ExecKept(cfg: Config, s: Sys, x: SysStep)
    requires SysEnabled(cfg, s, x) && (s.ttls != map[] ==> cfg.hasExec)
    ensures SysNext(cfg, s, x).ttls != map[] ==> cfg.hasExec
  {
  }

  lemma SysKeeps(cfg: Config, s: Sys, x: SysStep)
    requires SysInv(cfg, s) && SysEnabled(cfg, s, x)
    ensures SysInv(cfg, SysNext(cfg, s, x))
  {
    InnerNext(cfg, s, x);
    if Inner(s, x).Some? {
      StepKeeps(cfg, s.core, Inner(s, x).value);
    }
    LinksKept(cfg, s, x);
    HandsKept(cfg, s, x);
    ExecKept(cfg, s, x);
  }

  lemma {:induction false} SysReachable(cfg: Config, trace: seq<Sys>, steps: seq<SysStep>, i: nat)
    requires IsSysRun(cfg, trace, steps) && i < |trace|
    ensures SysInv(cfg, trace[i])
  {
    if i == 0 {
      InitInv(cfg, trace[0].core);
    } else {
      SysReachable(cfg, trace, steps, i - 1);
      SysKeeps(cfg, trace[i - 1], steps[i - 1]);
    }
  }

  // ---------------------------------------------------------------- one TTL for both halves

  /** This step prepares task `id`, which goes live with its TTL; without one it gets five minutes. */
  ghost predicate Prepares(x: SysStep, n: Sys, id: Id, ttl: int) {
    && x.PrepareTask? && x.id == id && ttl == (if x.ttl <= 0 then 300_000_000_000 else x.ttl)
    && id in n.core.m.tasks && n.core.m.tasks[id].preparedTTL == ttl
  }

  /** What one step means for the TTL of task `id`. */
  ghost predicate TtlMoves(s: Sys, x: SysStep, n: Sys, id: Id) {
    && (id in s.ttls ==> id in n.ttls && n.ttls[id] == s.ttls[id])
    && (id !in s.ttls && id in n.ttls ==> Prepares(x, n, id, n.ttls[id]))
  }

  lemma MovesTtl(cfg: Config, s: Sys, x: SysStep, id: Id)
    requires SysInv(cfg, s) && SysEnabled(cfg, s, x)
    ensures TtlMoves(s, x, SysNext(cfg, s, x), id)
  {
    if x.PrepareTask? {
      assert x.id in s.ttls ==> TtlOk(s, x.id);
      PreparedEntry(cfg, s.core, Inner(s, x).value);
    }
  }

  lemma {:induction false} TtlAlong(trace: seq<Sys>, steps: seq<SysStep>, i: nat, id: Id) returns (k: nat)
    requires |trace| == |steps| + 1 && i < |trace| && id !in trace[0].ttls && id in trace[i].ttls
    requires forall j :: 0 <= j < |steps| ==> TtlMoves(trace[j], steps[j], trace[j + 1], id)
    ensures k < i && Prepares(steps[k], trace[k + 1], id, trace[i].ttls[id])
  {
    assert TtlMoves(trace[i - 1], steps[i - 1], trace[i - 1 + 1], id);
    if id in trace[i - 1].ttls {
      k := TtlAlong(trace, steps, i - 1, id);
    } else {
      k := i - 1;
    }
  }

  lemma MintedEndpoint(cfg: Config, s: Sys, x: SysStep)
    requires SysEnabled(cfg, s, x) && x.MintEndpoint? && s.ttls[x.id] > 0
    ensures var n := SysNext(cfg, s, x);
            x.token in n.http.minted && n.http.minted[x.token].handle == Some(x.id) &&
            n.http.minted[x.token].expiresAt == s.http.clock + s.ttls[x.id]
  {
  }

  /** An endpoint lives, from its mint on, exactly as long as the window that its task was given. */
  lemma EndpointLife(cfg: Config, trace: seq<Sys>, steps: seq<SysStep>, i: nat) returns (k: nat)
    requires IsSysRun(cfg, trace, steps) && i < |steps| && steps[i].MintEndpoint?
    ensures var x, n := steps[i], trace[i + 1];
            x.token in n.http.minted && n.http.minted[x.token].handle == Some(x.id) &&
            k < i && Prepares(steps[k], trace[k + 1], x.id, n.http.minted[x.token].expiresAt - trace[i].core.clock)
  {
    var id := steps[i].id;
    SysReachable(cfg, trace, steps, i);
    assert TtlOk(trace[i], id);
    forall j | 0 <= j < |steps| ensures TtlMoves(trace[j], steps[j], trace[j + 1], id) {
      SysReachable(cfg, trace, steps, j);
      MovesTtl(cfg, trace[j], steps[j], id);
    }
    k := TtlAlong(trace, steps, i, id);
    MintedEndpoint(cfg, trace[i], steps[i]);
  }

  // ---------------------------------------------------------------- a live endpoint without its task

  /** This step prunes after the window of task `h` has passed. */
  ghost predicate PrunesPast(cfg: Config, s: Sys, x: SysStep, h: Id) {
    && SysEnabled(cfg, s, x) && cfg.ttl > 0 && h in s.ttls && h in s.core.m.objs
    && InnerEnabled(cfg, s, x) && Prunes(cfg, s.core, Inner(s, x).value)
    && s.core.m.objs[h].createdAt + s.ttls[h] < s.core.clock
  }

  /** The window of a waiting task with its own TTL. */
  lemma WaitingWindow(cfg: Config, t: Task, e: Entry, ttl: int, now: Time)
    requires t.state.Prepared? && e.preparedTTL == ttl > 0
    ensures Evictable(cfg, t, e, now) <==> t.createdAt + ttl < now
  {
  }

  lemma ManagerGone(cfg: Config, s: Core, step: Step, h: Id, ttl: int)
    requires CoreInv(cfg, s) && Enabled(cfg, s, step) && h in s.m.objs && ttl > 0
    requires h in s.m.tasks && s.m.objs[h].state.Prepared? ==> s.m.tasks[h].preparedTTL == ttl
    requires var m := Next(cfg, s, step).m; h in m.objs && m.objs[h].state.Prepared?
    ensures s.m.objs[h].state.Prepared?
    ensures h !in Next(cfg, s, step).m.tasks <==>
            h !in s.m.tasks || (Prunes(cfg, s, step) && cfg.ttl > 0 && s.m.objs[h].createdAt + ttl < s.clock)
  {
    StepForward(cfg, s, step);
    PreparedBefore(s.m, Next(cfg, s, step).m, h);
    WaitingStep(cfg, s, step, h);
    if h in s.m.tasks {
      WaitingWindow(cfg, s.m.objs[h], s.m.tasks[h], ttl, s.clock);
    }
  }

  lemma GoneStep(cfg: Config, s: Sys, x: SysStep, h: Id)
    requires SysInv(cfg, s) && SysEnabled(cfg, s, x) && h in s.ttls
    requires var m := SysNext(cfg, s, x).core.m; h in m.objs && m.objs[h].state.Prepared?
    ensures h in s.core.m.objs && s.core.m.objs[h].state.Prepared?
    ensures h !in SysNext(cfg, s, x).core.m.tasks <==> h !in s.core.m.tasks || PrunesPast(cfg, s, x, h)
  {
    assert TtlOk(s, h);
    InnerNext(cfg, s, x);
    if Inner(s, x).Some? {
      ManagerGone(cfg, s.core, Inner(s, x).value, h, s.ttls[h]);
    }
  }

  /** A task first known to the coordinator is live. */
  lemma KnownIsLive(cfg: Config, s: Sys, x: SysStep, h: Id)
    requires SysEnabled(cfg, s, x) && h !in s.ttls && h in SysNext(cfg, s, x).ttls
    ensures h in SysNext(cfg, s, x).core.m.tasks
  {
  }

  lemma TtlsGrow(cfg: Config, s: Sys, x: SysStep)
    requires SysEnabled(cfg, s, x)
    ensures s.ttls.Keys <= SysNext(cfg, s, x).ttls.Keys
  {
  }

  /** The argument along a run: a fact that starts false, becomes true when something happened, and stays. */
  lemma {:induction false} SinceKnown(gone: seq<bool>, known: seq<bool>, waits: seq<bool>, past: seq<bool>, i: nat)
    requires |gone| == |known| == |waits| == |past| + 1 && i < |gone| && !known[0]
    requires forall k :: 0 <= k < |past| && known[k] ==> known[k + 1]
    requires forall k :: 0 <= k < |past| && !known[k] && known[k + 1] ==> !gone[k + 1]
    requires forall k :: 0 <= k < |past| && known[k] && waits[k + 1] ==> waits[k] && (gone[k + 1] <==> gone[k] || past[k])
    requires forall k :: 0 <= k < |past| && past[k] ==> known[k]
    requires known[i] && waits[i]
    ensures gone[i] <==> exists j :: 0 <= j < i && past[j]
  {
    var k := i - 1;
    assert known[k + 1];
    if known[k] {
      SinceKnown(gone, known, waits, past, k);
    } else {
      forall j | 0 <= j < i ensures !past[j] {
        if known[j] { KnownStays(known, j, k); }
      }
    }
  }

  lemma {:induction false} KnownStays(known: seq<bool>, j: nat, i: nat)
    requires j <= i < |known| && known[j]
    requires forall k :: 0 <= k < |known| - 1 && known[k] ==> known[k + 1]
    ensures known[i]
  {
    if j < i {
      KnownStays(known, j, i - 1);
      assert known[i - 1 + 1];
    }
  }

  ghost predicate Waits(s: Sys, h: Id) { h in s.core.m.objs && s.core.m.objs[h].state.Prepared? }

  lemma GoneAlong(cfg: Config, s: Sys, x: SysStep, n: Sys, h: Id)
    requires SysInv(cfg, s) && SysEnabled(cfg, s, x) && n == SysNext(cfg, s, x)
    ensures h in s.ttls ==> h in n.ttls
    ensures h !in s.ttls && h in n.ttls ==> h in n.core.m.tasks
    ensures h in s.ttls && Waits(n, h) ==> Waits(s, h) && (h !in n.core.m.tasks <==> h !in s.core.m.tasks || PrunesPast(cfg, s, x, h))
    ensures PrunesPast(cfg, s, x, h) ==> h in s.ttls
  {
    TtlsGrow(cfg, s, x);
    if h !in s.ttls && h in n.ttls {
      KnownIsLive(cfg, s, x, h);
    }
    if h in s.ttls && Waits(n, h) {
      GoneStep(cfg, s, x, h);
    }
  }

  /** What one step means for a waiting task; `past` says whether the step pruned past its window. */
  ghost predicate Along(s: Sys, n: Sys, h: Id, past: bool) {
    && (h in s.ttls ==> h in n.ttls)
    && (h !in s.ttls && h in n.ttls ==> h in n.core.m.tasks)
    && (h in s.ttls && Waits(n, h) ==> Waits(s, h) && (h !in n.core.m.tasks <==> h !in s.core.m.tasks || past))
    && (past ==> h in s.ttls)
  }

  lemma GoneByFlags(trace: seq<Sys>, past: seq<bool>, i: nat, h: Id)
    requires |trace| == |past| + 1 && i < |trace| && h !in trace[0].ttls
    requires forall k :: 0 <= k < |past| ==> Along(trace[k], trace[k + 1], h, past[k])
    requires h in trace[i].ttls && Waits(trace[i], h)
    ensures h !in trace[i].core.m.tasks <==> exists j :: 0 <= j < i && past[j]
  {
    var n := |past|;
    var gone := seq(n + 1, k requires 0 <= k <= n => h !in trace[k].core.m.tasks);
    var known := seq(n + 1, k requires 0 <= k <= n => h in trace[k].ttls);
    var waits := seq(n + 1, k requires 0 <= k <= n => Waits(trace[k], h));
    forall k | 0 <= k < n
      ensures known[k] ==> known[k + 1]
      ensures !known[k] && known[k + 1] ==> !gone[k + 1]
      ensures known[k] && waits[k + 1] ==> waits[k] && (gone[k + 1] <==> gone[k] || past[k])
      ensures past[k] ==> known[k]
    {
      assert Along(trace[k], trace[k + 1], h, past[k]);
    }
    SinceKnown(gone, known, waits, past, i);
  }

  lemma StepAlong(cfg: Config, trace: seq<Sys>, steps: seq<SysStep>, k: nat, h: Id)
    requires IsSysRun(cfg, trace, steps) && k < |steps|
    ensures Along(trace[k], trace[k + 1], h, PrunesPast(cfg, trace[k], steps[k], h))
  {
    SysReachable(cfg, trace, steps, k);
    GoneAlong(cfg, trace[k], steps[k], trace[k + 1], h);
  }

  lemma RunAlong(cfg: Config, trace: seq<Sys>, steps: seq<SysStep>, h: Id) returns (past: seq<bool>)
    requires IsSysRun(cfg, trace, steps)
    ensures |past| == |steps|
    ensures forall k :: 0 <= k < |steps| ==> Along(trace[k], trace[k + 1], h, past[k])
    ensures forall k :: 0 <= k < |steps| ==> (past[k] <==> PrunesPast(cfg, trace[k], steps[k], h))
  {
    past := seq(|steps|, k requires 0 <= k < |steps| => PrunesPast(cfg, trace[k], steps[k], h));
    forall k | 0 <= k < |steps| ensures Along(trace[k], trace[k + 1], h, past[k]) {
      StepAlong(cfg, trace, steps, k, h);
    }
  }

  /** A task that nobody fulfilled or cancelled is no longer live exactly when some prune ran after its window. */
  lemma GoneExact(cfg: Config, trace: seq<Sys>, steps: seq<SysStep>, i: nat, h: Id)
    requires IsSysRun(cfg, trace, steps) && i < |trace| && h in trace[i].ttls && Waits(trace[i], h)
    ensures h !in trace[i].core.m.tasks <==> exists j :: 0 <= j < i && PrunesPast(cfg, trace[j], steps[j], h)
  {
    var past := RunAlong(cfg, trace, steps, h);
    GoneByFlags(trace, past, i, h);
  }

  // ---------------------------------------------------------------- who takes a waiting task

  /** A Cancel that succeeds on this task, or a Fulfill that claims it. */
  ghost predicate TakesTask(cfg: Config, s: Core, step: Step, id: Id)
    requires Enabled(cfg, s, step)
  {
    match step
    case CancelLock(_, x) => x == id && CancelLocked(s.m, id, s.clock).1 == CancelOk
    case FulfillLock(r, x, batch) => x == id && cfg.hasExec && FulfillLocked(cfg, s.m, id, r, s.clock, batch).1 == Claimed
    case _ => false
  }

  /** The task still waits for bytes after the step exactly when it did before and was not taken. */
  ghost predicate WaitsUnlessTaken(cfg: Config, s: Core, step: Step, m: Mgr, id: Id)
    requires Enabled(cfg, s, step) && id in s.m.objs
  {
    id in m.objs && (m.objs[id].state.Prepared? <==> s.m.objs[id].state.Prepared? && !TakesTask(cfg, s, step, id))
  }

  lemma StartTakesNothing(cfg: Config, s: Core, step: Step, id: Id)
    requires Enabled(cfg, s, step) && step.StartLock? && id in s.m.objs
    ensures WaitsUnlessTaken(cfg, s, step, Next(cfg, s, step).m, id)
  {
    if cfg.hasExec {
      StartMgr(cfg, s, step);
      StartObjects(cfg, s.m, step.id, step.name, step.createdAt, step.r, s.clock, step.batch, id);
    }
  }

  lemma StartObjects(cfg: Config, m: Mgr, id: Id, name: string, createdAt: Time, r: Reader, now: Time, batch: seq<Id>, other: Id)
    requires WellFormed(m) && IsBatch(cfg, m, now, batch) && other in m.objs && other != id
    ensures other in StartLocked(cfg, m, id, name, createdAt, r, now, batch).0.objs
    ensures StartLocked(cfg, m, id, name, createdAt, r, now, batch).0.objs[other] == m.objs[other]
  {
    var p := Prune(cfg, m, now, batch);
    PruneFrame(cfg, m, now, batch);
    RegisterShape(p.(objs := p.objs[id := NewTask(id, name, Queued, createdAt)]), id, r, now);
  }

  lemma PrepareTakesNothing(cfg: Config, s: Core, step: Step, id: Id)
    requires Enabled(cfg, s, step) && step.PrepareLock? && id in s.m.objs
    ensures WaitsUnlessTaken(cfg, s, step, Next(cfg, s, step).m, id)
  {
    PrepareMgr(cfg, s, step);
    PruneFrame(cfg, s.m, s.clock, step.batch);
  }

  lemma FulfillTakes(cfg: Config, s: Core, step: Step, id: Id)
    requires Enabled(cfg, s, step) && step.FulfillLock? && id in s.m.objs
    ensures WaitsUnlessTaken(cfg, s, step, Next(cfg, s, step).m, id)
  {
    FulfillShape(cfg, s, step.r, step.id, step.batch);
    FulfillObjects(cfg, s.m, step.id, step.r, s.clock, step.batch, id);
  }

  lemma FulfillObjects(cfg: Config, m: Mgr, id: Id, r: Reader, now: Time, batch: seq<Id>, other: Id)
    requires WellFormed(m) && IsBatch(cfg, m, now, batch) && other in m.objs
    ensures var (n, out) := FulfillLocked(cfg, m, id, r, now, batch);
            other in n.objs && (n.objs[other].state.Prepared? <==> m.objs[other].state.Prepared? && !(other == id && out == Claimed))
  {
    if FulfillCheck(m, id) == Claimed {
      PruneFrame(cfg, m, now, batch);
      RegisterShape(Prune(cfg, m, now, batch), id, r, now);
    }
  }

  lemma CancelTakes(cfg: Config, s: Core, step: Step, id: Id)
    requires Enabled(cfg, s, step) && step.CancelLock? && id in s.m.objs
    ensures WaitsUnlessTaken(cfg, s, step, Next(cfg, s, step).m, id)
  {
    CancelShape(s, step.c, step.id);
    CancelObjects(s.m, step.id, s.clock, id);
  }

  lemma CancelObjects(m: Mgr, id: Id, now: Time, other: Id)
    requires WellFormed(m) && other in m.objs
    ensures var (n, out) := CancelLocked(m, id, now);
            other in n.objs && (n.objs[other].state.Prepared? <==> m.objs[other].state.Prepared? && !(other == id && out == CancelOk))
  {
  }

  lemma RunTakesNothing(cfg: Config, s: Core, step: Step, id: Id)
    requires CoreInv(cfg, s) && Enabled(cfg, s, step) && id in s.m.objs
    requires step.WorkerBegin? || step.Complete? || step.DogFail?
    ensures WaitsUnlessTaken(cfg, s, step, Next(cfg, s, step).m, id)
  {
    var x := s.runs[step.r].id;
    TaskPcShape(cfg, s, step);
    WaitersUntouched(s.m, x, Next(cfg, s, step).m.objs[x], id);
  }

  lemma WaitersUntouched(m: Mgr, x: Id, t: Task, id: Id)
    requires x in m.objs && id in m.objs && TaskForward(m.objs[x], t) && (t != m.objs[x] ==> m.objs[x].state.Active())
    ensures m.objs[x := t][id].state.Prepared? <==> m.objs[id].state.Prepared?
  {
  }

  lemma QuietTakesNothing(cfg: Config, s: Core, step: Step, id: Id)
    requires Enabled(cfg, s, step) && id in s.m.objs
    requires PcStep(step) || step.CallExec? || step.Tick? || step.RefusedClose? || step.CancelClose?
    ensures WaitsUnlessTaken(cfg, s, step, Next(cfg, s, step).m, id)
  {
    QuietSame(cfg, s, step);
  }

  lemma TakenStep(cfg: Config, s: Core, step: Step, id: Id)
    requires CoreInv(cfg, s) && Enabled(cfg, s, step) && id in s.m.objs
    ensures WaitsUnlessTaken(cfg, s, step, Next(cfg, s, step).m, id)
  {
    if step.StartLock? {
      StartTakesNothing(cfg, s, step, id);
    } else if step.PrepareLock? {
      PrepareTakesNothing(cfg, s, step, id);
    } else if step.FulfillLock? {
      FulfillTakes(cfg, s, step, id);
    } else if step.CancelLock? {
      CancelTakes(cfg, s, step, id);
    } else if step.Poll? {
      PruneFrame(cfg, s.m, s.clock, step.batch);
    } else if step.WorkerBegin? || step.Complete? || step.DogFail? {
      RunTakesNothing(cfg, s, step, id);
    } else {
      QuietTakesNothing(cfg, s, step, id);
    }
  }

  /** This step cancels task `h` or claims it for a run. */
  ghost predicate Takes(cfg: Config, s: Sys, x: SysStep, h: Id) {
    SysEnabled(cfg, s, x) && h in s.ttls && InnerEnabled(cfg, s, x) && TakesTask(cfg, s.core, Inner(s, x).value, h)
  }

  /** What one step means for a task: `taken` says whether the step takes it. */
  ghost predicate TakenAlong(s: Sys, n: Sys, h: Id, taken: bool) {
    && (h in s.ttls ==> h in n.ttls && (!Waits(n, h) <==> !Waits(s, h) || taken))
    && (h !in s.ttls && h in n.ttls ==> Waits(n, h))
    && (taken ==> h in s.ttls)
  }

  /** A task first known to the coordinator waits for bytes. */
  lemma KnownWaits(cfg: Config, s: Sys, x: SysStep, h: Id)
    requires SysEnabled(cfg, s, x) && h !in s.ttls && h in SysNext(cfg, s, x).ttls && CoreInv(cfg, s.core)
    ensures Waits(SysNext(cfg, s, x), h)
  {
    PrepareMgr(cfg, s.core, Inner(s, x).value);
    NewWaits(cfg, s.core.m, x.id, x.name, x.createdAt,
             Entry(None, EndpointTtl(x.ttl), x.policy.mode, x.policy.wrap), s.core.clock, x.batch);
  }

  lemma NewWaits(cfg: Config, m: Mgr, id: Id, name: string, createdAt: Time, e: Entry, now: Time, batch: seq<Id>)
    requires WellFormed(m) && IsBatch(cfg, m, now, batch) && id !in m.objs
    ensures var n := PrepareLocked(cfg, m, id, name, createdAt, e, now, batch).0;
            id in n.tasks ==> id in n.objs && n.objs[id].state.Prepared?
  {
    PruneFrame(cfg, m, now, batch);
  }

  lemma TakenAt(cfg: Config, trace: seq<Sys>, steps: seq<SysStep>, k: nat, h: Id)
    requires IsSysRun(cfg, trace, steps) && k < |steps|
    ensures TakenAlong(trace[k], trace[k + 1], h, Takes(cfg, trace[k], steps[k], h))
  {
    var s, x := trace[k], steps[k];
    SysReachable(cfg, trace, steps, k);
    TtlsGrow(cfg, s, x);
    InnerNext(cfg, s, x);
    if h in s.ttls {
      assert TtlOk(s, h);
      if Inner(s, x).Some? {
        TakenStep(cfg, s.core, Inner(s, x).value, h);
      }
    } else if h in trace[k + 1].ttls {
      KnownWaits(cfg, s, x, h);
    }
  }

  lemma TakenByFlags(trace: seq<Sys>, taken: seq<bool>, i: nat, h: Id)
    requires |trace| == |taken| + 1 && i < |trace| && h !in trace[0].ttls && h in trace[i].ttls
    requires forall k :: 0 <= k < |taken| ==> TakenAlong(trace[k], trace[k + 1], h, taken[k])
    ensures !Waits(trace[i], h) <==> exists j :: 0 <= j < i && taken[j]
  {
    var n := |taken|;
    var gone := seq(n + 1, k requires 0 <= k <= n => !Waits(trace[k], h));
    var known := seq(n + 1, k requires 0 <= k <= n => h in trace[k].ttls);
    var always := seq(n + 1, k requires 0 <= k <= n => true);
    forall k | 0 <= k < n
      ensures known[k] ==> known[k + 1] && (gone[k + 1] <==> gone[k] || taken[k])
      ensures !known[k] && known[k + 1] ==> !gone[k + 1]
      ensures taken[k] ==> known[k]
    {
      assert TakenAlong(trace[k], trace[k + 1], h, taken[k]);
    }
    SinceKnown(gone, known, always, taken, i);
  }

  lemma RunTakes(cfg: Config, trace: seq<Sys>, steps: seq<SysStep>, h: Id) returns (taken: seq<bool>)
    requires IsSysRun(cfg, trace, steps)
    ensures |taken| == |steps|
    ensures forall k :: 0 <= k < |steps| ==> TakenAlong(trace[k], trace[k + 1], h, taken[k])
    ensures forall k :: 0 <= k < |steps| ==> (taken[k] <==> Takes(cfg, trace[k], steps[k], h))
  {
    taken := seq(|steps|, k requires 0 <= k < |steps| => Takes(cfg, trace[k], steps[k], h));
    forall k | 0 <= k < |steps| ensures TakenAlong(trace[k], trace[k + 1], h, taken[k]) {
      TakenAt(cfg, trace, steps, k, h);
    }
  }

  /** A task prepared through the coordinator no longer waits for bytes exactly when some Cancel succeeded
      on it or some Fulfill claimed it. */
  lemma TakenExact(cfg: Config, trace: seq<Sys>, steps: seq<SysStep>, i: nat, h: Id)
    requires IsSysRun(cfg, trace, steps) && i < |trace| && h in trace[i].ttls
    ensures !Waits(trace[i], h) <==> exists j :: 0 <= j < i && Takes(cfg, trace[j], steps[j], h)
  {
    var taken := RunTakes(cfg, trace, steps, h);
    TakenByFlags(trace, taken, i, h);
  }

  // ---------------------------------------------------------------- a PUT and its task

  lemma ClaimSucceeds(s: H.State, token: H.Token)
    requires H.Inv(s) && token in s.minted
    ensures H.Consumed(s.c, token, s.clock).1.Some? <==> token !in s.claims && s.clock <= s.minted[token].expiresAt
  {
  }

  lemma RefusedExact(cfg: Config, m: Mgr, h: Id, r: Reader, now: Time, batch: seq<Id>)
    requires MgrInv(cfg, m) && IsBatch(cfg, m, now, batch) && h in m.objs
    ensures FulfillLocked(cfg, m, h, r, now, batch).1 == Claimed <==>
            m.objs[h].state.Prepared? && h in m.tasks && ActiveSlotFree(cfg, m)
  {
    if m.objs[h].state.Prepared? && h in m.tasks {
      FulfillRevives(cfg, m, h, r, now, batch);
    }
  }

  /** Fulfill of an endpoint's handle, at any moment of any run, claims the task if and only if nobody has
      taken it, no prune has run since its window passed, and an active slot is free. */
  lemma FulfillExact(cfg: Config, trace: seq<Sys>, steps: seq<SysStep>, i: nat, h: Id, r: Reader, batch: seq<Id>)
    requires IsSysRun(cfg, trace, steps) && i < |trace| && h in trace[i].ttls && BatchOk(cfg, trace[i].core, batch)
    ensures FulfillLocked(cfg, trace[i].core.m, h, r, trace[i].core.clock, batch).1 == Claimed <==>
            && (forall j :: 0 <= j < i ==> !Takes(cfg, trace[j], steps[j], h))
            && (forall j :: 0 <= j < i ==> !PrunesPast(cfg, trace[j], steps[j], h))
            && ActiveSlotFree(cfg, trace[i].core.m)
  {
    SysReachable(cfg, trace, steps, i);
    assert TtlOk(trace[i], h);
    RefusedExact(cfg, trace[i].core.m, h, r, trace[i].core.clock, batch);
    TakenExact(cfg, trace, steps, i, h);
    if Waits(trace[i], h) {
      GoneExact(cfg, trace, steps, i, h);
    }
  }

  /** A PUT claims the endpoint, and the task it belongs to refuses the bytes at the same instant, if and
      only if the endpoint is unclaimed and unexpired and the task was taken, or a prune has run since the
      task's own window passed (in the gap that the two clock reads leave at the end of the endpoint's life),
      or every active slot is taken. */
  lemma ClaimThenRefused(cfg: Config, trace: seq<Sys>, steps: seq<SysStep>, i: nat, token: H.Token, h: Id, r: Reader, batch: seq<Id>)
    requires IsSysRun(cfg, trace, steps) && i < |trace| && BatchOk(cfg, trace[i].core, batch)
    requires token in trace[i].http.minted && trace[i].http.minted[token].handle == Some(h)
    ensures trace[i].core.m.tasks.Keys <= trace[i].core.m.objs.Keys
    ensures var s := trace[i];
            (H.Consumed(s.http.c, token, s.http.clock).1.Some? &&
             FulfillLocked(cfg, s.core.m, h, r, s.core.clock, batch).1 != Claimed) <==>
            (token !in s.http.claims && s.core.clock <= s.http.minted[token].expiresAt &&
             ((exists j :: 0 <= j < i && Takes(cfg, trace[j], steps[j], h)) ||
              (exists j :: 0 <= j < i && PrunesPast(cfg, trace[j], steps[j], h)) ||
              !ActiveSlotFree(cfg, s.core.m)))
    ensures h in trace[i].ttls && h in trace[i].core.m.objs &&
            trace[i].core.m.objs[h].createdAt + trace[i].ttls[h] <= trace[i].http.minted[token].expiresAt
  {
    SysReachable(cfg, trace, steps, i);
    assert TokenOk(trace[i], token);
    FulfillExact(cfg, trace, steps, i, h, r, batch);
    ClaimSucceeds(trace[i].http, token);
  }

  lemma FulfillAnswer(cfg: Config, s: Core, r: Reader, h: Id, batch: seq<Id>)
    requires Enabled(cfg, s, FulfillLock(r, h, batch))
    ensures r in DoFulfill(cfg, s, r, h, batch).subs
    ensures DoFulfill(cfg, s, r, h, batch).subs[r].pc.SubAccepted? <==>
            cfg.hasExec && FulfillLocked(cfg, s.m, h, r, s.clock, batch).1 == Claimed
  {
    if cfg.hasExec && FulfillCheck(s.m, h) == Claimed {
      var e := s.m.tasks[h];
      var (m, out) := FulfillLocked(cfg, s.m, h, r, s.clock, batch);
      SubmittedAnswer(s, r, ViaFulfill, h, Policy(e.archiveMode, e.wrap), m, batch, out == Claimed);
    }
  }

  lemma SubmittedAnswer(s: Core, r: Reader, kind: SubKind, id: Id, policy: Policy, m: Mgr, batch: seq<Id>, ok: bool)
    ensures var n := Submitted(s, r, kind, id, policy, m, batch, ok); r in n.subs && (n.subs[r].pc.SubAccepted? <==> ok)
  {
  }

  /** The same over every interleaving, with anything at all between a PUT's claim and its Fulfill: the
      bytes are accepted if and only if nobody took the task, no prune ran after its window, and an active
      slot is free at the Fulfill. */
  lemma PutAcceptedExact(cfg: Config, trace: seq<Sys>, steps: seq<SysStep>, i: nat)
    requires IsSysRun(cfg, trace, steps) && i < |steps| && steps[i].PutFulfill?
    ensures Inner(trace[i], steps[i]).Some? && trace[i].core.m.tasks.Keys <= trace[i].core.m.objs.Keys
    ensures var h, r := Inner(trace[i], steps[i]).value.id, steps[i].r;
            r in trace[i + 1].core.subs &&
            (trace[i + 1].core.subs[r].pc.SubAccepted? <==>
              && (forall j :: 0 <= j < i ==> !Takes(cfg, trace[j], steps[j], h))
              && (forall j :: 0 <= j < i ==> !PrunesPast(cfg, trace[j], steps[j], h))
              && ActiveSlotFree(cfg, trace[i].core.m))
  {
    SysReachable(cfg, trace, steps, i);
    var x := steps[i];
    assert TokenOk(trace[i], x.token);
    var h := Inner(trace[i], x).value.id;
    FulfillExact(cfg, trace, steps, i, h, x.r, x.batch);
    FulfillAnswer(cfg, trace[i].core, x.r, h, x.batch);
  }

  /** What has been delivered or minted stays so. */
  ghost predicate Grows(s: Sys, n: Sys, token: H.Token) {
    && (token in s.delivered ==> token in n.delivered)
    && (token in s.http.minted ==> token in n.http.minted && n.http.minted[token] == s.http.minted[token])
  }

  lemma StepGrows(cfg: Config, s: Sys, x: SysStep, token: H.Token)
    requires SysEnabled(cfg, s, x)
    ensures Grows(s, SysNext(cfg, s, x), token)
  {
  }

  lemma RunGrows(cfg: Config, trace: seq<Sys>, steps: seq<SysStep>, token: H.Token)
    requires IsSysRun(cfg, trace, steps)
    ensures forall k :: 0 <= k < |trace| - 1 ==> Grows(trace[k], trace[k + 1], token)
  {
    forall k | 0 <= k < |trace| - 1 ensures Grows(trace[k], trace[k + 1], token) {
      StepGrows(cfg, trace[k], steps[k], token);
    }
  }

  lemma {:induction false} StaysDelivered(trace: seq<Sys>, i: nat, j: nat, token: H.Token)
    requires i <= j < |trace| && forall k :: 0 <= k < |trace| - 1 ==> Grows(trace[k], trace[k + 1], token)
    ensures Grows(trace[i], trace[j], token)
  {
    if i < j {
      StaysDelivered(trace, i, j - 1, token);
      assert Grows(trace[j - 1], trace[j - 1 + 1], token);
    }
  }

  /** No PUT comes to the manager with a token whose bytes have been delivered. */
  lemma DeliveredIsSpent(s: Sys, token: H.Token)
    requires HandInv(s) && NoDup(s.http.claims) && token in s.delivered
    ensures token !in s.inHand
  {
    NoDupCount(s.http.claims, token);
  }

  lemma {:induction false} NoDupCount(xs: seq<H.Token>, t: H.Token)
    requires NoDup(xs)
    ensures multiset(xs)[t] <= 1
  {
    if xs != [] {
      var k := |xs| - 1;
      assert xs == xs[..k] + [xs[k]];
      assert NoDup(xs[..k]);
      NoDupCount(xs[..k], t);
      assert xs[k] !in xs[..k];
    }
  }

  /** No token's bytes reach the manager twice: a second PUT is turned away before Fulfill or Start. */
  lemma DeliveredOnce(cfg: Config, trace: seq<Sys>, steps: seq<SysStep>, i: nat, j: nat)
    requires IsSysRun(cfg, trace, steps) && i < j < |steps|
    requires (steps[i].PutFulfill? || steps[i].PutStart?) && (steps[j].PutFulfill? || steps[j].PutStart?)
    ensures steps[i].token != steps[j].token
    ensures Grows(trace[i], trace[j], steps[i].token)
  {
    var token := steps[i].token;
    SysReachable(cfg, trace, steps, j);
    RunGrows(cfg, trace, steps, token);
    StaysDelivered(trace, i, j, token);
    StaysDelivered(trace, i + 1, j, token);
    DeliveredIsSpent(trace[j], token);
  }

  /** So over every interleaving each handle is fulfilled through its endpoint at most once, whatever the
      answer was. */
  lemma FulfilledOnce(cfg: Config, trace: seq<Sys>, steps: seq<SysStep>, i: nat, j: nat)
    requires IsSysRun(cfg, trace, steps) && i < j < |steps| && steps[i].PutFulfill? && steps[j].PutFulfill?
    ensures Inner(trace[i], steps[i]).Some? && Inner(trace[j], steps[j]).Some?
    ensures Inner(trace[i], steps[i]).value.id != Inner(trace[j], steps[j]).value.id
  {
    SysReachable(cfg, trace, steps, j);
    DeliveredOnce(cfg, trace, steps, i, j);
  }

  /** Whoever took the task of an endpoint before its PUT called Fulfill was no PUT. */
  lemma TakenByOthers(cfg: Config, trace: seq<Sys>, steps: seq<SysStep>, i: nat, j: nat)
    requires IsSysRun(cfg, trace, steps) && j < i < |steps| && steps[i].PutFulfill?
    requires Inner(trace[i], steps[i]).Some? && Takes(cfg, trace[j], steps[j], Inner(trace[i], steps[i]).value.id)
    ensures steps[j].Manager?
  {
    if steps[j].PutFulfill? {
      FulfilledOnce(cfg, trace, steps, j, i);
    }
  }
}
