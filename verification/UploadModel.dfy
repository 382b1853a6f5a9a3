/** The data of the async upload manager and what each of its locked regions does to it.

    The manager (`UploadManager.UploadTaskManager`) is proved to implement these functions; the
    interleaving machine (`UploadCore`) takes them as its atomic steps. */
module UploadModel {
  import opened Prelude

  /** An opaque random upload handle. Only its identity matters, so its text is not modelled. */
  type Id = nat

  /** The identity of one io.ReadCloser. Every reader is handed to one Start or Fulfill call. */
  type Reader = nat

  /** The text recorded on a task that did not complete. */
  datatype TaskError = NoMessage | ExecTimeoutMessage | ExpiredMessage | Message(text: string)

  /** Archive handling; `Unset` is the empty string. */
  datatype ArchiveMode = Unset | Preserve | Convert | OtherMode(text: string)

  const DEFAULT_UPLOAD_NAME := "upload"

  /** The manager's defaults; times are in nanoseconds. */
  const DEFAULT_RESULT_TTL := 900_000_000_000
  const DEFAULT_HTTP_UPLOAD_TTL := 300_000_000_000
  const DEFAULT_PREPARED_TTL := DEFAULT_HTTP_UPLOAD_TTL
  const DEFAULT_MAX_ACTIVE := 8
  const DEFAULT_MAX_PREPARED := 64

  datatype TaskState = Prepared | Queued | Running | Completed | Failed | Cancelled | Expired {
    predicate Terminal() { Completed? || Failed? || Cancelled? }
    predicate Active() { Queued? || Running? }
  }

  datatype Task = Task(
    id: Id, name: string, state: TaskState, createdAt: Time,
    startedAt: Option<Time>, finishedAt: Option<Time>, result: Option<string>, err: TaskError)

  /** The part of a tracked task that never changes: which reader its run owns, if it has a run, and
      the policy recorded at Prepare time. */
  datatype Entry = Entry(owner: Option<Reader>, preparedTTL: int, archiveMode: ArchiveMode, wrap: bool)

  datatype Config = Config(hasExec: bool, ttl: int, maxActive: int, preparedTTL: int, maxPrepared: int)

  /** Manager state. `objs` holds every task object ever made reachable, also after the manager has
      dropped it, because a worker keeps its pointer. */
  datatype Mgr = Mgr(objs: map<Id, Task>, tasks: map<Id, Entry>, tombs: map<Id, Task>, order: seq<Id>)

  datatype ExecError = NoError | DeadlineExceeded | ContextCanceled | OtherError(message: string)

  datatype ExecResult = ExecResult(value: Option<string>, error: ExecError)

  // ---------------------------------------------------------------- pruning

  /** How long an unfulfilled prepared task is retained: its own endpoint TTL, else the default. */
  function Window(cfg: Config, e: Entry): int {
    if e.preparedTTL <= 0 then cfg.preparedTTL else e.preparedTTL
  }

  /** Finish times before this instant are past retention. */
  function Cutoff(cfg: Config, now: Time): Time { now - cfg.ttl }

  predicate Evictable(cfg: Config, t: Task, e: Entry, now: Time) {
    if t.state.Terminal() then t.finishedAt.Some? && t.finishedAt.value < Cutoff(cfg, now)
    else t.state.Prepared? && Window(cfg, e) > 0 && t.createdAt < now - Window(cfg, e)
  }

  /** What the tombstone of an evicted task records. */
  function Snapshot(t: Task, now: Time): Task {
    if t.state.Prepared? then t.(state := Expired, err := ExpiredMessage, finishedAt := Some(now)) else t
  }

  /** Time by which evictions are sorted before they join the FIFO. */
  function RetireKey(t: Task, now: Time): Time {
    if Snapshot(t, now).finishedAt.Some? then Snapshot(t, now).finishedAt.value else now
  }

  ghost predicate WellFormed(m: Mgr) {
    && m.tasks.Keys <= m.objs.Keys
    && forall id :: id in m.objs ==> m.objs[id].id == id
  }

  ghost function EvictSet(cfg: Config, m: Mgr, now: Time): set<Id>
    requires WellFormed(m)
  {
    set id | id in m.tasks && Evictable(cfg, m.objs[id], m.tasks[id], now)
  }

  ghost predicate SortedByKey(m: Mgr, now: Time, batch: seq<Id>)
    requires forall id :: id in batch ==> id in m.objs
  {
    forall i, j :: 0 <= i < j < |batch| ==> RetireKey(m.objs[batch[i]], now) <= RetireKey(m.objs[batch[j]], now)
  }

  /** One possible eviction order: the evictable tasks, each once, sorted by finish time. Tasks that
      finished at the same instant come in map-walk order, which is arbitrary. */
  ghost predicate IsBatch(cfg: Config, m: Mgr, now: Time, batch: seq<Id>)
    requires WellFormed(m)
  {
    && (cfg.ttl > 0 ==> Enumerates(batch, EvictSet(cfg, m, now)))
    && (cfg.ttl <= 0 ==> batch == [])
    && (forall id :: id in batch ==> id in m.objs)
    && SortedByKey(m, now, batch)
  }

  function Tombstone(m: Mgr, id: Id, snap: Task): Mgr {
    m.(tombs := m.tombs[id := snap], order := if id in m.tombs then m.order else m.order + [id])
  }

  /** The evicted tasks become tombstones, in batch order behind the older ones. */
  ghost function EvictAll(m: Mgr, batch: seq<Id>, now: Time): Mgr
    requires forall id :: id in batch ==> id in m.objs
  {
    m.(tasks := m.tasks - Elems(batch),
       tombs := m.tombs + map id | id in batch :: Snapshot(m.objs[id], now),
       order := m.order + batch)
  }

  predicate Retirable(tombs: map<Id, Task>, id: Id, cutoff: Time) {
    id in tombs && tombs[id].finishedAt.Some? && tombs[id].finishedAt.value < cutoff
  }

  /** How many tombstones at the head of the FIFO are past the cutoff; the scan stops at a young one. */
  function RetireCount(tombs: map<Id, Task>, order: seq<Id>, cutoff: Time): (k: nat)
    ensures k <= |order|
    ensures forall i :: 0 <= i < k ==> Retirable(tombs, order[i], cutoff)
    ensures k < |order| ==> !Retirable(tombs, order[k], cutoff)
  {
    if order == [] || !Retirable(tombs, order[0], cutoff) then 0
    else
      var j := RetireCount(tombs, order[1..], cutoff);
      assert forall i :: 1 <= i < j + 1 ==> order[i] == order[1..][i - 1];
      j + 1
  }

  ghost function Retire(m: Mgr, cutoff: Time): Mgr {
    var k := RetireCount(m.tombs, m.order, cutoff);
    m.(tombs := m.tombs - Elems(m.order[..k]), order := m.order[k..])
  }

  ghost function Prune(cfg: Config, m: Mgr, now: Time, batch: seq<Id>): Mgr
    requires forall id :: id in batch ==> id in m.objs
  {
    if cfg.ttl <= 0 then m else Retire(EvictAll(m, batch, now), Cutoff(cfg, now))
  }

  // ---------------------------------------------------------------- slots

  ghost function ActiveIds(m: Mgr): set<Id>
    requires m.tasks.Keys <= m.objs.Keys
  {
    set id | id in m.tasks && m.objs[id].state.Active()
  }

  ghost function PreparedIds(m: Mgr): set<Id>
    requires m.tasks.Keys <= m.objs.Keys
  {
    set id | id in m.tasks && m.objs[id].state.Prepared?
  }

  ghost predicate ActiveSlotFree(cfg: Config, m: Mgr)
    requires m.tasks.Keys <= m.objs.Keys
  {
    cfg.maxActive <= 0 || |ActiveIds(m)| < cfg.maxActive
  }

  ghost predicate PreparedSlotFree(cfg: Config, m: Mgr)
    requires m.tasks.Keys <= m.objs.Keys
  {
    cfg.maxPrepared <= 0 || |PreparedIds(m)| < cfg.maxPrepared
  }

  // ---------------------------------------------------------------- locked regions

  /** The FIFO without the first occurrence of `id`. */
  function RemoveFirst(order: seq<Id>, id: Id): seq<Id> {
    if order == [] then []
    else if order[0] == id then order[1..]
    else [order[0]] + RemoveFirst(order[1..], id)
  }

  ghost function Untombstone(m: Mgr, id: Id): Mgr {
    if id !in m.tombs then m else m.(tombs := m.tombs - {id}, order := RemoveFirst(m.order, id))
  }

  /** The registering half of beginLocked, after its prune and slot check. */
  ghost function Register(m: Mgr, id: Id, r: Reader, now: Time): Mgr
    requires id in m.objs
  {
    var u := Untombstone(m.(tasks := m.tasks[id := Entry(Some(r), 0, Unset, false)]), id);
    u.(objs := u.objs[id := u.objs[id].(state := Queued, startedAt := Some(now))])
  }

  lemma RegisterShape(m: Mgr, id: Id, r: Reader, now: Time)
    requires id in m.objs
    ensures Register(m, id, r, now).objs == m.objs[id := m.objs[id].(state := Queued, startedAt := Some(now))]
    ensures Register(m, id, r, now).tasks == m.tasks[id := Entry(Some(r), 0, Unset, false)]
    ensures Register(m, id, r, now).tombs == m.tombs - {id}
  {
  }

  function NewTask(id: Id, name: string, state: TaskState, createdAt: Time): Task {
    Task(id, if name == "" then DEFAULT_UPLOAD_NAME else name, state, createdAt, None, None, None, NoMessage)
  }

  /** Start's locked region: prune, take a slot, register a brand-new task. */
  ghost function StartLocked(cfg: Config, m: Mgr, id: Id, name: string, createdAt: Time, r: Reader,
                             now: Time, batch: seq<Id>): (res: (Mgr, bool))
    requires WellFormed(m) && IsBatch(cfg, m, now, batch)
  {
    var p := Prune(cfg, m, now, batch);
    PruneFrame(cfg, m, now, batch);
    if ActiveSlotFree(cfg, p) then
      (Register(p.(objs := p.objs[id := NewTask(id, name, Queued, createdAt)]), id, r, now), true)
    else (p, false)
  }

  /** Prepare's locked region. */
  ghost function PrepareLocked(cfg: Config, m: Mgr, id: Id, name: string, createdAt: Time, e: Entry,
                               now: Time, batch: seq<Id>): (res: (Mgr, bool))
    requires WellFormed(m) && IsBatch(cfg, m, now, batch)
  {
    var p := Prune(cfg, m, now, batch);
    PruneFrame(cfg, m, now, batch);
    if PreparedSlotFree(cfg, p) then
      (p.(objs := p.objs[id := NewTask(id, name, Prepared, createdAt)], tasks := p.tasks[id := e]), true)
    else (p, false)
  }

  datatype FulfillOutcome = Claimed | HandleExpired | UnknownHandle | InProgress | AlreadyFinished(state: TaskState) | NoSlot | NoExecutor

  /** What Fulfill decides from the entry before it touches anything. */
  function FulfillCheck(m: Mgr, id: Id): FulfillOutcome
    requires m.tasks.Keys <= m.objs.Keys
  {
    if id in m.tombs then HandleExpired
    else if id !in m.tasks then UnknownHandle
    else if m.objs[id].state.Active() then InProgress
    else if m.objs[id].state.Prepared? then Claimed
    else AlreadyFinished(m.objs[id].state)
  }

  /** Fulfill's locked region. A refused call prunes nothing; a claiming call prunes, which may
      tombstone the very handle it is about to register. */
  ghost function FulfillLocked(cfg: Config, m: Mgr, id: Id, r: Reader, now: Time, batch: seq<Id>)
    : (res: (Mgr, FulfillOutcome))
    requires WellFormed(m) && IsBatch(cfg, m, now, batch)
  {
    if FulfillCheck(m, id) != Claimed then (m, FulfillCheck(m, id))
    else
      var p := Prune(cfg, m, now, batch);
      PruneFrame(cfg, m, now, batch);
      if ActiveSlotFree(cfg, p) then (Register(p, id, r, now), Claimed) else (p, NoSlot)
  }

  datatype CancelOutcome = CancelOk | FinishedAlready(state: TaskState) | NoSuchHandle | NotCancellable(state: TaskState)

  function CancelLocked(m: Mgr, id: Id, now: Time): (res: (Mgr, CancelOutcome))
    requires m.tasks.Keys <= m.objs.Keys
  {
    if id !in m.tasks then
      (m, if id in m.tombs then FinishedAlready(m.tombs[id].state) else NoSuchHandle)
    else if m.objs[id].state.Prepared? || m.objs[id].state.Active() then
      (m.(objs := m.objs[id := m.objs[id].(state := Cancelled, finishedAt := Some(now))]), CancelOk)
    else (m, NotCancellable(m.objs[id].state))
  }

  /** What a status poll shows after its prune: the live task, else the tombstone, else nothing. */
  function Lookup(m: Mgr, id: Id): Option<Task>
    requires m.tasks.Keys <= m.objs.Keys
  {
    if id in m.tasks then Some(m.objs[id])
    else if id in m.tombs then Some(m.tombs[id])
    else None
  }

  /** The worker's first locked region: bail out unless the task is still queued. */
  function BeginRun(m: Mgr, id: Id, now: Time): (res: (Mgr, bool))
    requires id in m.objs
  {
    if m.objs[id].state.Queued? then
      (m.(objs := m.objs[id := m.objs[id].(state := Running, startedAt := Some(now))]), true)
    else (m, false)
  }

  /** The outcome the completion path records when nobody else has finished the task. */
  function Finished(t: Task, res: ExecResult, finished: Time): Task {
    var u := t.(result := res.value, finishedAt := Some(finished));
    match res.error
    case NoError => u.(state := Completed)
    case DeadlineExceeded => u.(state := Failed, err := ExecTimeoutMessage)
    case ContextCanceled =>
      if t.state.Cancelled? then u.(state := Cancelled, err := NoMessage)
      else u.(state := Failed, err := ExecTimeoutMessage)
    case OtherError(message) => u.(state := Failed, err := Message(message))
  }

  /** The worker's completion region. */
  function FinishRun(m: Mgr, id: Id, timedOut: bool, res: ExecResult, finished: Time): Mgr
    requires id in m.objs
  {
    if m.objs[id].state.Cancelled? || timedOut then m
    else m.(objs := m.objs[id := Finished(m.objs[id], res, finished)])
  }

  /** The watchdog's locked region; the flag says whether it force-failed the task. */
  function ForceFail(m: Mgr, id: Id, failedAt: Time): (res: (Mgr, bool))
    requires id in m.objs
  {
    if m.objs[id].state.Active() then
      (m.(objs := m.objs[id := m.objs[id].(state := Failed, err := ExecTimeoutMessage, finishedAt := Some(failedAt))]),
       true)
    else (m, false)
  }

  // ---------------------------------------------------------------- what pruning leaves alone

  /** Prune changes no task object and drops exactly the evictable handles, whatever the order. */
  lemma PruneFrame(cfg: Config, m: Mgr, now: Time, batch: seq<Id>)
    requires WellFormed(m) && IsBatch(cfg, m, now, batch)
    ensures Prune(cfg, m, now, batch).objs == m.objs
    ensures Prune(cfg, m, now, batch).tasks == if cfg.ttl <= 0 then m.tasks else m.tasks - EvictSet(cfg, m, now)
    ensures WellFormed(Prune(cfg, m, now, batch))
  {
  }
}
