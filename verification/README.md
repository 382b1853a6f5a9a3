# Model of the hand-off and upload state of mcpplane

A Dafny 4.11 model of the stateful core of the Go repository, with proofs. It covers three subsystems.

* **The async upload manager** (`transfer/upload_tasks.go`), its one-time HTTP endpoint
  (`transfer/upload_http.go`) and the PUT handler that feeds it through a pipe.
* **One-time hand-off state**: the link endpoint with its bounded memory of spent links
  (`handoff/handoff.go`), the resume registry (`handoff/handoff_registry.go`) and the handle store behind
  it (`session/async.go`).
* **Codecs and bounded streams**: the file data URI with its base64 length arithmetic and capped reader
  (`ieo/file_data_uri.go`), the relay's capped reader (`ieo/file_relay.go`) and the signed request state
  (`session/request_state.go`).

Check everything with `dafny verify dfyconfig.toml`.

## How the model is built

Each stateful object is a class with the source's maps, lists and counters as fields, and each method is
proved equal to a specification function on values. The theorems are about runs: sequences of operations,
or of atomic steps of several parties, over those same functions. What the functions compute is stated a
second time without naming them: from the history of the run (`UploadAnswers`, `AsyncHistory`,
`HandoffOutcomes`, the history lemmas of `UploadHttp` and `HandoffEndpoint`) or from the text (`DataUriText`,
`Base64`, `Utf8`, `RequestState`).

| module | holds |
|---|---|
| `Prelude`, `Text`, `Utf8` | options, duplicate-free sequences, string helpers, UTF-8 |
| `UploadModel` | manager data and what each locked region does to it |
| `UploadManager` | classes `TrackedTask` and `UploadTaskManager`, proved against `UploadModel` |
| `UploadCore` | the interleaving machine: workers, watchdogs, submissions, cancels, polls, each with a program counter |
| `UploadInvariants`, `UploadSafety`, `UploadSteps` | the inductive invariant and its preservation by every step |
| `UploadTheorems`, `UploadRetention` | what the manager promises over every behaviour |
| `UploadAnswers` | what records show and calls answer, told by the steps that made it so |
| `UploadExamples` | short behaviours that reach the states the retention theorems single out |
| `PutPipeline` | the PUT handler and its `io.Pipe`, composed with the machine |
| `UploadHttp` | class `Upload`, the endpoint tokens, over every run |
| `UploadEndpoint` | coordinator and manager together: the two clock reads of a prepared endpoint, and the PUT that claims under one lock and fulfills under the other |
| `EndpointExamples` | runs in which a claimed endpoint's task refuses the bytes |
| `HandoffEndpoint` | class `Endpoint`, over every run with its history of markings |
| `AsyncStore`, `HandoffRegistry` | the store against an ideal one, the registry, its capacity victim and the resume handler |
| `AsyncHistory` | the store's answers from the history of operations |
| `HandoffProtocol` | registry and store under every interleaving: pending cleanups, and resume calls that take the two locks in turn |
| `HandoffOutcomes` | what resume calls find and how they end, from the history of the run |
| `DataUriText` | refusals and fields of the data URI as text; names and numbers |
| `Base64`, `DataUri`, `BoundedReader` | the data-URI codec and the two capped readers |
| `RequestState` | envelope printer and parser, mint and verify |

One locked region is one step. What the code does between unlocking and the next lock is a step of its own:
the reader close of Cancel, of the watchdog and of the worker, the executor call, the close of a refused
reader. Handles, tokens and readers are fresh. The clock does not run backwards; a clock value read before
a lock is taken is any earlier instant. The executor is arbitrary: it reads any amount, returns anything,
or never returns. Map-walk order is arbitrary everywhere.

## Where the code does less than its comments say

Each item names the exact condition, and where it is about runs also a run that reaches such a state.

* A finished task that has been evicted keeps its tombstone if and only if an expiry notice still within
  retention stands ahead of it in the FIFO (`FinishedTombstoneExact`); without one, its handle goes from its
  result straight to unknown (`EvictedResultVanishes`, `ResultIsLost`, `ResultIsKeptOutOfOrder`).
* The tombstone FIFO is ordered by the instant of recording. After a prune it is also ordered by finish time
  if and only if every surviving tombstone is an expiry notice, that is, if and only if no finished task was
  queued behind a notice within retention (`FinishOrderExact`, `FinishOrderBefore`, `ResultIsKeptOutOfOrder`).
* A PUT that has claimed a live endpoint cannot always fulfill its handle. Its Fulfill is refused, and the
  endpoint is spent, if and only if the task was taken by a Cancel or by a Fulfill of someone else, a prune
  ran after the task's window, or no active slot is free (`ClaimThenRefused` for a claim and a Fulfill at one
  instant, `PutAcceptedExact` with anything between them). A prune after the window is possible because the
  window starts at an earlier clock read than the endpoint's expiry (`GapIsReached`), and, with equal reads,
  because time passes between claim and Fulfill (`LateFulfillIsRefused`). The full slots need no gap at all
  (`FullSlotsRefuse`).
* `Begin` drops, and so retires, the handle it registers exactly when that handle's previous entry was past
  its TTL (`OwnHandleDropped`, `RefreshedFlowIsDead`, `DeadFlowIsReached`).
* The registry uses the empty handle as "no victim yet". A full registry grows past its cap if and only if the
  handle is new and the empty string is registered and strictly oldest (`CapExact`,
  `HandoffProtocol.OverCapIsReached`).
* The End of a resume call removes a flow other than the one it served if and only if the handle was begun
  again between the call's read and its End (`EndTakesAnother`, `FreshFlowIsLost`).
* Refreshing a dead, unswept handle without a payload revives its old payload; that is the only observable
  effect of lazy sweeping (`RevivalIsTheOnlyLeak`, `RevivalIsReached`).
* The memory of spent links is over its cap exactly after a `Resolve` that marks a link while the memory is
  full, and until the next operation that trims; a failed `Claim` does not (`SpentOverCapExact`,
  `HandoffEndpoint.OverCapIsReached`). `Claim` ignores the expiry.
* The length pre-filter rejects a one-byte file under cap 1, and everything for caps from 2^62, whose double
  wraps around (`FileRoundTrip`). The parsed MIME type keeps its `mime=` prefix.
* A payload with padding in its middle can stream cleanly when the decoder happens to be cut there; only the
  comparison with the derived size rejects it (`AcceptedMeansExact`, `InnerPaddingStreams`).

## Model

| member | source | states |
|---|---|---|
| UploadManager.TrackedTask.constructor | transfer/upload_tasks.go:90-121 | a tracked task owns its reader, not yet closed and not timed out |
| UploadManager.TrackedTask.CloseReader | transfer/upload_tasks.go:123-132 | hands out the owned reader for closing on the first call and on no later one, as the machine's close of a run counts it |
| UploadManager.UploadTaskManager.constructor | transfer/upload_tasks.go:177-191 | a new manager is empty, with the default TTL for a non-positive one and the default caps and window |
| UploadManager.UploadTaskManager.WithConfig | transfer/upload_tasks.go:137-168 | a manager with limits of the caller's choosing is empty too |
| UploadManager.SortByFinish | transfer/upload_tasks.go:745-756 | the evictions of one prune come out sorted by finish time, the same ones, each once, and equal times in their old order |
| UploadManager.UploadTaskManager.ApplyEvictions | transfer/upload_tasks.go:757-760 | every collected eviction, in order, becomes a tombstone at the end of the FIFO and leaves the live map |
| UploadManager.UploadTaskManager.TombstoneLocked | transfer/upload_tasks.go:790-795 | records the snapshot and queues the handle behind the others, once |
| UploadManager.UploadTaskManager.UntombstoneLocked | transfer/upload_tasks.go:804-815 | removes the tombstone and exactly its place in the FIFO |
| UploadManager.UploadTaskManager.CollectEvictions | transfer/upload_tasks.go:714-744 | finds exactly the live tasks whose window has lapsed, whatever the map-walk order |
| UploadManager.UploadTaskManager.RetireTombstones | transfer/upload_tasks.go:769-782 | drops exactly the run of past-cutoff tombstones at the head of the FIFO |
| UploadManager.UploadTaskManager.PruneLocked | transfer/upload_tasks.go:701-783 | the whole prune equals its specification for some sorted order of the evictable tasks |
| UploadManager.UploadTaskManager.AcquireSlotLocked | transfer/upload_tasks.go:654-669 | refuses exactly when queued plus running tasks have reached MaxActive |
| UploadManager.UploadTaskManager.AcquirePreparedSlotLocked | transfer/upload_tasks.go:677-691 | refuses exactly when prepared tasks have reached MaxPrepared |
| UploadManager.UploadTaskManager.RegisterLocked | transfer/upload_tasks.go:402-418 | the handle goes live and queued with its reader, its tombstone is gone, the index stays right |
| UploadManager.UploadTaskManager.Start | transfer/upload_tasks.go:209-239 | prune, slot check and registration of a new task; a refusal changes nothing after the prune, and without an executor nothing at all |
| UploadManager.UploadTaskManager.Prepare | transfer/upload_tasks.go:289-321 | the new handle carries its endpoint TTL and the archive mode and wrap flag of its options; without an executor nothing happens |
| UploadManager.ApplyOptions | transfer/upload_tasks.go:260-306 | the last option of each kind wins; the defaults are preserve and no wrap |
| UploadManager.ModeExact | transfer/upload_tasks.go:260-306 | the archive mode is that of the last option of its kind, where an empty one means convert, and preserve if there is none |
| UploadManager.WrapExact | transfer/upload_tasks.go:260-306 | the wrap flag is that of the last option of its kind, and false if there is none |
| UploadManager.UploadTaskManager.Fulfill | transfer/upload_tasks.go:332-382 | claims prepared handles only; name (the task's own when the caller gives none) and policy are those before the prune; refusals, and a missing executor, touch nothing |
| UploadManager.UploadTaskManager.Cancel | transfer/upload_tasks.go:589-630 | cancels prepared, queued and running tasks, reports the right error otherwise, and names the reader to close |
| UploadManager.UploadTaskManager.Get | transfer/upload_tasks.go:569-583 | after the prune the record of the live task as it is, else the tombstone, else unknown |
| UploadManager.UploadTaskManager.List | transfer/upload_tasks.go:634-650 | every live task once, oldest first |
| UploadManager.UploadTaskManager.WorkerBegin | transfer/upload_tasks.go:431-443 | the worker proceeds only if the task is still queued |
| UploadManager.UploadTaskManager.WorkerComplete | transfer/upload_tasks.go:493-536 | the worker's outcome is recorded unless a Cancel or the watchdog was first |
| UploadManager.UploadTaskManager.WatchdogFail | transfer/upload_tasks.go:465-473 | the watchdog fails only a queued or running task |
| UploadModel.PruneFrame | transfer/upload_tasks.go:701-783 | pruning changes no task object and drops exactly the evictable handles, in any order |
| UploadSteps.StepKeeps | transfer/upload_tasks.go:209-630 | every step of every party keeps the inductive invariant |
| UploadSteps.Reachable | transfer/upload_tasks.go:209-630 | the invariant holds in every state of every interleaving |
| UploadTheorems.SlotCaps | transfer/upload_tasks.go:654-691 | queued plus running tasks and prepared tasks never exceed their caps |
| UploadTheorems.TombstoneIndex | transfer/upload_tasks.go:745-815 | live handles and tombstones are disjoint; the FIFO lists exactly the tombstones, each once |
| UploadTheorems.ReaderClosedOnce | transfer/upload_tasks.go:123-132 | every reader is closed at most once, and exactly once after a refusal or when its run is over and nothing is pending |
| UploadTheorems.CancelledIff | transfer/upload_tasks.go:604-624 | a task is cancelled if and only if some Cancel on it committed to success |
| UploadTheorems.OneSuccessfulCancel | transfer/upload_tasks.go:604-624 | at most one Cancel per task succeeds |
| UploadTheorems.OutcomeRecorded | transfer/upload_tasks.go:499-531 | a finished run that was not cancelled is completed exactly when the executor succeeded before the watchdog, with its result; a timeout or a context error is always the timeout failure |
| UploadTheorems.ExecutorOnce | transfer/upload_tasks.go:349-382 | at most one executor call per handle, with exactly the policy recorded at Prepare, or preserve/false for Start |
| UploadTheorems.TerminalIrrevocable | transfer/upload_tasks.go:450-536 | a completed, failed or cancelled task never changes again |
| UploadTheorems.PollsNeverGoBack | transfer/upload_tasks.go:569-583 | successive polls move only forward; a final or expired record stays the same until it is unknown; unknown stays unknown |
| UploadTheorems.BehaviourForward | transfer/upload_tasks.go:392-536 | between any two moments of a behaviour every task and every poll answer has moved forward only |
| UploadAnswers.StepRecords | transfer/upload_tasks.go:209-630 | how each step of each party changes the record of each task, field by field, and that nothing else does |
| UploadAnswers.RecordBirth | transfer/upload_tasks.go:209-321 | every record shows the name, by default "upload", and the instant of the Start or Prepare that made it |
| UploadAnswers.EndInstant | transfer/upload_tasks.go:450-536 | a task ends by its completion, a Cancel or its watchdog, and its record then shows the instant of that very step and the result, error and state that belong to it |
| UploadAnswers.PollShows | transfer/upload_tasks.go:569-583 | a poll shows a live record as it is, of others the final record or the expiry notice while the tombstone is kept, else nothing |
| UploadAnswers.EndIsShown | transfer/upload_tasks.go:569-583 | every poll until the TTL after the step that ended a task shows the record that this step made |
| UploadAnswers.ResultIsShown | transfer/upload_tasks.go:492-536 | an upload whose executor returned at an instant, not cancelled or timed out before, is shown with the executor's result at every poll until that instant plus the TTL |
| UploadAnswers.ExpiryIsShown | transfer/upload_tasks.go:725-743 | the poll in which an unfulfilled handle's window has run out shows the expiry notice, with the instant of the poll |
| UploadAnswers.StartExact | transfer/upload_tasks.go:209-239 | a Start is accepted if and only if there is an executor and fewer than MaxActive tasks are queued or running |
| UploadAnswers.PrepareExact | transfer/upload_tasks.go:289-321 | a Prepare is accepted if and only if fewer than MaxPrepared tasks wait for bytes within their windows |
| UploadAnswers.FulfillExact | transfer/upload_tasks.go:332-382 | a Fulfill is accepted if and only if there is an executor, the handle is live and waits for bytes, and fewer than MaxActive tasks are queued or running |
| UploadAnswers.FulfillReasons | transfer/upload_tasks.go:338-374 | which refusal a Fulfill gives, exactly, by tombstone, record and slots |
| UploadAnswers.CancelExact | transfer/upload_tasks.go:589-630 | over every behaviour, what a Cancel does or answers, exactly, by record and tombstone |
| UploadRetention.PruneDropsExactly | transfer/upload_tasks.go:714-760 | a prune drops a live handle if and only if its own window has lapsed; queued and running never |
| UploadRetention.PruneRetires | transfer/upload_tasks.go:769-782 | an old tombstone leaves if and only if it and all ahead of it are past the cutoff; otherwise it stays as it was |
| UploadRetention.TombstonesAreRecent | transfer/upload_tasks.go:745-782 | after the prune of any call, Start, Prepare, Fulfill or a poll, at T every surviving tombstone was recorded no earlier than T minus the TTL |
| UploadRetention.FinishedTombstoneExact | transfer/upload_tasks.go:745-782 | a finished task's tombstone survives a prune if and only if an expiry notice within retention is ahead of it |
| UploadRetention.EvictedResultVanishes | transfer/upload_tasks.go:719-782 | a finished task evicted by a prune is unknown right after it if and only if no expiry notice within retention was in the FIFO before |
| UploadRetention.FinishOrderExact | transfer/upload_tasks.go:707-713 | after a prune finish times ascend along the FIFO if and only if every surviving tombstone is an expiry notice |
| UploadRetention.FinishOrderBefore | transfer/upload_tasks.go:745-782 | the same on the FIFO before retirement: if and only if no finished task is queued behind a notice within retention |
| UploadExamples.ResultIsLost | transfer/upload_tasks.go:719-782 | a behaviour whose poll shows a cancelled handle as unknown in the prune that evicts it |
| UploadExamples.ResultIsKeptOutOfOrder | transfer/upload_tasks.go:707-782 | a behaviour that keeps such a tombstone, behind a younger notice, so that finish times descend |
| UploadRetention.FulfillRevives | transfer/upload_tasks.go:332-418 | fulfilling a prepared handle succeeds exactly when a slot is free, even if the prune inside the call tombstoned it |
| UploadRetention.FinishedTasksRetained | transfer/upload_tasks.go:719-724 | a finished task stays live with its result until FinishedAt plus the TTL |
| UploadRetention.PreparedTasksRetained | transfer/upload_tasks.go:725-743 | an unfulfilled prepared handle stays live until CreatedAt plus its own endpoint TTL |
| UploadRetention.ActiveRunsAreLive | transfer/upload_tasks.go:701-783 | the handle of a queued or running task is live and owned by its run |
| UploadRetention.ExpiryNoticeRetained | transfer/upload_tasks.go:737-782 | an expiry notice recorded at R is shown unchanged until R plus the TTL |
| PutPipeline.SysReachable | transfer/upload_http.go:350-405 | the pipe and hand-over invariant holds in every interleaving of handler, executor, worker, watchdog and Cancel |
| PutPipeline.CompletedMeansWholeBody | transfer/upload_http.go:380-405 | EOF seen and task completed means the executor read the whole body, within the cap |
| PutPipeline.AcceptedMeansWholeBody | transfer/upload_http.go:401-405 | 202 means the whole body was copied and read |
| PutPipeline.TruncatedNeverCompletes | transfer/upload_http.go:380-400 | once the handler has given up, the task is terminal and never completed after an EOF |
| PutPipeline.PipeConserves | transfer/upload_http.go:350-385 | bytes read, in flight and to come are always exactly the body, and reads stay within the cap |
| PutPipeline.ReplyExact | transfer/upload_http.go:364-405 | over every interleaving the status is 202 if and only if the body was copied to its end, 413 if and only if it went over the cap, and 500 if and only if the copy failed or the submission was refused |
| PutPipeline.TooLargeIsTooLarge | transfer/upload_http.go:377-400 | 413 is decided only for a body over the cap, once exactly the cap has been read |
| UploadHttp.Upload.constructor | transfer/upload_http.go:79-97 | a new coordinator holds no token |
| UploadHttp.Upload.PruneLocked | transfer/upload_http.go:275-285 | drops exactly the expired tokens and the back-references of their handles |
| UploadHttp.Upload.MintLocked | transfer/upload_http.go:194-249 | prunes, then adds the token and, for a prepared endpoint, its back-reference |
| UploadHttp.Upload.FindUpload | transfer/upload_http.go:257-269 | the handle's token if it is unused and unexpired |
| UploadHttp.Upload.ClaimToken | transfer/upload_http.go:413-437 | validates and consumes a token in one region |
| UploadHttp.ByHandleIsInverse | transfer/upload_http.go:224-285 | in every reachable state byHandle is exactly the inverse of the unused handle-bearing tokens |
| UploadHttp.ClaimedAtMostOnce | transfer/upload_http.go:413-437 | over a run no token is claimed twice |
| UploadHttp.ClaimExact | transfer/upload_http.go:413-437 | a claim succeeds if and only if some operation minted the token, no claim of it succeeded before and the TTL given (by default five minutes) since the mint has not passed; it hands over the name (by default "upload"), handle and credentials of that mint |
| UploadHttp.FindExact | transfer/upload_http.go:257-269 | a handle is found if and only if some operation minted the token with it, no claim of it succeeded and its life is not over |
| UploadHttp.MintClears | transfer/upload_http.go:194-285 | a mint leaves exactly the endpoints whose life is not over |
| UploadHttp.ClaimForgets | transfer/upload_http.go:413-437 | a refused claim forgets its token and no other; a successful one keeps it |
| UploadHttp.EndpointSkew | transfer/upload_http.go:232-248 | for any two clock reads, a prune drops a prepared task while its endpoint is live exactly in the gap they leave |
| UploadEndpoint.SysReachable | transfer/upload_http.go:224-249 | in every run of coordinator and manager, each endpoint belongs to a task of its own, with the TTL recorded for both, and expires no earlier than the task's window; every successful claim is in a PUT's hand or delivered |
| UploadEndpoint.EndpointLife | transfer/upload_http.go:224-249 | an endpoint lives from its mint on exactly as long as the window its task was given, five minutes by default |
| UploadEndpoint.TakenExact | transfer/upload_tasks.go:332-374 | a task prepared for an endpoint stops waiting for bytes if and only if a Cancel succeeded on it or a Fulfill claimed it |
| UploadEndpoint.GoneExact | transfer/upload_tasks.go:725-743 | a task still waiting for bytes is no longer live if and only if some prune ran after its window |
| UploadEndpoint.ClaimThenRefused | transfer/upload_http.go:232-249 | in every run a claim succeeds and Fulfill then refuses the bytes if and only if the endpoint is unclaimed and unexpired and the task was taken, a prune ran after its window, or no active slot is free |
| UploadEndpoint.PutAcceptedExact | transfer/upload_http.go:325-376 | with any steps between a PUT's claim and its Fulfill: the bytes are accepted if and only if nobody took the task, no prune ran after its window, and an active slot is free at the Fulfill |
| UploadEndpoint.DeliveredOnce | transfer/upload_http.go:355-376 | over every interleaving no token's PUT reaches Fulfill or Start twice |
| UploadEndpoint.FulfilledOnce | transfer/upload_http.go:355-366 | no handle is fulfilled through its endpoint twice, whatever the first answer was |
| UploadEndpoint.TakenByOthers | transfer/upload_http.go:355-366 | whoever took the task before its PUT called Fulfill was no PUT |
| EndpointExamples.GapIsReached | transfer/upload_http.go:232-248 | a run with one nanosecond between the two clock reads whose PUT claims the endpoint and is refused |
| EndpointExamples.LateFulfillIsRefused | transfer/upload_http.go:325-376 | the same with equal reads, when a prune gets in between claim and Fulfill |
| EndpointExamples.FullSlotsRefuse | transfer/upload_http.go:325-376 | a run whose PUT claims the endpoint while the only active slot is taken: refused and spent, though task and endpoint are still live |
| UploadHttp.EndpointNeverOutlives | transfer/upload_http.go:232-248 | an endpoint never outlives its task if and only if the two reads agree or pruning is off |
| HandoffEndpoint.Endpoint.constructor | handoff/handoff.go:100-114 | empty sets; a non-positive TTL becomes thirty minutes |
| HandoffEndpoint.Endpoint.MarkSpentLocked | handoff/handoff.go:264-270 | records and queues a token that is not yet remembered |
| HandoffEndpoint.Endpoint.PruneSpentLocked | handoff/handoff.go:279-289 | evicts from the head until the memory is within its cap |
| HandoffEndpoint.Endpoint.Mint | handoff/handoff.go:177-190 | the new token is pending until now plus the TTL |
| HandoffEndpoint.Endpoint.Resolve | handoff/handoff.go:242-259 | used, never existed, run out (and then spent) or the live item |
| HandoffEndpoint.Endpoint.Remove | handoff/handoff.go:319-325 | the token stops pending and is remembered as spent |
| HandoffEndpoint.Endpoint.Claim | handoff/handoff.go:333-343 | takes a pending token, whatever its expiry; anything else changes nothing |
| HandoffEndpoint.Endpoint.PruneExpired | handoff/handoff.go:389-400 | moves exactly the run-out tokens to the memory, in map-walk order |
| HandoffEndpoint.TrimKeepsYoungest | handoff/handoff.go:279-289 | trimming an exact index leaves exactly its youngest entries, as many as fit |
| HandoffEndpoint.SpentIndex | handoff/handoff.go:264-289 | the FIFO is a duplicate-free list of exactly the spent tokens, a suffix of the history of markings, at most one over the cap |
| HandoffEndpoint.SpentOverCapExact | handoff/handoff.go:242-400 | the memory is over its cap after an operation if and only if a Resolve marked a link while it was full, or it was over already and the operation does not trim |
| HandoffEndpoint.OverCapIsReached | handoff/handoff.go:242-259 | a run of 10003 operations that leaves the memory one over its cap |
| HandoffEndpoint.PendingSpentDisjoint | handoff/handoff.go:242-343 | no token is both pending and spent |
| HandoffEndpoint.NeverPendingAgain | handoff/handoff.go:177-343 | a minted token that stopped pending never pends again |
| HandoffEndpoint.ConsumedOnce | handoff/handoff.go:242-343 | no token is claimed twice, reported as run out twice, or both |
| HandoffEndpoint.ResolveExact | handoff/handoff.go:242-289 | Resolve's answer from the history alone: a dead link is explained exactly until 10000 later ones are spent |
| HandoffEndpoint.HistoryExact | handoff/handoff.go:177-400 | the history from the operations: which of them use a link up, what its mint gave it and until when, and which Claims succeeded |
| HandoffEndpoint.ClaimExact | handoff/handoff.go:333-343 | a Claim succeeds if and only if the link was minted and never used up, whatever the time |
| AsyncStore.AsyncHandleStore.constructor | session/async.go:40-53 | an empty store with the default TTL and cap for non-positive arguments |
| AsyncStore.AsyncHandleStore.SweepLocked | session/async.go:63-69 | at capacity exactly the dead handles go |
| AsyncStore.AsyncHandleStore.CreateHandle | session/async.go:59-80 | the sweep, then a fresh item |
| AsyncStore.AsyncHandleStore.CreateHandleWithID | session/async.go:89-115 | refreshes an existing item, keeping its payload when none is given, or creates one |
| AsyncStore.AsyncHandleStore.GetHandle | session/async.go:120-133 | not found, expired and removed, or status and payload |
| AsyncStore.AsyncHandleStore.SetHandle | session/async.go:137-155 | updates a live item and extends it; removes a dead one |
| AsyncStore.AsyncHandleStore.Delete | session/async.go:158-162 | the handle is gone |
| AsyncStore.LazySweepIsInvisible | session/async.go:59-162 | over every run Get and Set on a handle answer as an unlimited store without lazy sweeping would, unless that handle's dead payload was revived |
| AsyncStore.RevivalIsTheOnlyLeak | session/async.go:92-99 | for each handle, one operation departs from the ideal store if and only if it refreshes that handle dead, unswept and without a payload |
| AsyncStore.RevivalIsReached | session/async.go:92-99 | for every cap and TTL, a run of three operations that shows a dead handle's payload |
| AsyncStore.OverCapOnlyLive | session/async.go:59-115 | a creation leaves the store over its cap only with live handles |
| AsyncHistory.ItemExact | session/async.go:59-162 | a handle is stored if and only if its last write was not deleted and nobody has noticed that its time is over; status, payload and expiry are those of that write |
| AsyncHistory.GetExact | session/async.go:120-133 | Get from the history alone: found if and only if the last write is no older than the TTL, expired if and only if it is and nobody noticed, else not found |
| AsyncHistory.GetShows | session/async.go:120-133 | a found handle shows the status and payload of its last write |
| AsyncHistory.ExpiredOnce | session/async.go:120-155 | Get and Set notice an expired handle alike and remove it, so the next Get does not find it |
| HandoffRegistry.Registry.constructor | handoff/handoff_registry.go:71-78 | an empty registry with the session TTL and cap |
| HandoffRegistry.Registry.PruneLocked | handoff/handoff_registry.go:184-194 | removes exactly the entries past their TTL and lists each once |
| HandoffRegistry.Registry.OldestLocked | handoff/handoff_registry.go:104-110 | the candidate the walk settles on, for the walk it took |
| HandoffRegistry.Registry.EvictLocked | handoff/handoff_registry.go:101-121 | at capacity evicts the candidate unless it is the empty or the registered handle |
| HandoffRegistry.Registry.Begin | handoff/handoff_registry.go:94-127 | the new registry, and every dropped handle listed exactly once for retirement |
| HandoffRegistry.Registry.Get | handoff/handoff_registry.go:142-153 | the continuation of an entry within its TTL |
| HandoffRegistry.Registry.End | handoff/handoff_registry.go:157-161 | the entry is gone |
| HandoffRegistry.RetireHandles | handoff/handoff_registry.go:128-136 | the cleanup loop deletes exactly the listed handles but the empty one |
| HandoffRegistry.VictimExact | handoff/handoff_registry.go:104-121 | every walk settles on an oldest entry if and only if the empty handle is not strictly the oldest |
| HandoffRegistry.OwnHandleDropped | handoff/handoff_registry.go:94-136 | the registered handle is never the capacity victim, and is dropped if and only if its previous entry was past its TTL |
| HandoffRegistry.BeginLeaves | handoff/handoff_registry.go:94-127 | what a Begin leaves of the other entries, exactly: all current ones but, at the cap, one oldest (unless the empty handle is strictly oldest), even if the handle is registered already |
| HandoffRegistry.CapExact | handoff/handoff_registry.go:101-123 | the cap survives a Begin for every walk if and only if not (full, new handle, empty handle strictly oldest) |
| HandoffProtocol.WithinCap | handoff/handoff_registry.go:94-123 | a run that never registers the empty handle stays within the cap |
| HandoffProtocol.OverCapIsReached | handoff/handoff_registry.go:101-123 | for every cap, a run that registers the empty handle first and ends over the cap |
| HandoffProtocol.BeginRetiresWhatLeaves | handoff/handoff_registry.go:94-136 | the handles a Begin lists for retirement are exactly those whose entries left the registry |
| HandoffProtocol.DropsAreConserved | handoff/handoff_registry.go:94-179 | over every run the entries that left by expiry or capacity equal the cleanup calls made plus those pending, handle by handle |
| HandoffProtocol.DroppedIsGone | handoff/handoff_registry.go:128-136 | with no cleanup of it pending, a handle whose entry left, not created again since, is gone from the store |
| HandoffProtocol.RefreshedFlowIsDead | handoff/handoff_registry.go:94-136 | refreshing an entry past its TTL leaves a live continuation whose backing handle its own cleanup deletes |
| HandoffProtocol.DeadFlowIsReached | handoff/handoff_registry.go:94-136 | for every handle a run that refreshes it in the store, begins its flow again after the session TTL and ends there |
| HandoffRegistry.Resume | handoff/handoff_registry.go:289-342 | the handler's dispatch when nobody else is at work: outcome, continuation invoked, and what becomes of registry and store |
| HandoffRegistry.ResumedExact | handoff/handoff_registry.go:302-342 | whom an undisturbed resume serves, and every outcome, exactly, by handle, expiry, TTL and answer |
| HandoffRegistry.ResumedLeaves | handoff/handoff_registry.go:306-361 | the flow goes with a dead handle or a finished answer and stays otherwise |
| HandoffRegistry.PolledAgain | handoff/handoff_registry.go:336-361 | after an unfinished answer a second resume runs the same continuation, after a finished one it finds none |
| HandoffProtocol.StepsMakeTheHandler | handoff/handoff_registry.go:289-342 | the four separately locked steps of a resume call make up that handler |
| HandoffProtocol.ResumeRuns | handoff/handoff_registry.go:304-328 | in every interleaving a call runs a continuation only if its handle was live at the store read, and exactly if the registry then holds an entry within its TTL; it gets that continuation and the stored payload |
| HandoffOutcomes.EntryExact | handoff/handoff_registry.go:94-161 | an entry is that of the latest Begin of its handle, with that instant, and is there if and only if it has not left since |
| HandoffOutcomes.RegistryReadExact | handoff/handoff_registry.go:142-153 | a resume call runs a continuation if and only if the latest Begin of the handle registered it no longer than the TTL ago and it has not left since |
| HandoffOutcomes.StoreReadExact | handoff/handoff_registry.go:302-321 | how a resume call goes on after its store read, with the reason of a refusal |
| HandoffOutcomes.LeavesExact | handoff/handoff_registry.go:94-194 | which steps take a flow out: End exactly its handle, a prune exactly what is past its TTL, a Begin what is past its TTL or, at the cap, one more |
| HandoffOutcomes.UnfinishedNeverEnds | handoff/handoff_registry.go:328-361 | after "needs_human", an empty or missing status, or a failure, the call never takes the lock for End, and returns that answer |
| HandoffOutcomes.FinishedEnds | handoff/handoff_registry.go:336-361 | after any other status its next step is End, which takes the handle out and returns the answer |
| HandoffOutcomes.UnfinishedRunsAgain | handoff/handoff_registry.go:336-361 | a flow that is not finished runs again at the next resume within the TTL, unless somebody else begins or removes it |
| HandoffProtocol.EndTakesAnother | handoff/handoff_registry.go:303-340 | in every interleaving the End of a call removes a continuation other than the one it ran, or than the one with its dead handle, if and only if the handle was begun again between the read and the End |
| HandoffProtocol.FreshFlowIsLost | handoff/handoff_registry.go:303-340 | a run in which a freshly begun flow is removed that way and its live handle cannot be resumed |
| HandoffProtocol.EndedNeverRuns | handoff/handoff_registry.go:335-340 | a continuation that an End removed is found by no later registry read of any call |
| HandoffProtocol.NeverRegisteredAgain | handoff/handoff_registry.go:94-161 | a continuation that has left the registry never comes back |
| Base64.RoundTrip | ieo/file_data_uri.go:87 | decoding inverts encoding, in both alphabets |
| Base64.Base64DecodedLen | ieo/file_data_uri.go:100-126 | the two counting loops compute the specified length |
| Base64.DecodedLenIsExact | ieo/file_data_uri.go:100-126 | for every text that decodes, under any line breaks, the derived length is the decoded length |
| Base64.ChunksAgainstDecodedLen | ieo/file_data_uri.go:76-126 | decoded chunk by chunk, a text never gives more bytes than the derived length, and gives as many if and only if it decodes as a whole |
| Base64.Alphabet | ieo/file_data_uri.go:87 | the alphabets of sections 4 and 5 of RFC 4648 |
| Base64.EncodeThree | ieo/file_data_uri.go:87 | three bytes are four symbols with the same bits |
| Base64.EncodeTwo | ieo/file_data_uri.go:87 | two bytes at the end, with zero bits and, in the standard form, one padding character |
| Base64.EncodeOne | ieo/file_data_uri.go:87 | one byte at the end, with two |
| Base64.DecodesExactly | ieo/file_data_uri.go:87 | which texts decode, in both alphabets: symbols in whole quanta, with padding at the end only |
| Base64.StripExact | ieo/file_data_uri.go:94-99 | line breaks are skipped wherever they stand, and nothing else is |
| Base64.DecodedLenText | ieo/file_data_uri.go:100-126 | the derived length by the characters of the text |
| DataUri.ParseFileDataURI | ieo/file_data_uri.go:25-93 | the parser equals its specification on every string and cap, error cases included |
| DataUriText.NotADataUri | ieo/file_data_uri.go:26-32 | refused for its scheme or for want of a comma, exactly |
| DataUriText.ParseExact | ieo/file_data_uri.go:33-86 | for every other URI, each refusal exactly, by its parts, payload and cap, and the name, MIME type and size read off the accepted ones |
| DataUriText.AcceptedIsBase64 | ieo/file_data_uri.go:54-58 | what is accepted has the scheme, a comma and a base64 part |
| DataUriText.TrimExact | ieo/file_data_uri.go:41 | what trimming leaves of a part |
| DataUriText.JoinSplit | ieo/file_data_uri.go:40 | splitting loses nothing: the parts hold no separator and join to the text |
| DataUriText.UnescapeExact | ieo/file_data_uri.go:46 | which names unescape, and to what: rows of plus signs, percent escapes and plain characters |
| DataUriText.ParseIntExact | ieo/file_data_uri.go:48-50 | which size texts are 64-bit numbers, and which numbers |
| DataUri.PartsReadBack | ieo/file_data_uri.go:42-57 | reading the parts of the wire form gives back the name, the MIME part and the size |
| DataUri.AcceptedMeansExact | ieo/file_data_uri.go:25-93 | however the decoder cuts its input, draining any accepted URI is clean exactly when its payload decodes, and then gives exactly the reported number of bytes, within the cap |
| DataUri.InnerPaddingStreams | ieo/file_data_uri.go:87-92 | a padded text followed by another streams cleanly when cut at the padding, though the whole does not decode |
| DataUri.UnescapeEscape | ieo/file_data_uri.go:46-47 | every byte-string name survives percent encoding |
| DataUri.WireForm | ieo/file_data_uri_test.go:12-15 | the modelled wire form is the one the source's tests encode |
| DataUri.WrappedRoundTrip | ieo/file_data_uri.go:25-93 | the round trip under any line wrapping, with its exact acceptance condition |
| DataUri.FileRoundTrip | ieo/file_data_uri.go:25-93 | parse and drain give back bytes, name and size if and only if the file fits the cap, the cap is below 2^62, and it is not one byte under cap 1 |
| BoundedReader.BoundedDataReader.Read | ieo/file_data_uri.go:139-180 | one read of the data-URI reader |
| BoundedReader.LimitedReadCloser.Read | ieo/file_relay.go:235-250 | one read of the relay reader |
| BoundedReader.DataDrainOk | ieo/file_data_uri.go:139-180 | a drain of a cleanly ending source ends with the one right verdict and all the bytes allowed |
| BoundedReader.DataReaderExact | ieo/file_data_uri.go:139-180 | for every chunking and every buffer: a prefix within the cap, clean EOF if and only if the payload fits and a positive declared size equals it, and which error otherwise |
| BoundedReader.VerdictIsFinal | ieo/file_data_uri.go:140-170 | after its verdict the reader reports the end of the stream for ever |
| BoundedReader.LimitedReaderExact | ieo/file_relay.go:235-250 | the same for the relay reader, against its cap |
| RequestState.LastIndexByte | session/request_state.go:112-119 | the last occurrence, or -1 when there is none |
| RequestState.EnvelopeRoundTrip | session/request_state.go:47-53 | reading back the printed envelope gives the payload and the expiry |
| RequestState.VerifyExact | session/request_state.go:66-96 | a string is accepted if and only if it is "v1.", a body, a dot and a tag without dots that decodes to the MAC of "v1." and the body, with a live non-empty payload |
| RequestState.MintedSplitUnique | session/request_state.go:57-59 | a minted string is "v1.", its body and the MAC of both, and splits in no other way |
| RequestState.MintVerify | session/request_state.go:46-96 | a minted string verifies under a key if and only if the MACs of "v1." and the body agree, the payload is non-empty and the second in which thirty-five minutes are over has not passed; then it returns the payload |
| RequestState.TagBindsBody | session/request_state.go:98-105 | without collisions the tag of an accepted string fits no other body and no other version |
| RequestState.MintedTagBinds | session/request_state.go:66-105 | without collisions a minted tag is accepted with no body but its own |
| RequestState.EscapeIsSafe | session/request_state.go:47-53 | the printed payload holds no control character, angle bracket, ampersand or line separator, and plain characters stand for themselves |
| RequestState.NextUnitExact | session/request_state.go:85-90 | how a JSON string is read, character by character |
| RequestState.OutlivesSession | session/request_state.go:36-41 | a minted state verifies for as long as the session it carries can live |
| Utf8.RoundTrip | session/request_state.go:47-53 | decoding inverts encoding on every Unicode string |
| Utf8.EncodeExact | session/request_state.go:47-53 | the table of section 3 of RFC 3629 |
| Utf8.DecodeExact | session/request_state.go:85-90 | exactly the encodings decode |

## Left out

- Task objects are records keyed by handle rather than heap objects, so aliasing of `*UploadTask` is not modelled; `cloneTask` is a copy of a value.
- The run context and its cancel function: a context error is one of the executor's arbitrary results, and a cancelled context has no other effect.
- The watchdog timer's length: an armed watchdog may fire at any time or never.
- Liveness: nothing says that a worker, a cleanup or a reaper eventually runs.
- Clock reads inside one locked region are one instant, except Resolve's and the reaper's, which are kept apart; duration saturation is ignored.
- UploadHttp: URL building, CORS, method and origin checks, credentials, page rendering and the loopback listener.
- PutPipeline: only the order of claim, submit, copy, Cancel and close is kept of the handler; the token claim is in `UploadHttp`, and its hand-over to Fulfill or Start in `UploadEndpoint`. An executor that returns success without reading to EOF is recorded as completed even if the transfer fails later, as in the code.
- HandoffEndpoint: HTTP routing of `handle`, the reaper's goroutine, `Range` and `Count`.
- HandoffProtocol: cleanups of one call may run in any order relative to each other; the continuation is an arbitrary answer, and argument decoding and result texts are not modelled.
- HandoffRegistry.Resume: states the handler without interference; the interleavings are in `HandoffProtocol`.
- UploadHttp.EndpointSkew: takes the mint instant as a parameter; `UploadEndpoint.GoneExact` and `UploadEndpoint.ClaimThenRefused` tie it to runs.
- AsyncStore: status and payload are opaque; random ids are fresh.
- DataUri: `TrimSpace` trims the ASCII spaces only, and a MIME part is restricted to characters that a part can hold.
- Base64: a streaming decoder may cut its input into whole quanta in any way; of input on which a chunk fails, it yields some bytes and then an error.
- RequestState: HMAC is any deterministic function of key and prefixed body.
- RequestState.VerifyExact: of correctly signed bodies it covers the compact JSON that the marshaller prints (with every simple and basic-plane escape), not reordered fields, white space, surrogate pairs or malformed UTF-8. Bodies in those forms are never minted.
- `transfer/download_http.go`, `session/session.go`, `sdk`, `apps` and the network code of `ieo/file_relay.go`: library plumbing, or easier copies of what is here.
