# A model of the task scheduler, its approval gate and six supporting algorithms

This project models, in Dafny 4.11, the parts of the repository where several
actors share state or where a text or number must come back unchanged, and
proves what they keep. `dafny verify dfyconfig.toml` checks all of it.

## What is modelled

**The task lifecycle and its approval gate** (`TaskLifecycle`, `LifecycleWrites`,
`PlanIntegrity`, `ApprovalSafety`, `ApprovalDiscipline`, `ApprovalPerPlan`,
`LifecycleCounts`, `OneWayDoors`, `DecisionWait`, `SlotAllocator`). A step
relation over task rows, any number of workers with stale snapshots, the decision
store, operators, the `OWD_RESOLVED` listener, sweepers and crashes. What each
step writes is also proved from the side of what is written (`LifecycleWrites`).
Each UPDATE is one atomic step with the WHERE
clause the source gives it, also where that is only the row's id. Parking is
three separate writes, the second and third of which may fail. Events may be
delivered any number of times and in any order; two operators may decide the
same record. The loops of `elevateOutboundOneWayDoors`, `claimBatch` and
`waitForDecision` are methods proved against specifications.

**SSE fan-out** (`SseRegistry`, `SseFanout`). The registry is a class whose
derived counters are proved to agree with the connection table. The fan-out is a
step relation over replicas, interleaved subscriber inits and a lossy,
reordering Redis.

**Algorithms.** `SqlText` (comment stripper, parenthesis scan, comma split),
`Base64Url` and `TokenCrypto` over `DotSplit`, `Money`, `ChatHistory`,
`Sessions` (the online gap rule and the offline walk), `CostGate` (spend cache,
hourly warning, weekly alert), `CronDispatch`.

## Where the code falls short of its documentation

The model follows the code. Each point names the lemma or contract that shows it;
where a promise holds under a condition only, that condition is exact (if and only
if) unless "Left out" says otherwise.

- Approval safety is not unconditional. The 'running' write after a claim
  (apps/api/src/agent-loop.ts:833), the one after the blocking wait
  (apps/api/src/agent-loop.ts:1152) and `requeueForRetry`
  (packages/queue/src/drizzle-task-repository.ts:146-158) do not look at the
  status they overwrite: `RacedRequeueIsUnsafe`, `LostLeaseIsUnsafe`. The first and
  the last are harmless, in every later run that keeps the status discipline,
  exactly when the row has no attempt left, its task has an approval, or no plan
  with doors is pending on it (`RequeueExact`, `ThrowExact`, `StartExact`,
  `MayGoLiveIff`); on a row no worker holds, also when the plan it was parked with
  cannot be resumed any more (`AbandonedRequeueExact`). Two disciplines, each
  checkable before the write, make every run safe (`DisciplinedRunsAreSafe`).
- One park can be consumed by two decisions: the write after the blocking wait has
  no status guard, so a rejection delivered by the listener and a second
  operator's approval both take effect, and the rejected plan runs
  (`ConflictingDecisionsExecute`); one approval can also both requeue the task and
  let its waiting worker through (`OneApprovalUsedTwice`). It happens exactly when
  a polled approval finds its row no longer parked (`ParkConsumedOnceIff`).
- The listener does not compare the event's record with the row's, and the event
  bus hears its own publishes, so an event can approve a later plan of the same
  task (`RepeatedEventIsUnsafe`): harmless exactly when an operator approved the
  plan the row is parked with (`DeliverExact`). With the comparison every executed
  plan is approved (`EveryPlanIsApproved`).
- The header of one-way-door.ts gives a decision key one hour; the code gives it
  25 hours pending and 10 minutes decided. A workspace timeout above 24 hours can
  outlive the key (`PendingLastsIff`), and a decision ten minutes old when the wait
  begins is answered 'timeout' (`WaitForDecision`).
- `handleExpiredSlot` describes a one-hour backoff after the third failure; the
  third failure blocks, so a requeued row waits two or five minutes, never an hour
  (`HandleExpiredSlot`).
- `findDdlColumns` cuts one character off a body that is never closed (`ScanBody`).
- `split-sessions.ts` promises identical ids when run again; it mints new ones for
  every row (`RerunChangesEveryId`). What it keeps is the partition
  (`RerunKeepsPartition`). It reads
  SESSION_TIMEOUT_MINUTES with `Number`, the online rule with `parseInt`, so a
  fractional setting makes the two disagree: the timeouts are separate parameters
  of `OnlineEqualsBatch`.
- `dispatchDueJobs` is called safe to run concurrently; the row locks end with
  the SELECT, so overlapping ticks fire a job twice
  (`LostOrOverlappingTicksFireTwice`). A one-shot job that has succeeded can succeed
  again exactly when its write was lost or another tick had read it
  (`MayFireAgainIff`).
- A cost recorded before the month's first load creates the counter at zero and
  leaves out what the database held; the counter is complete exactly when a load
  that read that total created it, or there was none (`CountsEverything`).
- The weekly alert is said to fire at the crossing; the row a week's first task
  inserts is never compared (`AlertsAtCrossing`).
- `getOrHydrate` says messages already there are appended; those that arrive
  during the read are, exactly when the chat had a list before
  (`HydrateDuringAdds`).
- `toMicro` promises to throw on unparsable strings; it ignores everything from a
  second dot on (`TruncatesValue`, `AcceptsOnlyDecimals`).

## Assumptions

- SHA-256 of a plan is injective. The cipher is ideal: what a key sealed, with its
  nonce, opens under that key only; key ids are non-empty and free of dots.
- One call of an allocator, registry, cost-gate or history operation is atomic,
  except where a module says otherwise (`BeginHydrate` and `FinishHydrate`, cron
  ticks, parking, `resolveDecision`). There is a single claimer in
  `SlotAllocator`; the lifecycle has any number.
- Clocks are monotone. Fresh tasks carry no marker and no plan. The planner's
  result, step outcomes, database answers and timers are arbitrary parameters.
- A ulid is drawn from a supply that never repeats. The cron parser returns an
  occurrence strictly after the time it is given.
- Amounts in `CostGate` are exact reals.
- The task table's primary key is the task id. User and workspace ids contain no colon, so the registry's joined keys
  (apps/api/src/sse-emitter.ts:50-72) stay apart; they are pairs in `SseRegistry`.

## Model

| member | source | states |
|---|---|---|
| `PlanIntegrity.ResumeIntegrity` | apps/api/src/agent-loop.ts:849-860 | Over every run, raced or not: a plan executed on resume is the plan of the task's latest park before its claim, also when the `tasks.plan` write was lost; one let through by the blocking wait is the plan whose record was approved; one that passed the gate unasked has no doors, and the workspace policy was off or a standing approval answered |
| `PlanIntegrity.OutboundPlansHaveDoors` | apps/api/src/agent-loop.ts:962-1029 | Over every run: an executed plan that uses an outbound tool names it in a door, and met the gate |
| `PlanIntegrity.TrackedStep` | apps/api/src/agent-loop.ts:833-1236 | The invariant behind both is kept by every step |
| `LifecycleWrites.GateExact` | apps/api/src/agent-loop.ts:983-1086 | A plan passes unasked if and only if it has no doors and the policy is off or a standing approval answers; otherwise a new pending record asks for that plan of that task |
| `LifecycleWrites.StatusExact` | apps/api/src/agent-loop.ts:833-1236 | For each status, exactly which steps take a row that has another one to it, with the attempts and the old status they depend on |
| `LifecycleWrites.ColumnsExact` | apps/api/src/agent-loop.ts:849-876 | Exactly which steps write the attempts, the stored plan, the marker and the approval id, and what |
| `LifecycleWrites.WorkerExact` | apps/api/src/agent-loop.ts:833-1236 | A worker leaves at exactly the steps that end its run, goes one step on from one fixed place, or is left alone |
| `LifecycleWrites.RecordsExact` | packages/agent/src/one-way-door.ts:392-413 | A record is decided only after an operator read it as pending, publishes one event per decision, and is lost only when its key expires |
| `LifecycleWrites.CancelExact` | packages/queue/src/drizzle-task-repository.ts:78-92 | Every task but a complete, failed or cancelled one can be cancelled |
| `ApprovalSafety.ApprovalSafety` | apps/api/src/agent-loop.ts:849-1236 | Over every interleaving of workers, operators, listener, sweepers and crashes whose unconditional status writes meet `Fenced`: a plan with one-way doors reaches `executeTask` only after an operator approved a record `requestApproval` made for that task (for that plan, when tied). Standing approvals, rejections, timeouts and expired records never suffice |
| `ApprovalSafety.InvStep` | apps/api/src/agent-loop.ts:833-1236 | The invariant behind it is kept by every step that meets `Fenced` |
| `ApprovalSafety.RowsStep` | apps/api/src/agent-loop.ts:1981-2017 | A row that is queued, or can be again without an operator, carries or is about to receive only markers of answered plans |
| `ApprovalSafety.OnlyFiveRevive` | apps/api/src/agent-loop.ts:833-1236 | Only five writes can make a row reclaimable that was not: the two unguarded 'running' writes and the two requeues while attempts are left, and the listener's approved resume of a parked row |
| `ApprovalDiscipline.ApprovalWritesAreFenced` | apps/api/src/agent-loop.ts:1986-1997 | The listener's compare-and-set and the blocking wait always meet `Fenced`: both act on a decision for the same task |
| `ApprovalDiscipline.DisciplinedRunsAreSafe` | apps/api/src/agent-loop.ts:833-1236 | Every run from the empty system is safe if the three unguarded writes hit live rows only, or if slots expire and sweepers requeue only tasks whose worker is gone |
| `ApprovalDiscipline.MayGoLiveIff` | apps/api/src/agent-loop.ts:1131-1146 | The fence in words: the task has an approval, or no plan with doors is on the row or about to be written to it by a parking worker |
| `ApprovalDiscipline.RequeueExact` | packages/queue/src/drizzle-task-repository.ts:146-158 | Where the invariant holds: requeueing any row, parked or being parked, is safe in every later guarded run if and only if it meets the fence or has no attempt left |
| `ApprovalDiscipline.ThrowExact` | apps/api/src/agent-loop.ts:1645-1647 | The same if-and-only-if for the retry of a worker that threw a transient error |
| `ApprovalDiscipline.AbandonedRequeueExact` | packages/queue/src/drizzle-task-repository.ts:146-158 | On a row no worker holds, with no further hypothesis: safe if and only if the fence is met, or the parked plan is neither stored nor can be stored again |
| `ApprovalDiscipline.StartExact` | apps/api/src/agent-loop.ts:833-835 | The same if-and-only-if for the unguarded 'running' write after a claim, whatever the attempts |
| `ApprovalDiscipline.ArmedQueueExecutes` | apps/api/src/agent-loop.ts:849-876 | A queued row with a marker and its plan can always be claimed, resumed and executed without anybody being asked |
| `ApprovalDiscipline.RacedRequeueIsUnsafe` | packages/queue/src/index.ts:100-120 | A concrete run in which a late `requeueForRetry` executes a gated plan that nobody decided |
| `ApprovalDiscipline.LostLeaseIsUnsafe` | apps/api/src/parallel-executor.ts:42-82 | A concrete run in which a worker outlives its slot and a gated plan is executed undecided |
| `ApprovalPerPlan.EveryPlanIsApproved` | apps/api/src/agent-loop.ts:1981-2017 | With one worker per task at a time and the event's record compared with the row's, every executed plan with doors had its own record approved |
| `ApprovalPerPlan.OrderStep` | apps/api/src/agent-loop.ts:1131-1146 | The ordering invariant behind it is kept by every orderly step |
| `ApprovalPerPlan.RepeatedEventIsUnsafe` | packages/agent/src/plugins/event-bus.ts:99-147 | Without that comparison an event delivered twice (the bus hears its own publishes) executes a second plan nobody decided |
| `ApprovalPerPlan.DeliverExact` | apps/api/src/agent-loop.ts:1981-2017 | An approved event that nobody compared resumes a parked row harmlessly, in every later orderly run, if and only if an operator approved the plan the row is parked with |
| `LifecycleCounts.RunConserves` | apps/api/src/parallel-executor.ts:136-147 | Over any run: claims plus still queued never exceed queueings; consumed decisions, polled approvals included, plus still parked never exceed parks plus polls that came late |
| `LifecycleCounts.ParkConsumedOnceIff` | apps/api/src/agent-loop.ts:1148-1152 | In every stretch of a run decisions are covered by parks if and only if every polled approval finds its row still 'awaiting_approval' |
| `LifecycleCounts.ConflictingDecisionsExecute` | apps/api/src/agent-loop.ts:1148-1152 | For every plan with doors, a run with one park, a rejection that fails the row, and a second operator's approval that executes it |
| `LifecycleCounts.OneApprovalUsedTwice` | apps/api/src/agent-loop.ts:1986-1997 | For every such plan, a run in which one approval both requeues the task and lets its waiting worker execute |
| `LifecycleCounts.ExpiryRequeuesBounded` | apps/api/src/parallel-executor.ts:50-72 | Over any run, slot expiry requeues a task at most as often as its attempts leave room for |
| `LifecycleCounts.ExpiryIsOneStep` | apps/api/src/parallel-executor.ts:42-82 | The allocator's expiry is the lifecycle's expiry step on a running row, and nothing on any other |
| `LifecycleCounts.LifecycleConservation` | apps/api/src/agent-loop.ts:1986-2017 | From the empty system: each queueing goes to at most one claimer, decisions exceed parks by late polls only however events repeat, at most two expiry requeues |
| `OneWayDoors.ElevateOutboundOneWayDoors` | packages/agent/src/one-way-door.ts:131-160 | The nested loops add exactly the tools some step requires, that contain a verb fragment, and that stand in no door's description as a whole word, each once; after the old doors comes one door for each, written out |
| `OneWayDoors.ReferenceIsWholeWord` | packages/agent/src/one-way-door.ts:119-129 | A description names a tool if and only if it is x, the tool, y, and neither neighbour is a letter, digit or underscore |
| `OneWayDoors.AddedInOrder` | packages/agent/src/one-way-door.ts:137-152 | Wherever a plan is cut, the tools added for the part before come first |
| `OneWayDoors.VerbsAreOutbound` | packages/agent/src/one-way-door.ts:80-108 | Any provider's action with one of the twenty verbs is outbound |
| `OneWayDoors.MissingToolsExact` | packages/agent/src/one-way-door.ts:137-146 | Exactly the outbound tools no door names on identifier boundaries are added, each once |
| `OneWayDoors.ElevationDoorNamesTool` | packages/agent/src/one-way-door.ts:123-149 | A synthesized description names its own tool on identifier boundaries |
| `OneWayDoors.ElevationCovers` | packages/agent/src/one-way-door.ts:131-160 | Afterwards every outbound tool of every step is named by a door; old doors stay as a prefix |
| `OneWayDoors.ElevationFixpoint` | packages/agent/src/one-way-door.ts:146-159 | Elevation changes a plan if and only if some outbound tool is unnamed; a second elevation adds nothing |
| `OneWayDoors.OutboundPlanAlwaysGated` | apps/api/src/agent-loop.ts:962-1029 | A plan using an outbound tool is gated at risk 'high' under any policy, and no standing approval answers for it |
| `DecisionWait.PollForDeliveryAck` | packages/agent/src/one-way-door.ts:295-304 | Reports an acknowledgement only if one was there in time; ends within 70 s plus timer lag, and within 10 s of the acknowledgement |
| `DecisionWait.WaitForDecision` | packages/agent/src/one-way-door.ts:331-390 | Never invents a decision; a decision made one maximal gap before the deadline, before the wait or during it, is returned as itself unless its 600 s record life could end before the first look; one 600 s old at the start is answered 'timeout'; a pending record never times out early; the record is not read again before its delivery is acknowledged or a minute has passed, and answers come within one gap |
| `DecisionWait.PendingOutlivesWait` | packages/agent/src/one-way-door.ts:162-167 | With a timeout of at most 24 h, begun within an hour of creation, a pending record outlives the wait |
| `DecisionWait.PendingLastsIff` | packages/agent/src/one-way-door.ts:331-390 | For any timeout: the record lasts to the deadline if and only if the wait ends within 25 h of creation |
| `SlotAllocator.GreedyIsOptimal` | apps/api/src/parallel-executor.ts:125-156 | When every compare-and-set succeeds, no conflict-free choice that fits the free slots claims more tasks |
| `SlotAllocator.GreedyIsConflictFree` | apps/api/src/parallel-executor.ts:129-153 | What is claimed is itself such a choice |
| `SlotAllocator.GreedyRespectsOrder` | apps/api/src/parallel-executor.ts:129-153 | If a skipped task precedes a claimed one, its resource was held or claimed before it |
| `SlotAllocator.OnlyConflictsAreSkipped` | apps/api/src/parallel-executor.ts:110-156 | The same over the whole table and the 20-row ranked window |
| `SlotAllocator.SameKeyIsConflict` | apps/api/src/parallel-executor.ts:21-27 | Two tasks share a resource if and only if both are deployments of one app, ops tasks on one target (an absent name is "unknown") or other tasks on one non-empty repository |
| `SlotAllocator.WindowOrder` | apps/api/src/parallel-executor.ts:116-123 | Automation tasks of the three user channels first, then priority, then age; due queued tasks only, at most 20 |
| `SlotAllocator.ClaimKeepsInvariant` | apps/api/src/parallel-executor.ts:145-151 | A claim on a free resource keeps the cap and resource exclusion |
| `SlotAllocator.SurvivesIffBeatsKeepUp` | apps/api/src/parallel-executor.ts:169-176 | Over any history of heartbeats and scans, a slot is kept if and only if every scan comes within 90 s of the beat before it |
| `SlotAllocator.ParallelExecutor.HandleExpiredSlot` | apps/api/src/parallel-executor.ts:42-82 | Only a running row changes: one more attempt, then 'blocked' from the third on, else 'queued' after 2 minutes the first time and 5 the second |
| `SlotAllocator.ParallelExecutor.EvictExpired` | apps/api/src/parallel-executor.ts:86-104 | Exactly the slots that have not expired remain and are listed; exactly the running rows of expired slots change |
| `SlotAllocator.ParallelExecutor.ClaimBatch` | apps/api/src/parallel-executor.ts:84-157 | Slots, rows and result are those of the greedy choice after expiry, within the configured slots. On task fields: no two slots are held by conflicting tasks, each task returned was queued and has a slot for 90 s, and a queued task is passed over only when no slot is left or when it conflicts with one that has a slot, so never if it has no repository |
| `SlotAllocator.ParallelExecutor.ExtendSlot` | apps/api/src/parallel-executor.ts:169-181 | A present slot lives another 90 s, a corrupt one is dropped, a missing one stays missing; the invariant holds |
| `SlotAllocator.ParallelExecutor.ReleaseSlot` | apps/api/src/parallel-executor.ts:159-162 | Removes that slot only; the invariant holds |
| `SseRegistry.OwnOneMore` | apps/api/src/sse-emitter.ts:50-73 | Counters still equal connections owned after a registration |
| `SseRegistry.OwnOneLess` | apps/api/src/sse-emitter.ts:81-92 | and after an unregistration, with no counter left at zero |
| `SseRegistry.SseEmitter.RegisterClient` | apps/api/src/sse-emitter.ts:40-76 | Accepts exactly below 50 per workspace and 5 per user; the new connection, its owner and one more on its counter are all that changes; counters stay in agreement |
| `SseRegistry.SseEmitter.UnregisterClient` | apps/api/src/sse-emitter.ts:78-93 | Removes that connection, its ownership and one from its counter, and nothing when repeated; agreement is kept |
| `SseRegistry.SseEmitter.DeliverLocal` | apps/api/src/sse-emitter.ts:107-123 | One frame to each live connection, exactly the failing sockets unregistered, agreement kept |
| `SseRegistry.SseEmitter.Sweep` | apps/api/src/sse-emitter.ts:253-261 | Drops empty workspaces only; the stale-counter sweep never finds one |
| `SseFanout.AtMostOnce` | apps/api/src/sse-emitter.ts:126-158 | Over every run: no connection gets an emission twice, internal handlers run once and only at the origin, at most one subscriber per replica |
| `SseFanout.ExactlyOnce` | apps/api/src/sse-emitter.ts:126-236 | For any run cut at an emission: a connection open then and still open has it once if it is of that workspace and at the origin, or at a replica that had a subscriber at a successful publish and whose copy arrived, and otherwise not; one opened later has it at most once |
| `SseFanout.EmitExact` | apps/api/src/sse-emitter.ts:126-158 | A successful publish sends one copy for every open subscription of every replica, a failed one none |
| `SseFanout.ConnectionsExact` | apps/api/src/sse-emitter.ts:107-123 | A connection is lost to a close and to a failed write of its own workspace only, and opened by a registration only |
| `SseFanout.SubscriptionsExact` | apps/api/src/sse-emitter.ts:186-236 | An init is begun exactly while there is no subscriber and none is being made; a good end adds one |
| `SseFanout.MessagesStep` | apps/api/src/sse-emitter.ts:146-158 | Each published copy is in flight, handled or lost, exactly once |
| `SseFanout.InvStep` | apps/api/src/sse-emitter.ts:107-236 | The invariant behind both is kept by every step, with inits interleaved |
| `SqlText.StripSqlComments` | packages/db/scripts/check-drift.ts:104-139 | The index loop computes the token-wise stripping |
| `SqlText.LineCommentGoes` | packages/db/scripts/check-drift.ts:107-113 | After text that begins nothing, a line comment goes up to its newline, or with all the rest |
| `SqlText.BlockCommentIsBlank` | packages/db/scripts/check-drift.ts:114-120 | A block comment becomes one blank, an unclosed one takes the rest |
| `SqlText.QuotedStays` | packages/db/scripts/check-drift.ts:121-127 | A quoted text is copied up to its next quote, an unclosed one goes with the rest |
| `SqlText.DollarStays` | packages/db/scripts/check-drift.ts:128-134 | A dollar-quoted text likewise |
| `SqlText.LoneMarkStays` | packages/db/scripts/check-drift.ts:135-137 | Any other character stays; with the four laws before, this fixes the result for every text |
| `SqlText.LexIsLossless` | packages/db/scripts/check-drift.ts:106-137 | Tokens cover the text in order without gaps |
| `SqlText.LexOfStripped` | packages/db/scripts/check-drift.ts:104-139 | The stripped text has the cleaned token sequence |
| `SqlText.StripKeepsBodies` | packages/db/scripts/check-drift.ts:99-139 | Stripping is idempotent, leaves no comment, and keeps every quoted and `$$` body unchanged and in order |
| `SqlText.ScanBody` | packages/db/scripts/check-drift.ts:180-187 | Returns the balanced body up to its closing parenthesis; an unclosed body loses its last character |
| `SqlText.ClosedOnce` | packages/db/scripts/check-drift.ts:180-187 | That closing parenthesis is unique, so the body is the shortest |
| `SqlText.BalancedByCount` | packages/db/scripts/check-drift.ts:180-187 | Balanced means as many opening as closing parentheses, and no prefix with more closing than opening ones |
| `SqlText.SplitTopLevel` | packages/db/scripts/check-drift.ts:188-196 | The parts rejoin to the body, have no depth-zero comma, and are cut at depth zero |
| `SqlText.SplitIsUnique` | packages/db/scripts/check-drift.ts:188-196 | There is only one such split |
| `SqlText.PartsAreBalanced` | packages/db/scripts/check-drift.ts:188-196 | Of a balanced body every part is balanced |
| `Base64Url.SextetsKeepBits` | apps/api/src/crypto.ts:58-60 | The sextets spell the bytes' bit string with zero bits added (section 4 of RFC 4648) |
| `Base64Url.RoundTrip` | apps/api/src/crypto.ts:58-65 | `fromB64url(b64url(b)) = b` for all byte strings (section 5 of RFC 4648) |
| `Base64Url.B64UrlAlphabet` | apps/api/src/crypto.ts:58-60 | Encoded text has URL-safe characters only: no padding, dot or colon |
| `Base64Url.WritesAlphabet` | apps/api/src/crypto.ts:58-60 | Each sextet is written as its character of table 2 of RFC 4648 |
| `Base64Url.BytesKeepBits` | apps/api/src/crypto.ts:62-65 | The bytes read are the sextets' bit string cut to whole bytes |
| `Base64Url.ReadsLeniently` | apps/api/src/crypto.ts:62-65 | Reading skips foreign characters and stops at '=' |
| `TokenCrypto.Decrypt` | apps/api/src/crypto.ts:95-133 | A v2 token is read with the first secret of its key id, a v1 token with the first secret of the ring that opens it, anything else is an error |
| `TokenCrypto.ParseOfEncrypted` | apps/api/src/crypto.ts:77-121 | The two grammars are unambiguous: a token parses to the version, key id and parts it was written with |
| `TokenCrypto.TokenText` | apps/api/src/crypto.ts:77-87 | The text of both formats, written out |
| `TokenCrypto.ReadsV1Text` | apps/api/src/crypto.ts:95-133 | With or without "enc:", a text that does not go on with "v2:" is a v1 token if and only if two dots cut it in three |
| `TokenCrypto.ReadsV2Text` | apps/api/src/crypto.ts:95-121 | After "v2:" it is a v2 token if and only if a non-empty key id and three parts follow, and never a v1 token |
| `TokenCrypto.OpensWritten` | apps/api/src/crypto.ts:89-93 | A written token opens under a secret exactly when it derives the same key |
| `TokenCrypto.RoundTripAcrossEnvs` | apps/api/src/crypto.ts:77-133 | Encrypting under one environment and decrypting under another succeeds if and only if `CanRead`, and then gives the plaintext |
| `TokenCrypto.CanReadIff` | apps/api/src/crypto.ts:39-46 | `CanRead` on the two secrets: the current one decides a v2 token with its key id, else the previous one; either may open a v1 token |
| `TokenCrypto.HolderReads` | apps/api/src/crypto.ts:39-46 | A ring still holding the writing secret under an unshadowed key id reads the token, in either mode |
| `TokenCrypto.SurvivesOneRotation` | apps/api/src/crypto.ts:38-46 | Tokens survive one rotation |
| `TokenCrypto.LostByTwoRotations` | apps/api/src/crypto.ts:38-46 | and not the second |
| `TokenCrypto.KeyIdCollisionHidesV2` | apps/api/src/crypto.ts:106-131 | A new secret with the old one's key id hides it from v2 tokens and not from v1 tokens |
| `Money.TruncatesValue` | packages/agent/src/money.ts:21-45 | A plain decimal, extra dot parts ignored, is read as its value in micro-USD truncated toward zero |
| `Money.AcceptsOnlyDecimals` | packages/agent/src/money.ts:28-45 | Nothing else is accepted: every accepted text is blank, "NaN", or a decimal followed by ignored dot parts |
| `Money.OtherReadings` | packages/agent/src/money.ts:28-32 | Blank and "NaN" are zero; any other text goes through `Number` if and only if it has an e or E |
| `Money.TrimCuts` | packages/agent/src/money.ts:28 | Trimming takes white space off both ends, and all of it |
| `Money.Monotone` | packages/agent/src/money.ts:21-45 | Reading keeps the order of decimal values |
| `Money.Exact` | packages/agent/src/money.ts:42-44 | Up to six places nothing is lost |
| `Money.ExactSumsAndOrder` | packages/agent/src/money.ts:47-53 | so sums and comparisons of micros are those of dollars, both ways |
| `Money.RoundTrip` | packages/agent/src/money.ts:56-64 | `toMicro(fmtMicroUsd(m, d))` is m for d >= 6, and m with its last 6 - d places cleared toward zero for d < 6 |
| `Money.PrintedShape` | packages/agent/src/money.ts:56-64 | A minus exactly below zero, dollars without leading zeros, a point and exactly the places asked for |
| `ChatHistory.DedupeRoles` | apps/api/src/channel-ai.ts:1311-1321 | The loop computes the role-merged sequence |
| `ChatHistory.MergedAlternates` | apps/api/src/channel-ai.ts:1310-1321 | Roles strictly alternate |
| `ChatHistory.NeighboursMerge` | apps/api/src/channel-ai.ts:1311-1321 | Two neighbours of one role count as one message with both texts on two lines, and the pictures of both (`add`) or of the first (`dedupeRoles`) |
| `ChatHistory.MergeTailFirst` | apps/api/src/channel-ai.ts:1311-1321 | `dedupeRoles(xs ++ dedupeRoles(ys)) = dedupeRoles(xs ++ ys)`, pictures included |
| `ChatHistory.BoundedIsRecent` | apps/api/src/channel-ai.ts:1390-1405 | After any run of `add` since `delete`, the stored list is the last 40 entries of the merged sequence of everything added |
| `ChatHistory.RowsInOrder` | apps/api/src/channel-ai.ts:1362-1378 | Rows read newest first come back oldest first, the user's text before the reply, absent texts left out |
| `ChatHistory.HydratedAlternates` | apps/api/src/channel-ai.ts:1379-1380 | Hydration keeps alternation and the cap |
| `ChatHistory.HydrationIsComplete` | apps/api/src/channel-ai.ts:1349-1383 | Hydration after adds equals merging and cutting everything, by role and content, if and only if the cut does not fall on a same-role seam |
| `ChatHistory.ChannelChatHistory.Add` | apps/api/src/channel-ai.ts:1390-1405 | One message merged or added, the oldest dropped, in the same list object |
| `ChatHistory.ChannelChatHistory.BeginHydrate` | apps/api/src/channel-ai.ts:1349-1361 | Marks the key and holds on to the list it has, or to an empty one the store does not know |
| `ChatHistory.ChannelChatHistory.FinishHydrate` | apps/api/src/channel-ai.ts:1362-1388 | Replaces the list by the rows, oldest first, and what the held list contains by now; leaves everything alone on failure |
| `ChatHistory.ChannelChatHistory.Delete` | apps/api/src/channel-ai.ts:1407-1410 | Forgets the list and the hydration |
| `ChatHistory.HydrateDuringAdds` | apps/api/src/channel-ai.ts:1349-1388 | Messages added while the database is read survive when the chat had a list, and are lost when it had none |
| `Sessions.WalkBucket` | packages/db/split-sessions.ts:100-122 | The loop mints a name at every long gap and records exactly the changed rows |
| `Sessions.OfflinePartition` | packages/db/split-sessions.ts:100-122 | Two rows share a session if and only if they share a bucket and no gap between them exceeds the timeout |
| `Sessions.RunsAreGapFree` | packages/db/split-sessions.ts:104-112 | Two rows of a bucket are of one run if and only if every gap from the one to the other is at most the timeout |
| `Sessions.Bucket` | packages/db/split-sessions.ts:84-92 | Every row is in its key's bucket, in table order; keys come in the order of their first rows |
| `Sessions.BucketInOrder` | packages/db/split-sessions.ts:84-92 | A bucket has the rows of its key, each once, in table order |
| `Sessions.ApplyInBatches` | packages/db/split-sessions.ts:125-141 | Batches of 500 apply the updates as one sequence |
| `Sessions.EveryRowUpdated` | packages/db/split-sessions.ts:117-141 | After the updates every row has the session the walk gave it |
| `Sessions.SplitSessions` | packages/db/split-sessions.ts:76-141 | The whole script leaves the table partitioned that way |
| `Sessions.RerunKeepsPartition` | packages/db/split-sessions.ts:16-18 | A second run may rename sessions and keeps who shares one |
| `Sessions.RerunChangesEveryId` | packages/db/split-sessions.ts:16-18 | and it does rename: with ids that never repeat, no row keeps its session |
| `Sessions.ConversationLog.ResolveChannelSessionId` | apps/api/src/conversation-log.ts:204-240 | Continues the session of a latest row that names one, within the timeout, else mints |
| `Sessions.OnlinePartition` | apps/api/src/conversation-log.ts:204-240 | Arrivals share a session if and only if no gap between them was too long, whichever of tied rows the query returns |
| `Sessions.ArrivalRunsAreGapFree` | apps/api/src/conversation-log.ts:204-240 | Arrivals are of one run if and only if none came longer than the timeout after the row before it |
| `Sessions.Arrive` | apps/api/src/conversation-log.ts:71-91 | One resolved and recorded message extends a run of arrivals |
| `Sessions.OnlineEqualsBatch` | apps/api/src/conversation-log.ts:204-240 | Arrival sessions and walked sessions group the rows alike if and only if both rules judge every gap alike |
| `Sessions.SameClockSamePartition` | apps/api/src/conversation-log.ts:204-240 | in particular when rows are stored at the time they are resolved and the timeouts are equal |
| `CostGate.DecisionByAmount` | packages/agent/src/cost-gate.ts:251-277 | All bands: 'ok' below 80% of a positive ceiling or when off, 'warn' below it, and from it on 'block' in hard mode, the second warning otherwise; severity is monotone in spend |
| `CostGate.Counters.Increase` | packages/agent/src/cost-gate.ts:235-242 | A counter grows by the cost; a missing one starts at zero |
| `CostGate.Process.LoadSpend` | packages/agent/src/cost-gate.ts:147-219 | Reads cache, counter or database and seeds the counter; every entry keeps equal to its counter |
| `CostGate.Process.RecordSpend` | packages/agent/src/cost-gate.ts:226-246 | Drops the entry and raises the counter; entries keep equal |
| `CostGate.CounterIsSeedPlusSum` | packages/agent/src/cost-gate.ts:147-246 | Over any run of calls the counter is its seed plus every positive cost, each once |
| `CostGate.CountsEverything` | packages/agent/src/cost-gate.ts:190-242 | It is the database total plus the costs if and only if the call that created it was a load that read that total, or a cost recorded when there was none |
| `CostGate.OldReadsAreMilder` | packages/agent/src/cost-gate.ts:251-277 | An earlier read, here or in another process, is never judged more severely than the counter now |
| `CostGate.ServeAll` | packages/agent/src/cost-gate.ts:147-246 | With atomic calls in one month the cached gate reads what an uncached one would, call for call |
| `CostGate.WarnAll` | packages/agent/src/cost-gate.ts:301-310 | Warnings are an hour apart, and a suppressed one has a warning in the hour before it |
| `CostGate.WeekState` | apps/api/src/agent-loop.ts:1330-1352 | The row holds the week's total and its first ceiling, and is alerted if and only if at least two tasks ran and the total reached 80% |
| `CostGate.AlertsAtCrossing` | apps/api/src/agent-loop.ts:1324-1363 | The alert fires exactly at the first task after the week's first whose total reaches 80% of the ceiling the week began with, whatever is set later |
| `CostGate.AlertsOnce` | apps/api/src/agent-loop.ts:1312-1363 | at most once a week |
| `CostGate.AlertsIfReached` | apps/api/src/agent-loop.ts:1312-1363 | and always, if the total is reached and a second task ran |
| `CronDispatch.CronTable.DispatchDueJobs` | apps/api/src/cron-dispatch.ts:61-236 | A tick changes exactly the jobs it took, column by column as `Dispatched` says |
| `CronDispatch.TakenAreDue` | apps/api/src/cron-dispatch.ts:69-75 | Each job taken is due and taken once |
| `CronDispatch.TakenInOrder` | apps/api/src/cron-dispatch.ts:69-75 | A tick takes the first 50, in scan order, of the enabled jobs whose time is absent or has come |
| `CronDispatch.AdvanceDispatches` | apps/api/src/cron-dispatch.ts:95-227 | The columns a dispatch writes from the job as read: only a one-shot job is disabled, by success or a third failure; a failed job keeps its time |
| `CronDispatch.RecurringStaysEnabled` | apps/api/src/cron-dispatch.ts:198-219 | Over any run, overlapping and lossy ones included, a recurring job is never disabled |
| `CronDispatch.OneShotFiresOnce` | apps/api/src/cron-dispatch.ts:194-227 | Over every run without overlapping ticks and lost writes: a one-shot job succeeds at most once, is tried at most three times, and stops exactly when done |
| `CronDispatch.MayFireAgainIff` | apps/api/src/cron-dispatch.ts:216-227 | After a success a one-shot job can succeed again if and only if the write was lost with the row enabled, or another tick has read the row |
| `CronDispatch.LostOrOverlappingTicksFireTwice` | apps/api/src/cron-dispatch.ts:65-80 | For every due one-shot job there are runs firing it twice: with a lost write, and with two overlapping ticks |
| `CronDispatch.OccurrenceBetweenFires` | apps/api/src/cron-dispatch.ts:216-227 | Between any two successes of a validly scheduled job lies an occurrence of its schedule |
| `CronDispatch.FailuresAreConsecutive` | apps/api/src/cron-dispatch.ts:198-208 | Over the same runs, for every job: the stored counter is the number of failures since the last success |
| `CronDispatch.InternalNeverFires` | apps/api/src/cron-dispatch.ts:95-111 | A job kept for an internal handler is never dispatched |

## Left out

- ApprovalSafety.ApprovalSafety: holds for runs whose unconditional writes meet `Fenced`, because the code does not keep it for all runs.
- ApprovalDiscipline.RequeueExact: the if-and-only-if is stated where, if plans with doors are pending, one of them is the stored plan or can be stored again; otherwise the fence is proved sufficient, and exact on rows no worker holds (`AbandonedRequeueExact`).
- ApprovalDiscipline.ThrowExact: as `RequeueExact`.
- ApprovalDiscipline.StartExact: as `RequeueExact`.
- ApprovalPerPlan.DeliverExact: a parked row whose stored plan is not the parked one, and cannot become it again, is not covered.
- CronDispatch.OneShotFiresOnce: holds without overlapping ticks and lost writes, because the code does not keep it otherwise (`LostOrOverlappingTicksFireTwice`, `MayFireAgainIff`).
- CostGate.ServeAll: one month, and a database that answers; across a month boundary a live entry of the old month is still read for up to five minutes, as the contract of `LoadSpend` says.
- SlotAllocator.ParallelExecutor.ExtendSlot: atomic here; with its read and write apart, or with several claimers, the slot cap does not hold.
- Sessions.RerunKeepsPartition: takes bucket keys as given; rows without a channel reference have theirs derived from the session id text, which the script rewrites.
- Sessions.SplitSessions: the sort inside a bucket, which finds the query's order already there.
- Terminal states are not absorbing in the code, and are not claimed to be. Clearing all slots at startup.
- Manual retry and requeue routes, and every other route, UI, CLI and sidecar.
- The planner, model calls, tools and the body of `executeTask`; credential and principle vocabularies; I/O, SQL text, transport, logging and analytics.
- A PARALLEL_MAX_SLOTS that is not a number (no cap at all); heartbeats that start late after a slow clone; leases of rows left in 'claimed'.
- `emit` to all workspaces, which is local only, and a Redis subscribe that fails after connecting.
- The regular expressions around the SQL scanner, and doubled or escaped quotes beyond what `indexOf` sees.
- AES-GCM, HMAC and SHA-256 internals; lone surrogates, which UTF-8 encoding would replace.
- Money given as a JavaScript number or with an exponent (routed through floating point), and negative `decimals`.
- The array `getOrHydrate` hands to its caller is the stored one in the code, a value here; pictures of messages merged by `dedupeRoles` are dropped, as in the code.
- Threaded chats, LIKE wildcards in channel ids, and embeddings in session resolution.
- Settings cache, token counts and Redis outages of the cost gate.
- The text and channel checks of reminder jobs: a dispatch succeeds or fails.
