# Kitematic: a verified model of its execution runtime

Kitematic admits agent intents, guards them with quotas, isolation and policy, runs each through five
awaited collaborators and leaves a checkpoint. This project models those parts in Dafny and proves what
they keep over whole runs, for every input and every interleaving. `dafny verify dfyconfig.toml` checks it.

## How the model is laid out

Each part has a description on values (what one call does to the state, as a function) and, where the source
updates objects in place, a class with the source's fields whose methods are proved to do exactly what the
description says. The main results are lemmas about any number of calls.

| files | part |
|---|---|
| `BucketArithmetic`, `GreedyOptimality`, `Quotas` | token buckets over any call sequence, compared with every other admission rule; the rate limiter and the quota manager as objects |
| `ExecutionStates`, `Tracing`, `Isolation`, `Metrics` | the runtime's states, tracer, tenant boundary and counters |
| `GuardedExecution`, `GuardedRun` | one admitted execution, cut at its awaits, and the straight-line body proved equal to it |
| `RuntimeSystem`, `RuntimeSafety`, `RuntimeHistory`, `AdmissionControl`, `AdmissionReplies`, `SlotLeaks`, `Runtime` | many executions on one event loop as a step system, its invariants over all interleavings, what shutdown does and where successful replies come from, the exact admission rule and what each refusal says, the calls that lose a slot, and the runtime object |
| `ImportCycles` | the three-colour search for import cycles |
| `Checkpoints`, `CheckpointJson`, `FileSystemStore`, `InMemoryStore`, `RepositoryRefinement`, `CheckpointRepository`, `CheckpointAdapter` | the two checkpoint repositories, crashes included, and the adapter over either |
| `PolicyTargets`, `ToolRouting` | dotted-name matching in policy targets and tool patterns, and routing |
| `PolicyCache`, `PolicyEvaluation`, `PolicyEngine` | policy decisions with and without the cache |
| `EventStreams`, `EventPublisher` | subscriber queues |
| `ExecutionLifecycle`, `LifecycleManager`, `LoopControl` | lifecycle histories, budgets and the orchestration loop |

Conventions. Amounts and times are real numbers. The clock, fresh ids, digests, what collaborators reply and
what the outside world does are arguments. One clock reading serves a call of the limiter and a stretch of
runtime code between two awaits. Exceptions are `Result` or `Option` values. An execution that waits for a
collaborator is a `Frame` in a map; resuming it is a separate step, so any interleaving is a list of events.
Admission contains no await and is one step; so is the stretch after each await, including the quota release.

Assumptions of the runtime results: execution ids are fresh, limits stay fixed while executions are in
flight, the runtime is the only caller of start and end, and an await returns or raises an ordinary exception.

## What the code does that its documentation does not say

The model follows the code. These points are stated and proved as they are.

- An isolation slot comes back only when an execution completes (`kernel/runtime.py:573-574`). The calls that
  lose one for ever are exactly the admissions that pass the limit check and are then turned away by the active
  set, the bucket or the shutdown, and the executions whose collaborator refuses or raises
  (`SlotLeaks.StepLoses`). The count is the executions in flight plus the steps that did so
  (`SlotLeaks.CountIsInFlightPlusLost`), and a tenant whose lost slots reach its limit is refused from then on
  (`RuntimeSafety.LockedOutForever`).
- The cache key joins its fields with `|`, so a decision can be served for another resource. A question is
  answered rightly after every history if and only if it names capabilities, or none of its agent, action and
  resource contains `|`, or it is refused before the cache (`PolicyEvaluation.TransparentIffClean`). A `|` in an
  agent or an action does no harm as long as no resource asked about contains one
  (`PolicyEvaluation.TransparentIffSafe`).
- `retry_after` divides by the refill rate. A call raises `ZeroDivisionError` out of `execute_intent` if and only
  if it reaches the rate check, one more token would break a window of the tenant's earlier checks, and the rate
  is zero (`AdmissionControl.ThrowsExactlyWhen`, with an input in `AdmissionControl.DryBucketThrows`). The
  answer is right if and only if the bucket can hold one token and, should it never refill, holds one
  (`BucketArithmetic.RetryAfterIsTight`).
- The bucket is optimal for a set of request sizes if and only if at most one of them fits a full bucket
  (`GreedyOptimality.OptimalIffOneFits`, rate positive); the quota manager asks for one token at a time.
- The adapter's version counter lives in memory and restarts at zero. A save becomes the latest checkpoint if and
  only if no stored version of its execution exceeds the counter (`CheckpointAdapter.SavedIsLatestIffCovered`),
  so the first save after a restart over earlier snapshots does not (`CheckpointAdapter.RestartHidesSave`).
- A wildcard action can select tools that the same text does not cover as a policy target, if and only if the
  prefix holds a `.*` of its own (`PolicyTargets.WildcardsAgreeIff`). `$` also lets a tool id end in a newline.
- A step that is paid after the time limit turns a successful reply into a failed loop result; the audit trail
  then says both that the loop completed and that it halted (`LoopControl.TrailContradictsItselfIff`).
- `resume_execution` starts an execution that was never started, and even a status question creates a machine
  (`ExecutionLifecycle.CallTargets`). No manager call ever reaches COMPLETED.
- The cache's constructor arguments have no effect: `set` uses 10 000 entries and 300 seconds. A policy's
  `condition` is stored and never evaluated. The POLICY_EVALUATION trace phase is never used.
- `get` treats a missing key in a checkpoint file as "no checkpoint", but an unknown trigger raises.

## Model

| member | source | states |
|---|---|---|
| BucketArithmetic.LevelIsLeastHeadroom | api/rest/quotas.py:56-79 | after any calls the level is exactly the least, over all earlier access times s, of max_tokens + rate × (now − s) − tokens granted since s |
| BucketArithmetic.EnvelopeInNumbers | api/rest/quotas.py:65-79 | the same in numbers: for each earlier access at s the level is at most max_tokens + rate × (now − s) − tokens granted since s, and for one of them it is just that |
| BucketArithmetic.GrantedIffEveryWindowFits | api/rest/quotas.py:71-79 | a request is granted exactly when every window bound still holds, for any clock, rate and amount |
| BucketArithmetic.WindowBound | api/rest/quotas.py:43-48 | in every window the grants stay within max_tokens plus what the rate supplies |
| GreedyOptimality.GreedyIsOptimal | api/rest/quotas.py:65-79 | no rule whose grants fit every window has granted more unit requests than the bucket, on any prefix of any arrivals |
| GreedyOptimality.GreedyServesOneSize | api/rest/quotas.py:65-79 | the same whenever all requests that fit a full bucket have one size, whatever oversize requests come between |
| GreedyOptimality.GreedyFits | api/rest/quotas.py:65-79 | the bucket's own answers fit every window, whatever the positive amounts, so it is one of those rules |
| GreedyOptimality.TwoSizesBeatGreedy | api/rest/quotas.py:71-79 | for any two sizes that fit, a list of requests and a fitting rule that grants more of them than the bucket (rate positive) |
| GreedyOptimality.OptimalIffOneFits | api/rest/quotas.py:65-79 | the bucket is optimal for requests with amounts from a set exactly when at most one of them fits a full bucket (rate positive) |
| BucketArithmetic.RefillsCompose | api/rest/quotas.py:65-69 | refilling at s and then at t is refilling at t |
| BucketArithmetic.RefusalsAreInvisible | api/rest/quotas.py:71-89 | retry_after calls and refused requests never change a later level |
| BucketArithmetic.UnitGrantTime | api/rest/quotas.py:81-89 | on an undisturbed bucket a unit request succeeds exactly from last refill + answer on, if the bucket can hold one token; there is no answer exactly for a rate of zero and a level below one |
| BucketArithmetic.RetryAfterIsTight | api/rest/quotas.py:81-89 | the answer is the exact earliest success after any further refused calls if and only if max_tokens is at least one and, at rate zero, so is the level; it divides by zero exactly at rate zero with less (rate not negative) |
| Quotas.TenantsAreIndependent | api/rest/quotas.py:43-63 | a tenant's bucket is the run of its own calls since its last reset, whatever other tenants did |
| Quotas.SameCallsSameAnswers | api/rest/quotas.py:43-63 | two histories in which a tenant made the same calls give it the same next answer |
| Quotas.TokenBucketRateLimiter.GetBucket | api/rest/quotas.py:56-63 | an existing bucket is returned untouched, a new tenant gets a full one |
| Quotas.TokenBucketRateLimiter.RefillBucket | api/rest/quotas.py:65-69 | the bucket gains the accrued tokens up to its cap and remembers the time |
| Quotas.TokenBucketRateLimiter.Consume | api/rest/quotas.py:71-79 | the answer and the whole new map of levels are those of one limiter step for that tenant |
| Quotas.TokenBucketRateLimiter.RetryAfter | api/rest/quotas.py:81-89 | the wait for the refilled level, none for the division by zero; only that tenant's bucket changes |
| Quotas.TokenBucketRateLimiter.Reset | api/rest/quotas.py:91-93 | the tenant's bucket is gone and no other is touched |
| Quotas.QuotaManager.Configure | api/rest/quotas.py:115-117 | only the tenant's limits change |
| Quotas.QuotaManager.CheckConcurrent | api/rest/quotas.py:123-128 | true exactly when the tenant's active set is smaller than its configured max_concurrent, or than five when not configured |
| Quotas.QuotaManager.StartExecution | api/rest/quotas.py:130-132 | the id joins the tenant's active set, nothing else changes |
| Quotas.QuotaManager.EndExecution | api/rest/quotas.py:134-138 | the id leaves the tenant's active set, nothing else changes |
| Quotas.QuotaManager.CheckAndConsumeRate | api/rest/quotas.py:144-146 | one token is asked of the tenant's bucket; active sets and limits stay |
| Quotas.QuotaManager.RetryAfter | api/rest/quotas.py:148-149 | the wait of the tenant's bucket; active sets and limits stay |
| Quotas.QuotaManager.Cleanup | api/rest/quotas.py:151-154 | the tenant's active set and bucket are gone, its limits and other tenants stay |
| ExecutionStates.LegalWalksAreShort | kernel/state.py:54-68 | a walk by valid transitions has five steps at most and stops at its first terminal state |
| ExecutionStates.TransitionsAre | kernel/state.py:54-63 | the table allows the next state of the normal order, HALTED from every state between CREATED and the end, FAILED from those before checkpointing, and nothing else |
| ExecutionStates.TransitionOutcomes | kernel/runtime.py:597-613 | a transition gives the target exactly when it is allowed; the safe one else gives HALTED where that is allowed, else the current state |
| Tracing.NoFailureIffAllSucceed | kernel/observability/tracing.py:165-176 | the failure count is zero exactly when every entry succeeded |
| Tracing.TotalsAdd | kernel/observability/tracing.py:158-165 | the total duration and the number of failures are sums over the entries |
| Tracing.ExecutionTracer.StartPhase | kernel/observability/tracing.py:94-104 | an open phase is ended as a success before the new one opens |
| Tracing.ExecutionTracer.EndPhase | kernel/observability/tracing.py:118-150 | the open phase becomes the last entry, with its start, its end and their difference in milliseconds; with none open it raises and changes nothing |
| Tracing.ExecutionTracer.GetSummary | kernel/observability/tracing.py:156-177 | the summary's status is failure exactly when some entry failed; totals, phases and counts are those of the entries |
| Tracing.ExecutionTracer.Clear | kernel/observability/tracing.py:179-184 | no entry and no open phase remain |
| Isolation.IsolationBoundary.RegisterTenant | kernel/isolation.py:125-129 | a valid tenant replaces any of its id, an invalid one raises and changes nothing |
| Isolation.IsolationBoundary.RegisterAgent | kernel/isolation.py:131-135 | the agent belongs to the tenant if that is registered, else nothing changes |
| Isolation.IsolationBoundary.ValidateAgentScope | kernel/isolation.py:156-166 | passes exactly when the agent is registered under that tenant |
| Isolation.IsolationBoundary.ValidateTenantContext | kernel/isolation.py:168-179 | the first broken condition is the error: empty fields, unknown tenant, agent elsewhere |
| Isolation.ValidateOwner | kernel/isolation.py:181-235 | access is granted to the owner and to nobody else; a tenant mismatch is reported first |
| Isolation.IsolationBoundary.CheckResourceLimits | kernel/isolation.py:239-254 | unknown tenants and full tenants are refused with their numbers |
| Isolation.IsolationBoundary.StartExecution | kernel/isolation.py:256-258 | the tenant's count grows by one, no other changes |
| Isolation.IsolationBoundary.EndExecution | kernel/isolation.py:260-263 | the tenant's count drops by one, not below zero, no other changes |
| Metrics.MetricsRegistry.Increment | kernel/observability/metrics.py:54-56 | one counter grows by the value, one by default, and no other changes |
| GuardedExecution.FailEnds | kernel/runtime.py:605-613 | from a sound frame a safe transition to FAILED or HALTED that is valid never falls back, and the run ends with its open phase failed |
| GuardedExecution.ProceedMoves | kernel/runtime.py:435-438 | moving to the next stage never raises and opens the next phase of the fixed order |
| GuardedExecution.CompleteEnds | kernel/runtime.py:567-593 | completing never raises, closes all six phases, and replies with the tool's data and the checkpoint id |
| GuardedExecution.PolicyResumes | kernel/runtime.py:402-438 | after the policy answers, the execution moves on, FAILS or HALTS as the code says |
| GuardedExecution.CapabilityResumes | kernel/runtime.py:440-478 | after the capability check, it moves on or FAILS |
| GuardedExecution.RouteResumes | kernel/runtime.py:480-499 | after routing, it moves on without a transition or HALTS |
| GuardedExecution.ToolResumes | kernel/runtime.py:501-537 | after the tool, it moves on or FAILS |
| GuardedExecution.SaveResumes | kernel/runtime.py:549-593 | after the save, it COMPLETES with that checkpoint id or HALTS |
| GuardedExecution.ResumeIsSound | kernel/runtime.py:398-593 | every stretch suspends at the next stage or ends well: legal walk, terminal state, closed trace, and success exactly through a save that returned |
| GuardedExecution.ResumeReports | kernel/runtime.py:402-593 | what a stretch hands on: the data the tool returned, kept until the reply; and for each failure its text, its counter and the error of the last trace entry |
| GuardedExecution.EndIsCounted | kernel/runtime.py:410-427 | an end grows its own counter, if it has one, and the completed or the failed counter, by one each and no other |
| GuardedExecution.ResumeKeepsTimes | kernel/observability/tracing.py:94-150 | each trace entry lasts from its start to its end and starts where the one before ended |
| GuardedRun.FailWith | kernel/runtime.py:405-417 | an exit: the transition, the failed phase, the specific counter and then the failure counter, and a result without checkpoint |
| GuardedRun.MoveOn | kernel/runtime.py:435-438 | a passed stage: the transition, and one phase ended as the next opens |
| GuardedRun.CompleteRun | kernel/runtime.py:567-593 | the last transition, the last two phases and the successful result with the tool's data and the checkpoint id |
| GuardedRun.AfterPolicy | kernel/runtime.py:402-438 | the code after the first await does what the resumption says, counters and trace included |
| GuardedRun.AfterCapability | kernel/runtime.py:440-478 | the same after the second await |
| GuardedRun.AfterRouting | kernel/runtime.py:480-499 | the same after the third await |
| GuardedRun.AfterTool | kernel/runtime.py:501-537 | the same after the fourth await |
| GuardedRun.AfterSave | kernel/runtime.py:549-593 | the same after the fifth await |
| GuardedRun.DriveEndsWell | kernel/runtime.py:398-593 | the whole body returns in a terminal state, succeeds exactly when every collaborator returned, and then carries what the tool returned and the checkpoint id that the save returned |
| GuardedRun.ExecuteQuotaGuarded | kernel/runtime.py:372-593 | the straight-line body equals its resumptions; a success carries the tool's data and the save's id; it counts itself once in the total and once at its end, and returns the slot exactly when completed |
| RuntimeSystem.AdmitKeeps | kernel/runtime.py:289-361 | every outcome of admission keeps the invariant on slots, active sets, counters, frames and replies |
| RuntimeSystem.ResumeKeeps | kernel/runtime.py:363-593 | every resumption keeps it, including the quota release of the tenant captured at the start |
| RuntimeSafety.StepKeeps | kernel/runtime.py:191-370 | so does every step: executions, context switches, registrations, drain and stop |
| RuntimeSafety.RunKeeps | kernel/runtime.py:191-370 | and every run |
| RuntimeSafety.QuotaSafety | kernel/runtime.py:304-370 | in every reachable state a tenant's active set is exactly its executions in flight, by the tenant each captured, and no more than its configured max_concurrent, or five |
| RuntimeSafety.SlotAccounting | kernel/runtime.py:300-302 | in every reachable state the boundary's count is the executions that passed the limit check minus those that completed, between zero and the limit |
| RuntimeSafety.ClampNeverBites | kernel/isolation.py:260-263 | the clamp at zero has no effect: a resumption lowers exactly its own tenant's count by one when it completes, and no count otherwise |
| RuntimeSafety.SlotsMatchInFlightIff | kernel/runtime.py:573-574 | count = in flight if and only if every slot-taking call of the tenant that ended has completed |
| RuntimeSafety.LockedOutForever | kernel/runtime.py:300-302 | once lost slots reach the limit, every later call of the tenant is refused, whatever happens in between |
| RuntimeSafety.RunAdvances | kernel/runtime.py:236-267 | replies are never withdrawn, the runtime state never moves back, limits stay, and a runtime that is not RUNNING gains no frame |
| RuntimeSafety.ShutdownIsFinal | kernel/runtime.py:337-361 | a runtime that is not RUNNING never runs again and never gains anything in flight |
| RuntimeHistory.ShutdownCalls | kernel/runtime.py:236-267 | a drain takes RUNNING to DRAINING and leaves the other states, a stop takes every state to STOPPED, and neither touches what is in flight |
| RuntimeHistory.ShutdownTakesEffect | kernel/runtime.py:236-267 | at every moment after a drain or a stop in any run the runtime is not RUNNING, after a stop it is STOPPED, and nothing is in flight that was not then |
| RuntimeHistory.RefusedAfterShutdown | kernel/runtime.py:337-361 | every call made after it only logs one unsuccessful reply from outside the guarded body |
| RuntimeHistory.SuccessHasSources | kernel/runtime.py:549-593 | over any run, the data of each successful reply is what the tool of that very execution returned, and its checkpoint id what its save returned |
| RuntimeSafety.AdmittedExecutionsFinish | kernel/runtime.py:363-370 | an admitted execution replies in a terminal state once its remaining awaits, five at most, are over, drained or not |
| RuntimeSafety.Conservation | kernel/runtime.py:393-593 | total = completed + failed + in flight; completed = saves resumed = successful replies |
| RuntimeSafety.RepliesAreConsistent | kernel/runtime.py:402-593 | success, COMPLETED and a checkpoint id hold together in every reply; the guarded body never throws |
| RuntimeSafety.ExecutionsRunLegally | kernel/runtime.py:597-613 | in every reachable state no transition raises or falls back, and each end is the state the code prescribes for that stage and outcome |
| RuntimeSafety.ClosedTraceSummary | kernel/observability/tracing.py:156-177 | a returned execution's phases are a prefix of the fixed order, at most the last entry failed, and the summary says failure exactly when the execution failed |
| AdmissionControl.AdmitDecides | kernel/runtime.py:289-361 | one call enters the guarded body exactly when the runtime is RUNNING and the slot check, the active set and the bucket all allow it |
| AdmissionControl.RunRate | kernel/runtime.py:317-331 | after any run of the runtime the buckets are those of exactly the rate calls its admissions made |
| AdmissionControl.LevelsAreLimiterRun | api/rest/quotas.py:71-93 | applying a log of limiter calls one by one gives the limiter's run |
| AdmissionControl.AdmittedExactlyWhen | kernel/runtime.py:289-361 | over whole runs, an intent enters exactly when the runtime is RUNNING, its tenant has a free slot and room in its active set, and no window of its own earlier rate checks would overflow |
| AdmissionReplies.AdmissionOutcome | kernel/runtime.py:289-366 | the first condition that fails decides the reply, the counter and whether a slot is kept; when none fails the execution waits for the policy, under the tenant, intent and holdings found |
| AdmissionReplies.NotRunningRefuses | kernel/runtime.py:337-361 | a runtime that is not RUNNING lets nothing in and reports no success |
| AdmissionControl.AdmitThrows | kernel/runtime.py:317-318 | one call raises the ZeroDivisionError exactly when it is rate checked, the bucket refuses one token and the rate is zero |
| AdmissionControl.ThrowsExactlyWhen | kernel/runtime.py:317-318 | over whole runs, exactly when it is rate checked, one token would break a window of the tenant's earlier checks and the rate is zero |
| AdmissionControl.RefillingNeverThrows | api/rest/quotas.py:81-89 | with a rate other than zero no reachable log holds that error |
| AdmissionControl.DryBucketThrows | api/rest/quotas.py:81-89 | an input: with buckets below one token that never refill, the first intent of any tenant raises it |
| SlotLeaks.StepLoses | kernel/runtime.py:300-361 | a step loses a slot of a tenant exactly when it is an admission that passes the limit check and is turned away, or a resumption after a refusal or an exception |
| SlotLeaks.CountIsInFlightPlusLost | kernel/runtime.py:573-574 | over whole runs the boundary's count is the executions in flight plus the steps that lost a slot |
| Runtime.KitematicRuntime.constructor | kernel/runtime.py:161-189 | a new runtime is RUNNING, without context, executions or replies |
| Runtime.KitematicRuntime.SetTenantContext | kernel/runtime.py:191-201 | the context changes exactly when it is valid and the boundary accepts it |
| Runtime.KitematicRuntime.Drain | kernel/runtime.py:236-247 | RUNNING becomes DRAINING, other states stay, and nothing in flight is touched |
| Runtime.KitematicRuntime.Stop | kernel/runtime.py:249-267 | every state becomes STOPPED, counted unless it was already, and nothing in flight is touched |
| Runtime.KitematicRuntime.TakeSlot | kernel/runtime.py:300-302 | a slot is taken exactly when the limit check passes |
| Runtime.KitematicRuntime.CheckRate | kernel/runtime.py:317-318 | a refused rate check also asks for the wait, and touches only the tenant's bucket |
| Runtime.KitematicRuntime.AdmitAtRateOf | kernel/runtime.py:317-331 | the rate branch of admission, as a step of the system |
| Runtime.KitematicRuntime.AdmitWithQuota | kernel/runtime.py:304-331 | the quota branch of admission, as a step of the system |
| Runtime.KitematicRuntime.ReleaseQuota | kernel/runtime.py:333-335 | gives back exactly the id acquired, for the tenant captured at the start |
| Runtime.KitematicRuntime.BeginExecution | kernel/runtime.py:337-366 | a draining or stopped runtime releases the quota and rejects; a RUNNING one suspends the execution at its first await |
| Runtime.KitematicRuntime.ExecuteIntent | kernel/runtime.py:271-361 | the whole of admission is one step of the system; the reply is the one logged, none while suspended |
| Runtime.KitematicRuntime.ReturnIsolationSlot | kernel/runtime.py:573-574 | the slot goes back for COMPLETED and for no other state |
| Runtime.KitematicRuntime.ResumeExecution | kernel/runtime.py:363-370 | a resumption, up to the next await or through the quota release, is one step of the system |
| ImportCycles.ClosedPathHasCycle | scripts/verify_architecture.py:227-229 | a path whose last node occurs earlier in it contains a cycle |
| ImportCycles.PathsDescend | scripts/verify_architecture.py:232-234 | from a BLACK node every path stays among nodes that turned BLACK before it |
| ImportCycles.FinishedGraphHasNoCycle | scripts/verify_architecture.py:236-241 | a graph all of whose nodes turned BLACK has no cycle |
| ImportCycles.CycleSearch.Dfs | scripts/verify_architecture.py:221-234 | true leaves a real path that runs into itself; false restores the stack and blackens the node; it ends because WHITE nodes run out |
| ImportCycles.CheckImportCycles | scripts/verify_architecture.py:216-251 | passes exactly when the graph restricted to its own nodes has no cycle, and otherwise shows a path that runs into itself |
| Checkpoints.SortSorts | infrastructure/storage/checkpoint/file_system.py:138-138 | sorting by version and id orders the snapshots and keeps exactly them |
| Checkpoints.SortedMeans | infrastructure/storage/checkpoint/file_system.py:138-138 | a sorted list goes by version, and among equal versions by id |
| Checkpoints.TextOrderIsLexicographic | infrastructure/storage/checkpoint/in_memory.py:35-35 | ids are compared at the first place where they differ |
| Checkpoints.ListingIsUnique | infrastructure/storage/checkpoint/in_memory.py:32-36 | a listing depends on what is stored, not on the order in which a set is read |
| Checkpoints.LatestIsLastListed | infrastructure/storage/checkpoint/file_system.py:141-145 | a latest checkpoint has the version of the last one listed |
| CheckpointJson.DictRoundTrip | infrastructure/storage/checkpoint/file_system.py:56-94 | reading back what was written gives the same checkpoint, every field included |
| CheckpointJson.DictFields | infrastructure/storage/checkpoint/file_system.py:56-71 | each field is written under its own key |
| CheckpointJson.TriggerTexts | core/domain/checkpoint.py:9-15 | the six triggers are written by their own names, and no other text reads as one |
| CheckpointJson.RequiredKeys | infrastructure/storage/checkpoint/file_system.py:80-85 | without one of the five required keys reading fails with that key |
| CheckpointJson.OptionalKeys | infrastructure/storage/checkpoint/file_system.py:76-94 | each other key may be missing and has its default |
| FileSystemStore.CrashLeavesDiskIntact | infrastructure/storage/checkpoint/file_system.py:96-116 | stopping a save after any write or rename leaves a readable index, complete files for all indexed ids, and exactly the old repository, the old with the new snapshot unindexed, or the completed save |
| FileSystemStore.CrashListsOldOrNew | infrastructure/storage/checkpoint/file_system.py:41-54 | a reopened repository lists the old or the new set, and every other checkpoint reads as before |
| FileSystemStore.SaveKeeps | infrastructure/storage/checkpoint/file_system.py:107-114 | a save cut anywhere drops no index entry and no checkpoint |
| FileSystemStore.AttemptsKeepDiskIntact | infrastructure/storage/checkpoint/file_system.py:41-54 | through any completed and interrupted saves the disk stays intact, so the fallback to an empty index never drops an entry |
| FileSystemStore.IndexRenamed | infrastructure/storage/checkpoint/file_system.py:107-114 | a completed save is the repository's save: one snapshot stored, its id indexed once |
| FileSystemStore.IndexUpdate | infrastructure/storage/checkpoint/file_system.py:107-113 | an unreadable or missing index reads as empty; the id joins the end of its list, once, and other lists stay |
| FileSystemStore.ListingIsListing | infrastructure/storage/checkpoint/file_system.py:130-139 | on an intact disk the listing is the sorted snapshots of the indexed ids |
| FileSystemStore.FileSystemCheckpointRepository.WriteAtomically | infrastructure/storage/checkpoint/file_system.py:50-54 | the disk passes through a torn temporary file, a complete one, and the rename, and nothing else |
| FileSystemStore.FileSystemCheckpointRepository.Save | infrastructure/storage/checkpoint/file_system.py:96-116 | a save passes through exactly the six disks of the crash analysis, whatever it finds |
| FileSystemStore.FileSystemCheckpointRepository.UpdatedIndex | infrastructure/storage/checkpoint/file_system.py:107-113 | the id is appended to its execution's list unless it is there |
| FileSystemStore.FileSystemCheckpointRepository.Get | infrastructure/storage/checkpoint/file_system.py:118-128 | missing, torn and incomplete files read as none, other errors surface; on an intact disk it is a lookup |
| FileSystemStore.FileSystemCheckpointRepository.ListByExecution | infrastructure/storage/checkpoint/file_system.py:130-139 | skips what cannot be read, raises the first other error, and on an intact disk lists exactly the stored snapshots of the execution in order |
| FileSystemStore.FileSystemCheckpointRepository.GetLatest | infrastructure/storage/checkpoint/file_system.py:141-145 | none exactly for an empty listing, else its first snapshot of the highest version; on an intact disk that is the smallest id among equals |
| FileSystemStore.SavedLoads | infrastructure/storage/checkpoint/file_system.py:96-128 | a saved checkpoint reads back, whatever else is on the disk |
| Checkpoints.StoredIsLastSaved | infrastructure/storage/checkpoint/in_memory.py:20-30 | after any saves, what is stored under an id is the last snapshot saved under it, and nothing is when none was |
| Checkpoints.IdsAreSaved | infrastructure/storage/checkpoint/in_memory.py:20-26 | after any saves, the ids of an execution are those saved under it |
| InMemoryStore.InMemoryCheckpointRepository.Save | infrastructure/storage/checkpoint/in_memory.py:20-26 | one snapshot stored, its id added to its execution |
| InMemoryStore.InMemoryCheckpointRepository.Get | infrastructure/storage/checkpoint/in_memory.py:28-30 | none exactly when nothing was ever saved under the id, else the snapshot saved last under it |
| InMemoryStore.InMemoryCheckpointRepository.ListByExecution | infrastructure/storage/checkpoint/in_memory.py:32-36 | exactly the snapshots of the execution's ids, in order, however the set is read |
| InMemoryStore.InMemoryCheckpointRepository.GetLatest | infrastructure/storage/checkpoint/in_memory.py:38-43 | none exactly without ids, else a snapshot of the highest version |
| RepositoryRefinement.DiskRefinesMemory | infrastructure/storage/checkpoint/file_system.py:96-116 | after any saves the disk stands for exactly what the two dictionaries hold |
| RepositoryRefinement.RepositoriesAgree | infrastructure/storage/checkpoint/in_memory.py:20-43 | so both agree on every get and every listing, and on the version of the latest |
| CheckpointRepository.Repository.Save | core/contracts/checkpoint_repository.py:18-21 | in either repository a saved checkpoint reads back, and if its directory is as saves leave it the save changes nothing else |
| CheckpointRepository.Repository.Get | core/contracts/checkpoint_repository.py:23-26 | in either repository what reading the id yields, and what is stored under it if the directory is as saves leave it |
| CheckpointRepository.Repository.ListByExecution | core/contracts/checkpoint_repository.py:28-31 | in either repository, if its directory is as saves leave it, the one sorted listing of what is stored |
| CheckpointRepository.Repository.GetLatest | core/contracts/checkpoint_repository.py:33-36 | in either repository, if its directory is as saves leave it, none exactly without ids, else a snapshot of the highest version |
| CheckpointAdapter.RunIsNumbered | control_plane/adapters/to_kernel/checkpoint.py:46-72 | through one adapter whose counter no stored version exceeds, saves are numbered on from the counter without gap, and the highest number carries the newest state; a fresh execution starts at one |
| CheckpointAdapter.LatestIsNewest | control_plane/adapters/to_kernel/checkpoint.py:46-72 | then every latest checkpoint is the newest state, and its version counts the saves |
| CheckpointAdapter.SavedIsLatestIffCovered | control_plane/adapters/to_kernel/checkpoint.py:46-72 | a save becomes the one latest checkpoint exactly when no stored version of its execution exceeds the counter, and that condition stays |
| CheckpointAdapter.RestartHidesSave | control_plane/adapters/to_kernel/checkpoint.py:34-36 | an adapter started anew over earlier snapshots of an execution does not satisfy it |
| CheckpointAdapter.VersionsGrow | control_plane/adapters/to_kernel/checkpoint.py:48-49 | the counter of an execution grows by one for each of its saves, valid or not |
| CheckpointAdapter.SavedStatesRestore | control_plane/adapters/to_kernel/checkpoint.py:82-103 | every state saved for a named execution restores later, whatever was saved in between |
| CheckpointAdapter.CheckpointPersistenceAdapter.Save | control_plane/adapters/to_kernel/checkpoint.py:38-80 | over either repository: the counter moves on, and exactly a checkpoint with its three texts non-empty is stored, field by field as given, and reads back |
| CheckpointAdapter.CheckpointPersistenceAdapter.Restore | control_plane/adapters/to_kernel/checkpoint.py:82-116 | over either repository: the state, or the error of a missing checkpoint, of no state, of text that is no state, or of the store, each exactly in its case |
| PolicyTargets.TargetMatchingIsSegmentMatching | control_plane/policy/engine.py:207-214 | for every string p, `p.*` matches a resource exactly when p split on dots is a prefix of the resource split on dots |
| PolicyTargets.RegexMeansTokens | kernel/resources/tool_registry.py:133-134 | the regular expression built by escaping and replacing means the pattern with each `.*` as a dot and anything, for every pattern |
| PolicyTargets.WildcardSelection | kernel/resources/tool_registry.py:125-135 | a star-free prefix with `.*` selects exactly the ids that continue it past a dot on one line |
| PolicyTargets.ExactSelection | kernel/resources/tool_registry.py:125-135 | a pattern without wildcard selects the tool of that id, and one whose id ends in a newline more |
| PolicyTargets.WildcardsAgreeIff | kernel/resources/tool_registry.py:125-135 | every tool a wildcard action selects is covered by the same policy target if and only if the prefix holds no `.*` |
| ToolRouting.ToolRegistry.Get | kernel/resources/tool_registry.py:117-119 | the tool of that id, none exactly when it is not registered |
| ToolRouting.ToolRegistry.Register | kernel/resources/tool_registry.py:103-109 | appends a valid tool of a new id, else raises and changes nothing |
| ToolRouting.ToolRegistry.Unregister | kernel/resources/tool_registry.py:111-115 | removes exactly the tool of that id, or raises |
| ToolRouting.ToolRegistry.MatchPattern | kernel/resources/tool_registry.py:125-135 | the selected tools in registration order |
| ToolRouting.SelectionMembers | kernel/resources/tool_registry.py:135-135 | exactly the registered tools that the pattern matches |
| ToolRouting.RouteIntent | control_plane/adapters/to_kernel/router.py:29-65 | an exact tool wins; otherwise the one tool selected; none and several are errors, told apart exactly |
| ToolRouting.RoutedToolIsCovered | control_plane/adapters/to_kernel/router.py:36-65 | a tool a wildcard action can reach lies under the policy target of the same text, segment by segment |
| PolicyCache.InMemoryPolicyCache.Get | control_plane/policy/cache.py:35-43 | never an expired value, which is dropped when met |
| PolicyCache.InMemoryPolicyCache.Set | control_plane/policy/cache.py:45-52 | a full cache gives up an oldest entry; the new one expires after 300 seconds; never more than 10 000 |
| PolicyCache.InMemoryPolicyCache.Invalidate | control_plane/policy/cache.py:54-57 | without a pattern nothing remains |
| PolicyCache.SizeBounded | control_plane/policy/cache.py:48-52 | the eviction keeps the size within the limit |
| PolicyCache.OldestExists | control_plane/policy/cache.py:50-50 | a non-empty cache has an entry that expires first |
| PolicyEvaluation.BestIsBest | control_plane/policy/engine.py:66-81 | the deciding rule is the earliest of the applicable ones with the lowest number, and there is none exactly when none applies |
| PolicyEvaluation.DecideIsDecision | control_plane/policy/engine.py:66-86 | evaluation answers with the effect, id and name of the best active matching rule, and to allow when there is none |
| PolicyEvaluation.EffectTexts | control_plane/policy/engine.py:173-173 | the three effects are named by their own texts, and no other text is one |
| PolicyEvaluation.BlockedIffUnmet | control_plane/policy/engine.py:123-141 | the rules block a question exactly when some active matching rule asks for a capability that is not registered, and to block is to deny under no rule |
| PolicyEvaluation.CleanKeyDeterminesResource | control_plane/policy/engine.py:33-47 | any question with the key of a clean one asks about the same resource; clean is to name capabilities, or to have no separator in agent, action and resource |
| PolicyEvaluation.AnyRunIsCoherent | control_plane/policy/engine.py:49-186 | after any events, whatever is cached under the key of a clean question is the current rules' answer |
| PolicyEvaluation.CacheIsTransparent | control_plane/policy/engine.py:49-186 | after any mix of questions, new rules, clock readings, expiries and evictions, a clean question gets the uncached answer |
| PolicyEvaluation.TransparentIffClean | control_plane/policy/engine.py:33-89 | and exactly the clean questions, and those refused before the cache, are always answered so |
| PolicyEvaluation.CleanAnswers | control_plane/policy/engine.py:49-162 | after any history a clean question gets the decision of the best rule, or a denial that names the capability not registered |
| PolicyEvaluation.SeparatorInAgentOrAction | control_plane/policy/engine.py:33-64 | a question with a separator in its agent or action alone has a history after which it gets a wrong answer |
| PolicyEvaluation.KeyDeterminesResource | control_plane/policy/engine.py:33-47 | two questions that name capabilities or have no separator in the resource ask, under one key, about one resource, whatever agents and actions contain |
| PolicyEvaluation.RunIsCoherent | control_plane/policy/engine.py:49-186 | after events with only such questions, whatever is cached under the key of one is the current rules' answer |
| PolicyEvaluation.SafeIsTransparent | control_plane/policy/engine.py:49-186 | after events with only such questions, each of them gets the uncached answer |
| PolicyEvaluation.TransparentIffSafe | control_plane/policy/engine.py:33-47 | and after those histories exactly such questions, and those refused before the cache, are always answered so |
| PolicyEvaluation.UnsafeIsMisled | control_plane/policy/engine.py:61-64 | every other question has such a history after which it gets a wrong answer |
| PolicyEngine.SortIsSorted | control_plane/policy/engine.py:80-80 | the stable sort orders by priority and keeps the same rules |
| PolicyEngine.HeadIsBest | control_plane/policy/engine.py:80-81 | the head of the sorted applicable rules is the best rule |
| PolicyEngine.PolicyEngine.DecideBySorting | control_plane/policy/engine.py:66-86 | collecting, sorting and taking the head gives the effect and id of the best active matching rule, and to allow when there is none |
| PolicyEngine.PolicyEngine.Evaluate | control_plane/policy/engine.py:49-89 | the answer and the new cache; a clean question gets the effect and id of the best rule whatever was asked before, one without separator in its resource if only such were asked |
| PolicyEngine.PolicyEngine.FindMissing | control_plane/policy/engine.py:106-113 | some unregistered capability, none exactly when all are registered |
| PolicyEngine.PolicyEngine.FindBlocked | control_plane/policy/engine.py:123-141 | the denial of the first applicable rule whose own capabilities are not registered |
| PolicyEngine.PolicyEngine.EvaluateWithCapabilities | control_plane/policy/engine.py:91-162 | the same as for evaluate, with the refusals before and after the cache lookup |
| PolicyEngine.PolicyEngine.CreatePolicy | control_plane/policy/engine.py:164-186 | an unknown effect changes nothing; else the new rule comes last, active, of priority 100 and with the effect its text names, and the cache is empty |
| EventStreams.QueueIsStream | kernel/events/memory.py:25-62 | whatever happened before and elsewhere, a queue holds exactly its execution's publishes since the subscription, in order, mismatched tenants dropped, until unsubscribed or closed |
| EventStreams.EndsOnceIffClosed | kernel/events/memory.py:55-62 | one None comes last exactly when the subscription was closed before it was given up |
| EventStreams.ReachesUnlessTenantsDiffer | kernel/events/memory.py:46-53 | an event reaches a listed subscriber of its execution if and only if they do not name two different tenants |
| EventStreams.EveryEventHasSource | kernel/events/memory.py:36-53 | over whole histories every event in a queue was published to its execution during the subscription, raw, by no named tenant or by the subscriber's own |
| EventStreams.ForeignEventsStayOut | kernel/events/memory.py:46-53 | what only another named tenant publishes never gets into the queue of a subscriber that names its tenant |
| EventPublisher.InMemoryEventPublisher.Subscribe | kernel/events/memory.py:25-28 | a fresh empty queue, listed once for that execution |
| EventPublisher.InMemoryEventPublisher.Unsubscribe | kernel/events/memory.py:30-34 | the queue leaves that execution's list, no item moves |
| EventPublisher.InMemoryEventPublisher.PublishEvent | kernel/events/memory.py:46-53 | each listed queue gets the event unless subscriber and event name two different tenants, and others get nothing |
| EventPublisher.InMemoryEventPublisher.PublishDict | kernel/events/memory.py:41-45 | one item for each listed queue, unfiltered |
| EventPublisher.InMemoryEventPublisher.Close | kernel/events/memory.py:55-58 | one None for each listed queue, and the list is gone |
| EventPublisher.InMemoryEventPublisher.CloseAll | kernel/events/memory.py:60-62 | one None for each queue listed anywhere, in whatever order executions are closed |
| ExecutionLifecycle.HistoriesAreLegal | control_plane/lifecycle/manager.py:35-95 | after any calls each history is a contiguous legal walk from PENDING to the current state, RESUMING is never seen, and each pause is last, stopped or fully resumed |
| ExecutionLifecycle.HistoriesGrow | control_plane/orchestrator/state_machine.py:82-102 | histories only grow, and COMPLETED and FAILED are never left |
| ExecutionLifecycle.CallTargets | control_plane/lifecycle/manager.py:35-95 | what each call does to each settled machine: the state it leads to and the entries it adds, reasons and actors included |
| ExecutionLifecycle.TransitionsAre | control_plane/orchestrator/state_machine.py:38-49 | the table allows to start, pause and resume in turn, to complete while running, to fail from everything that has not ended, and nothing else |
| LifecycleManager.ExecutionStateMachine.MakeTransition | control_plane/orchestrator/state_machine.py:82-102 | a legal transition is recorded and taken, an illegal one raises and changes nothing |
| LifecycleManager.LifecycleManager.GetStateMachine | control_plane/lifecycle/manager.py:30-33 | the execution's machine, a new PENDING one on first use |
| LifecycleManager.LifecycleManager.StartExecution | control_plane/lifecycle/manager.py:35-55 | an unknown instance raises before anything changes; else one execution's machine is started |
| LifecycleManager.LifecycleManager.StopExecution | control_plane/lifecycle/manager.py:57-69 | one execution's machine is stopped, others stay |
| LifecycleManager.LifecycleManager.PauseExecution | control_plane/lifecycle/manager.py:71-79 | one execution's machine is paused, others stay |
| LifecycleManager.LifecycleManager.ResumeExecution | control_plane/lifecycle/manager.py:81-95 | one execution's machine is resumed all the way, others stay |
| LifecycleManager.LifecycleManager.GetExecutionStatus | control_plane/lifecycle/manager.py:97-100 | the current state, of a machine made on demand |
| LoopControl.ExecutionBudget.Start | kernel/resources/budget.py:36-39 | only the first start sets the time |
| LoopControl.ExecutionBudget.IsTimeout | kernel/resources/budget.py:61-67 | strictly more than the limit has passed since the start |
| LoopControl.ExecutionBudget.IsExhausted | kernel/resources/budget.py:69-72 | no steps or tokens are left, or strictly more time than the limit has passed |
| LoopControl.ExecutionBudget.ConsumeStep | kernel/resources/budget.py:74-87 | one step and the tokens, exactly when nothing is exhausted, and never beyond max_steps |
| LoopControl.ExecutionBudget.Reset | kernel/resources/budget.py:89-93 | a budget as at the start |
| LoopControl.LoopController.Shutdown | kernel/lifecycle.py:139-151 | RUNNING becomes STOPPED, other states stay |
| LoopControl.LoopController.RunIntent | kernel/lifecycle.py:153-344 | reply, error, budget, history and audit trail in each of the six ways a run can end; a step is consumed exactly when the reply is paid |
| LoopControl.EndingsAre | kernel/lifecycle.py:217-263 | which of the six endings it is, on the numbers of the budget, the clock and the reply |
| LoopControl.ReportsAre | kernel/lifecycle.py:265-344 | the termination reason, the error and the events of each |
| LoopControl.LoopController.RunMultiStep | kernel/lifecycle.py:346-369 | replies to a prefix of the intents, at most steps_remaining, stopping exactly at the first failure or exhausted budget; max_steps is never passed |
| LoopControl.EachServed | kernel/lifecycle.py:357-367 | each reply is what its intent gets with that many steps paid before, all but the last succeed, and each success reports its own step |
| LoopControl.PaidSoFar | kernel/lifecycle.py:262-278 | all replies paid one step each, except a last one without a result |
| LoopControl.TrailContradictsItselfIff | kernel/lifecycle.py:217-344 | the trail reports completion and a halt exactly when a successful reply came back after the time limit |

## Left out

- REST and WebSocket endpoints, authentication, model adapters, MCP transport, Redis publishers, OpenTelemetry and logging: I/O with no inner property.
- Task cancellation: a `CancelledError` skips the quota release at `kernel/runtime.py:369`; awaits here return or raise an ordinary exception.
- Threads racing on the quota manager between its two lock sections, and several processes on one checkpoint directory.
- Floating-point rounding: amounts and times are real numbers; the two decimals of a trace summary's total are not rounded.
- A wall clock that jumps backwards, for the lemmas that ask for ordered times; the envelope and the admission rule need no such order.
- The two clock readings when a bucket is created, and the ones between the phases of one stretch: one reading serves each.
- Uuid generation (ids are arguments, fresh where a lemma says so), SHA-256 (any digest to non-empty text without `|`; injectivity is not needed) and the moment's ISO text (any non-empty text).
- JSON syntax and deep copies: states and checkpoints are values, and a file being written is one that cannot be read; an index file that holds other valid JSON than an index is not modelled, nor tool histories with values JSON cannot carry.
- File paths as text: an id names its own checkpoint and temporary file; ids with path separators are not modelled.
- Power loss: no write is followed by an fsync, so the crash analysis is about a process that dies, not about a machine that does.
- Callers that change a decision they got from the cache.
- `fnmatch` invalidation, the cache's own `_make_key` and `list_policies`: not used by evaluation.
- Limits that change, and `cleanup`, while executions are in flight: `Quotas.QuotaManager.Configure` and `Cleanup` are modelled, but not as steps of a runtime run.
- Restoring from a checkpoint in the runtime, hosted agents, the contents of the saved state, the exact wording of the "no tenant context", quota and rate-limit messages (quotes and seconds).
- The duration histogram and histogram summaries, trace metadata and spans.
- `_classify_failure`: the reason of a failed loop is the error text it would read.
- Ids, payloads and times in the loop's event log and results, the wording of a loop's error texts (their numbers are kept), and times and metadata in lifecycle records.
- Building the import graph from source files, and the other architecture checks: the search starts from any map of nodes to neighbours.
- Plugins, marketplace, manifests, other registries and the remaining domain records: field checks and dictionary updates.
