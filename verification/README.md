# FastAPI template: a Dafny model of its protocols

This project models the parts of the template that are protocols rather than plumbing, and proves what they
keep over every run. `dafny verify dfyconfig.toml` checks all files together.

| file | models |
|---|---|
| `WorkflowDefinitions.dfy`, `WorkflowRunner.dfy` | workflow definitions; the execution record and the runner that updates it in place |
| `WorkflowResumes.dfy` | what one resume does, position by position |
| `WorkflowRuns.dfy`, `WorkflowTheorems.dfy` | runs of start and resume: invariant, saga order and coverage, termination |
| `Scheduler.dfy` | the lock and spacing guard of scheduled jobs, as interleaved atomic steps of many workers |
| `Compensation.dfy` | the two compensation flows and their rollback |
| `BulkOperations.dfy` | bulk operations that tolerate some failing items |
| `Identifiers.dfy`, `Authorization.dfy` | identifier normalisation, role closure, policies, subjects, checks |
| `Webhooks.dfy`, `WebhookRuns.dfy` | intake, replay protection, retention; runs of all three |
| `RateLimiter.dfy` | the fixed-window limiter over a Redis counter |
| `Tokens.dfy` | refresh-token rotation, logout and cleanup of the blacklist |
| `Cache.dfy`, `CacheRuns.dfy` | the cache decorator; when it cannot be told from the undecorated handler |
| `Redaction.dfy` | redaction of nested log payloads |
| `Backoff.dfy` | backoff delays and the retries they pace |
| `Common.dfy` | shared types and sequence lemmas |

## How the model is built

Code that changes things step by step is imperative here too: classes with the source's fields, loops with
invariants. Each such method is proved equal to a specification function of its inputs and the old state,
and the theorems are about that function. What such a function decides is also stated without it: an
`...Iff` or `...Is` lemma says in its own terms when a step, a check or a key comes out as it does. User code (workflow steps, compensations, saga steps, jobs,
handlers, validators) is an arbitrary function or an outcome handed in with the call, so every theorem
holds whatever it does. Clocks are parameters in microseconds, the resolution of the source's datetimes;
Redis keys carry their expiry time.

## Where the code and its documentation part

The model follows the code. Each point has its own lemma.

- The workflow guide (`docs/user-guide/background-tasks/workflow-orchestration.md:500-522`) says that only steps
  that succeeded are compensated. The code does not look: `FailedStepIsCompensated` is an example, and
  `OnlySucceededCompensatedIff` says exactly when the guide is right.
- A workflow retry computes a backoff delay, logs it, and records that the step is due now: resumes run the step while
  that delay is not over (`RetryIsNotDelayed`).
- The queued workflow job calls `advance`, which does not look at the status: redelivered after the end, it runs the
  last step again (`AdvanceRepeatsFinishedStep`).
- A branch back can leave a completed step that is never compensated (`BackwardBranchEscapesRollback`, `CoverageIff`).
- The rate limiting guide calls the limiter a sliding window (`docs/user-guide/rate-limiting/index.md:56`, `:182`). It is a
  fixed one: twice the limit gets through around an edge (`EdgeAdmitsTwice`), and never more
  (`IntervalAdmitsTwiceTheLimit`).
- The scheduler's lock excludes exactly as long as no worker holds it for its whole time to live (`MutualExclusionIff`).
  It is released by key, not by owner, so one late holder can even let two others in together (`LateReleaseAdmitsTwo`).
- The settings ask for a replay window no shorter than the signature age. What is needed is that age plus the time from
  the signature check to the replay check, and an archive period no shorter than the age (`PersistedOnceIff`). For the
  window itself to hold, nothing may be archived before it closes, which no setting asks for (`WindowKeptIff`).
- The failure ratio of a bulk operation limits every prefix of the batch, so a batch whose first item fails is given up
  (`FirstFailureAborts`, `CompletesIff`). `total` is the size of the batch even when it was given up.
- Blacklist rows hold the token's expiry in the host's local time and are deleted by UTC. Behind UTC a rotated token
  becomes good again (`RotatedOnceIff`).
- The cache guide shows `resource_id_type=(int, str)` (`docs/user-guide/caching/redis-cache.md:91`); with a tuple, and
  with any type but int and str, no id is ever inferred (`InferableIff`).
- A rate limit with a negative period, which the schema admits, limits nothing (`NegativePeriodNeverCounts`); one with
  period zero makes every call fail.
- The two compensation flows word a refused compensation differently; that is the only difference
  (`WordingIsImmaterial`).

## Model

| member | source | states |
|---|---|---|
| WorkflowDefinitions.CompensatingIndicesExact | src/app/core/worker/workflow.py:322-344 | The plan lists exactly the compensating steps of the prefix, each once, in reverse definition order. |
| WorkflowDefinitions.WorkflowDefinition.IndexOf | src/app/core/worker/workflow.py:294-306 | The index found holds the name; with distinct names it is the only such index. |
| WorkflowDefinitions.FirstIndex | src/app/core/worker/workflow.py:301-306 | The lookup takes the first match, and finds one if there is any. |
| WorkflowDefinitions.WorkflowDefinition.GetStep | src/app/core/worker/workflow.py:280-292 | The loop finds the step the index lookup names. |
| WorkflowDefinitions.WorkflowDefinition.GetStepIndex | src/app/core/worker/workflow.py:294-306 | The loop computes the first index. |
| WorkflowDefinitions.WorkflowDefinition.GetNextStep | src/app/core/worker/workflow.py:308-320 | The step after the named one, none after the last or for an unknown name. |
| WorkflowDefinitions.WorkflowDefinition.GetStepsForCompensation | src/app/core/worker/workflow.py:322-344 | The downward loop computes the plan, which includes the failed step and is empty for an unknown name. |
| WorkflowRunner.Runner.Start | src/app/core/worker/workflow.py:364-434 | A fresh record, running at the first step; a definition without steps is refused. |
| WorkflowRunner.Runner.ExecuteStep | src/app/core/worker/workflow.py:436-525 | Counts the attempt and records the answer; an exception becomes a failure and keeps an earlier wait time. |
| WorkflowRunner.Runner.Advance | src/app/core/worker/workflow.py:527-623 | One execution of the current step and the transition its result calls for (which WorkflowResumes says by position), or an error and no change at all. |
| WorkflowRunner.Runner.HandleStepFailure | src/app/core/worker/workflow.py:625-703 | Waits for a retry due now while attempts are left, logging a delay its policy may compute; otherwise compensates, then fails with an end time. A step without a record counts as never tried. |
| WorkflowRunner.Runner.Compensate | src/app/core/worker/workflow.py:705-783 | Appends one log entry for each step of the plan in order, also for those whose compensation raises. |
| WorkflowRunner.Runner.Resume | src/app/core/worker/workflow.py:785-846 | Refuses executions that are over, does nothing while the wait lasts, otherwise advances. |
| WorkflowResumes.ResumeRefusedIff | src/app/core/worker/workflow.py:805-822 | A resume is refused iff the execution is not under way at a step of the definition. |
| WorkflowResumes.ResumeExecutesIff | src/app/core/worker/workflow.py:824-846 | Too early, a resume changes nothing; otherwise it executes the current step once and no other. |
| WorkflowResumes.ResumeLeads | src/app/core/worker/workflow.py:561-623 | A step that succeeded or was skipped leads to the step it names, wherever that stands, to the end if it names none, and without a name to the next position. |
| WorkflowResumes.ResumeWaits | src/app/core/worker/workflow.py:596-599 | A step that asks to wait stays current, with the time it asked for on record. |
| WorkflowResumes.ResumeFails | src/app/core/worker/workflow.py:625-703 | A failing step waits for a retry due when it failed, or the execution fails with its error and the rollback, each entry telling whether its compensation raised. |
| WorkflowResumes.FailureIsRecorded | src/app/core/worker/workflow.py:685-783 | In every run, the call that fails the execution leaves its error, its time, and a log that tells what raised. |
| WorkflowResumes.DeferredDelayIs | src/app/core/worker/workflow.py:656-660 | The delay logged is the policy's base grown by each attempt after the first, up to the cap; five seconds without a policy. |
| WorkflowRuns.RunIsSound | src/app/core/worker/workflow.py:364-846 | The invariant of every reachable state: attempts recorded equal executions, completed steps are the successes in order, each execution is of the step the one before led to, branches included, waiting steps do not run early, the current step exists, the end time is set iff the status is terminal, the log is empty unless failed and then the full rollback. |
| WorkflowRuns.TransitionFails | src/app/core/worker/workflow.py:625-703 | A failing step with attempts left waits with an empty log; without, it fails with exactly the rollback of its prefix. |
| WorkflowTheorems.SagaOrder | src/app/core/worker/workflow.py:322-344 | In every run that fails at position k the log names the compensating steps k..0, once each, in reverse definition order, whichever compensations raised. |
| WorkflowTheorems.SagaCoverage | src/app/core/worker/workflow.py:685-783 | If branches only jump forward, the log restricted to completed steps is the completed compensating steps in reverse completion order; any other entry is the failing step or one skipped or jumped over. |
| WorkflowTheorems.ForwardRunIsSettled | src/app/core/worker/workflow.py:561-623 | In forward runs, what is on record of a step before the current one is that it succeeded or was skipped. |
| WorkflowTheorems.RollbackReversesCompletion | src/app/core/worker/workflow.py:322-344 | For any ascending list of completed steps: rollback order is reverse completion order. |
| WorkflowTheorems.OnlySucceededCompensatedIff | src/app/core/worker/workflow.py:751-783 | The log is exactly the succeeded compensating steps iff the failed step does not compensate and every compensating one before it succeeded. |
| WorkflowTheorems.FailedStepIsCompensated | src/app/core/worker/workflow.py:685-703 | A run in which a step that never succeeded is compensated. |
| WorkflowTheorems.CoverageIff | src/app/core/worker/workflow.py:685-783 | In any failed run, every completed compensating step is compensated iff none lies after the failed one. |
| WorkflowTheorems.BackwardBranchEscapesRollback | src/app/core/worker/workflow.py:572-600 | A run with a branch back whose completed compensating step is never compensated. |
| WorkflowTheorems.ForwardRunIsForward | src/app/core/worker/workflow.py:561-623 | In forward runs, later steps are untouched, completed ones are in order, and executions plus attempts still owed stay within the budget. |
| WorkflowTheorems.TransitionSpends | src/app/core/worker/workflow.py:458-489 | Every execution that did not ask to wait uses up one of the attempts owed. |
| WorkflowTheorems.ExecutionsBounded | src/app/core/worker/workflow.py:561-703 | Executions are at most the sum of all steps' attempts plus the waits the steps asked for. |
| WorkflowTheorems.RunsEnd | src/app/core/worker/workflow.py:785-846 | Enough resumes, counted against waits and early resumes, end the run in SUCCEEDED or FAILED. |
| WorkflowTheorems.CallsAccountedFor | src/app/core/worker/workflow.py:805-846 | Until the end, every resume either executes a step or came before its wait time. |
| WorkflowTheorems.TerminalIsAbsorbing | src/app/core/worker/workflow.py:805-810 | No resume changes an execution that is over. |
| WorkflowTheorems.AdvanceRepeatsFinishedStep | src/app/core/worker/workflow.py:956-1042 | On any execution that is over, advance runs its last step once more where resume refuses. |
| WorkflowTheorems.WithoutBranchesEarlierDone | src/app/core/worker/workflow.py:561-623 | Without overrides every step before the current one is recorded succeeded or skipped; a run that succeeded is at its last step. |
| WorkflowTheorems.RetryIsNotDelayed | src/app/core/worker/workflow.py:656-683 | Whatever delay the policy computes, every resume from the failure on runs the step again, some before a positive delay is over. |
| Scheduler.MutualExclusion | src/app/core/worker/scheduler.py:239-319 | For any workers and interleaving with punctual holders, deaths included, at most one worker is between acquire and release, and the key is its own. |
| Scheduler.MutualExclusionIff | src/app/core/worker/scheduler.py:239-319 | Two workers are never inside together, in any run whose holds are at most so long, iff that is shorter than the lock's time to live. |
| Scheduler.NextEntersIff | src/app/core/worker/scheduler.py:353-360 | When the holder has left or died, the next worker enters iff the key was deleted or its time to live is over. |
| Scheduler.KeyPresentIffHeld | src/app/core/worker/scheduler.py:239-360 | If no delete is lost and no worker dies either, the key is present iff some worker is inside. |
| Scheduler.SpacingHolds | src/app/core/worker/scheduler.py:254-280 | Times of executed runs, failed ones included, increase by at least the tolerance, if tolerance plus delay to the check fit into the life of the last-run key. |
| Scheduler.RunsAreTracked | src/app/core/worker/scheduler.py:254-280 | Redis always holds the time of the last executed run, and who is about to record is far enough from it. |
| Scheduler.LateReleaseAdmitsTwo | src/app/core/worker/scheduler.py:353-360 | For every time to live there is a run in which no hold is longer than exactly that, and which ends with two workers inside, both before their own time is over. |
| Scheduler.SlowCheckBreaksSpacing | src/app/core/worker/scheduler.py:280 | Beyond the bound on the delay two executions can be closer than the tolerance. |
| Scheduler.SpacingIff | src/app/core/worker/scheduler.py:254-280 | All punctual runs keep the spacing iff tolerance plus the longest delay to the check fit into the life of the last-run key. |
| Scheduler.GuardRefusesIff | src/app/core/worker/scheduler.py:261-280 | The guard refuses iff the last-run key is alive, can be read, and is closer than the tolerance. |
| Scheduler.GuardAdmitsIff | src/app/core/worker/scheduler.py:254-280 | In every punctual and prompt run, a worker at the guard executes iff it was scheduled at least the tolerance after the last executed run. |
| Scheduler.IdleWorkerExecutesIff | src/app/core/worker/scheduler.py:219-280 | From any moment of such a run, an idle worker that runs through executes the job iff the lock is free and the last run far enough. |
| Scheduler.ExecuteWrapper | src/app/core/worker/scheduler.py:219-322 | When the wrapper answers duplicate, drift and run, and what it leaves in Redis; all of it as the machine's atomic steps do. |
| Scheduler.Redis.SetLockIfAbsent | src/app/core/worker/scheduler.py:241 | SET NX EX: acquires exactly when no live key is there, and changes nothing otherwise. |
| Compensation.WithCompensation | src/app/integrations/contracts/resilience.py:698-847 | Refuses lists of unequal length and touches nothing; otherwise runs steps to the first failure and undoes the completed ones, last first. |
| Compensation.CompensationContext.CompensateAll | src/app/integrations/contracts/resilience.py:610-666 | Undoes all registered actions, last registered first, with one result each. |
| Compensation.RegisterAndCompensate | src/app/integrations/contracts/resilience.py:573-666 | Registering as steps complete and then compensating all has the same effects as with_compensation and reports the same results, reversed, but for wording. |
| Compensation.UndoAllAt | src/app/integrations/contracts/resilience.py:795-843 | Whatever becomes of the others, refusals and exceptions included, each compensation is tried once, in the world the later ones left, and its result stands at its place. |
| Compensation.ResultBelongsToStep | src/app/integrations/contracts/resilience.py:795-847 | Result i of a failed saga is that of step i's compensation, run after those of all later steps. |
| Compensation.SagaOutcomeIs | src/app/integrations/contracts/resilience.py:746-795 | A saga succeeds iff every step is done in the world the earlier ones left; otherwise it stops at the first that is not and reports its error. |
| Compensation.WordingIsImmaterial | src/app/integrations/contracts/resilience.py:620-664 | The two flows' different wordings change neither effects nor success. |
| Compensation.FailedSagaRollsBack | src/app/integrations/contracts/resilience.py:746-847 | If compensations invert their steps and the failing step changed nothing, the world ends as it began and every result is a success. |
| Compensation.UndoRestores | src/app/integrations/contracts/resilience.py:790-843 | Undoing the completed steps of a run takes the world back through the same states. |
| BulkOperations.ExecuteWithPartialFailure | src/app/integrations/contracts/resilience.py:379-496 | Stops at the first failing item that meets an abort condition; succeeded and failed are the outcomes of exactly the processed prefix in order, of the whole batch if it was not given up; other exceptions escape. |
| BulkOperations.PrefixBound | src/app/integrations/contracts/resilience.py:436-452 | As long as the loop goes on, failures among any first n items are at most ratio times n. |
| BulkOperations.GivesUpIff | src/app/integrations/contracts/resilience.py:423-465 | An item ends the batch iff it fails with a class the policy fails fast on, or failures so far exceed the ratio, or errors are not collected. |
| BulkOperations.FailureStandsAt | src/app/integrations/contracts/resilience.py:430-436 | Each failed item is in its place in the list of failures. |
| BulkOperations.SuccessStandsAt | src/app/integrations/contracts/resilience.py:424-429 | Each result is in its place in the list of successes. |
| BulkOperations.FailureRatioIs | src/app/integrations/contracts/resilience.py:362-367 | The ratio is of all items of the batch, zero for none. |
| BulkOperations.CompletesIff | src/app/integrations/contracts/resilience.py:423-465 | The loop completes iff no prefix exceeds the ratio and no outcome crashes, fails fast, or fails with errors not collected. |
| BulkOperations.FailureShareBounded | src/app/integrations/contracts/resilience.py:362-367 | What the method reports of a batch it did not give up partitions it, fails at most the allowed share, and is ALL_FAILED only with ratio one. |
| BulkOperations.FirstFailureAborts | src/app/integrations/contracts/resilience.py:445-452 | Below ratio one a failing first item ends the batch, whatever would follow. |
| BulkOperations.SuccessesAndFailures | src/app/integrations/contracts/resilience.py:423-465 | Every processed item is in exactly one of the two lists. |
| Identifiers.NormalizeIdempotent | src/app/core/authorization.py:38-41 | Normalising twice is normalising once. |
| Identifiers.NormalizeIs | src/app/core/authorization.py:38-41 | The normal form is what is between the spaces, letter by letter in lower case. |
| Identifiers.NormalizeMappingIs | src/app/core/authorization.py:52-63 | A normalised mapping has for each name but the empty one the last entry's values in normal form. |
| Identifiers.NormalizeMappingNormal | src/app/core/authorization.py:52-63 | Keys and values of a normalised mapping are in normal form and never empty names. |
| Identifiers.NormalizeMappingFixed | src/app/core/authorization.py:52-63 | A normal mapping is unchanged by normalisation, in whatever order its entries come. |
| Authorization.ExpandRoles | src/app/core/authorization.py:185-196 | The worklist ends on every graph, cyclic ones too, with exactly the closure, in whatever order roles are popped. |
| Authorization.ClosureIsClosed | src/app/core/authorization.py:185-196 | The closure is exactly the roles some chain of inheritance reaches; it contains the input and is closed. |
| Authorization.ClosureIsLeast | src/app/core/authorization.py:185-196 | No smaller set around the input is closed. |
| Authorization.ClosureIdempotent | src/app/core/authorization.py:185-196 | Expanding an expanded set adds nothing. |
| Authorization.ClosureMonotone | src/app/core/authorization.py:160-196 | More inheritance and more roles to start from reach no fewer roles. |
| Authorization.ClosureOfUnion | src/app/core/authorization.py:185-196 | Expansion distributes over union. |
| Authorization.MergeGrants | src/app/core/authorization.py:166-176 | The loop adds each entry of the extension to what the policy has, losing nothing. |
| Authorization.Extend | src/app/core/authorization.py:160-183 | The extended policy merges permissions and inheritance and keeps the named roles. |
| Authorization.ExtendedIsNormalized | src/app/core/authorization.py:152-183 | An extended policy is already in the form the constructor would give it. |
| Authorization.PermissionsForRoles | src/app/core/authorization.py:198-202 | The union of the grants of all roles reached. |
| Authorization.BuildSubject | src/app/core/authorization.py:204-231 | The subject has exactly the roles and permissions that RoleIff and PermissionIff describe. |
| Authorization.RoleIff | src/app/core/authorization.py:204-215 | The subject has a role iff a chain of inheritance leads to it from a claim, the default role, or for superusers the admin or superuser role. |
| Authorization.PermissionIff | src/app/core/authorization.py:216-218 | The subject has a permission iff such a role grants it or the user claims it. |
| Authorization.OrdinaryAdminsAreClaimed | src/app/core/authorization.py:211-215 | A user who is no superuser has the admin role only if a claim or the default role leads to it. |
| Authorization.EnsureRolesIff | src/app/core/authorization.py:312-334 | When role checks pass in both modes, and which names a refusal lists. |
| Authorization.EnsurePermissionsIff | src/app/core/authorization.py:337-370 | The same for permissions, with the wildcard. |
| Authorization.HasPermissionIff | src/app/core/authorization.py:281-292 | A permission is held by name or by the wildcard. |
| Authorization.ExtendedIff | src/app/core/authorization.py:160-183 | An extended policy grants and inherits what the policy did and what the extension lists, and nothing else. |
| Authorization.SecondExpansionAddsNothing | src/app/core/authorization.py:215-218 | The second expansion, on the way to permissions, adds nothing. |
| Authorization.EnsurePermissionsPointwise | src/app/core/authorization.py:281-370 | The bulk check agrees with the single one name by name, in both modes; nothing required is refused. |
| Authorization.ExtensionIsMonotone | src/app/core/authorization.py:160-231 | No user loses a role or permission by any extension. |
| Authorization.ExtensionKeepsChecks | src/app/core/authorization.py:281-370 | Every role or permission check that passed passes under any extension. |
| Webhooks.ClearIff | src/app/webhooks/replay.py:161-224 | A delivery clears iff no stored event of its source and endpoint matches it inside the window. |
| Webhooks.NewestIsLastSeen | src/app/webhooks/replay.py:188-224 | The event found is one seen in the window that no other seen one follows, by time and then id. |
| Webhooks.VerdictTells | src/app/webhooks/replay.py:161-272 | Clear iff nothing was seen in the window; otherwise the verdict names an event last seen and what it was recognised by, and is a mismatch iff by an identifier and with another hash. |
| Webhooks.MergedMetadataIs | src/app/webhooks/persistence.py:259-268 | Merged metadata has every key of both sides, the update's value first, and is none without keys. |
| Webhooks.EventTable.Ingest | src/app/webhooks/ingestion.py:209-336 | The first fault, a forged or stale signature before all, is the answer and leaves the table as it was; otherwise one event is stored that says whether it was queued. |
| Webhooks.EventTable.Persist | src/app/webhooks/persistence.py:43-74 | Adds one event in status received, with the next id. |
| Webhooks.EventTable.SetStatus | src/app/webhooks/persistence.py:187-212 | Sets the status and the given columns of one event, merges metadata into what is there, and changes nothing else. |
| Webhooks.EventTable.ScrubExpiredPayloads | src/app/webhooks/retention.py:90-114 | Leaves no expired payload, changes expired rows only, and returns how many rows it changed; none when retention is zero. |
| Webhooks.EventTable.PurgeArchivedEvents | src/app/webhooks/retention.py:136-161 | Every purgeable event is gone, every other is there as often as before, and the count is the number gone. |
| Webhooks.EventTable.RunFullCleanup | src/app/webhooks/retention.py:179-199 | With an archive period at least the window, every later verdict is as if the cleanup had not run. |
| Webhooks.ScrubKeepsNewest | src/app/webhooks/retention.py:90-114 | Scrubbing changes the event a delivery matches in its payload only. |
| Webhooks.PurgeKeepsNewest | src/app/webhooks/retention.py:136-161 | Purging before the window opens leaves the newest match. |
| Webhooks.CleanupKeepsVerdicts | src/app/webhooks/replay.py:161-224 | Cleanup changes no later verdict, nor the event it is said to match. |
| WebhookRuns.ReplayWindowSafety | src/app/webhooks/replay.py:161-224 | In any run of intakes, status changes and cleanups, deliveries of one identity are persisted more than the window apart. |
| WebhookRuns.PersistedIff | src/app/webhooks/ingestion.py:238-301 | A request is persisted iff it is valid, signed as the configuration asks, and nothing was seen in the window; otherwise it leaves no trace. |
| WebhookRuns.HistoryIsAuthentic | src/app/webhooks/ingestion.py:238-262 | Nothing forged, stale or invalid is ever persisted, in any run. |
| WebhookRuns.RunIsSafe | src/app/webhooks/ingestion.py:264-301 | The invariant, whatever the periods: a persisted delivery is in the table unless its archive period is over, and a repeat is persisted only outside the window or once the earlier one is forgotten. |
| WebhookRuns.WindowKeptIff | src/app/webhooks/retention.py:136-161 | Repeats are persisted more than the window apart in every run iff the archive period is at least the window, or every request is refused for want of a verifier. |
| WebhookRuns.ForgottenIsPersistedAgain | src/app/webhooks/retention.py:136-161 | For all settings, with a verifier or without need of one, a delivery is persisted again at the first instant after its archive period. |
| WebhookRuns.SignedDeliveryPersistedOnce | src/app/core/config.py:666-676 | With window at least the signature age plus the lag between the checks, and archive period at least the age, no signed delivery is persisted twice. |
| WebhookRuns.PersistedOnceIff | src/app/core/config.py:666-676 | These two conditions are exactly what it takes. |
| WebhookRuns.SlowCheckPersistsTwice | src/app/core/config.py:666-676 | With a shorter window, for all valid settings, some run persists one signed delivery twice. |
| RateLimiter.Limiter.IsRateLimited | src/app/core/utils/rate_limit.py:50-78 | For every period: the counter table after INCR and EXPIRE, and the comparison of the call's number in its window with the limit; period zero fails and touches nothing. |
| RateLimiter.NegativePeriodNeverCounts | src/app/core/utils/rate_limit.py:59-71 | With a negative period no counter survives its call, and every call is admitted unless the limit is below one. |
| RateLimiter.RunCountsAll | src/app/core/utils/rate_limit.py:59-71 | Until its window closes a counter counts every call and outlives the window. |
| RateLimiter.SameKeyIff | src/app/core/utils/rate_limit.py:59-64 | Calls share a counter iff they are of one subject, one path but for slashes, and one window. |
| RateLimiter.SanitizePathIs | src/app/schemas/rate_limit.py:9-10 | The path without slashes at its ends, with underscores for those inside. |
| RateLimiter.CountedIs | src/app/core/utils/rate_limit.py:66-69 | The call's counter is one higher and lives a period from its first call; every other is as before. |
| RateLimiter.NthCallAdmittedIff | src/app/core/utils/rate_limit.py:59-78 | On a clock that does not go back, the n-th call in a window is admitted iff n is at most the limit. |
| RateLimiter.WindowAdmits | src/app/core/utils/rate_limit.py:59-78 | A window admits the smaller of its calls and the limit. |
| RateLimiter.IntervalAdmitsTwiceTheLimit | src/app/core/utils/rate_limit.py:59-78 | Any interval of one period admits at most twice the limit. |
| RateLimiter.EdgeAdmitsTwice | src/app/core/utils/rate_limit.py:59-61 | For every limit and period, twice the limit is reached within a microsecond. |
| Tokens.AuthService.VerifyToken | src/app/core/security.py:353-391 | Accepts exactly tokens not blacklisted that decode and are of the expected type. |
| Tokens.AuthService.BlacklistToken | src/app/core/security.py:420-430 | Inserts one row with the token's expiry in local time; refuses bad tokens and repeats without change. |
| Tokens.AuthService.BlacklistTokens | src/app/core/security.py:394-417 | Access token first; if that fails the refresh token is not reached. |
| Tokens.AuthService.RotateRefreshToken | src/app/core/security.py:433-453 | Blacklists, then issues a new pair; a consumed token is refused and nothing issued. |
| Tokens.AuthService.DeleteExpiredEntries | src/app/core/db/crud_token_blacklist.py:29-39 | Deletes exactly the rows whose naive expiry is before now in UTC, and returns how many. |
| Tokens.RunIsSafe | src/app/core/security.py:353-453 | The invariant over logins, rotations, logouts and cleanups: revoked tokens are listed or expired, ids are fresh, one unrevoked refresh token a login. |
| Tokens.RevokedNeverVerifies | src/app/core/db/crud_token_blacklist.py:23-39 | A revoked token never verifies again, whatever cleanups run. |
| Tokens.RotationChainIsLinear | src/app/core/security.py:433-453 | No refresh token is rotated twice, and a login never has two that verify. |
| Tokens.LoginIssues | src/app/core/security.py:300-350 | Login issues a new pair that is good for exactly the configured lifetimes, each as its own type only. |
| Tokens.RotationReplaces | src/app/core/security.py:433-453 | Any refresh token that verifies can be rotated; it is spent, and the one in its place is good, for the same subject and login. |
| Tokens.OnlyGoodTokensRotate | src/app/core/security.py:433-444 | Rotating any other token changes nothing. |
| Tokens.LogoutIff | src/app/core/security.py:394-417 | Logout succeeds iff both tokens are good and different, and what a failed one has listed. |
| Tokens.LoggedOutForGood | src/app/core/security.py:394-417 | After it neither token ever verifies again, whatever comes after. |
| Tokens.EarlyCleanupRotatesTwice | src/app/core/security.py:429 | If rows can be deleted before their tokens expire, some run rotates one token twice. |
| Tokens.RotatedOnceIff | src/app/core/db/crud_token_blacklist.py:23-39 | Tokens are rotated at most once in every run iff rows outlive tokens: without leeway, iff the host is not behind UTC. |
| Cache.InferResourceId | src/app/core/utils/cache.py:15-43 | The loop infers the id the specification names. |
| Cache.InferredIdIsLast | src/app/core/utils/cache.py:31-43 | The id is that of the last argument that qualifies; it is refused iff none does. |
| Cache.InferableIff | src/app/core/utils/cache.py:32-43 | Some arguments give an id iff the one accepted type is int or str: tuples and other types never do. |
| Cache.FormattedIff | src/app/core/utils/cache.py:92-111 | Templates come out with texts as written and fields replaced by the arguments of that name, in order. |
| Cache.KeyIff | src/app/core/utils/cache.py:289-300 | The key is the rendered prefix, a colon, and the id of the argument named or inferred. |
| Cache.KeysEqualIff | src/app/core/utils/cache.py:299-300 | Under the same prefix, keys are equal iff the ids are. |
| Cache.KeyRefusedIff | src/app/core/utils/cache.py:289-300 | There is no key iff the prefix cannot be rendered or the call is about nothing; which error it is. |
| Cache.ExtraKeysAre | src/app/core/utils/cache.py:114-142 | The extra keys have the ids of the last entry of each prefix. |
| Cache.ExtraKeysOkIff | src/app/core/utils/cache.py:114-142 | They are built iff every entry comes to a prefix and an id. |
| Cache.InvalidatesIff | src/app/core/utils/cache.py:319-329 | A write deletes its own key, the extra keys, what the patterns match up to the first that cannot be formatted, and nothing else. |
| Cache.Client.DeleteKeysByPattern | src/app/core/utils/cache.py:145-183 | If a full SCAN cycle gives every matching key that was there throughout, no matching key is left, although the loop deletes meanwhile; no other key is touched. |
| Cache.Client.FormatExtraData | src/app/core/utils/cache.py:114-142 | Builds the extra keys by prefix, later ones replacing earlier; one missing argument fails all. |
| Cache.Client.DeletePatterns | src/app/core/utils/cache.py:326-329 | Pattern by pattern up to the first that cannot be formatted. |
| Cache.Client.InvalidateExtra | src/app/core/utils/cache.py:319-329 | Deletes exactly the extra and pattern keys; a failure midway keeps what was deleted before it. |
| Cache.Client.Invoke | src/app/core/utils/cache.py:289-333 | The decorated call: answer, database and cache as the specification has them, on hit, miss, write and error. |
| CacheRuns.TransparentIff | src/app/core/utils/cache.py:289-333 | Every read after any run answers as the undecorated handler iff keys tell reads apart and every write deletes the keys of the reads it changes. |
| CacheRuns.OtherIdsDoNotShow | src/app/core/utils/cache.py:289-317 | On a route with a constant prefix, a read of one id after any reads of others is answered by its own handler. |
| CacheRuns.HitRepeats | src/app/core/utils/cache.py:305-307 | A hit repeats the stored answer without asking the handler. |
| CacheRuns.InvalidatingReadIsRefused | src/app/core/utils/cache.py:301-303 | A GET configured to invalidate is refused, and nothing happens. |
| CacheRuns.WriteAnswers | src/app/core/utils/cache.py:309-333 | A write answers its handler's result iff all its configuration can be formatted; the database is written either way. |
| CacheRuns.DirectIs | src/app/core/utils/cache.py:309-317 | The uncached answer: the result as text, read back, or why there is none. |
| CacheRuns.RunIsFresh | src/app/core/utils/cache.py:298-317 | The invariant: a cached text is what each read with that key would now answer. |
| CacheRuns.DatabaseIgnoresCache | src/app/core/utils/cache.py:305-333 | The database goes through the same states with and without a cache. |
| Redaction.SpellingIsImmaterial | src/app/core/log_redaction.py:11-32 | Case and separators of a field name never matter. |
| Redaction.NormalizeNameIs | src/app/core/log_redaction.py:11-14 | Letters and digits stay, in lower case, and everything else goes. |
| Redaction.SensitiveIff | src/app/core/log_redaction.py:17-32 | A name is sensitive iff its normal form is an exact name or has a fragment somewhere in it. |
| Redaction.ConfiguredIff | src/app/core/logger.py:101-119 | With the logger's configuration: iff it is a spelling of a configured name or has a spelling of a configured fragment in it. |
| Redaction.RuleTakesEffectIff | src/app/core/log_redaction.py:17-32 | An entry matches some field iff it is itself normalised. |
| Redaction.ConfiguredNamesAreSensitive | src/app/core/logger.py:101-119 | As the logger configures it, every spelling of a configured name and every name with a configured fragment in it is sensitive. |
| Redaction.RedactAt | src/app/core/log_redaction.py:35-94 | Path by path: everything outside sensitive names stays where it was, the first sensitive name holds the replacement, nothing is below it. |
| Redaction.RedactIdempotent | src/app/core/log_redaction.py:35-94 | Redacting twice is redacting once. |
| Redaction.RedactKernel | src/app/core/log_redaction.py:35-94 | Two values redact alike iff they differ only below sensitive names. |
| Redaction.EventKernel | src/app/core/log_redaction.py:97-115 | The same for event dictionaries, with idempotence. |
| Backoff.DelaysAgree | src/app/core/worker/retry.py:70-155 | Doubling loop, deterministic function and policy without jitter give the same delay. |
| Backoff.RefusedIff | src/app/core/worker/retry.py:70-132 | Which arguments are refused, and with which error first. |
| Backoff.DoubledIsClosedFormIff | src/app/core/db/database.py:103-111 | The loop computes min(base * 2^i, max) at every attempt iff base is at most max. |
| Backoff.DelayForAttempt | src/app/core/worker/retry.py:119-155 | A delay that the policy allows: the cap without jitter, up to the cap with it. |
| Backoff.DelaysAreBounded | src/app/core/worker/retry.py:119-155 | Whatever the jitter and the attempt, a policy's delay lies between zero and its maximum. |
| Backoff.CapGrows | src/app/core/worker/retry.py:134-155 | The cap never shrinks with the attempt when the multiplier is at least one. |
| Backoff.TotalDelayIsBounded | src/app/core/db/database.py:103-111 | n delays together are at most n times the maximum and at most the geometric sum. |
| Backoff.BuildDatabaseStartupRetryDelays | src/app/core/db/database.py:103-111 | The loop lists the doubled delays, none for attempts below one. |
| Backoff.RetryDatabaseOperation | src/app/core/db/sessions.py:115-158 | Stops at the first call that returned, failed for good or was the last attempt; only errors that may pass are retried, and none of these ends it early; sleeps exactly the listed delays in between; bad arguments make no call; the end of the loop is never reached. |
| Backoff.InitializeDatabaseEngine | src/app/core/db/database.py:114-131 | Connects at most once more than there are delays, sleeping exactly those before each repetition. |

## Left out

- Workflow payloads: step output, error codes, timestamps of states, the log's error texts and the context handed to user steps are not modelled; nor are change tracking of the JSON columns, sessions and commits. An enqueue that raises may roll back what advance recorded.
- WorkflowTheorems.SagaCoverage: is stated for runs whose branches jump forward and definitions with distinct names; for the rest CoverageIff says exactly what is lost.
- Workflow registry, job envelopes and the enqueueing of the next step.
- Scheduler: Redis errors, a time to live below one second (handed to Redis as zero), alert hooks and cron schedules.
- Scheduler.ExecuteWrapper: covers one worker without interleaving; the interleavings are those of the machine.
- Fallback providers, deferred retries and error classification of integrations.
- BulkOperations.ExecuteWithPartialFailure: ratios are exact reals, the source's are floats.
- Authorization: claims arrive as sets and scope strings already split; tenant context and ownership checks. Identifier normalisation covers ASCII.
- Webhooks: payload encodings and header parsing; JSON values are texts; which statuses are final (the default three). None of these enters a verdict. Events are values in a sequence, not shared objects.
- Webhooks: that signatures have an age is a premise on the verifier plugged in; the bundled HMAC verifier checks none.
- WebhookRuns.RunIsSafe: intakes are one after the other. There is no lock or unique constraint, so interleaved ones can both clear.
- RateLimiter: Redis errors, and a crash between INCR and EXPIRE, which would leave a counter without expiry.
- Tokens: signatures, key rings and cookies. A token is taken to have one string form only. That a token decodes is signed-and-not-expired with a leeway. A cutoff passed by hand to the cleanup.
- Cache: concurrent fills, Redis errors, and a client that was never set up; that SCAN cycles end is a premise; templates arrive split into text and fields; what a pattern matches is a parameter; expiry is any forgetting at any time. Whether a given route's configuration covers its writes is for that route.
- Redaction: names outside ASCII, and mappings that are hashable.
- Backoff: delays are reals; jitter is any value in its range; cancellation counts as an error that is not retryable.
- Idempotency keys, dead letters, replay tooling, processing outcomes, queue naming, settings classes, middleware, health, metrics, tracing, admin, migrations.
