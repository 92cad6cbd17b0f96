# Lumora: verified models of five components

A Dafny project that models five pieces of the Lumora code base and proves what they promise.
`dafny verify dfyconfig.toml` checks all of it.

| files | models |
|---|---|
| `FixedWindow.dfy`, `InMemoryLimiter.dfy`, `EvictionCost.dfy`, `PostgresLimiter.dfy` | the request rate limiter: one policy stated on logs, its in-memory and shared-table forms, and what evictions can cost |
| `Grid.dfy`, `Keying.dfy` | green-screen keying of sprites: flood fill, dilation, despill |
| `LeaseTable.dfy`, `LeaseRuns.dfy`, `LeaseOwners.dfy`, `OwnedTick.dfy`, `Supervision.dfy`, `ServiceRun.dfy` | the automation loops: lease rows shared by replicas, the owners that compete for them, one owned tick, supervision, and the run and shutdown of the service |
| `WorkerGuard.dfy`, `WorkerClient.dfy` | the reference worker: effect keys under crashes and lost replies, claim retries, load |
| `CostReport.dfy` | the beta cost report |

## How the models relate to the code

- What the code updates in place is a class here (`InMemoryRateLimiter`, `RateLimitTable`,
  `PostgresRateLimiter`, `AutomationLeases`, `ClaimEndpoint`, `ReferenceWorkerClient`) or a method over
  arrays (`FloodFill`, `Dilate`). Each such method is proved against a function on values, and the
  theorems about whole runs are about that function.
- A rate limiter is seen through its log: the checks it served and the moments it dropped a live window.
  `Conforms` says that every answer is the one the past of its own key calls for. The client-side
  theorems hold for every conforming log; both limiters are proved to produce conforming logs.
- Lease theorems compare the row with what each owner knows from its own steps alone, over any
  interleaving of claims, renewals, records and releases.
- `LeaseOwners` makes each owner a process with a phase. All it assumes is that no step of an owner comes
  three quarters of a lease or more after it was due, and that the owner is not that late at the end.
- An owned tick, and the run of the service, are state machines over scheduling steps. They allow more
  schedules than asyncio does. Where a cancellation is delivered follows asyncio: to the awaited task if
  that is going on, and otherwise at the point where the coroutine waits.
- The worker model interleaves sessions, lost replies, crashes and recoveries freely, and does not
  refuse an acknowledgement or a submit for an expired lease, so it allows more runs than the server.

## Findings

- `rate_limit.py:170-174` calls eviction the safe direction, in that the limiter "must not start
  rejecting legitimate traffic because of its own bookkeeping". No key within its budget is ever rejected
  (`WithinBudgetNeverRejected`), but the bounded limiter can reject a check that the unbounded one
  admits (`EvictionCanCostAnAdmission`). Dropping a window is safe in that sense if and only if it has
  expired (`SafeToDropIffExpired`), so a first eviction can cost its key an admission exactly if the window
  was live (`EvictionCostsIffLive`); `CanCostIffStricter` gives the condition after any trace.
- `automation.py:126-127` treats an empty `owner_id` as no owner, so a lease held under the empty id is
  taken over while it is live. Exclusion holds if and only if both ids are non-empty
  (`ExclusionNeedsNames`); the service never runs under an empty id (`ServiceOwnerId`).
- `build_leon_production.py:93-94` (key out a pixel in the despill pass) can never fire: such a pixel is
  a candidate and has been handled before.
- `automation.py:519-521` (cancel the heartbeat after the final await) is not reached by any schedule of
  the tasks and of cancellations (`FinalCleanupNeverFires`).
- `automation.py:363-406`: `run` looks at its loops once. A loop that fails for good after that look is
  not raised (`LateFailureIsLost`); it is raised exactly if it had failed by the look and `run` is not
  cancelled (`RaisedIffFailedByLook`).
- `automation.py:385-400`: a cancellation of `run` during its own shutdown skips the release; the leases
  then only run out (`CancelledShutdownKeepsLeases`, and exactly when: `EndsReleased`). `main` stops the service by the stop event and does not cancel it.
- `client.py:282-340`: an acknowledgement that raises, a submit without an answer, an executor that is
  cancelled, and a renewal that raises anything but an HTTP error each leave the load one too high
  (`FailedAckIsCounted`, and exactly when: `LoadIsExactIffAllSubmitted`); the last two also drop the result of an execution (`RunOne`).
- `client.py:290-301`: a reply without `provider_effect_created` is executed, so under any keys it could
  lead to a second start (`SilentReplyStartsTwice`). The server always sends the flag.

## Assumptions

- Times sampled by the steps of one trace do not go back; the monotonic clock starts at or above zero.
- Each row-locked transaction, each upsert and each cleanup is one atomic step.
- Times and amounts are exact reals; counters are unbounded integers.
- Limiters of one tier share one window length, across replicas.

## Model

| member | source | states |
|---|---|---|
| `FixedWindow.RejectionIsEarned` | apps/api/app/core/rate_limit.py:193-204 | In every conforming log, a rejected check had `maxRequests` admissions of its key strictly within the last window |
| `FixedWindow.WithinBudgetIsAdmitted` | apps/api/app/core/rate_limit.py:193-202 | A key with fewer than `maxRequests` checks in the last window is admitted |
| `FixedWindow.SpanInvariant` | apps/api/app/core/rate_limit.py:193-204 | What holds at every moment of a span: openings no eviction explains are a whole window apart, and admissions are covered by the windows opened |
| `FixedWindow.AdmissionBound` | apps/api/app/core/rate_limit.py:167-204 | In every half-open span of `k` windows a key is admitted at most `(k + 1 + e) * maxRequests` times, `e` counting the evictions of its live window in the span |
| `FixedWindow.TwiceTheBudget` | apps/api/app/core/rate_limit.py:193-204 | Without evictions any one-window span admits at most twice the budget |
| `FixedWindow.RetryAfterIsExact` | apps/api/app/core/rate_limit.py:200-204 | `0 < retryAfter <= window`; a later check of the key is rejected before that moment and the first at or after it is admitted; later rejections name the same moment |
| `FixedWindow.HeaderSuffices` | apps/api/app/core/rate_limit.py:335-339 | The header value always exceeds `retryAfter`, by at most a second, and waiting that long gets the key admitted |
| `FixedWindow.ForgettableIffExpired` | apps/api/app/core/rate_limit.py:155-176 | Dropping a window changes no later answer if and only if the window has expired |
| `FixedWindow.BurstFromWindow` | apps/api/app/core/rate_limit.py:200-204 | A live window admits exactly the rest of its budget out of a burst |
| `FixedWindow.CostsNothingIffNoStricter` | apps/api/app/core/rate_limit.py:170-176 | Replacing the window of a key by another one costs it no later admission if and only if both have expired, or both are live, started together, and the new one has counted no more |
| `FixedWindow.SafeToDropIffExpired` | apps/api/app/core/rate_limit.py:170-176 | Dropping a window costs its key no later admission if and only if it has expired |
| `FixedWindow.ConformingAnswers` | apps/api/app/core/rate_limit.py:186-204 | A key that never loses a live window gets, check for check, the answers of the unbounded limiter |
| `InMemoryLimiter.NewInMemoryRateLimiter` | apps/api/app/core/rate_limit.py:128-148 | Construction succeeds exactly on accepted parameters, with an empty map |
| `InMemoryLimiter.InMemoryRateLimiter.Sweep` | apps/api/app/core/rate_limit.py:155-165 | The rebuilt map holds the unexpired windows in their order, and the next sweep is one window away |
| `InMemoryLimiter.InMemoryRateLimiter.MakeRoom` | apps/api/app/core/rate_limit.py:167-184 | Sweep when due, then pop from the left until one more entry fits under the cap |
| `InMemoryLimiter.InMemoryRateLimiter.AssignAndMoveToEnd` | apps/api/app/core/rate_limit.py:197-198 | The key has one entry, at the end, with a new window |
| `InMemoryLimiter.InMemoryRateLimiter.Check` | apps/api/app/core/rate_limit.py:186-204 | Answer and whole new state are those of the specification functions the trace theorems are about |
| `InMemoryLimiter.SurvivorsMembers` | apps/api/app/core/rate_limit.py:161-164 | The sweep keeps exactly the windows started after the cutoff |
| `InMemoryLimiter.CheckKeepsMap` | apps/api/app/core/rate_limit.py:144-204 | Every check keeps the map invariant: distinct keys, size, order by start, counts within budget, and sweep times |
| `InMemoryLimiter.RunKeepsMap` | apps/api/app/core/rate_limit.py:144-204 | The map invariant holds after every trace |
| `InMemoryLimiter.TrackedKeysStayBounded` | apps/api/app/core/rate_limit.py:150-153 | After every trace the size is at most the cap and the leftmost entry is an oldest window |
| `InMemoryLimiter.OpeningLeavesYoungWindows` | apps/api/app/core/rate_limit.py:155-199 | After a check that opens a window, in any trace, every tracked window is younger than two windows |
| `InMemoryLimiter.PopsAtMostTheOldest` | apps/api/app/core/rate_limit.py:183-184 | In any trace the eviction loop pops at most one entry, no younger than any other |
| `InMemoryLimiter.CheckConforms` | apps/api/app/core/rate_limit.py:186-204 | One check extends a conforming log to a conforming one and keeps map and policy in agreement, whatever is swept or evicted |
| `InMemoryLimiter.RunConforms` | apps/api/app/core/rate_limit.py:186-204 | Every run of the bounded limiter conforms to the fixed-window policy, in time order |
| `InMemoryLimiter.NoWrongfulRejection` | apps/api/app/core/rate_limit.py:167-204 | Over any trace, sweeps and evictions included, a rejection means `maxRequests` admissions of the same key strictly within the last window |
| `InMemoryLimiter.WithinBudgetNeverRejected` | apps/api/app/core/rate_limit.py:170-174 | A key that stays within budget in every sliding window is never rejected |
| `InMemoryLimiter.RealBound` | apps/api/app/core/rate_limit.py:167-204 | The `(k + 1 + e) * maxRequests` bound for every trace of the bounded limiter |
| `InMemoryLimiter.BoundedRetryAfter` | apps/api/app/core/rate_limit.py:203-204 | The Retry-After promise for every trace of the bounded limiter |
| `InMemoryLimiter.BoundedRefinesUnbounded` | apps/api/app/core/rate_limit.py:155-204 | A key whose live window is not evicted gets the unbounded answers, whatever happens to other keys |
| `InMemoryLimiter.EvictionCanCostAnAdmission` | apps/api/app/core/rate_limit.py:170-174 | Counterexample to the stronger reading of the comment: a rejected check that the unbounded limiter admits |
| `EvictionCost.LeavesIffFull` | apps/api/app/core/rate_limit.py:183-184 | In any trace, a live window of another key leaves the map exactly at a check that opens a window while, after the due sweep, the map is at its cap with that window in front |
| `EvictionCost.FewKeysAreUnbounded` | apps/api/app/core/rate_limit.py:182-184 | A trace that asks about at most `maxTrackedKeys` distinct keys logs no eviction, and every key gets the unbounded answers |
| `EvictionCost.CanCostIffStricter` | apps/api/app/core/rate_limit.py:170-184 | After any trace, coming back can cost a key an admission the unbounded limiter gives if and only if its tracked window is stricter than the unbounded one |
| `EvictionCost.EvictionCostsIffLive` | apps/api/app/core/rate_limit.py:183-184 | For a key that has lost no live window so far, the check that pops a live window of it is exactly the check after which coming back can cost it an admission |
| `InMemoryLimiter.CheckIsPaidFor` | apps/api/app/core/rate_limit.py:155-199 | Entries scanned plus credit left never exceed credit before plus two for an opened window |
| `InMemoryLimiter.SweepsAreAmortised` | apps/api/app/core/rate_limit.py:155-165 | All sweeps of a trace together scan at most two entries per window opened |
| `PostgresLimiter.NewPostgresRateLimiter` | apps/api/app/core/rate_limit.py:210-232 | Construction succeeds exactly on accepted parameters; the cleanup interval defaults to the window |
| `PostgresLimiter.RateLimitTable.Upsert` | apps/api/app/core/rate_limit.py:58-96 | The row inserted, restarted at expiry, or counted up, and no other row touched |
| `PostgresLimiter.RateLimitTable.Cleanup` | apps/api/app/core/rate_limit.py:98-110 | Deletes a batch of expired rows, oldest expiry first, full unless it takes them all |
| `PostgresLimiter.PostgresRateLimiter.Check` | apps/api/app/core/rate_limit.py:234-260 | Answer, new table and next cleanup time, for a granted and a refused advisory lock |
| `PostgresLimiter.CallExtendsRun` | apps/api/app/core/rate_limit.py:234-260 | A call by any replica extends a run of the table by an upsert and at most one cleanup, and the log by exactly its answer |
| `PostgresLimiter.BatchExists` | apps/api/app/core/rate_limit.py:98-110 | A batch can always be chosen, whatever ties there are |
| `PostgresLimiter.CleanupsDrain` | apps/api/app/core/rate_limit.py:98-110 | Cleanups delete only expired rows, and leave none once their batches can hold all there were |
| `PostgresLimiter.UpsertConforms` | apps/api/app/core/rate_limit.py:77-95 | The upsert answers as the policy and leaves the row that stands for the window of the policy |
| `PostgresLimiter.TierConforms` | apps/api/app/core/rate_limit.py:58-110 | Every interleaving of replicas and cleanups conforms to the policy; on live windows the capped row count is the count of the policy |
| `PostgresLimiter.TiersAreDisjoint` | apps/api/app/core/rate_limit.py:300-306 | The two tiers never write the same key |
| `PostgresLimiter.SharedRefinesUnbounded` | apps/api/app/core/rate_limit.py:58-110 | The shared limiter gives every key the answers of the unbounded limiter |
| `PostgresLimiter.SharedRetryAfter` | apps/api/app/core/rate_limit.py:92-95 | The Retry-After promise for every run of the shared table |
| `PostgresLimiter.LimitersAgree` | apps/api/app/core/rate_limit.py:186-260 | Asked at the same times, the two limiters give a key the same answers |
| `PostgresLimiter.CountersAgree` | apps/api/app/core/rate_limit.py:77-95 | `min(row.count, maxRequests)` is the in-memory count on every live window |
| `PostgresLimiter.SharedBudget` | apps/api/app/core/rate_limit.py:234-260 | No one-window span admits more than twice the budget from all replicas together |
| `Grid.StepIsAdjacent` | apps/leon-android/tools/build_leon_production.py:50-60 | A guarded step stays in the image and moves to a cell at Manhattan distance one: no wrapping between rows |
| `Grid.StepIffAdjacent` | apps/leon-android/tools/build_leon_production.py:50-60 | The guarded steps are exactly the moves to cells at distance one |
| `Keying.Seed` | apps/leon-android/tools/build_leon_production.py:38-41 | Marks and queues an unmarked candidate once; any other index is ignored |
| `Keying.SeedBorder` | apps/leon-android/tools/build_leon_production.py:43-48 | Marks every border candidate and nothing outside the background |
| `Keying.SpreadFrom` | apps/leon-android/tools/build_leon_production.py:50-60 | Marks all candidates next to the popped pixel |
| `Keying.FloodFill` | apps/leon-android/tools/build_leon_production.py:34-60 | Marks exactly the candidates joined to the border by a 4-connected path of candidates, queues each pixel at most once, and ends |
| `Keying.Dilate` | apps/leon-android/tools/build_leon_production.py:63-76 | One round marks exactly the pixels within distance one |
| `Keying.TwoRounds` | apps/leon-android/tools/build_leon_production.py:62-77 | Two rounds reach exactly the pixels within Manhattan distance two |
| `Keying.GreenIs` | apps/leon-android/tools/build_leon_production.py:25-27 | A candidate is opaque, with 95 green and 22 more than the larger of red and blue |
| `Keying.KeyGreen` | apps/leon-android/tools/build_leon_production.py:25-104 | The image returned is the one defined by paths and distances |
| `Keying.KeyedPixel` | apps/leon-android/tools/build_leon_production.py:79-100 | Red and blue never change, alpha is cleared exactly on the background, enclosed candidates, transparent pixels and pixels away from the background are kept |
| `Keying.SpillIsBounded` | apps/leon-android/tools/build_leon_production.py:90-98 | Near the background an opaque non-candidate ends with `g == min(g, max(r, b) + 8)`; so the key-out branch at lines 93-94 never fires |
| `Keying.KeyedCandidates` | apps/leon-android/tools/build_leon_production.py:25-27 | What is still a candidate after keying is exactly the enclosed candidates |
| `Keying.KeyedHasNoBackground` | apps/leon-android/tools/build_leon_production.py:25-104 | A keyed image has no background left |
| `Keying.KeyingIsIdempotent` | apps/leon-android/tools/build_leon_production.py:25-104 | Keying a keyed image changes nothing, for every image |
| `LeaseTable.AutomationLeases.TryClaim` | apps/api/app/automation.py:114-138 | Whole new row, when the claim is refused, and the error for a missing loop |
| `LeaseTable.AutomationLeases.RenewOwned` | apps/api/app/automation.py:141-160 | Extends the lease exactly for a live owner |
| `LeaseTable.AutomationLeases.ReleaseOwned` | apps/api/app/automation.py:163-181 | One statement over all rows |
| `LeaseTable.AutomationLeases.RecordSuccess` | apps/api/app/automation.py:184-209 | Fenced success record |
| `LeaseTable.AutomationLeases.RecordError` | apps/api/app/automation.py:212-234 | Fenced error record |
| `LeaseTable.ReleaseClearsExactlyOwnLive` | apps/api/app/automation.py:163-181 | A release clears exactly the live leases of its owner and no other row |
| `LeaseRuns.RowIsBelieved` | apps/api/app/automation.py:114-234 | In any run, a row that names an owner agrees with what that owner knows from its own steps |
| `LeaseRuns.BeliefIsRow` | apps/api/app/automation.py:114-234 | In any run, the live view of a named owner is what the row says |
| `LeaseRuns.ExclusiveAt` | apps/api/app/automation.py:122-138 | Two named owners never hold one loop at the same time |
| `LeaseRuns.ExclusionNeedsNames` | apps/api/app/automation.py:126-132 | Tenures of two owners never overlap if and only if neither id is empty |
| `LeaseRuns.ServiceOwnerId` | apps/api/app/automation.py:86-100 | The id a service runs under is never empty |
| `LeaseRuns.ClaimRefusedIffHeld` | apps/api/app/automation.py:126-132 | A claim is refused if and only if another named owner holds the loop |
| `LeaseRuns.RenewalGrantedIffHeld` | apps/api/app/automation.py:151-157 | A renewal or record takes effect if and only if its owner holds the loop |
| `LeaseRuns.SilentOwnerExpires` | apps/api/app/automation.py:133-138 | A silent owner keeps exactly its last lease and then holds nothing |
| `LeaseRuns.CrashedHolderIsReplaced` | apps/api/app/automation.py:126-138 | From the last grant plus the lease on, a claim on the loop of a crashed holder is refused only if a third live owner has it |
| `LeaseRuns.ReleasedOwnerHoldsNothing` | apps/api/app/automation.py:163-181 | After a release its owner, taking no more steps, holds no loop, whatever the others do |
| `LeaseRuns.CountersAreConserved` | apps/api/app/automation.py:196-206 | `tick_count` is the number of successes recorded under a live lease and `work_count` the sum of their work, over any run |
| `LeaseRuns.UnfencedRecordIsDropped` | apps/api/app/automation.py:196-234 | A record without a live lease changes nothing |
| `LeaseRuns.RowsStayOk` | apps/api/app/automation.py:133-138 | A held row has `owner_started_at <= last_heartbeat_at < lease_expires_at`; a free row has no start and no expiry |
| `LeaseRuns.ColumnsComeFrom` | apps/api/app/automation.py:133-234 | After any run, which step the heartbeat, the last good tick and the last error come from |
| `LeaseRuns.TenureBegan` | apps/api/app/automation.py:133-138 | The start of a held row is the time of the claim since which its owner has had it without a break |
| `LeaseOwners.WaitsAreQuarterLeases` | apps/api/app/automation.py:103-104 | For every interval the heartbeat period and the between-tick wait are at most a quarter of the lease |
| `LeaseOwners.LeaseIsLeast` | apps/api/app/automation.py:103-104 | The lease is the least whole number of seconds, five or more, that covers four intervals |
| `LeaseOwners.HeartbeatIsInterval` | apps/api/app/automation.py:439-442 | The heartbeat period is the interval, but at least a tenth of a second |
| `LeaseOwners.PunctualOwnerHolds` | apps/api/app/automation.py:432-460 | Over any interleaving of owners that claim, renew under a heartbeat, record, wait, release and crash, an owner whose own steps come less than three quarters of a lease late has the row it believes it has |
| `LeaseOwners.LiveOwnerIsNeverDislodged` | apps/api/app/automation.py:432-460 | For ticks of any length, each renewal, record and between-tick claim of such an owner takes effect, and no claim of anybody else does while it ticks or waits |
| `LeaseOwners.AtMostOneOwnerTicks` | apps/api/app/automation.py:530-562 | At every moment of every run, of any two such owners at most one ticks a loop or waits between two ticks of it |
| `LeaseOwners.LongTickIsPunctual` | apps/api/app/automation.py:432-460 | A tick with any number of renewals, each made when due, is such a run |
| `LeaseOwners.NextTickIsPunctual` | apps/api/app/automation.py:530-562 | So is a record followed by the next claim when it is due |
| `OwnedTick.ScheduleKeepsOk` | apps/api/app/automation.py:462-528 | The invariant of every schedule of the tick task, the heartbeat task and the coroutine that waits for both |
| `OwnedTick.EndedMeansFinished` | apps/api/app/automation.py:481-528 | Every schedule that ends has both tasks finished, and a lost lease is recorded neither as success nor as error |
| `OwnedTick.OutcomeIsTheVerdict` | apps/api/app/automation.py:481-528 | Without cancellation the outcome is the one the two tasks call for; a lost lease always ends as the ownership error |
| `OwnedTick.CancelledOutcome` | apps/api/app/automation.py:497-501 | The exact outcome of every schedule: the cancellation exactly if it arrived when nothing could absorb it, the heartbeat took it, or the tick ended cancelled and the heartbeat had not raised first; otherwise the verdict |
| `OwnedTick.CancellationSurfaces` | apps/api/app/automation.py:481-501 | A cancellation in the first wait, or while the tick is joined, is the outcome of every schedule that goes on from there |
| `OwnedTick.CancellationIsPassedOn` | apps/api/app/automation.py:497-521 | Wherever the coroutine stands, a cancellation is to be raised there or reaches the awaited task, which can take it |
| `OwnedTick.TickDecides` | apps/api/app/automation.py:481-528 | A schedule, with a renewal in it, for each result of the tick |
| `OwnedTick.HeartbeatDecides` | apps/api/app/automation.py:490-496 | A schedule in which a refused, or failed, renewal cancels the tick and decides |
| `OwnedTick.FinalCleanupNeverFires` | apps/api/app/automation.py:516-521 | No schedule reaches the clean-up of the final await: a cancellation during it goes to the heartbeat, and one raised there arrived when the heartbeat was over |
| `OwnedTick.StepsAreSpent` | apps/api/app/automation.py:443-460 | Each scheduling step uses up a measure; only renewals and outside cancellations add to it |
| `OwnedTick.NeverStuck` | apps/api/app/automation.py:481-528 | A schedule that has not ended can always go on |
| `OwnedTick.SchedulesAreBounded` | apps/api/app/automation.py:481-528 | A schedule has at most nine steps plus two per renewal or outside cancellation |
| `Supervision.RunLoop` | apps/api/app/automation.py:530-562 | Returns exactly if it sees the stop event before a turn breaks it, and otherwise ends as that turn does; survives a lost lease and a failed tick; waits the right time |
| `Supervision.WhatBreaksALoop` | apps/api/app/automation.py:462-528 | A tick breaks its loop if and only if a renewal failed, the record raised, or a cancellation came out of it |
| `Supervision.WhatClaimsDo` | apps/api/app/automation.py:534-546 | A claim that raises ends the loop with that exception; a refused one never ends it |
| `Supervision.RunAttempt` | apps/api/app/automation.py:410-417 | One pass of the supervisor, with its end determined by the attempt |
| `Supervision.SuperviseLoop` | apps/api/app/automation.py:408-430 | The script of attempts determines the end, the crashes and the stop event: it goes on exactly after a crash, at most `n` of them, the last of which sets stop and raises, and waits the unit times the crashes so far |
| `Supervision.OneSupervisorEnd` | apps/api/app/automation.py:410-423 | An attempt has one end, and none if it crashed |
| `Supervision.BackoffIsBounded` | apps/api/app/automation.py:424-430 | Total backoff is at most `b * n * (n - 1) / 2` |
| `ServiceRun.FirstFatal` | apps/api/app/automation.py:364-383 | The look at the loops finds the first that condemns `run` |
| `ServiceRun.VerdictIsFirst` | apps/api/app/automation.py:364-383 | Which loop that is, and with which error |
| `ServiceRun.RaisedIffFailedByLook` | apps/api/app/automation.py:363-406 | The failure of a loop is raised from `run` if and only if it was the first to have happened by the look and `run` was not cancelled; nothing else but a cancellation is ever raised |
| `ServiceRun.QuietRunsRaise` | apps/api/app/automation.py:363-406 | Unless it was stopped from outside or a loop was cancelled before the look, `run` ends by raising the error of a loop that failed for good |
| `ServiceRun.LateFailureIsLost` | apps/api/app/automation.py:363-406 | For any number of crashes allowed, a schedule in which a loop fails for good after the look and `run` ends normally |
| `ServiceRun.EndsReleased` | apps/api/app/automation.py:385-400 | Every end of `run` finds all loops ended, and its leases released if and only if it was not cancelled during the shutdown |
| `ServiceRun.CancelledShutdownKeepsLeases` | apps/api/app/automation.py:385-400 | A schedule in which `run` is cancelled during its shutdown and ends without releasing its leases |
| `ServiceRun.CrashesAreBounded` | apps/api/app/automation.py:416-423 | A loop crashes at most `n` times, fails for good exactly at the `n`-th, and the stop event is then set |
| `ServiceRun.StopIsHeeded` | apps/api/app/automation.py:410-413 | Once the stop event is set a loop at its head, or at the end of a turn, can return |
| `ServiceRun.TimedOutLoopsAreCancelled` | apps/api/app/automation.py:388-397 | A join that lasts too long can be given up, and then every loop that is not over can be cancelled |
| `ServiceRun.NeverStuck` | apps/api/app/automation.py:384-400 | Once the stop event is set, `run` or one of its loops can always go on |
| `ServiceRun.SchedulesAreBounded` | apps/api/app/automation.py:349-430 | A schedule has at most `3n + 3` steps for each loop and seven more |
| `WorkerGuard.StepKeepsGuarded` | apps/worker/worker/client.py:258-340 | Every step of every interleaving keeps the guard: a start, and a permit to start, each used the key up |
| `WorkerGuard.RunKeepsGuarded` | apps/worker/worker/client.py:258-340 | The guard holds after every run |
| `WorkerGuard.StartsAreBounded` | apps/worker/worker/client.py:290-301 | Starts for an assignment are at most one plus the replies that left the flag out |
| `WorkerGuard.StartsTwice` | apps/api/app/models/provider_effects.py:1-11 | With a key that changes between attempts, a run in which the executor starts twice |
| `WorkerGuard.AtMostOnceIffAttemptIndependent` | apps/api/app/models/provider_effects.py:1-11 | At most one start in every run if and only if the key does not depend on the attempt number |
| `WorkerGuard.DefaultKeyGuards` | apps/api/app/orchestration/provider_effects.py:39-46 | The keys the server derives meet the condition |
| `WorkerGuard.SilentReplyStartsTwice` | apps/worker/worker/client.py:290-301 | A reply without the flag is executed, so it can lead to a second start |
| `WorkerGuard.AcknowledgedAtMostOnce` | apps/api/app/orchestration/dispatcher.py:347-353 | Over every interleaving each attempt of an assignment is acknowledged at most once |
| `WorkerGuard.KeptUntilRecovered` | apps/api/app/orchestration/dispatcher.py:404-413 | Only a recovery takes an in-flight assignment from its worker, and only its accepted submit ends it there |
| `WorkerGuard.RecoverRequeues` | apps/api/app/orchestration/recovery.py:178-257 | A recovery requeues under the next attempt, or ends the assignment after the last |
| `WorkerGuard.WorkGetsDone` | apps/worker/worker/client.py:258-340 | Left alone, a worker starts what it claims once, finishes, and ends it |
| `WorkerClient.ClaimEndpoint.Claim` | apps/api/app/orchestration/claiming.py:164-186 | A token that holds a dispatched assignment is answered with it again; otherwise one may be granted |
| `WorkerClient.ClaimEndpoint.Recover` | apps/api/app/orchestration/recovery.py:68-77 | A recovery clears the token and requeues the assignment or gives it up |
| `WorkerClient.ReferenceWorkerClient.ClaimNext` | apps/worker/worker/client.py:168-212 | The requests determine the result: a grant whose answer arrives is handed out and counted; at most one assignment is off the queue under the token, through lost responses and recoveries between the retries |
| `WorkerClient.ReferenceWorkerClient.Submit` | apps/worker/worker/client.py:232-256 | One assignment less when the response arrives, never below zero |
| `WorkerClient.ReferenceWorkerClient.RenewWhileRunning` | apps/worker/worker/client.py:85-105 | HTTP errors of renewals are passed over; any other error ends them |
| `WorkerClient.ReferenceWorkerClient.RunOne` | apps/worker/worker/client.py:258-340 | When the executor runs, what is submitted, exactly when a run is aborted without a submit, and the load |
| `WorkerClient.LoadIsHandAndLost` | apps/worker/worker/client.py:204-255 | The load is the assignments in hand plus every assignment whose run ended without an answered submit |
| `WorkerClient.LoadIsExactIffAllSubmitted` | apps/worker/worker/client.py:204-255 | The load equals the assignments in hand if and only if every run ended with an answered submit |
| `WorkerClient.FailedAckIsCounted` | apps/worker/worker/client.py:288-290 | After an acknowledgement that raised, nothing is in hand and the load is one |
| `WorkerClient.Work` | apps/worker/worker/main.py:68-80 | Every cycle claims, and runs what it is handed, as its inputs have it; the load is exactly the number of assignments lost |
| `CostReport.EventProblem` | scripts/beta_cost_model.py:143-154 | The first failing check of an event, and that there is none exactly for a well-formed new event |
| `CostReport.OutputProblem` | scripts/beta_cost_model.py:163-173 | The same for an approved output |
| `CostReport.AddEventKeepsTotals` | scripts/beta_cost_model.py:155-160 | The update of the running totals keeps them equal to the sums over the events |
| `CostReport.AddItemKeepsTotals` | scripts/beta_cost_model.py:174-175 | Adding an approved item keeps them equal too |
| `CostReport.TotalEvents` | scripts/beta_cost_model.py:143-160 | An error exactly when an event is malformed or an id repeats, naming the first problem; otherwise the totals are the sums |
| `CostReport.AddOutputs` | scripts/beta_cost_model.py:162-175 | An error exactly when an approved output is malformed or repeated; otherwise the totals hold the distinct items |
| `CostReport.SortKeys` | scripts/beta_cost_model.py:177 | The sorted sequence of the keys |
| `CostReport.SortedIsUnique` | scripts/beta_cost_model.py:177 | A set of keys has only one sorted sequence |
| `CostReport.BuildReport` | scripts/beta_cost_model.py:135-217 | The report is determined by sums over the inputs: an error, or one row per key in order |
| `CostReport.BucketsAddUp` | scripts/beta_cost_model.py:155-157 | Buckets of a workspace-month add up to its total |
| `CostReport.RowsAddUp` | scripts/beta_cost_model.py:155-158 | Row totals add up to all event costs, each event counted once |
| `CostReport.ReportConserves` | scripts/beta_cost_model.py:135-217 | Both conservation laws for every report produced |
| `CostReport.SumPermuted` | scripts/beta_cost_model.py:155-160 | Sums and counts do not depend on the order of events |
| `CostReport.OrderDoesNotMatter` | scripts/beta_cost_model.py:135-217 | Permuting either input gives the same report, or an error both ways |
| `CostReport.RoundingIsNearestEven` | scripts/beta_cost_model.py:102-105 | The rounded value is the one nearest integer, the even one of two |
| `CostReport.PrintedRowAddsUp` | scripts/beta_cost_model.py:204-214 | The eight printed buckets differ from the printed total by at most 0.0004 |
| `CostReport.BoundIsReached` | scripts/beta_cost_model.py:204-214 | That bound is reached, by a report of eight events |
| `CostReport.RowsAreRight` | scripts/beta_cost_model.py:179-216 | Every column of every row from the inputs: counts, cost, each bucket under its own name, price columns exactly where there is a price, throttling exactly when the cost reaches its threshold, and quotients and overage that undo what they come from |
| `CostReport.MoreEventsKeepThrottling` | scripts/beta_cost_model.py:195-197 | Adding events never takes throttling back |
| `CostReport.AcceptedOutputsAddUp` | scripts/beta_cost_model.py:162-175 | The accepted outputs of the rows add up to all approved outputs, each counted once |
| `CostReport.FirstProblem` | scripts/beta_cost_model.py:143-154 | The problem of an event is that of the first check that fails, in the order of the source |
| `CostReport.FirstOutputProblemIs` | scripts/beta_cost_model.py:163-173 | The same for an approved output |
| `CostReport.StripIs` | scripts/beta_cost_model.py:144-146 | A stripped text is what is left between the spaces at both ends |
| `CostReport.MonthIs` | scripts/beta_cost_model.py:86-89 | A month is the first seven characters, if the fifth is a dash |

## Left out

- Floating point, the decimal context precision, NaN and infinite amounts: amounts and times are exact reals.
- Text: `strip` and `lower` are modelled on ASCII; the text of an amount and of a printed number is not.
- Object identity of `_Window` and `Totals`: they are values, so aliasing between map entries is not captured.
- The deque and the ordered map are sequences: their constant-time operations are not captured, scanned entries are counted instead.
- SQL text, sessions, rollback of a failed check, the advisory lock beyond whether it is granted, and races inside one statement.
- `RateLimitMiddleware.dispatch` beyond key, tier and header: exempt paths, the 503 answer, auditing.
- `_sanitize_error`, `_row_status`, health payloads and `main` in `automation.py`: single-branch formatting.
- The tick bodies in `automation.py`, which only call other modules.
- asyncio beyond which step may come next and where a cancellation is delivered; closing a coroutine from outside.
- A database error inside the final release, which would surface as that error.
- PIL conversion, resizing, cropping, screenshots and manifests; only the pixel list of an image is modelled.
- Lease times, workspaces, attempt limits per stage, worker slots, spend reservation and back-pressure on the server side of the worker protocol.
- Heartbeats, registration, draining and log posts of a worker, and other workers at its claim endpoint.
- An explicit effect key sent by a worker in place of the derived one.
- CSV reading and `_load_pricing`: the inputs of the report are parsed rows.
- Migrations, row-level security, ORM declarations and configuration validators: declarative.
