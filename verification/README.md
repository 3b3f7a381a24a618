# Outbound call campaigns: the call pipeline, verified

The repository places outbound phone calls for campaigns. `TriggerCall` stores a call, counts it and puts a
dispatch message on a Kafka topic. A call worker takes a concurrency slot, places the call and publishes its
outcome. The status worker writes the outcome to the call store, the attempt log and the campaign's counters and,
if the call is to be retried, puts it on the retry topic of its attempt. A retry worker sleeps until the retry is
due and dispatches the call again. No single function keeps what an operator relies on: that a call is never in
two places, that the counters add up, that attempts stay within the budget, that a campaign never has more calls
at once than its limit. This project proves such claims.

| file | what it holds |
|---|---|
| `Messages.dfy` | the wire shapes, what each worker builds from them, and their JSON round trips |
| `Pipeline.dfy` | the pipeline as a state machine; faulty steps and clean steps |
| `PipelineFaulty.dfy` | what holds on every run, whatever is redelivered, lost or not written |
| `Gauges.dfy`, `PipelineClean.dfy` | sums over bags of tokens, and the invariant of clean runs |
| `PipelineTheorems.dfy`, `PipelineRest.dfy`, `PipelineTermination.dfy`, `PipelineFailing.dfy` | one token a call, the exact attempt log, the counters, rest and termination; calls that always fail |
| `PipelineHistory.dfy` | what rows, retries and counters owe to the provider's answers |
| `PipelineRuns.dfy` | how steps join into runs; what the refinements below are made of |
| `CallService.dfy`, `CallWorker.dfy`, `StatusWorker.dfy`, `RetryWorker.dfy`, `RetryScheduler.dfy` | the code of each step, and that whatever fails in it, it does what steps of the state machine do |
| `CallStore.dfy`, `Statistics.dfy` | the call tables with their index by status, written one row at a time, and the counters |
| `Limiter.dfy`, `Slots.dfy` | the two Redis scripts, and any number of workers using them, with a clock and without |
| `Backoff.dfy` | retry delays in int64 nanoseconds, with wrap-around |
| `Targets.dfy`, `Scheduler.dfy`, `Draining.dfy` | campaign targets, the scheduler's tick, and runs of ticks: who is dispatched when, and who never |
| `BusinessHours.dfy`, `CampaignService.dfy` | the business-hours test, and the creation of a campaign |

A pipeline state is one multiset of tokens. A token is a message together with the place it is in: a topic, or the
hands of a worker. Topics are unordered because the writer balances by size (`internal/queue/kafka.go:31`), so the
order of a call's attempts comes from the invariant. A step moves one token and makes one write. On a faulty run
any step may leave the consumed message behind (redelivery), lose the message it produces, or skip its write; on a
clean run none does, and the provider keeps the contract of the mock provider
(`internal/telephony/mock/provider.go:32-46`). `origin` and `compensated` are histories: the first message of each
call and the dispatch failures taken back.

## What was found

- **The retry decoding loses the budget.** `RetryMessage` and the `DispatchMessage` embedded in it use one JSON tag
  for `MaxAttempts` (`internal/queue/messages.go:15` and `:47`). The decoder fills only the outer field; the retry
  worker forwards the inner struct (`internal/worker/retry/worker.go:112`). The decoding is a parameter here:
  `Literal` as the code does it, `Intended` as the retry worker relies on it. Every claim is proved for both. Under
  `Literal` no call has more than two attempts, whatever its budget (`BudgetAfterRetry`, `RetriedExactlyBelowCap`),
  and each call may really end so (`FailingCallReachesCap`). So the exponential backoff is never used: every retry waits
  for the smaller of base and cap (`LiteralRetryWaitsBase`).
- **Delays would overflow** if budgets survived the retry topics: a policy is as it should be exactly as long as the
  doubled base fits in an int64 (`PolicyIsExact`). With a base of 1 ms the delays from attempt 59 on are zero
  (`OverflowGivesNoDelay`, `NoDelayAfterSixtyThree`).
- **Small durations are lost.** A base below 1 ms is stored as 0 and becomes 2 s (`PolicyReachesWorker`).
- **Midnight windows cannot be stored.** Creation accepts them and the predicate handles them; the table's CHECK
  refuses them (`db/migrations/postgres/0001_init.sql:42`, `MidnightWindowIsNotStored`).
- **A failed creation leaves a campaign behind**, because the four tables are written one after the other. No number
  can ever be added to it or called for it (`HalfCreatedTakesNoCalls`), but its name stays taken: creating it again is
  refused (`HalfCreatedKeepsName`).
- **Failing targets can starve others.** With batches of n, a target is starved exactly if n older ones fail at every
  tick (`StarvedExactly`, `OldFailuresStarve`, `FewFailuresLetThrough`). Among targets of one age, which all targets of
  one creation are, n failing ones may starve the others, depending on the order the database chooses (`StayExactly`,
  `CreatedTogether`). If fewer than n ever fail in all, the rest drains in a bounded number of ticks
  (`FewFailuresDrain`).
- **Some targets always fail.** An empty number is accepted at creation and refused at every tick; n of them stop
  everything younger (`EmptyNumbersStarve`). In a campaign with more than 10000 targets the same holds for numbers that
  only occur behind the 10000 oldest rows: the look-up does not see them, dispatched or not (`HopelessWaits`,
  `HiddenIsNotListed`).
- **A torn write breaks the status index.** It agrees with the primary table exactly when the operation completes,
  or fails before its first write, or does not change the status (`CreateAgreesExactly`, `UpdateAgreesExactly`). Few
  later updates repair it (`RepairExactly`, `CreateRepairExactly`); one that keeps the status may make an index row
  without a phone number (`UpsertMakesPhantom`).
- **Slots may be exceeded** once a slot outlives the key's expiry (`LateReleaseOverAdmits`, `CountExactExactly`), by
  no more than the forgotten slots (`NoPhantomHolders`). A lost reply of Redis blocks a slot until the key expires
  (`LostReplyBlocks`).
- **Design document and code.** `ARCHITECTURE.md:46` claims a lock around the scheduler that the code does not take;
  the model follows the code and has one scheduler. `ARCHITECTURE.md:47` calls scheduling idempotent; that holds
  only if failed targets can be put back (`AccountKeptExactly`).

## Model

| member | source | states |
|---|---|---|
| Messages.DispatchRoundTrip | internal/queue/messages.go:10-22 | a dispatch message survives the wire unchanged |
| Messages.RetryHop | internal/queue/messages.go:45-49 | what a retry topic does to a message: the embedded budget becomes 0 (as decoded) or the outer one (as intended), all else survives |
| Messages.RetryRoundTrips | internal/queue/messages.go:45-49 | exactly when a retry message survives the wire |
| Messages.StatusReports | internal/worker/call/worker.go:103-134 | what a published status message says: the call's own data; the provider's status and reason, or failed with the error if it gave none; whole milliseconds, the time, and a time for a retry exactly if one is asked for |
| Messages.RetryRetries | internal/worker/status/worker.go:111-127 | what a retry says: the same call, one attempt on, due at the time the failed attempt gave |
| Statistics.StatisticsTable.Ensure | internal/repository/postgres/statistics_repository.go:26-33 | a zero row appears if there was none; existing counters stay |
| Statistics.StatisticsTable.ApplyDelta | internal/repository/postgres/statistics_repository.go:51-73 | all six deltas are added at once to one campaign, or nothing changes; a campaign without a row stays without |
| PipelineFaulty.StepKeepsTokenOk | internal/worker/status/worker.go:110-127 | any worker handed a sound message of a call hands on a sound message of the same call |
| PipelineFaulty.StepKeepsFaultyInv | internal/worker/status/worker.go:43-138 | every step, faulty or not, keeps the payload, budget, routing and balance invariants |
| PipelineFaulty.FaultyRunIsSafe | internal/worker/status/worker.go:88-132 | on every run: payload and registered phone preserved, attempts within the cap, retry topic k holds only attempt k+1 below the budget, total - compensated = completed + failed + pending, in_progress = 0 |
| PipelineFaulty.FaultyRunLogsSoundRows | internal/repository/scylla/call_store.go:206-215 | on every run each attempt row belongs to its call and attempt, within the cap |
| PipelineFaulty.BudgetAfterRetry | internal/worker/retry/worker.go:112 | after one retry a message's budget is 0 and no second attempt is retryable (as decoded), or it is the original budget (as intended) |
| PipelineFaulty.LiteralRetriesFirstOnly | internal/worker/call/worker.go:110 | under the literal decoding no message but of a first attempt is ever retryable, on any run |
| PipelineFaulty.RetriedExactlyBelowCap | internal/worker/call/worker.go:110-134 | a failure that asks for a retry gets one exactly below the cap: the budget, or at most 2 under the literal decoding |
| PipelineClean.StepKeepsOneEach | internal/worker/status/worker.go:110-132 | no clean step duplicates or loses a call's token |
| PipelineClean.StepKeepsCleanInv | internal/worker/status/worker.go:43-138 | one token a call, an attempt log and call record that say what the token says, exact counters: kept by every clean step of every worker |
| PipelineClean.CleanRunReaches | internal/worker/status/worker.go:43-138 | that invariant holds in every state that a clean run reaches |
| PipelineTheorems.OneTokenPerCall | internal/service/call/service.go:89-133 | each triggered call has exactly one token in flight or archived; in flight means not ended, archived means ended |
| PipelineTheorems.EndedCallSays | internal/worker/status/worker.go:68-138 | what an ended call leaves in record and log, for each of the three ways to end |
| PipelineTheorems.EndedStaysEnded | internal/worker/status/worker.go:43-138 | nothing ever follows the end of a call: no row, no change of its record |
| PipelineTheorems.AttemptLogIsExact | internal/repository/scylla/call_store.go:206-215 | a call's rows are exactly 1..k within the cap, all before the last retryable failures, and only such a failure is followed by another attempt |
| PipelineTheorems.EnoughTopicsStrandNone | internal/queue/retry_scheduler.go:27-31 | with MaxAttempts-1 retry topics the range check strands no call, on any run |
| PipelineTheorems.RetryableAboveTopicsStrands | internal/queue/retry_scheduler.go:27-31 | on any clean run a call with a retryable row above the topic count is stranded or about to be, at attempt topics + 1 |
| PipelineRest.EndedByItsLog | internal/worker/status/worker.go:74-132 | on any clean run an ended call is stranded exactly if its last row is retryable, and then that attempt is above the topic count; refused exactly if it has no rows |
| PipelineTheorems.PendingIsLivePlusStranded | internal/worker/status/worker.go:88-108 | pending_calls exceeds the live tokens by the stranded calls, at every moment of every clean run |
| PipelineTheorems.PendingIsLive | internal/worker/status/worker.go:88-108 | with enough retry topics pending_calls is the number of live tokens |
| PipelineRest.AtRestCountersMatchLog | internal/worker/status/worker.go:74-108 | with nothing in flight all counters are those recomputed from the attempt log |
| PipelineRest.AtRestAllClosed | internal/service/call/service.go:107-133 | with nothing in flight and enough topics, pending is 0 and completed + failed = total - compensated |
| PipelineRest.AtRestRecordsMatchLog | internal/worker/status/worker.go:68-86 | with nothing in flight a call's record repeats its last row |
| PipelineRest.RetriesMatchLog | internal/worker/status/worker.go:90-92 | at every moment retries_attempted is the sum of recorded attempts less one per call, up to the attempts logged and about to be counted |
| PipelineHistory.RowsSayWhatWasAnswered | internal/worker/call/worker.go:99-139 | on every run, whatever fails, each attempt row goes back to a placed call of that call and attempt, and says what the provider said of it |
| PipelineHistory.PlacedOnce | internal/worker/call/worker.go:99-139 | on a clean run no attempt of a call is placed twice |
| PipelineHistory.ForwardedNotBefore | internal/worker/retry/worker.go:105-119 | on every run attempt k+1 is forwarded only after attempt k was placed and wanted a retry, and not before the time computed for it then |
| PipelineHistory.RetriesAreDueByLog | internal/worker/status/worker.go:110-127 | on a clean run a retry in topic k is due when the row of attempt k says |
| PipelineHistory.CountersCountAnswers | internal/worker/status/worker.go:93-102 | at every moment of a clean run completed, and failed, plus the outcomes under way are the numbers of calls that the provider answered so |
| PipelineHistory.AtRestCountersAreAnswers | internal/worker/status/worker.go:93-102 | with nothing in flight completed and failed are those numbers |
| PipelineTermination.StepReducesWork | internal/worker/call/worker.go:110 | every clean step other than a trigger lowers a measure of the remaining attempts and stages |
| PipelineTermination.RunsAreBounded | internal/worker/status/worker.go:110-132 | a clean run has at most as many steps as there was work at its start and its triggers brought |
| PipelineTermination.RunsFromStartAreBounded | internal/worker/status/worker.go:110-132 | a clean run from the start that triggers n calls of at most budget b has at most n(13 + 16(b - 1)) steps |
| PipelineFailing.FailingCallReachesCap | internal/worker/retry/worker.go:112 | with enough topics a call may fail at every attempt until it is closed as failed exactly at its cap: its budget, or 2 under the literal decoding |
| PipelineTermination.NothingStuck | internal/worker/retry/worker.go:105-119 | every message in flight has a clean step that can be taken |
| PipelineTermination.RunsToRest | internal/worker/status/worker.go:43-138 | every reachable state can be run to rest within the measure |
| PipelineTermination.StuckOnlyAtRest | internal/worker/status/worker.go:43-138 | a clean run that cannot go on has nothing in flight |
| CallStore.BucketDateIdempotent | internal/repository/scylla/call_store.go:217-219 | the bucket of a time is midnight UTC of the day it shows in its zone, and the bucket of a bucket is itself |
| CallStore.LoadedKey | internal/repository/scylla/call_store.go:87-141 | an update finds the partition that the call was loaded from, though CreatedAt was replaced by the bucket |
| CallStore.CreateAgreesExactly | internal/repository/scylla/call_store.go:25-43 | a create leaves index and primary table in step exactly when it does not fail between its two writes |
| CallStore.UpdateAgreesExactly | internal/repository/scylla/call_store.go:46-84 | an update leaves them in step exactly when it completes, makes no write, or keeps the status; ids stay unique however far it comes |
| CallStore.UpdateKeepsSound | internal/repository/scylla/call_store.go:46-84 | a torn update touches no other call's row, whether or not index and table agreed |
| CallStore.RepairExactly | internal/repository/scylla/call_store.go:54-81 | exactly which completed updates repair a torn one: before its delete only one back to the old status, before its insert only one to yet another status |
| CallStore.CreateRepairExactly | internal/repository/scylla/call_store.go:25-84 | a torn create is repaired exactly by an update to another status |
| CallStore.UpsertMakesPhantom | internal/repository/scylla/call_store.go:62-66 | an update that keeps the status of a call whose index row is missing upserts a row without a phone number |
| CallStore.OperationsKeepAgreement | internal/repository/scylla/call_store.go:25-84 | any sequence of completed operations keeps index and table in step |
| CallStore.OneIndexRowPerCall | internal/repository/scylla/call_store.go:25-84 | each call has exactly one index row, under its status, bucket and phone number |
| CallStore.CreateRefines | internal/repository/scylla/call_store.go:25-43 | the two inserts do to the call records what the pipeline's Register does |
| CallStore.UpdateRefines | internal/repository/scylla/call_store.go:46-84 | an update that makes its first write does what the pipeline's UpdateCall does |
| CallStore.Store.CreateCall | internal/repository/scylla/call_store.go:25-43 | the tables after any number of successful writes; after both, the two rows column by column |
| CallStore.Store.GetCall | internal/repository/scylla/call_store.go:87-141 | finds the call with the id if there is one, with the columns of its row and a bucket from which its key is found again |
| CallStore.Store.UpdateCallStatus | internal/repository/scylla/call_store.go:46-84 | the tables after any number of successful writes, and column by column after all; an unknown call changes nothing |
| CallStore.Store.AppendAttempt | internal/repository/scylla/call_store.go:206-215 | one row per call and attempt; a second one replaces the first |
| RetryScheduler.Scheduler.constructor | internal/queue/retry_scheduler.go:18-24 | one empty topic for each name |
| RetryScheduler.Scheduler.ScheduleRetry | internal/queue/retry_scheduler.go:27-47 | attempt k is appended to topic k and to no other; out of range is an error that changes nothing |
| StatusWorker.HandlingKeepsSound | internal/worker/status/worker.go:68-72 | whatever fails while a message is handled, call ids stay unique |
| StatusWorker.Worker.CountOutcome | internal/worker/status/worker.go:88-108 | the delta put together field by field is the one counted by the pipeline; no campaign or no row, no change |
| StatusWorker.Worker.SendRetry | internal/worker/status/worker.go:110-132 | a retryable failure with a topic appends one record to it that decodes, in either way, to the next attempt of the call, due at its next attempt; nothing else is sent |
| StatusWorker.Worker.Handle | internal/worker/status/worker.go:68-137 | one turn has all four effects and the commit, each independent of the failure of the others; the call's row and the attempt row hold the message's own columns |
| StatusWorker.Worker.Run | internal/worker/status/worker.go:43-138 | the loop folds the turns over what is fetched; failed fetches and undecodable messages touch no database; commits as far as they succeed |
| StatusWorker.TurnIsRun | internal/worker/status/worker.go:68-137 | whatever fails, one turn is a run of five pipeline steps that takes the message from the status topic and settles its call |
| StatusWorker.HandlingRefines | internal/worker/status/worker.go:68-137 | if call tables, log and counters mirror a pipeline state, they mirror the state after those steps when the turn is done, whatever fails in it |
| StatusWorker.InboxRefines | internal/worker/status/worker.go:43-138 | the whole loop is a run of the pipeline to a state that the databases mirror; the retry topics gain, encoded and in order, exactly the retries the pipeline parks, and exactly the calls settled without one end |
| StatusWorker.CleanTurnExactly | internal/worker/status/worker.go:68-137 | the turn is a clean run exactly if record, log, counters, retry and commit were taken |
| StatusWorker.HandlingParksRetry | internal/worker/status/worker.go:110-132 | the record appended to topic k is the retry that the pipeline puts there, and decodes to what the pipeline delivers |
| CallService.Service.ValidatePhone | internal/service/call/service.go:139-159 | accepts exactly the numbers among the campaign's 10000 oldest targets |
| CallService.Service.TriggerCall | internal/service/call/service.go:63-136 | a refused call leaves no trace; an accepted one leaves exactly what the first failing step allows; success exactly when all steps succeed, with row, counters and message field by field |
| CallService.AcceptedIsRegistered | internal/service/call/service.go:77-80 | an accepted number is registered; with at most 10000 targets every registered number is accepted |
| CallService.BatchIsAccepted | internal/service/call/service.go:139-159 | with at most 10000 targets no target of a scheduler batch is refused for its number |
| CallService.AcceptedMayRegister | internal/service/call/service.go:77-126 | an accepted call meets the guard of the pipeline's Register |
| CallService.TraceState | internal/service/call/service.go:101-133 | the steps of an accepted call are a run, whatever fails, with its token where TriggerCall left the call |
| CallService.TriggerRefines | internal/service/call/service.go:101-133 | whatever fails, tables, counters and topic end as that run says; the index agrees exactly if the create was not torn |
| CallService.AcceptedRefines | internal/service/call/service.go:89-126 | in particular for the call and the first message that TriggerCall makes |
| CallService.CleanTraceExactly | internal/service/call/service.go:101-133 | the run is clean exactly if nothing was begun and given up: no write at all, or all with the dispatch accepted or taken back |
| CallWorker.Worker.Report | internal/worker/call/worker.go:103-134 | the message put together and corrected step by step: status and error of the provider, or failed with the error it came with; duration, times and retry as stated field by field |
| CallWorker.Worker.ProcessMessage | internal/worker/call/worker.go:65-146 | one status message unless undecodable or without a slot; a slot is needed exactly with a campaign and a limit, the first poll that is not refused decides, a taken slot is counted once and given back once, in that order; commits as stated |
| CallWorker.ProcessingRefines | internal/worker/call/worker.go:65-146 | processMessage is a run of the pipeline: the dispatch leaves the call topic exactly if committed or passed over, the status topic gains what the worker published, nothing else changes; without a slot only the message is affected |
| CallWorker.CleanExactly | internal/worker/call/worker.go:81-145 | that run is clean exactly if the message got its slot, publication and commit succeeded and the provider kept its contract |
| CallWorker.ReportIsSound | internal/worker/call/worker.go:110-134 | completed is never retryable, a retry is asked only below the budget, with a time exactly then |
| CallWorker.RetryWaitsBaseExactly | internal/worker/call/worker.go:188-214 | a retry waits at least the base delay exactly if there is jitter, or neither the cap nor the wrapped product is below the base |
| CallWorker.RetryWaitsBase | internal/worker/call/worker.go:188-214 | so it does whenever the cap is not below the base and nothing overflows |
| CallWorker.LiteralRetryWaitsBase | internal/worker/call/worker.go:188-214 | under the literal decoding, on any run, every retry waits min(base, max) with jitter: the exponential is never used |
| RetryWorker.Worker.SleepUntil | internal/worker/retry/worker.go:128-141 | succeeds exactly if the deadline had passed or the timer fired, and then the clock is at or past it; else the context ended first |
| RetryWorker.Worker.ConsumeTopic | internal/worker/retry/worker.go:80-125 | clock, forwarded messages and commits after a whole log, with undecodable messages, sleeps cut short, failed dispatches and failed commits |
| RetryWorker.AllDue | internal/worker/retry/worker.go:105-119 | after n messages the clock is past the deadline of each that was waited for |
| RetryWorker.ClockIsRunningMax | internal/worker/retry/worker.go:105-119 | a consumer is never ahead of the running maximum of NextAttempt, and on it if nothing delays it |
| RetryWorker.SentOnTime | internal/worker/retry/worker.go:105-119 | each forwarded message is an accepted one of the log with its own content, sent no earlier than its deadline and those ahead of it |
| RetryWorker.SentInOrder | internal/worker/retry/worker.go:80-125 | log order is kept, and time order |
| RetryWorker.AcceptedAreSent | internal/worker/retry/worker.go:112-119 | every decodable message whose dispatch is accepted is forwarded |
| RetryWorker.ConsumingRefines | internal/worker/retry/worker.go:81-125 | handling one message is a run of the pipeline, whose guard on the time is met: it leaves the retry topic exactly if committed or passed over and is in the call topic exactly if the worker sent it; a failed dispatch or an ended context loses it or leaves it |
| RetryWorker.SentIsRun | internal/worker/retry/worker.go:112-119 | each message sent in a whole log is the one that FetchRetry and Forward at that time put into the call topic |
| RetryWorker.CleanExactly | internal/worker/retry/worker.go:105-124 | the run is clean exactly if the message was forwarded and committed |
| RetryWorker.LogRefines | internal/worker/retry/worker.go:65-126 | consuming a whole log is a run of the pipeline that moves exactly the sent messages into the call topic |
| Limiter.RedisLimiter.constructor | internal/service/concurrency/limiter.go:20-25 | a TTL that is not positive becomes five minutes |
| Limiter.TtlInMilliseconds | internal/service/concurrency/limiter.go:55 | the TTL of a key is the configured one in whole milliseconds, never longer |
| Limiter.RedisLimiter.Acquire | internal/service/concurrency/limiter.go:28-60 | granted exactly below the limit, with the counter one higher and the expiry renewed; bypassed for the nil campaign and without limits; on an error the script has run or not |
| Limiter.RedisLimiter.Release | internal/service/concurrency/limiter.go:63-81 | one less with the expiry kept, or no key at zero; on an error the script has run or not |
| Limiter.RedisLimiter.WaitForSlot | internal/worker/call/worker.go:148-186 | never reaches the bypass of Acquire: a taken slot was counted, one not needed left no trace, and every earlier poll found the limit reached |
| Slots.StepKeepsCountExactly | internal/service/concurrency/limiter.go:39-76 | a step keeps counter = holders exactly unless it waits past a TTL after the last grant while a slot is held |
| Slots.SlotSafety | internal/service/concurrency/limiter.go:28-81 | over all runs with releases in time and without error, any workers and limits: the key lives while a slot is held, the counter is the number of holders, a grant leaves at most its limit |
| Slots.CountExactExactly | internal/service/concurrency/limiter.go:44-49 | over any run without failed scripts, the counter is the number of holders at every moment exactly if no slot is ever held when a TTL has passed since the last grant |
| Slots.NoPhantomHolders | internal/service/concurrency/limiter.go:28-81 | however the key expires and whatever scripts fail, 0 <= counter <= holders + one for each failure; so without failures a refusal means the limit is reached, and a grant exceeds it at most by the forgotten slots |
| Slots.ReleaseRepairs | internal/service/concurrency/limiter.go:71-75 | a release at zero pays back one forgotten slot |
| Slots.LateReleaseOverAdmits | internal/service/concurrency/limiter.go:46-48 | a slot kept for a TTL is granted a second time |
| Slots.LostReplyBlocks | internal/service/concurrency/limiter.go:55-58 | an acquire whose reply is lost takes a slot that nobody holds until the key expires |
| Backoff.NormalizeIsNormal | internal/service/campaign/service.go:316-330 | a normalised policy has 0 < base <= max and a positive budget; exactly such policies are left alone |
| Backoff.NormalizeKeeps | internal/service/campaign/service.go:316-330 | given fields are kept, but for a maximum below the base; missing ones are 5 attempts, 2 s and 2 min |
| Backoff.ComputeNextAttempt | internal/worker/call/worker.go:188-214 | the next attempt is now plus the delay that the bounds below are about |
| Backoff.Exponential | internal/worker/call/worker.go:198-199 | the int64 product of the truncated power and the base is base doubled attempt-1 times, wrapped |
| Backoff.PolicyIsExact | internal/worker/call/worker.go:198-202 | a policy's first n delays are all min(base·2^(a-1), max) exactly if base·2^(n-1) fits in an int64: the first that does not is negative |
| Backoff.WorkerBaseIsEnough | internal/worker/call/worker.go:189-192 | every base that a worker computes from a message is one of which that holds |
| Backoff.UnjitteredExactly | internal/worker/call/worker.go:198-202 | for a single attempt, the delay is that minimum exactly when the doubled base fits or the product happens to wrap to at least the cap |
| Backoff.UnjitteredBounds | internal/worker/call/worker.go:198-202 | it lies in [base, max] while the product fits |
| Backoff.UnjitteredMonotone | internal/worker/call/worker.go:198-202 | it does not shrink from an attempt to a later one |
| Backoff.OverflowGivesNoDelay | internal/worker/call/worker.go:198-202 | with a base of 1 ms attempts 59 to 63, which a call reaches only under the intended decoding, have no delay, whatever the cap |
| Backoff.NoDelayAfterSixtyThree | internal/worker/call/worker.go:198-202 | where converting 2^63 gives the least int64, attempts past the 63rd have none |
| Backoff.JitterBounds | internal/worker/call/worker.go:204-211 | with jitter J the delay lies in [base, delay·(1+J/2)] |
| Backoff.JitterExactly | internal/worker/call/worker.go:204-211 | the jittered delay is delay·(1 + uJ - J/2) to within a nanosecond, or the base if that is more |
| Backoff.DelaySumClosed | internal/worker/call/worker.go:198-202 | the delays of n attempts sum to a geometric series and then a flat part |
| Backoff.PolicyReachesWorker | internal/service/call/service.go:119-121 | what the worker makes of the stored milliseconds, and exactly when base stays at or below the policy's base, and below max |
| Backoff.PolicyDelayBounds | internal/worker/call/worker.go:188-214 | from a normalised policy to the delay: in [base, max] without jitter, at most J/2 above with |
| BusinessHours.MatchesIsCovers | internal/scheduler/scheduler.go:237-255 | the two-part test across midnight is membership in a circular interval of the week |
| BusinessHours.IsWithinBusinessHours | internal/scheduler/scheduler.go:219-259 | open exactly when there are no windows, no time zone, or the minute of the week lies in some circular interval |
| BusinessHours.CoveredMinutes | internal/scheduler/scheduler.go:237-255 | each window covers exactly as many minutes of the week as it is long |
| BusinessHours.MinuteRoundTrip | internal/repository/postgres/business_hours_repository.go:85-89 | minutes survive being read back as clock times |
| BusinessHours.Repository.Replace | internal/repository/postgres/business_hours_repository.go:25-50 | all windows replace the old ones, or on any refused row nothing changes; other campaigns keep theirs |
| BusinessHours.OpenBySet | internal/scheduler/scheduler.go:233-258 | order and repetition of the windows do not matter |
| BusinessHours.StorageKeepsHours | internal/repository/postgres/business_hours_repository.go:25-83 | the test on stored windows, in any order, is the test on those put in |
| CampaignService.Service.Validate | internal/service/campaign/service.go:344-362 | accepts exactly named campaigns in a time zone that loads, whose windows all have a duration |
| CampaignService.Service.Create | internal/service/campaign/service.go:76-124 | which of the four tables are written for every combination of failures, and with what; success exactly when all are |
| CampaignService.CreatedHasItsNumbers | internal/service/campaign/service.go:106-120 | a created campaign has exactly the numbers it was given, through any later sequence of AddTargets |
| CampaignService.HalfCreatedTakesNoCalls | internal/service/campaign/service.go:94-120 | a campaign left by a failed creation can never have a call, whatever is added later |
| CampaignService.HalfCreatedKeepsName | internal/service/campaign/service.go:92-94 | but its name stays taken, so that creating it again is refused |
| CampaignService.CreatedPolicyReachesWorker | internal/service/campaign/service.go:316-330 | through the table and TriggerCall a worker gets the normalised policy in whole milliseconds, base <= max, and a budget above zero |
| Targets.SelectOldest | internal/repository/postgres/target_repository.go:65-94 | the oldest rows first, as many as asked for, with equal ages in any order |
| Targets.TargetTable.BulkInsert | internal/repository/postgres/target_repository.go:27-62 | rows with new ids are added as given under the campaign of the argument, the first of each id; existing rows are kept; all or nothing |
| Targets.TargetTable.NextBatchForScheduling | internal/repository/postgres/target_repository.go:65-94 | the oldest pending targets of one campaign and of no other, as many as asked for or 100 |
| Targets.TargetTable.MarkScheduled | internal/repository/postgres/target_repository.go:97-110 | exactly the named targets of the campaign become queued with the time |
| Targets.TargetTable.SetState | internal/repository/postgres/target_repository.go:113-124 | exactly the named targets of the campaign change state |
| Targets.TargetTable.ListByCampaign | internal/repository/postgres/target_repository.go:127-164 | the oldest targets of one campaign, of one state or of all, as many as asked for or 100 |
| Targets.StatesKeepPhones | internal/repository/postgres/target_repository.go:97-124 | scheduling changes no campaign's set of numbers |
| Targets.InsertKeepsPhones | internal/service/campaign/service.go:291-305 | rows with registered numbers change no campaign's set of numbers |
| Targets.InsertAddsPhones | internal/service/campaign/service.go:106-120 | creation registers exactly the numbers it is given |
| Targets.StoreTargets | internal/service/campaign/service.go:106-120 | the targets part of Create: one pending row for each input, with its number and payload, and no other change; or nothing |
| Targets.RecordsAreGained | internal/service/campaign/service.go:291-301 | with fresh ids the table gains exactly a pending, unscheduled row of the campaign for each input |
| Targets.GainedWait | internal/service/campaign/service.go:291-301 | so exactly the new targets wait besides those that did |
| Targets.AddTargets | internal/service/campaign/service.go:261-307 | accepted exactly when every number is among the campaign's 10000 oldest, and then one pending row is gained for each; whatever happens, no campaign's set of numbers changes |
| Targets.AllAreListed | internal/service/campaign/service.go:266-289 | with at most 10000 targets, the numbers looked at are all the registered ones |
| Targets.HiddenIsNotListed | internal/service/call/service.go:139-159 | a number all of whose targets have 10000 older ones is never seen by the check |
| Targets.VisibleIsListed | internal/service/call/service.go:139-159 | a number one of whose targets has fewer than 10000 others at least as old always is |
| Targets.AddTargetsKeepsPhones | internal/service/campaign/service.go:261-307 | no sequence of additions changes a campaign's set of numbers after Create |
| Scheduler.Scheduler.Tick | internal/scheduler/scheduler.go:54-161 | pending retries put everything off; else each campaign has its turn in order: every open one whose statements succeed has its oldest pending targets marked, triggered, queued or put back, every other is left alone; if failures can be put back, each queued target has had exactly one call and each pending one none |
| Scheduler.AllReached | internal/scheduler/scheduler.go:92-158 | with one turn each, every open campaign is worked on as if it were alone, whatever the others are or do |
| Scheduler.RecordsArrive | internal/service/campaign/service.go:291-301 | the rows of Create and AddTargets are arrivals in the account |
| Scheduler.Scheduler.DispatchBatch | internal/scheduler/scheduler.go:106-156 | which batch is fetched and what becomes of targets, calls, counters and topic, for every answer of the databases |
| Scheduler.Scheduler.TriggerAll | internal/scheduler/scheduler.go:133-149 | the loop triggers each target once in order and collects exactly those that failed |
| Scheduler.BatchIsSent | internal/scheduler/scheduler.go:133-149 | each target either failed or has one message in the call topic, in batch order |
| Scheduler.PendingGrowsBySent | internal/service/call/service.go:107-133 | a batch adds to pending exactly the calls it sent, wherever the others failed, if compensations succeed |
| Scheduler.HealthyBatchDrains | internal/scheduler/scheduler.go:106-156 | with at most 10000 targets and no service failure, every target of a batch is sent and the batch drains |
| Scheduler.BatchMovesOnlyIts | internal/scheduler/scheduler.go:126-156 | no target outside the batch changes |
| Scheduler.BatchKeepsAccount | internal/scheduler/scheduler.go:126-156 | a batch whose failures are put back keeps the account of one call a queued target |
| Scheduler.AccountKeptExactly | internal/scheduler/scheduler.go:151-156 | a batch keeps the account exactly when it had no failures or they could be put back |
| Scheduler.InsertKeepsAccount | internal/service/campaign/service.go:291-305 | new targets enter the account as waiting |
| Scheduler.AccountOverRuns | internal/scheduler/scheduler.go:106-156 | over any run of arrivals and batches from an empty table, each queued target has had exactly one call and each pending one none |
| Scheduler.BatchDrains | internal/scheduler/scheduler.go:126-156 | a batch whose statements succeed is a draining step with the targets that failed in it, among them every one with an empty or hidden number |
| Draining.DrainsBatchByBatch | internal/scheduler/scheduler.go:106-156 | k dispatching ticks without failures take k batches |
| Draining.DrainedExactly | internal/scheduler/scheduler.go:106-156 | n waiting targets are gone after k ticks exactly when k is at least n over the batch size, rounded up |
| Draining.ProgressExactly | internal/scheduler/scheduler.go:133-156 | a tick makes progress exactly when its batch has a target that does not fail |
| Draining.FewFailuresProgress | internal/scheduler/scheduler.go:106-156 | over k dispatching ticks of n, in which f targets ever fail, at least k(n - f) of the others are dispatched, or all |
| Draining.FewFailuresDrain | internal/scheduler/scheduler.go:106-156 | so with f below n all the others are gone after their number over n - f, rounded up, ticks |
| Draining.OldFailuresStarve | internal/scheduler/scheduler.go:151-156 | a target with n older ones that fail at every tick is never dispatched, whatever else fails or changes |
| Draining.FewFailuresLetThrough | internal/scheduler/scheduler.go:106-156 | a target that does not fail, with fewer than n at least as old that ever do, is dispatched within one tick more than there are good ones as old |
| Draining.StarvedExactly | internal/scheduler/scheduler.go:106-156 | without ties, a target is starved exactly if n older ones always fail |
| Draining.StayExactly | internal/repository/postgres/target_repository.go:65-94 | with ties, it may be starved exactly if n failing ones are at least as old, and must be exactly if n are older |
| Draining.CreatedTogether | internal/service/campaign/service.go:106-120 | among targets created together n failing ones may starve any other, and never must |
| Draining.HopelessWaits | internal/service/call/service.go:65-80 | a target with an empty number, or one hidden behind 10000 older targets, is put back at every tick for ever |
| Draining.HopelessStarve | internal/scheduler/scheduler.go:151-156 | n of those stop every younger target for good |
| Draining.EmptyNumbersStarve | internal/service/call/service.go:65-67 | n older targets with empty numbers are enough for that |

## Left out

- CallStore.Store.GetCall: the full table scan behind ALLOW FILTERING has no order in the model; since ids are unique, none matters.
- CallWorker.Worker.ProcessMessage: the worker's configured limiter always exists; the nil limiter of waitForSlot, which behaves like a slot that is not needed, is not a case of its own.
- RetryWorker.Worker.ConsumeTopic: commits are counted, not kept as offsets; that a later commit in a partition passes over an uncommitted message is one of the outcomes of the refinement.
- PipelineRest.RetriesMatchLog: the row is written before the counter, so the source's equality is stated with the attempts in between; at rest there are none.
- Backoff.Jitter: the jitter product is taken over the reals instead of float64; its truncation to nanoseconds is kept.
- Backoff.ComputeNextAttempt: converting a power from 2^63 on to an integer depends on the machine and is a parameter.
- The limiter is not joined to the pipeline: there a slot may be taken at any time, which includes every order the limiter allows.
- The pipeline's attempt rows are kept as the messages they were written from; StatusWorker relates them to the stored columns.
- The set of registered numbers is a constant of the pipeline; Targets.AddTargetsKeepsPhones and Targets.StatesKeepPhones justify that.
- Kafka, PostgreSQL, ScyllaDB and Redis appear as bags, tables and atomic scripts; their errors and the counts of successful writes are parameters.
- hasPendingRetries depends on consumer-group lag and is an arbitrary boolean of a tick.
- Several schedulers at once are not modelled.
- Time zones and daylight saving: the local weekday and minute are inputs.
- Random numbers, clocks and the provider's answer are inputs.
- The campaign's update, start, pause and complete transitions, its time stamps and paging are left out: small one-branch members; what LOWER makes of a name is a parameter.
- List operations of the call store and of business hours are left out but for the fact that their order does not matter.
- HTTP handlers, wiring, configuration, logging and telemetry are left out.
