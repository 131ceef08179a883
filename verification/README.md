# basecradle-router: a verified model of its core

The router accepts webhook deliveries and turns them into wakes of agents, one ordered stream of wakes per agent. This
project models the parts that carry that guarantee, in Dafny, and proves what they promise. Nothing here executes the
router; every statement is a theorem about the model, for all inputs or all runs.

Each stateful class of the source is a Dafny class whose methods make the same assignments in the same order and are
proved equal to a function on the state; the theorems are about those functions, and about runs built from them.

| files | what they hold |
|---|---|
| `SchedulerState`, `WakeScheduler` | the wake scheduler's locked sections: as functions, and as the class with its pump loop |
| `SchedulerProtocol`, `SchedulerInvariant`, `SchedulerTheorems` | submitters, pool threads and the notification protocol as a transition system; its invariant; safety, liveness and fairness over all runs |
| `Breaker`, `BreakerTheory`, `BreakerRefusals`, `BreakerSweeps` | the wake-rate breaker; its refinement of a breaker that forgets nothing; what a refused wake records; what its sweeps leave |
| `BreakerRate`, `BreakerScopes`, `BreakerTight`, `BreakerStreams`, `BreakerStreamLimit` | the rate it enforces, per scope and in terms of the calls' own agents and streams; runs that reach it; exactly when a stream's is reached |
| `Dedup`, `Coalesce`, `Lru`, `Evidence`, `EvidenceLast`, `MapSum`, `Retry`, `Models` | the dispatch half's stores, the bounded retry, the keys |
| `Pipeline`, `DispatchGates`, `PipelineRuns` | `execute`; where it ends, from what its gates and its wake were told; runs that interleave many agents' deliveries |
| `DispatchOnce`, `DispatchStopped`, `DispatchCoverage`, `DispatchBurst`, `DispatchCoalesced`, `DispatchAccounting` | what every run keeps: at most one wake per TTL; dedups after a stop; which completed wakes the coverage store answers for; burst collapse; the wake a coalesced delivery is recorded under; the counters |
| `DispatchScheduled`, `DispatchResolved`, `DepthReports` | the dispatch half joined with the scheduler that runs it and with the registry that names its agents; the scheduler with the evidence store it reports to |
| `Ledger`, `IssueLedgers`, `IssueOrder`, `OwnPulls`, `PullLedgers` | the GitHub ledgers, as a merge of out-of-order reports into an LRU; when arrival order matters; the wakes they decide |
| `LogFmt`, `LogValues` | the journal's value renderer, and the quote-counting reader it must satisfy; what a rendered value keeps of its text |
| `Registry`, `Keyring` | the agent registry and the per-recipient signing keys |
| `Common`, `Text` | options, and logs projected on a key; white space, lower case and decimals |

Three conventions. Times are exact (`real`, or `int` where the source has whole seconds). What the outside world
answers (a clock, a route's recheck, the wake-lock, each attempt of the waker, the webhook's sender) is an input.
The dedup cache and the breaker read their clock before taking their lock, so the theorems that need it say "the
readings do not go back in lock order" as a hypothesis.

Where the source and its own comments disagree, the model follows the source, and there is a run where the comment fails
and a theorem saying exactly when it holds:

- "A refused wake is not recorded" (`breaker.py:267-268`) fails for the wake that trips a scope (`breaker.py:333`), which
  on a stream trip stays in the agent's window too: `RefusedWakeCounts`. It holds exactly for a refusal while cooling
  down: `RefusedRecordsNothingIff`. The rate bound counts admitted wakes only.
- "A dedup exists only downstream of a success within the TTL" (`evidence.py:747-753`) is said of two verdicts, and fails
  for each after a stop, which marks the dedup cache and records coverage like a success (`pipeline.py:708-719`).
  - Refused as seen: `DedupAfterAStop`. It holds exactly when the last wake to complete for the key was not stopped:
    `DedupFollowsOkIff`, and `ResolvedDedupFollowsOkIff` for recipients resolved through the registry.
  - Coalesced: `CoalescedAfterAStop`, with no ok at all. The record names one wake (`CoalesceNamesLatest`), a success
    exactly when that wake was not stopped: `CoalescedIntoOkIff`; when the stream's starts never went back, exactly when
    the stream's last completed wake was not: `CoalescedIntoOkIffLastIs`. The TTL is not kept at all: the wake can be of
    any age (`CoalescedAfterTheTtl`), and none for the delivery's own key is inside the TTL (`NoCoalesceIsADedup`).
- "An idle agent waits behind at most the running wakes" (`scheduler.py:45-47`) fails when agents are already waiting:
  `WaitsLongerThanLanes`. It holds exactly with fewer than `lanes` others ahead: `WaitsAtMostLanesIff`. `WaitsExactly`
  gives the exact wait.
- "Ordered by `updated_at`, not by arrival" fails in the issue ledger for reports that arrive before the first one
  showing `handoff` (`github.py:380-381`): `ForgetsAnEarlierClose`. It holds exactly when the newest report shows the
  label or none does: `OrderDoesNotMatterIff`, with `ForgottenDoNotCountIff` for reports of one second.
- The coverage store can hold an older start than one it evicted: `EvictionCanForgetLaterStart`. It agrees with a store
  that evicts nothing exactly under `AgreesWithUnboundedIff`. Its hits are sound regardless.

## Model

| member | source | states |
|---|---|---|
| SchedulerTheorems.OneWakePerAgent | src/basecradle_router/scheduler.py:139-189 | In every reachable state no two threads run wakes of one agent (the `AgentLocks` guard is never contended), at most `lanes` agents are in flight, `_ready` is duplicate-free, equal to `_ready_set` and disjoint from `_inflight`, a key has a queue only if it is ready or in flight, and an agent waits only while every lane is busy |
| SchedulerTheorems.SubmittedIsDispatchedPlusQueued | src/basecradle_router/scheduler.py:197-240 | Per agent, dispatched followed by queued is exactly what was submitted, in order, and starts run at most one ahead of finishes: nothing lost, doubled or reordered |
| SchedulerTheorems.TurnHolderMoves | src/basecradle_router/scheduler.py:297-323 | Whenever an agent has an outstanding ticket, some thread holds the lowest one and can move |
| SchedulerTheorems.NeverStuck | src/basecradle_router/scheduler.py:242-323 | In every reachable state that is not idle some thread can step without a new submission, even when all pool threads are running or waiting for a turn |
| SchedulerTheorems.StepWorks | src/basecradle_router/scheduler.py:242-323 | Without submissions a ranking of queued, running and undelivered work goes down by exactly one at every step |
| SchedulerTheorems.EveryMaximalRunDrains | src/basecradle_router/scheduler.py:381-398 | Any run without submissions is no longer than the work there was, and a maximal one ends idle and drained |
| SchedulerTheorems.SomeRunDrains | src/basecradle_router/scheduler.py:381-398 | From every reachable state a run to idle exists |
| SchedulerTheorems.IdleMeansDrained | src/basecradle_router/scheduler.py:363-398 | When `wait_idle` holds, every submitted job has finished exactly once in its agent's order, the observer's last count for every agent is 0, no thread is busy, and no queue or ticket entry is left |
| SchedulerTheorems.NotificationsLinearized | src/basecradle_router/scheduler.py:276-323 | At every moment, per agent: one thread at most is in the observer, delivered counts are a prefix of the counts read, those missing are the outstanding tickets, the newest count read is the current pending count, and once none is outstanding the observer holds it |
| SchedulerTheorems.StepQueues | src/basecradle_router/scheduler.py:221-274 | Every step only appends to the dispatch order, and whoever enters the ready queue enters at its back, also an agent that finishes with more work |
| SchedulerTheorems.RoundRobin | src/basecradle_router/scheduler.py:221-274 | Between any two moments of any run, the dispatches since are exactly the agents ahead of a waiting agent, in order and each once, then itself; its index drops by one with each |
| SchedulerTheorems.WaitsExactly | src/basecradle_router/scheduler.py:221-274 | An agent with `i` ahead of it is dispatched by the (i+1)-th completion, neither sooner nor later, whatever is submitted meanwhile |
| SchedulerTheorems.WaitsAtMostLanesIff | src/basecradle_router/scheduler.py:41-47 | The documented bound of `lanes` completions holds exactly for agents with fewer than `lanes` others ahead |
| SchedulerTheorems.WaitsLongerThanLanes | src/basecradle_router/scheduler.py:41-47 | A reachable state with one lane and three agents where that bound fails |
| SchedulerInvariant.StepKeeps | src/basecradle_router/scheduler.py:197-323 | Every step of every thread keeps the whole invariant: placement, conservation, FIFO order, tickets exactly `turn .. seq - 1` although the pair restarts at 0, `_notifying` their number, each notice carrying the count it was claimed with |
| SchedulerState.PumpConserves | src/basecradle_router/scheduler.py:221-240 | A pump changes no agent's owed work or pending count |
| SchedulerState.SubmittedEffect | src/basecradle_router/scheduler.py:197-219 | A submission as a locked section: what it appends to the pool and the ready queue, whom it lets in, the ticket it takes |
| SchedulerState.CompletedEffect | src/basecradle_router/scheduler.py:255-273 | A completion as a locked section: the lane freed, the agent re-entered behind the others if it has more, the pump, the ticket |
| WakeScheduler.WakeScheduler.Submit | src/basecradle_router/scheduler.py:197-219 | The method equals the specified section and keeps the invariant |
| WakeScheduler.WakeScheduler.PumpLocked | src/basecradle_router/scheduler.py:221-240 | The while loop equals the recursive pump: agents taken in ready order until lanes or agents run out, then saturation noted |
| WakeScheduler.WakeScheduler.FinishJob | src/basecradle_router/scheduler.py:255-273 | The post-wake bookkeeping equals the specified section and keeps the invariant |
| WakeScheduler.WakeScheduler.ClaimNotificationLocked | src/basecradle_router/scheduler.py:285-295 | Takes the next ticket of the agent, and takes or settles no other ticket of any agent |
| WakeScheduler.WakeScheduler.DeliverQueueChange | src/basecradle_router/scheduler.py:297-323 | Once its turn has come the store is told the count, and exactly this ticket of all outstanding ones is settled |
| WakeScheduler.IdleIsNothingPending | src/basecradle_router/scheduler.py:363-379 | Between locked sections the idle predicate, which looks only at the lanes, the ready queue and the notifications, holds exactly when no agent has a wake pending and no notification is outstanding |
| Breaker.WakeRateBreaker.AdmitWake | src/basecradle_router/breaker.py:262-362 | Sweep, the two scope loops and the front-popping loop together equal the specified admission |
| Breaker.WakeRateBreaker.Gc | src/basecradle_router/breaker.py:364-379 | Deletes exactly the untripped windows whose newest entry has aged out |
| BreakerTheory.SameOutcomes | src/basecradle_router/breaker.py:262-379 | On every call sequence with ordered clocks the breaker gives the same outcomes as one that keeps every recorded wake forever and counts those since the last reset inside the window |
| BreakerTheory.SweepingKeepsRefinement | src/basecradle_router/breaker.py:364-379 | Sweeping stale windows is unobservable |
| BreakerSweeps.WindowsAreInUse | src/basecradle_router/breaker.py:288-291 | After any run every window held is tripped, or its scope was touched since the last of the sweeps at every 1024th call or less than a window before it |
| Text.DecimalReadsBack | src/basecradle_router/breaker.py:179-184 | The count in a refusal is written in digits that read back as it, without a leading zero |
| BreakerTheory.PoppingIsFiltering | src/basecradle_router/breaker.py:330-332 | On a sorted window, popping from the front leaves exactly the entries inside the window |
| BreakerRate.RateBound | src/basecradle_router/breaker.py:262-362 | In any half-open interval one window long, of any run, a scope admits at most its threshold for each of the cooldowns it takes to cover a window |
| BreakerRate.RateBoundClosedForm | src/basecradle_router/breaker.py:118-143 | That is at most `threshold * ceil(window / cooldown)`, and the threshold itself when cooldown >= window |
| BreakerScopes.AgentCap | src/basecradle_router/breaker.py:262-362 | In any window of any run an agent's admitted wakes, on whatever streams, are at most `max_wakes` for each of the cooldowns it takes to cover a window |
| BreakerScopes.StreamCap | src/basecradle_router/breaker.py:275-362 | And its admitted wakes on one stream at most `stream_max_wakes` for each, whenever that is not 0 |
| BreakerScopes.AgentScopeAlone | src/basecradle_router/breaker.py:275-286 | A call without a stream, or any call with the stream cap off, is decided by the agent's scope, and leaves every other scope as the sweep before it did |
| BreakerScopes.StreamsDoNotMatter | src/basecradle_router/breaker.py:275-286 | With the stream cap off a run's outcomes and state are those of the same calls without streams |
| BreakerScopes.AgentScopeFirst | src/basecradle_router/breaker.py:297-315 | While the agent cools down, a call on a stream is refused in the agent's name, whatever the stream's state |
| BreakerTight.RateIsAttained | src/basecradle_router/breaker.py:262-362 | That bound is reached: a run of an agent's calls that admits the threshold for each of any number of cooldowns that begin inside one window |
| BreakerTight.ClosedFormIsAttained | src/basecradle_router/breaker.py:118-143 | So is `threshold * ceil(window / cooldown)`, for every configuration with a cooldown |
| BreakerTight.BoundedIffCooldown | src/basecradle_router/breaker.py:132-143 | An agent's admitted wakes in a window are bounded at all exactly when the cooldown is positive; with the 0 that is accepted, any number are admitted at one instant |
| BreakerStreams.StreamRateIsAttained | src/basecradle_router/breaker.py:275-362 | A run that admits the stream's threshold for each of any number of cooldowns that begin inside one window, when the agent's threshold is higher; in one cooldown it need only be as high |
| BreakerStreamLimit.StreamBoundReachedIff | src/basecradle_router/breaker.py:275-362 | The stream's `threshold * ceil(window / cooldown)` is reached by some run exactly when the agent's threshold is higher, or as high and one cooldown covers a window: with equal thresholds a stream cannot be tripped again before the agent was |
| BreakerRate.SpanBound | src/basecradle_router/breaker.py:329-356 | The counting core: non-tripping entries spanning less than a window, over at most `n` resets |
| BreakerRate.TrippedRefuses | src/basecradle_router/breaker.py:291-322 | Before `tripped_until` a tripped scope refuses every call that touches it, and no call shortens the cooldown |
| BreakerRate.TrippedRefusesThroughout | src/basecradle_router/breaker.py:291-322 | The same over every run of calls before it |
| BreakerRate.OpenOnlyWhileCooling | src/basecradle_router/breaker.py:291-326 | A scope refuses for cooldown only while its own cooldown runs, so no trip latches |
| BreakerRefusals.OpenIffCoolingDown | src/basecradle_router/breaker.py:291-326 | A call is refused for cooldown exactly when one of its scopes is tripped and has not cooled as the call comes in |
| BreakerRefusals.WhatAWakeRecords | src/basecradle_router/breaker.py:291-362 | An admitted wake is recorded once on all its scopes, a tripping one on the agent's and on the one it trips, one refused for cooldown on none |
| BreakerRefusals.RefusedRecordsNothingIff | src/basecradle_router/breaker.py:262-362 | In every run a refused wake records nothing exactly when one of its scopes is cooling down as the call comes in |
| BreakerRefusals.RefusedWakeCounts | src/basecradle_router/breaker.py:329-356 | A run where a refused wake uses up the agent's window: the agent, allowed two wakes, trips after one was admitted |
| Dedup.DeliveryDeduper.WasSeen | src/basecradle_router/dedup.py:97-113 | The lookup, with its deletion of an expired key |
| Dedup.DeliveryDeduper.MarkSeen | src/basecradle_router/dedup.py:115-125 | The mark, with its periodic sweep |
| Dedup.DeliveryDeduper.Gc | src/basecradle_router/dedup.py:127-132 | The deleting loop leaves exactly the keys newer than the cutoff |
| Dedup.SeenIffMarkedWithinTtl | src/basecradle_router/dedup.py:97-132 | With ordered readings, `seen(k)` is true exactly when the latest mark of `k` in the whole history is less than a TTL old, whatever was deleted or swept |
| Dedup.DisabledFindsNothing | src/basecradle_router/dedup.py:97-125 | With a TTL of 0 nothing is remembered and nothing is found |
| Dedup.CacheSize | src/basecradle_router/dedup.py:115-132 | The cache holds no more than the keys marked in the TTL before the last sweep and fewer than the sweep interval of others |
| Models.DedupKeyNamesOneDelivery | src/basecradle_router/models.py:249-273 | Without colons in source and recipient, two dedup keys are equal exactly when source, recipient and delivery id are |
| Models.KeysCollideIff | src/basecradle_router/models.py:249-273 | Two (source, recipient) pairs can share a key, for non-blank delivery ids, exactly when the joined part of one is a prefix of the other's |
| Models.ColonCollides | src/basecradle_router/models.py:249-273 | Two deliveries to different recipients that share a key |
| Lru.OrderIsRecency | src/basecradle_router/coalesce.py:119-135 | After any writes the dictionary's order is the last `capacity` of the recency order of the keys written |
| Lru.PutEffect | src/basecradle_router/coalesce.py:127-135 | One write: its key last and holding its value, every other survivor unchanged |
| Coalesce.WakeCoverage.RecordWake | src/basecradle_router/coalesce.py:119-135 | The method, with its eviction loop, equals the specified write |
| Coalesce.WakeCoverage.CoveringWake | src/basecradle_router/coalesce.py:137-149 | The lookup: a hit exactly for a stamped event before the held start |
| Coalesce.CoversItsOwnStream | src/basecradle_router/models.py:275-287 | Which deliveries a wake covers, in their own fields: its agent's that happened before it started, of the same origin url whatever their wake arguments, or of the same wake argument when neither has an origin; and under which delivery and start |
| Coalesce.HitsAreSound | src/basecradle_router/coalesce.py:137-149 | Every hit names a wake that agent recorded on that stream, started strictly after the event |
| Coalesce.StartsMoveForward | src/basecradle_router/coalesce.py:119-135 | While a stream is held its start never decreases |
| Coalesce.HeldAreMostRecent | src/basecradle_router/coalesce.py:119-135 | Held are exactly the `capacity` most recently recorded distinct streams |
| Coalesce.BroughtInMeans | src/basecradle_router/coalesce.py:119-135 | The record that brought a held stream in is the one before which it was not among the `capacity` most recent streams and after which it always was |
| Coalesce.SinceIsBroughtIn | src/basecradle_router/coalesce.py:119-135 | That is the record from which the store's entry for the stream counts |
| Coalesce.AgreesWithUnboundedIff | src/basecradle_router/coalesce.py:119-149 | A held stream gives the unbounded map's answer exactly when no record of it from before it was last brought in started later than all its records since: a condition on the records alone |
| Coalesce.AgreesWhenStartsOrdered | src/basecradle_router/coalesce.py:119-149 | So it does for the most recent streams when a stream's starts never go back |
| Coalesce.NoEvictionIsUnbounded | src/basecradle_router/coalesce.py:119-149 | With no more streams than slots the store is the unbounded map |
| Coalesce.EvictionCanForgetLaterStart | src/basecradle_router/coalesce.py:119-135 | The family of record sequences where the held start is older than one already recorded |
| Retry.WithRetry | src/basecradle_router/concurrency.py:124-163 | The loop's calls, its result and its sleeps: exponential, one fewer than the calls, and exhausted only at the bound |
| Retry.CallsIsFirstDecisive | src/basecradle_router/concurrency.py:149-160 | Calls stop at the first ending that is not transient, or at the bound |
| Retry.SleepsAddUp | src/basecradle_router/concurrency.py:149-160 | The sleeps together take one base delay less than the next one would |
| Evidence.ReportMovesOneCounter | src/basecradle_router/evidence.py:668-771 | A record call moves exactly one counter by one, in the agent record and in the row of its route, and no other row |
| Evidence.DocumentConsistent | src/basecradle_router/evidence.py:668-788 | From an empty document, after any calls, each agent counter is the sum of its per-route counters, and the last success named is that of the row it names |
| EvidenceLast.CountsTheReports | src/basecradle_router/evidence.py:668-771 | After any calls, an agent's `ok`, `failed`, `refused` and `deduped`, and each route's, are how many reports of that kind there were |
| EvidenceLast.ShowsTheLast | src/basecradle_router/evidence.py:668-771 | And for each kind the record, and each route's row, shows the last such report: when, its delivery or the first 200 characters of its reason, and where from; nothing when there was none |
| Evidence.EvidenceStore.RecordWakeOk | src/basecradle_router/evidence.py:668-699 | The in-place update equals the specified one |
| Evidence.EvidenceStore.RecordWakeFailed | src/basecradle_router/evidence.py:701-720 | The same for a failure |
| Evidence.EvidenceStore.RecordWakeRefused | src/basecradle_router/evidence.py:722-742 | The same for a refusal |
| Evidence.EvidenceStore.RecordWakeDeduped | src/basecradle_router/evidence.py:744-771 | The same for a dedup |
| Evidence.QueuedIsLastDepth | src/basecradle_router/evidence.py:773-788 | After any calls the document shows for each agent the last depth it was given, whatever wakes were recorded in between |
| DepthReports.ShownIsPending | src/basecradle_router/scheduler.py:297-361 | The scheduler and the store together: while an agent has no notification outstanding, the depth shown for it is the number of its wakes queued or running |
| DepthReports.IdleShowsNothingQueued | src/basecradle_router/scheduler.py:363-398 | Once `wait_idle` holds, in any reachable state, the document shows no wake queued for any agent |
| Evidence.RebuildAgentWake | src/basecradle_router/evidence.py:401-428 | The rebuilding loop migrates the record and each of its rows once |
| Evidence.MigrationIsIdempotent | src/basecradle_router/evidence.py:430-480 | Migrating a migrated record changes nothing |
| EvidenceLast.MigrationMoves | src/basecradle_router/evidence.py:430-480 | A record is migrated exactly when its last refusal is a `duplicate_delivery`: that refusal is then shown as the last dedup with its provenance, no refusal is shown, one count has moved, and nothing else |
| EvidenceLast.MigrationMovesRow | src/basecradle_router/evidence.py:401-480 | The same of each route's row, by that row's own last refusal |
| Evidence.MigrationConservesIff | src/basecradle_router/evidence.py:430-480 | `refused + deduped` is kept, in the record and in each row, exactly when a migrated one has a refusal to move |
| Evidence.MigrationAgainstRows | src/basecradle_router/evidence.py:401-480 | On a consistent record `refused + deduped` still equals the rows' total after migration; `refused` alone does exactly when as many rows as agent records were migrated |
| Evidence.MigrationCanSplitRefused | src/basecradle_router/evidence.py:401-480 | A consistent record whose `refused` no longer equals its rows' after migration |
| Pipeline.WakePipeline.Execute | src/basecradle_router/pipeline.py:354-519 | The whole `execute`: every run leaves exactly two stage records, the lock and where it ended; its verdict, session launches and store updates; any wake is one closed bracket of journal lines |
| Pipeline.WakePipeline.PassGates | src/basecradle_router/pipeline.py:431-468 | The duplicate gates, in order, each with its evidence and its record |
| Pipeline.WakePipeline.PassDispatchGates | src/basecradle_router/pipeline.py:469-511 | Recheck, wake-lock and breaker, in order, each refusal with its reason |
| Pipeline.WakePipeline.WakeAgent | src/basecradle_router/pipeline.py:607-767 | Attempt, stop, exhaustion and success; coverage only for a completed wake; the journal's lines, one for each retry and one for a stop, between a start and an end that is written on every path; the sleeps, half a second and then doubling |
| Pipeline.RecordTells | src/basecradle_router/pipeline.py:431-519 | The stage record tells where a run ended: each verdict has its own, but for a wake that failed in every attempt and one that broke |
| DispatchGates.WhereItEnds | src/basecradle_router/pipeline.py:431-511 | Of an `execute`, in terms of what its gates were told: deduped exactly when seen; coalesced when also covered; dropped when new and the recheck declines; refused by the wake-lock when also the recheck lets it on and the lock declines; refused by the breaker when every earlier gate let it on and the breaker does not admit |
| DispatchGates.LaunchesIff | src/basecradle_router/pipeline.py:431-511 | A session is launched exactly when the delivery is new, recheck and wake-lock let it on, the breaker admits it and an attempt is allowed: one for a probe, otherwise the configured number, and never more |
| DispatchGates.BreakerAskedIff | src/basecradle_router/pipeline.py:502 | The breaker is asked once when every earlier gate let the delivery on, and is left as it was otherwise |
| DispatchGates.HowAWakeEnds | src/basecradle_router/pipeline.py:680-767 | A launched wake goes on while its attempts fail for a passing reason; the last attempt's ending decides between ok, stopped, failed, which is only after all attempts, and unexpected |
| DispatchGates.BrokeBeforeIff | src/basecradle_router/pipeline.py:469-519 | Without a launch a run ends unexpectedly exactly when the recheck raised, or the wake-lock did once it was asked, or no attempt is allowed |
| DispatchGates.WhatTheEvidenceSays | src/basecradle_router/pipeline.py:441-511 | What each verdict leaves in the agent's record, with its reason and under the delivery's own route and provenance; a dropped, stopped or unexpected delivery leaves nothing |
| DispatchGates.FailureIsTheLastError | src/basecradle_router/pipeline.py:719-737 | A failed wake is recorded with its last attempt's error |
| DispatchGates.WhatIsRemembered | src/basecradle_router/pipeline.py:505-517 | An ok or a stop marks its delivery at the time it was marked, and its stream from the start of the attempt that decided; any other ending leaves both stores as the lookup did |
| PipelineRuns.ExecuteIsArriveThenEnd | src/basecradle_router/pipeline.py:354-519 | An `execute` with nothing in between is an arrival followed, if the gates pass, by its ending |
| PipelineRuns.ArriveEffect | src/basecradle_router/pipeline.py:431-511 | The gates never touch coverage and drop at most the looked-up key from the dedup cache; the first two verdicts are those two stores' answers |
| PipelineRuns.EndEffect | src/basecradle_router/pipeline.py:680-767 | Only a wake that completed, ok or stopped, is remembered; a failed one leaves coverage and dedup unchanged |
| DispatchScheduled.ArrivalsAreAdmissible | src/basecradle_router/scheduler.py:242-259 | When a thread the scheduler started takes its delivery to the gates, no other delivery of that agent is inside |
| DispatchScheduled.AdvanceKeeps | src/basecradle_router/scheduler.py:242-274 | After any move of any thread, the agents inside the dispatch half are exactly those with a thread inside, one thread each |
| DispatchScheduled.ScheduledRunIsDispatchRun | src/basecradle_router/scheduler.py:242-274 | Every run of the scheduler's threads through `execute` is one of the runs the dispatch theorems below speak of |
| DispatchOnce.AtMostOneCompletedPerTtl | src/basecradle_router/pipeline.py:433-517 | Over every interleaved run, two wakes of one agent for one dedup key both complete only if the second was looked up at least a TTL after the first was marked |
| DispatchOnce.EveryDedupIsCaused | src/basecradle_router/pipeline.py:433-448 | Every delivery refused as seen follows an ok or a stop for its key less than a TTL old |
| DispatchOnce.NoCoalesceIsADedup | src/basecradle_router/pipeline.py:433-468 | A coalesced delivery follows no completed wake for its own key less than a TTL old, ok or stopped |
| DispatchStopped.DedupFollowsOkIff | src/basecradle_router/evidence.py:744-753 | Where a dedup key is one agent's, a delivery refused as seen follows an ok less than a TTL old exactly when the last wake to complete for its key was not stopped |
| DispatchStopped.DedupAfterAStop | src/basecradle_router/pipeline.py:708-719 | A run with a dedup and no success: a stopped wake, then the same delivery again inside the TTL |
| DispatchResolved.ResolvedDedupFollowsOkIff | src/basecradle_router/resolve.py:20-28 | The same of every run whose deliveries were resolved through one registry, each route by its one kind of recipient: no hypothesis on keys is left, and the ok is of the delivery's own agent |
| DispatchCoverage.HeldIsLatest | src/basecradle_router/coalesce.py:119-135 | After any log of finished executes, what the store holds for a stream is the delivery and the start of its latest-started completed wake since it was last brought in, the last to finish among equals |
| DispatchCoverage.LatestIsUnique | src/basecradle_router/coalesce.py:119-135 | There is only one such wake |
| DispatchCoverage.FoundIffCovered | src/basecradle_router/coalesce.py:137-149 | The store finds a delivery covered exactly when some completed wake of its agent on its stream started after it happened and the stream was not evicted since that wake |
| DispatchCoverage.FewIsResident | src/basecradle_router/coalesce.py:119-135 | A stream is not evicted while the distinct streams recorded since, its own among them, fit the capacity |
| DispatchBurst.CoalescedIffCovered | src/basecradle_router/pipeline.py:433-468 | Over every run, a delivery not refused as seen is coalesced exactly when an earlier completed wake of its agent on its stream started strictly after it happened, and the stream was not evicted in between |
| DispatchBurst.BurstCollapses | src/basecradle_router/pipeline.py:433-517 | Once a stamped delivery completed from an attempt started at s, any later stamped delivery of that agent and stream that happened before s is refused without a session, until the stream is evicted |
| DispatchBurst.BurstCollapsesWhileFew | src/basecradle_router/pipeline.py:433-517 | In particular while no more distinct streams than the store holds completed in between |
| DispatchBurst.OneFollowUp | src/basecradle_router/pipeline.py:449-468 | Of all deliveries queued behind a wake, at most one completes from an attempt that starts after them all, until the stream is evicted |
| DispatchCoalesced.CoalesceNamesLatest | src/basecradle_router/pipeline.py:449-468 | The wake a coalesced delivery is recorded under is a completed wake of its agent on its stream that started after it happened: of those since the stream was last brought in, the last to finish of those that started last, and no other |
| DispatchCoalesced.CoalescedIntoOkIff | src/basecradle_router/evidence.py:744-753 | It is recorded under a success exactly when that wake was not stopped |
| DispatchCoalesced.CoalescedIntoOkIffLastIs | src/basecradle_router/evidence.py:744-753 | When the stream's starts never went back, exactly when the stream's last completed wake before it was not stopped |
| DispatchCoalesced.CoalescedAfterAStop | src/basecradle_router/pipeline.py:708-719 | A run with a coalesced delivery and no success: a stopped wake, then another delivery of its stream |
| DispatchCoalesced.CoalescedAfterTheTtl | src/basecradle_router/coalesce.py:137-149 | A run with a coalesced delivery and no success inside the TTL: the delivery of a successful wake again, however late |
| DispatchAccounting.CountersAreVerdicts | src/basecradle_router/pipeline.py:431-519 | Over every run each agent counter, and each per-route counter, is the number of verdicts that count there |
| DispatchAccounting.CountersSumToExecutes | src/basecradle_router/evidence.py:668-771 | An agent's four counters plus its dropped, stopped and unexpected outcomes sum to its executes |
| DispatchAccounting.CountersByVerdict | src/basecradle_router/evidence.py:668-771 | Over every run `ok`, `failed`, `refused` and `deduped`, of an agent and of each route, are how many executes succeeded, failed in every attempt, were refused by wake-lock or breaker, and were refused as seen or coalesced |
| Ledger.PreferAssociative | src/basecradle_router/routes/github.py:536-552 | Preferring the newer report, then the first-hand one, then the later arrival is associative |
| Ledger.PreferredIsLastMaximal | src/basecradle_router/routes/github.py:364-389 | Merging one report at a time gives the last-arriving maximum |
| Ledger.LastMaximalIsUnique | src/basecradle_router/routes/github.py:364-389 | There is only one such maximum, so the declarative reading names one report |
| Ledger.RankIsOrderFree | src/basecradle_router/routes/github.py:364-389 | The rank of what is preferred does not depend on arrival order |
| Ledger.StoreKept | src/basecradle_router/routes/github.py:378-389 | With eviction, a held entry is the merge, in order, of its reports since it was last brought in, and the ledger never exceeds its capacity |
| Ledger.NothingIsEvicted | src/basecradle_router/routes/github.py:378-389 | With no more followed keys than room, a key is held from its first starting report on |
| IssueLedgers.IssueLedger.ObserveReport | src/basecradle_router/routes/github.py:365-389 | The method, with its eviction loop, equals the specified write |
| IssueOrder.RecheckAnswersNewest | src/basecradle_router/routes/github.py:391-409 | Without eviction, the recheck answers for the newest report once it or an earlier arrival showed the label: run exactly when open, labelled and not parked, closed before parked; an issue never shown as a handoff never drops a wake |
| IssueLedgers.IssueLedger.OpenHandoffs | src/basecradle_router/routes/github.py:411-428 | One reference for each issue held open and labelled under a reference to the repo, in ledger order, and no other |
| IssueLedgers.ListedIff | src/basecradle_router/routes/github.py:411-428 | A reference is listed exactly when some issue is held under it that is open, carries `handoff`, and whose reference is to this repo, in any case of its name |
| IssueLedgers.FirstHandActions | src/basecradle_router/routes/github.py:361-377 | Which actions report the state first-hand and which the labels, and that the rest of a report is the payload's |
| IssueLedgers.MentionsDoNotOverride | src/basecradle_router/routes/github.py:536-552 | So a comment of the same second changes neither the state an opening, close or reopening reported nor the labels an opening or labelling did, and does change what another comment said |
| IssueLedgers.WhatAReportDoes | src/basecradle_router/routes/github.py:378-389 | A report of an issue not held and without the label, or older than what is held, leaves the ledger as it was; any other puts its issue last and leaves the rest in order, as far as there is room |
| IssueLedgers.MergeIsFieldwise | src/basecradle_router/routes/github.py:536-552 | The tie merge treats state, labels and reference each as its own claim |
| IssueLedgers.MergeAssociative | src/basecradle_router/routes/github.py:536-552 | Merging three reports does not depend on grouping |
| IssueLedgers.HeldIsMaximum | src/basecradle_router/routes/github.py:364-389 | For every order of arrival and interleaving, `open`, `labels` and `ref` held are each the value of the last-arriving report among those maximal in (updated_at, first-hand for that field) since the issue was brought in |
| IssueLedgers.FollowedFromFirstHandoff | src/basecradle_router/routes/github.py:378-389 | Without eviction an issue is held exactly when some report showed `handoff`, and followed from the first that did |
| IssueOrder.FieldIsHeldIff | src/basecradle_router/routes/github.py:378-389 | Without eviction, a field held is what all the issue's reports come to exactly when some report that arrived no later than the one winning that field shows `handoff` |
| IssueOrder.NewestIsHeldIff | src/basecradle_router/routes/github.py:380-385 | Wherever it arrives, an issue's newest report is what is held exactly when it, or a report before it, shows `handoff` |
| IssueOrder.DistinctHaveNewest | src/basecradle_router/routes/github.py:382-385 | Reports of different seconds have a newest one, so the next result covers them all |
| IssueOrder.OrderDoesNotMatterIff | src/basecradle_router/routes/github.py:380-385 | When one report is newer than all others of its issue, every order of arrival, among any reports of other issues, gives one state exactly when that report shows `handoff` or none does |
| IssueOrder.ForgottenDoNotCountIff | src/basecradle_router/routes/github.py:380-389 | Same-second reports included: the ledger holds what all the issue's reports come to exactly when, for each of state, labels and reference, some report no later than that field's winner shows `handoff` |
| IssueOrder.ForgetsAnEarlierClose | src/basecradle_router/routes/github.py:380-381 | A close without the label, then the older report with it: the wake of a closed issue would run |
| OwnPulls.OwnPullWakesTheOnlyCandidate | src/basecradle_router/routes/github.py:933-962 | A captain's pull request wakes an issue exactly when that issue is held open and labelled under a reference to the pull request's own repo, is the only such one among those the pull request names, if it names any, is not parked, and the actor is admitted |
| OwnPulls.OwnPullOutcome | src/basecradle_router/routes/github.py:1264-1284 | Otherwise why not: no candidate, more than one, the only one parked, or the actor not admitted, each exactly then |
| IssueLedgers.RefsStayKeyed | src/basecradle_router/routes/github.py:514-533 | Every reference the ledger holds is to the issue it is held for |
| PullLedgers.PullLedger.ObserveReport | src/basecradle_router/routes/github.py:492-503 | The method, with its eviction loop, equals the specified write |
| PullLedgers.HeldIsLexicographicMaximum | src/basecradle_router/routes/github.py:467-503 | Without eviction, what is held is the last-arriving lexicographic maximum of (updated_at, closed) over all the pull request's reports |
| PullLedgers.AnswersForItsReports | src/basecradle_router/routes/github.py:467-508 | Asked for a pull request, the ledger answers with the report of that number and repo, in any case of its name, that is newest, closed if any of that second is, and last to arrive; and with none exactly when there was none |
| PullLedgers.WhatAReportDoes | src/basecradle_router/routes/github.py:492-503 | The same of pull requests, whose older reports and whose reopenings in the second of a close are ignored |
| PullLedgers.HeldSinceBroughtIn | src/basecradle_router/routes/github.py:467-503 | With eviction, the same of the reports since it was brought in |
| PullLedgers.StateIsOrderFree | src/basecradle_router/routes/github.py:467-503 | Its timestamp and open state are the same for every arrival order and every interleaving with other pull requests |
| LogFmt.LogFields | src/basecradle_router/logfmt.py:153-182 | The line the loop builds parses back to exactly the fields that were not dropped, in order |
| LogFmt.RoundTrip | src/basecradle_router/logfmt.py:114-182 | The same of the rendering as a function, with the reader that cuts at spaces outside quotes |
| LogFmt.LineSeparators | src/basecradle_router/logfmt.py:130-135 | A space in a line has an even number of double quotes before it exactly when it separates two fields |
| LogFmt.NormalIsIdempotent | src/basecradle_router/logfmt.py:114-150 | Normalizing a normalized value changes nothing |
| LogValues.NormalKeeps | src/basecradle_router/logfmt.py:114-150 | What a reader finds of a text: every character that is neither white space nor control, in order, each double quote as a single one; one space between two of them exactly where white space or a control stood; nothing at either end |
| LogValues.LettersAndBreaksDetermine | src/basecradle_router/logfmt.py:114-150 | That determines it: only one text has those characters with those gaps and nothing else |
| LogValues.PlainIsKept | src/basecradle_router/logfmt.py:143-150 | A text without white space, controls and double quotes is left as it is |
| LogValues.TruthValues | src/basecradle_router/logfmt.py:143-150 | A truth value reads back as "true" or "false" |
| LogValues.DroppedIff | src/basecradle_router/logfmt.py:175-182 | A text is dropped exactly when it has nothing but white space and controls |
| LogValues.QuotedIff | src/basecradle_router/logfmt.py:145-150 | A value is put in quotes exactly when a space is left in it, or the text has an equals sign or a double quote |
| LogValues.FieldsAreTheKept | src/basecradle_router/logfmt.py:175-182 | The fields a line parses back to are exactly the pairs whose value leaves something, in order |
| LogFmt.LineHasNoControls | src/basecradle_router/logfmt.py:108-111 | No value puts a control character in a line |
| Registry.LoadAgents | src/basecradle_router/config.py:207-259 | It loads exactly when every entry builds and no two claim one recipient, fails at the first entry that breaks this with its reason, and otherwise gives the three indexes: all agents by key, harness agents by recipient, the first agent of each OS user |
| Registry.RepoKeyIff | src/basecradle_router/models.py:67-72 | A builder's key is an owner and a name, both there, around the only slash |
| Registry.BuiltIff | src/basecradle_router/config.py:262-307 | Which entries build, and which field of the entry each field of the agent is |
| Registry.NotBuiltBecause | src/basecradle_router/config.py:229-307 | Why an entry does not: an unknown kind, a missing field once the key is the kind's, or anything else that is invalid |
| Registry.ResolvesTo | src/basecradle_router/config.py:110-135 | A recipient resolves, by its tag, to the agent with that key, to the one with that uuid, or to the first with that OS user, and to no other |
| Registry.ResolvableBy | src/basecradle_router/config.py:136-170 | A tag is in the result exactly when some recipient with it, repo-shaped for "repo", resolves to the agent |
| Registry.RecipientsAreInjective | src/basecradle_router/config.py:239-251 | Two recipients name one agent only if they are the same |
| Registry.ReposResolveToBuilders | src/basecradle_router/config.py:262-300 | A repo recipient resolves to a builder exactly when it is repo-shaped, so no repo resolves to a harness agent |
| Registry.EveryAgentHasItsInstance | src/basecradle_router/config.py:218-222 | Every agent resolves by its OS user, to the first entry of that user |
| Keyring.LoadRecipientKeyring | src/basecradle_router/routes/basecradle.py:251-325 | It loads exactly when the flag parses, no two agents share a variable, every key names an agent and is not blank, and no agent is left without a key after the fallback is retired; each uuid then has its own agent's variable; a refusal names a fault that is there |
| Keyring.OwnKeyIsOnlyItsOwn | src/basecradle_router/routes/basecradle.py:289-311 | The key a delivery is verified with is its own agent's variable, which provisions no other recipient |
| Keyring.RetiredSelectsExactlyTheRegistered | src/basecradle_router/routes/basecradle.py:215-248 | With the fallback retired, selection succeeds exactly for registered recipients, each with a key of its own that is not blank |
| Keyring.ArmedSelects | src/basecradle_router/routes/basecradle.py:215-248 | While the fallback is armed a recipient with a key set is verified with that key, and every other, registered, unknown or absent, with the shared secret |
| Keyring.DerivedNamesAreLegal | src/basecradle_router/routes/basecradle.py:328-362 | Every derived variable name is a legal one |
| Keyring.NameSpellsTheSlug | src/basecradle_router/routes/basecradle.py:328-362 | A variable's name is the prefix and then the slug, letter for letter in upper case, digits and underscores kept, anything else an underscore |
| Keyring.FlagSays | src/basecradle_router/routes/basecradle.py:370-384 | The fallback is retired exactly when the variable says 0, false, no or off, in any case and with any white space around; armed when it is unset, blank, or says 1, true, yes or on; anything else is an error |

## Left out

- The HTTP front end, the accept half, the CLI and the wiring (`server.py`, `app.py`, `__main__.py`): deliveries are arbitrary submissions.
- Signature comparison, secrets, regular expressions and JSON decoding: reports, events and registry entries start parsed.
- The waker's subprocess and sudo assembly, and the wake-lock's file reads: an attempt's ending and the lock's answer are inputs.
- Evidence file I/O, snapshots, delivery counters, the clearing of stale queue depths at boot: they move no wake counter.
- `AgentLocks` as an object: the per-agent lock appears as the theorem that its guard is never contended.
- Shutdown, the saturation log line, exceptions raised by the observer, and `wait_idle`'s timeout: no property here depends on them.
- An exception raised by a store in the middle of `execute`: the model's exceptions are those of the recheck, the wake-lock and the waker.
- Exact log wording, colour and durations: journal lines are modelled by kind and order.
- GitHub warm-up reads and pagination: warm-up reports are more observations.
- Floating-point rounding and clock skew: time is exact, and clock order is a hypothesis.
- PipelineRuns.ExecuteIsArriveThenEnd: wakes of different agents interleave at two points, the gates and the ending, because each store takes its own lock for one operation and nothing between reads another agent's entry.
- IssueLedgers.IssueLedger.OpenHandoffs: repo names are compared in ASCII lower case, which is what GitHub repo names are.
- Keyring.SlugSuffix: does not model upper-casing of letters outside ASCII, because registry keys are ASCII slugs.
- Keyring.LoadRecipientKeyring: the order in which several configuration faults are reported is not modelled.
