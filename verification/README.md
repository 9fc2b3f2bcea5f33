# Verified models of seven server components

Each part models one component of the server and proves what it promises, for every input, every
schedule or every run. Where the code breaks a documented promise, a lemma exhibits it and another
says exactly when the promise holds.

| files | component |
|---|---|
| `KaspaMass.dfy`, `KaspaFee.dfy` | Kaspa fee estimator: compute mass, KIP-9 storage mass, smallest-first coin selection |
| `RateLimiter.dfy`, `RateLimiterLaws.dfy`, `Limiter.dfy` | rate limiter with fail-over to an in-memory store and storage probes |
| `ConsumeLoop.dfy`, `Consumer.dfy` | bounded-concurrency Kafka consume loop with rebound task sets, and its shutdown |
| `MessageStats.dfy` | outcome and statistics machine of the two Kafka backends and their event processor, under any interleaving |
| `DbSessions.dfy`, `SessionManager.dfy`, `DbInterleaving.dfy`, `DbOutcomes.dfy`, `DbProgress.dfy` | context-bound database sessions over trees of calls and child tasks, sequential and under a scheduler |
| `ResponseCache.dfy`, `ResponseCacheLaws.dfy`, `ResponseCacheReplies.dfy`, `CachedEndpoint.dfy` | response cache decorator, overlapping requests over a failing, expiring, corruptible backend |
| `LikePattern.dfy`, `QueryBuilder.dfy`, `QueryBuilderLaws.dfy` | filter dictionaries compiled to SQL conditions with three-valued meaning |
| `Common.dfy` | `Option`, `Result` and ASCII lower-casing |

State that the source updates in place is a class whose methods are proved equal to a function of
the old state (`Limiter`, `Consumer`, `StatsCounter`, `SessionManager`, `CachedEndpoint`); the laws
are lemmas about those functions. Clocks, storage faults, decoder and handler outcomes and endpoint
results are inputs. `hide` in a proof only keeps definitions out of the solver's way.

Where the code and its own documentation disagree, the model follows the code:

- More inputs are said to lower storage mass (simple_fee_estimator.py:161-163). A large input raises
  it, and so can a small one where the formula switches: `AddingInputCanRaiseMass`,
  `ThirdInputCanRaiseMass`. `AddingInputExactlyWhen` gives the exact threshold.
- Negative change is said to mean insufficient funds (simple_fee_estimator.py:139). Dust inputs cost
  more than they bring, so a larger coin alone may pay: `InsufficientDespiteCoveringCoin`. The
  verdict is wrong exactly when `VerdictIsWrongExactlyWhen` says so.
- The exclusion of default limits for routes marked for limiting never takes effect; marking changes
  the limits checked only in an outage: `MarkingMattersExactlyWhen`.
- `stop` is said to drain in-flight tasks; a message held back by the throttle may still be started
  afterwards, exactly when `StopMissesExactlyWhen` says so. At most one such task exists:
  `ShutdownReachesTasks`.
- `messages_retried` is documented as messages retried at least once (types.py:431). It counts every
  failing attempt and every failure below the limit, so one failing event with retries off counts
  twice: `OneFailureCountsTwoRetries`, `RetriedCountsAttempts`.
- The Aiokafka backend is said to mirror the FastStream one; `failed` differs by the exceptions that
  leave the event processor: `BackendsAgree`.
- A child task is said not to use its parent's session (advanced_db_manager.py:139-143). Tasks are
  told apart by object identity, which Python reuses: a task that is given the identity of a
  finished ancestor uses that one's closed session: `ReusedIdentityHappens`, `SessionBreaksExactlyWhen`.
- A session opened by `get_session_generator` itself is never counted as closed:
  `StatisticsBalance`.
- A cached answer may be older than its TTL, by the time the filling call took:
  `TtlBoundsAgeExactlyWhen`, `AgeBoundIsReached`.
- Fills of one key are not ordered, so a request after a finished `no-cache` one may get an older
  answer: `SlowFillOverwritesNewer`, exactly when `OlderIsAnsweredExactlyWhen` says so.
- `no-store` and `no-cache` are honoured only as the whole header value: `NoStoreIsHonouredOnlyAlone`,
  `NoCacheIsHonouredOnlyAlone`.
- LIKE operators paste values unescaped; each of the eight means what it is called exactly for values
  without `%`, `_` and backslash: `TextOperatorsExactIffPlain`. Escaping them would make all values exact:
  `EscapedValuesAreExact`.

## Model

| member | source | states |
|---|---|---|
| KaspaMass.ComputeMassIsAffine | libs/block-kaspa/src/block_kaspa/transaction/simple_fee_estimator.py:68-95 | the three mass components together weigh 1118 grams per input, 38 + 11 * script length per output, plus 94 and the payload |
| KaspaMass.FlooredMeanInequality | libs/block-kaspa/src/block_kaspa/transaction/simple_fee_estimator.py:98-110 | for n positive inputs C * n^2 // sum is at most the sum of C // input plus n - 1 |
| KaspaMass.RelaxedAtMostStandard | libs/block-kaspa/src/block_kaspa/transaction/simple_fee_estimator.py:98-110 | the relaxed storage mass exceeds the standard one by at most n - 1, and equals it for one input |
| KaspaMass.ConsolidationIsFree | libs/block-kaspa/src/block_kaspa/transaction/simple_fee_estimator.py:98-110 | no more outputs than inputs, each at least the mean input: mass 0 in the standard branch and for one output, at most 1 in the relaxed branch |
| KaspaMass.ConsolidationBoundIsTight | libs/block-kaspa/src/block_kaspa/transaction/simple_fee_estimator.py:98-110 | the 1 of the relaxed branch is reached |
| KaspaMass.AddingInputRelaxed | libs/block-kaspa/src/block_kaspa/transaction/simple_fee_estimator.py:104-106 | for fixed outputs a further input never raises the relaxed mass |
| KaspaMass.AddingInputStandard | libs/block-kaspa/src/block_kaspa/transaction/simple_fee_estimator.py:108-110 | the mean term grows, as a fraction, exactly when a * n^2 is at most (2n + 1) * sum, and then the standard mass does not rise; floored, it does not rise exactly below a threshold on a |
| KaspaMass.ThirdInputTerm | libs/block-kaspa/src/block_kaspa/transaction/simple_fee_estimator.py:104-110 | at the switch from relaxed inputs x and y to standard with a third input a, the input term grows, as a fraction, exactly when (x + y) * (x + y + a) is at most 9xy, and then its floored form does not fall |
| KaspaMass.AddingInputExactlyWhen | libs/block-kaspa/src/block_kaspa/transaction/simple_fee_estimator.py:98-110 | on every pair of branches a further input does not raise storage mass exactly when the payment is then relaxed, or the smaller of what the outputs weigh and the old input term, times the new sum, is at most C * (n + 1)^2 |
| KaspaMass.AddingInputByBranch | libs/block-kaspa/src/block_kaspa/transaction/simple_fee_estimator.py:98-110 | on every pair of branches, the switch included, an input whose term grows as a fraction never raises storage mass |
| KaspaMass.ThirdInputCanRaiseMass | libs/block-kaspa/src/block_kaspa/transaction/simple_fee_estimator.py:104-110 | at the switch from relaxed to standard a small third input raises the mass although it meets the condition |
| KaspaMass.AddingInputCanRaiseMass | libs/block-kaspa/src/block_kaspa/transaction/simple_fee_estimator.py:159-163 | the documented claim that inputs lower storage mass fails for a large input |
| KaspaFee.EstimateFee | libs/block-kaspa/src/block_kaspa/transaction/simple_fee_estimator.py:146-186 | the selection loop, its `continue`, its break and its exceptions compute the recursive walk over prefixes |
| KaspaFee.EstimateIsExact | libs/block-kaspa/src/block_kaspa/transaction/simple_fee_estimator.py:113-143 | given inputs have an estimate exactly when it describes them: two outputs exactly when what is left exceeds the fee of two outputs, compute mass in grams, storage mass of the inputs against those very outputs, the larger one as network mass, the fee rounded up, and the rest as change |
| KaspaFee.EstimateConservesValue | libs/block-kaspa/src/block_kaspa/transaction/simple_fee_estimator.py:116-143 | inputs = send + fee + change; change is positive with two outputs, and with one at most the price of the omitted output |
| KaspaFee.SelectionTakesShortest | libs/block-kaspa/src/block_kaspa/transaction/simple_fee_estimator.py:146-186 | the estimate describes a prefix of the sorted UTXOs; unless that is all of them it covers send and fee with KIP-9 storage mass at most compute mass, and every shorter prefix falls short of that |
| KaspaFee.KnownEstimates | libs/block-kaspa/src/block_kaspa/transaction/simple_fee_estimator.py:22-25 | 0.2 KAS at rate 100 from one coin of 10 KAS: 2036 grams, storage mass 50020 and fee 203600; from two such coins 3154 grams, storage mass 48505 and fee 315400 |
| KaspaFee.RaisesExactlyOnZeros | libs/block-kaspa/src/block_kaspa/transaction/simple_fee_estimator.py:98-110 | no iteration divides by zero without zero amounts; with selection the call raises exactly when the send amount or some UTXO is zero |
| KaspaFee.OrderDoesNotMatter | libs/block-kaspa/src/block_kaspa/transaction/simple_fee_estimator.py:146-186 | with selection, and without it but for the case of the next row, the outcome, raised or not, depends only on the multiset of UTXOs |
| KaspaFee.OrderMattersExactlyWhen | libs/block-kaspa/src/block_kaspa/transaction/simple_fee_estimator.py:98-143 | without selection two orders differ exactly when something is sent, there is a zero among at least two positive amounts, and the sum exceeds what is sent plus the two-output fee for every number of inputs that must hold a zero |
| KaspaFee.OrderMattersAtNonNegativeRates | libs/block-kaspa/src/block_kaspa/transaction/simple_fee_estimator.py:98-143 | at non-negative rates the last condition is one comparison with the fee for all inputs |
| KaspaFee.SomeOrderAcceptedExactlyWhen | libs/block-kaspa/src/block_kaspa/transaction/simple_fee_estimator.py:98-143 | exactly then some order of a list with a zero is accepted |
| KaspaFee.ZeroAmountsMakeOrderMatter | libs/block-kaspa/src/block_kaspa/transaction/simple_fee_estimator.py:170-186 | without selection a zero amount last is accepted and first raises |
| KaspaFee.SurplusIsAValley | libs/block-kaspa/src/block_kaspa/transaction/simple_fee_estimator.py:134-139 | along sorted prefixes the surplus over send and fee never falls after it rose once |
| KaspaFee.UncoveredMeansNoPrefixCovers | libs/block-kaspa/src/block_kaspa/transaction/simple_fee_estimator.py:170-186 | if the returned inputs do not cover, no smallest-first prefix does |
| KaspaFee.InsufficientDespiteCoveringCoin | libs/block-kaspa/src/block_kaspa/transaction/simple_fee_estimator.py:139 | a negative change is returned although one of the coins alone covers |
| KaspaFee.InsufficientWithoutDust | libs/block-kaspa/src/block_kaspa/transaction/simple_fee_estimator.py:139 | if every coin left out pays for its own input, a negative change means that this choice of coins does not cover |
| KaspaFee.CoverableExactlyWhen | libs/block-kaspa/src/block_kaspa/transaction/simple_fee_estimator.py:134-139 | some choice of coins covers exactly when the coins worth at least the price of their input cover together |
| KaspaFee.NegativeExactlyWhen | libs/block-kaspa/src/block_kaspa/transaction/simple_fee_estimator.py:146-186 | selection returns a negative change exactly when all coins together do not cover |
| KaspaFee.VerdictIsWrongExactlyWhen | libs/block-kaspa/src/block_kaspa/transaction/simple_fee_estimator.py:139 | a negative change is returned although some choice covers exactly when all coins together fall short and the ones that pay for their own input do not |
| LimiterObject.Limiter.ShouldCheckBackend | libs/slowapi_advanced/src/slowapi_advanced/extension.py:365-372 | resets, compares and counts as the probe schedule says |
| LimiterObject.Limiter.EvaluateLimits | libs/slowapi_advanced/src/slowapi_advanced/extension.py:502-548 | the charging loop changes only the store in use, as the evaluation function says |
| LimiterObject.Limiter.CheckRequestLimit | libs/slowapi_advanced/src/slowapi_advanced/extension.py:570-669 | one request with probing, fail-over and re-entry, terminating, equals the request function |
| RateLimiterLaws.EvaluationIsExact | libs/slowapi_advanced/src/slowapi_advanced/extension.py:502-548 | on either store, nothing raising, it rejects exactly when some applicable limit's hit fails; then the limits before it were charged and fit, it was charged and recorded, none after it was touched; otherwise all were charged once |
| RateLimiterLaws.EvaluateExplained | libs/slowapi_advanced/src/slowapi_advanced/extension.py:502-548 | the same with storage faults before or after the count and raising callables |
| RateLimiterLaws.HeaderIsFirstLeast | libs/slowapi_advanced/src/slowapi_advanced/extension.py:526-527 | when all pass, the recorded limit is the first least one |
| RateLimiterLaws.QuotaPerStore | libs/slowapi_advanced/src/slowapi_advanced/extension.py:385-395 | over any run one store admits at most a limit's amount, and no more than it counted |
| RateLimiterLaws.CheckIsExact | libs/slowapi_advanced/src/slowapi_advanced/extension.py:587-650 | a request not skipped, on a live store: it is rejected exactly when some demand of the limits that govern it does not fit after the ones before it, charged up to that one; otherwise admitted with exactly these charges. The governing limits are those of the application in the middleware, of the route outside, and the default ones unless a route limit overrides them |
| RateLimiterLaws.OutageCheckIsExact | libs/slowapi_advanced/src/slowapi_advanced/extension.py:619-650 | the same in an outage on the in-memory store, with the in-memory limits where there are any, but not for marked routes |
| RateLimiterLaws.OutageFailsExactlyWhen | libs/slowapi_advanced/src/slowapi_advanced/extension.py:619-669 | in an outage that outlasts its probes a check fails exactly when its probe raises: no limit is looked at, no counter moves, and the request gets through exactly when errors are swallowed |
| RateLimiterLaws.SkippedIsUnlimited | libs/slowapi_advanced/src/slowapi_advanced/extension.py:587-595 | a request is skipped, and then changes nothing, exactly when the checks before the limits say so |
| RateLimiterLaws.QuotaOverAnyRun | libs/slowapi_advanced/src/slowapi_advanced/extension.py:617-669 | over any run with failures and recoveries the demands, by the limits that govern them, of the requests let through are at most twice a limit's amount |
| RateLimiterLaws.TwiceTheAmountIsReached | libs/slowapi_advanced/src/slowapi_advanced/extension.py:654-659 | for every amount a run reaches twice the amount |
| RateLimiterLaws.QuotaHoldsExactlyWhen | libs/slowapi_advanced/src/slowapi_advanced/extension.py:617-669 | without fallback limits, twice the amount bounds what gets through in every state, run and for every key exactly when errors are not swallowed |
| RateLimiterLaws.SwallowedIsUncharged | libs/slowapi_advanced/src/slowapi_advanced/extension.py:660-664 | with errors swallowed and no fallback a failing store lets requests through uncharged |
| RateLimiterLaws.ReentriesBounded | libs/slowapi_advanced/src/slowapi_advanced/extension.py:617-659 | one re-entry for the storage dying and one for a probe that revived it, so at most two |
| RateLimiterLaws.TwoReentriesHappen | libs/slowapi_advanced/src/slowapi_advanced/extension.py:617-659 | two re-entries do happen |
| RateLimiterLaws.ProbeRestores | libs/slowapi_advanced/src/slowapi_advanced/extension.py:623-626 | a successful probe serves the same request from the main store and rearms the backoff |
| RateLimiterLaws.MarkingMattersExactlyWhen | libs/slowapi_advanced/src/slowapi_advanced/extension.py:619-648 | marking a route never takes original limits away; the limits a pass checks differ for a marked route exactly in a middleware request of an outage that outlasts its probe, with other in-memory fallback limits |
| RateLimiterLaws.ProbeExponentIsCyclic | libs/slowapi_advanced/src/slowapi_advanced/extension.py:365-372 | the k-th probe of an outage uses exponent k modulo 6 |
| RateLimiterLaws.ProbeGaps | libs/slowapi_advanced/src/slowapi_advanced/extension.py:365-372 | each probe waits more than two to its exponent seconds after the one before |
| RateLimiterLaws.SevenProbesSpan | libs/slowapi_advanced/src/slowapi_advanced/extension.py:365-372 | in any run of requests during one outage, seven consecutive probes span more than 63 seconds |
| RateLimiterLaws.ProbesAreRare | libs/slowapi_advanced/src/slowapi_advanced/extension.py:365-372 | in any run of requests during one outage, probes take at least 63 seconds per round of six |
| RateLimiterLaws.OutageIsPolling | libs/slowapi_advanced/src/slowapi_advanced/extension.py:619-628 | as long as no probe succeeds, the requests of a run that probe are exactly those the backoff schedule lists for its unskipped, unmarked requests, whatever faults and raising probes they meet |
| RateLimiterLaws.ProbeCountBounded | libs/slowapi_advanced/src/slowapi_advanced/extension.py:365-372 | the probe count stays in 0..6 in every run |
| ConsumeLoop.ConcurrencyIsBounded | libs/messaging_kafka/src/messaging_kafka/aiokafka_messaging.py:334-361 | in every reachable state all running tasks are in the current set, which has at most max_workers members; none run in sequential mode |
| ConsumeLoop.ThrottleIsExact | libs/messaging_kafka/src/messaging_kafka/aiokafka_messaging.py:343-357 | a throttled message waits exactly while max_workers tasks run, and after one wait it is not throttled again |
| ConsumeLoop.ShutdownReachesTasks | libs/messaging_kafka/src/messaging_kafka/aiokafka_messaging.py:240-263 | stop asks every in-flight task to cancel; later at most one uncancelled task runs, and none if the loop was not throttled |
| ConsumeLoop.StopMissesExactlyWhen | libs/messaging_kafka/src/messaging_kafka/aiokafka_messaging.py:240-361 | after a stop in any reachable state some schedule leaves a task running that was never asked to cancel, if and only if the loop was throttled and no task it waits for has ended cancelled |
| ConsumeLoop.ThrottledStopHappens | libs/messaging_kafka/src/messaging_kafka/aiokafka_messaging.py:336-361 | such a schedule is reachable with two workers |
| ConsumeLoop.LoopEndsExactlyWhen | libs/messaging_kafka/src/messaging_kafka/aiokafka_messaging.py:334-365 | in any run the loop ends with a message after a stop, a raising sequential message, a wait that finds a task which ended cancelled, or an interruption, and with nothing else |
| ConsumeLoop.StopEndsTheLoop | libs/messaging_kafka/src/messaging_kafka/aiokafka_messaging.py:335-337 | a delivery in any state after a stop ends the loop and starts nothing; it is the first one after the stop |
| ConsumeLoop.StoppedLoopEnds | libs/messaging_kafka/src/messaging_kafka/aiokafka_messaging.py:335-337 | every continuation of a stopped state holds at most one delivery, and the loop has ended after it |
| ConsumeLoop.EndedStaysEnded | libs/messaging_kafka/src/messaging_kafka/aiokafka_messaging.py:334-361 | an ended loop takes no message and starts no task in any continuation |
| ConsumeLoop.EveryMessageIsAccounted | libs/messaging_kafka/src/messaging_kafka/aiokafka_messaging.py:335-361 | in every run the messages taken are those started as a task, processed inline, held back, or held back when the loop ended |
| ConsumeLoop.DeliveredMessage | libs/messaging_kafka/src/messaging_kafka/aiokafka_messaging.py:335-361 | a delivered message is processed inline exactly in sequential mode, started at once exactly when fewer than max_workers slots are taken, held back exactly when all are |
| ConsumeLoop.SlotsAreFreedOnce | libs/messaging_kafka/src/messaging_kafka/aiokafka_messaging.py:359-361 | in every run the callback of a task runs at most once, after the task finished; a slot is taken by a running task, one whose callback is to come, or one that outlived a wait and whose callback went to an older set |
| ConsumerObject.Consumer.Deliver | libs/messaging_kafka/src/messaging_kafka/aiokafka_messaging.py:335-361 | from a message to the next await: one step of the machine, invariant kept |
| ConsumerObject.Consumer.Wake | libs/messaging_kafka/src/messaging_kafka/aiokafka_messaging.py:345-361 | rebinds to a fresh set object and resumes: one step of the machine, invariant kept |
| ConsumerObject.Consumer.RunCallback | libs/messaging_kafka/src/messaging_kafka/aiokafka_messaging.py:361 | a done-callback changes only the set it was bound to |
| ConsumerObject.Consumer.DoStop | libs/messaging_kafka/src/messaging_kafka/aiokafka_messaging.py:240-256 | clears the flag and requests cancellation of every live task |
| MessageStats.StatsCounter.Start | libs/messaging_kafka/src/messaging_kafka/aiokafka_messaging.py:369-438 | a message up to its first attempt or its end: one step of the machine |
| MessageStats.StatsCounter.EndAttempt | libs/foundation/src/foundation/messaging/events/event_processor.py:155-216 | the processor raises the retry count of the event and the shared counter, and repeats the attempt, fails or succeeds: one step of the machine |
| MessageStats.StatsCounter.EndDlq | libs/messaging_kafka/src/messaging_kafka/aiokafka_messaging.py:424-431 | after the DLQ send: one step of the machine |
| MessageStats.CountersAreTheSum | libs/messaging_kafka/src/messaging_kafka/aiokafka_messaging.py:369-438 | under every interleaving of messages and attempts each counter is the sum of what the fate of each message says it counted so far |
| MessageStats.FailingIsCounted | libs/foundation/src/foundation/messaging/events/event_processor.py:160-190 | the retry count rises once for each attempt that returned a failure or raised inside the processor |
| MessageStats.LastAttemptIs | libs/foundation/src/foundation/resiliant/retry/exp_backoff_retry.py:264-302 | attempts are repeated after exceptions alone, up to the limit of the policy; the first that returns is the last |
| MessageStats.EveryMessageEnds | libs/messaging_kafka/src/messaging_kafka/aiokafka_messaging.py:369-438 | under every interleaving a message is done once it was resumed as often as its attempts allow |
| MessageStats.RetriedCountsAttempts | libs/foundation/src/foundation/messaging/events/event_processor.py:160-175 | at every instant retried is the number of failing attempts (metrics on) plus the failures below the limit; dlq is at most failed; dlq + retried is at most failed exactly when no more attempts failed than failures are unrouted |
| MessageStats.OneFailureCountsTwoRetries | libs/foundation/src/foundation/messaging/types.py:429-432 | with retries off, one event failing once ends as one failure and two retries, or one retry without a DLQ |
| MessageStats.DlqAndRetriesAreFailures | libs/messaging_kafka/src/messaging_kafka/aiokafka_messaging.py:422-438 | with metrics and the DLQ on and nothing failing but handlers, a finished run has dlq + retried at most failed exactly when no attempt failed |
| MessageStats.EveryMessageIsAccountedFor | libs/messaging_kafka/src/messaging_kafka/aiokafka_messaging.py:369-438 | a finished run's messages are nulls, escaped exceptions, processed and failed |
| MessageStats.BackendsAgree | libs/messaging_faststream/src/messaging_faststream/faststream_aiokafka_impl.py:724-800 | for the same messages both backends count alike, except that failed differs by the exceptions that leave the event processor itself; equal exactly when there are none |
| DbSessions.EverySessionLivesByTheRules | libs/foundation/src/foundation/db/advanced_db_manager.py:134-189 | in any tree of calls, exceptions and child tasks every session is created once, used only by its creating task while open, settled at most once and closed once |
| DbSessions.FinishedMeans | libs/foundation/src/foundation/db/advanced_db_manager.py:134-189 | in terms of events: a use follows a creation by the same task, nothing follows a close, commit and rollback exclude each other |
| DbSessions.OneSessionPerTree | libs/foundation/src/foundation/db/advanced_db_manager.py:338-368 | a one-task tree creates and closes one session, uses it once per call that is made (every call of the tree when nothing fails), counts a reuse for each nested one, and settles it as the outermost call and its outcome say |
| DbSessions.CallEndsExactlyWhen | libs/foundation/src/foundation/db/advanced_db_manager.py:149-177 | a call that opened a session returns exactly when its body ends normally and the commit was not asked for or worked, or it catches an Error; it is cancelled exactly when its body is, and raises an Error otherwise |
| DbSessions.ExecEnds | libs/foundation/src/foundation/db/advanced_db_manager.py:149-177 | every tree of calls, exceptions and child tasks ends as the tree and its flags alone say |
| DbSessions.NestedFlagsAreIgnored | libs/foundation/src/foundation/db/advanced_db_manager.py:338-368 | the auto-commit flags of nested calls change nothing |
| DbSessions.StatisticsBalance | libs/foundation/src/foundation/db/advanced_db_manager.py:179-189 | creations plus reuses are the uses, and closes lag creations by the sessions opened without the decorator |
| DbInterleaving.SessionsSurviveAnySchedule | libs/foundation/src/foundation/db/advanced_db_manager.py:134-177 | under every schedule of interleaved tasks, outliving children and cancellations, without a trespass or with identities kept apart, sessions live by the rules, open ones are held by their creator alone, and all are finished once all tasks ended |
| DbOutcomes.OutcomesSurviveAnySchedule | libs/foundation/src/foundation/db/advanced_db_manager.py:134-177 | in every schedule without trespass and cancellation each task that ended returns or raises what its own program says |
| DbOutcomes.SequentialOutcomeIsReached | libs/foundation/src/foundation/db/advanced_db_manager.py:134-177 | so the first task ends as its sequential meaning does |
| DbOutcomes.RootCallEnds | libs/foundation/src/foundation/db/advanced_db_manager.py:165-189 | when the body of a call that opened a session is done, settling and closing leave the task as the call ends, with the context variable restored |
| DbOutcomes.CancelledStaysCancelled | libs/foundation/src/foundation/db/advanced_db_manager.py:165-177 | a cancelled task passes the cancellation through all its calls in every schedule |
| DbProgress.NeverDeadlocked | libs/foundation/src/foundation/db/advanced_db_manager.py:134-177 | no schedule of tasks that wait for their children deadlocks, whatever is cancelled: as long as one has not ended, some task can be resumed |
| DbProgress.BlockedExactlyWhen | libs/foundation/src/foundation/db/advanced_db_manager.py:134-177 | a task that has not ended can be resumed exactly when it waits for no running child |
| DbProgress.EveryTaskEnds | libs/foundation/src/foundation/db/advanced_db_manager.py:134-177 | no schedule resumes a task more often than its program and its calls in flight allow, and once it was resumed that often it has ended |
| DbProgress.CancellationIsFinal | libs/foundation/src/foundation/db/advanced_db_manager.py:165-177 | any task that has not ended can be cancelled, and every continuation leaves it cancelled |
| DbProgress.EndedStays | libs/foundation/src/foundation/db/advanced_db_manager.py:134-177 | no further step reaches a task that has ended |
| DbInterleaving.SessionBreaksExactlyWhen | libs/foundation/src/foundation/db/advanced_db_manager.py:134-177 | over whole schedules with any identities some session breaks the rules exactly when some task trespasses: it enters a call outside any call of its own while its inherited context names its own identity |
| DbInterleaving.EveryCallCanEnter | libs/foundation/src/foundation/db/advanced_db_manager.py:149-165 | below a call that opened a session the task finds exactly that session, above it none |
| DbInterleaving.SpawnBreaksExactlyWhen | libs/foundation/src/foundation/db/advanced_db_manager.py:138-143 | the first call of a spawned task uses a closed session if and only if the task was given the identity that its inherited context names |
| DbInterleaving.ReusedIdentityHappens | libs/foundation/src/foundation/db/advanced_db_manager.py:138-143 | such a schedule exists |
| DbInterleaving.StatisticsBalanceAlways | libs/foundation/src/foundation/db/advanced_db_manager.py:89-93 | under every schedule at all the counters balance with the events, up to the decorated calls in flight and the sessions opened without the decorator |
| SessionManagerObject.SessionManager.GetCurrentContextSession | libs/foundation/src/foundation/db/advanced_db_manager.py:134-147 | returns and counts a session only for its owning task |
| SessionManagerObject.SessionManager.SessionGenerator | libs/foundation/src/foundation/db/advanced_db_manager.py:149-177 | with tokens and try/finally: the meaning of the body, and the context variable restored |
| SessionManagerObject.SessionManager.ContextSession | libs/foundation/src/foundation/db/advanced_db_manager.py:338-368 | the decorator's wrapper: the meaning of the call, variable and depth restored |
| SessionManagerObject.SessionManager.RunAll | libs/foundation/src/foundation/db/advanced_db_manager.py:134-368 | running any tree in place equals its token-free meaning |
| CachedEndpointObject.CachedEndpoint.Begin | libs/foundation/src/foundation/http/cache.py:218-246 | up to the first await: bypass or captured expiry, one step of the machine |
| CachedEndpointObject.CachedEndpoint.GetReturns | libs/foundation/src/foundation/http/cache.py:262-283 | after get: one step of the machine |
| CachedEndpointObject.CachedEndpoint.ExpiresReturns | libs/foundation/src/foundation/http/cache.py:267-347 | after expires_in: refresh, headers, 304, decoded answer or fallback call, one step of the machine |
| CachedEndpointObject.CachedEndpoint.CallReturns | libs/foundation/src/foundation/http/cache.py:282-294 | after the endpoint call: reply, or its encoding on the way to the store, one step of the machine |
| CachedEndpointObject.CachedEndpoint.SetReturns | libs/foundation/src/foundation/http/cache.py:292-311 | after set, whatever became of it: headers and reply, one step of the machine |
| ResponseCacheLaws.AnswersAreFresh | libs/foundation/src/foundation/http/cache.py:218-347 | every reply of every schedule of overlapping requests is computed by a call of its own, or is younger than the TTL plus the time its filling call took; bypassed requests and those whose whole Cache-Control is no-cache are always computed; a 304 names the tag of bytes that were live |
| ResponseCacheLaws.TtlBoundsAgeExactlyWhen | libs/foundation/src/foundation/http/cache.py:282-294 | the TTL alone bounds the age of stored answers exactly when filling takes no time |
| ResponseCacheLaws.AgeBoundIsReached | libs/foundation/src/foundation/http/cache.py:282-294 | for every TTL and every duration d of a fill an answer of age TTL + d - 1 is served |
| ResponseCacheLaws.SlowFillOverwritesNewer | libs/foundation/src/foundation/http/cache.py:282-294 | an older call in flight replaces the newer answer of a finished no-cache request |
| ResponseCacheLaws.OlderIsStoredExactlyWhen | libs/foundation/src/foundation/http/cache.py:282-294 | for any moment T that the stored answer is not older than, some continuation stores an answer read before T exactly when a fill of the key is in flight that read before T, or started before T and can still read a storable answer |
| ResponseCacheLaws.OlderIsAnsweredExactlyWhen | libs/foundation/src/foundation/http/cache.py:262-347 | exactly then some later request is answered from the store with something read before T |
| ResponseCacheLaws.CacheIsTransparent | libs/foundation/src/foundation/http/cache.py:218-347 | in every such schedule an endpoint that depends on the key alone is answered as without the cache, or by a 304 for the tag of the stored bytes |
| ResponseCacheLaws.ExpiryIsFrozen | libs/foundation/src/foundation/http/cache.py:246 | in every schedule the captured expiry settles once, on the one the decorator was given if that is not zero and else on the configured one, and every entry carries it |
| ResponseCacheLaws.CalledExactlyWhen | libs/foundation/src/foundation/http/cache.py:241-347 | a request only moves on, and starts its one call of the endpoint exactly on a bypass, a failed or empty lookup, a forced refresh or a damaged hit |
| ResponseCacheLaws.EndpointCallsAreAccounted | libs/foundation/src/foundation/http/cache.py:228-235 | in every schedule the calls of the endpoint are the replies computed by a call plus the calls in flight |
| ResponseCacheLaws.PartiesAreIndependent | libs/foundation/src/foundation/http/cache.py:145-154 | bypassed requests and the cacheable requests for each key do not notice each other: dropping all that does not concern one of them from any schedule leaves its replies, its requests in flight and its entry as they were; bypassed requests alone write nothing |
| ResponseCacheLaws.OutsidersAreComputed | libs/foundation/src/foundation/http/cache.py:145-154 | with the cache disabled, for a method other than GET and for the whole Cache-Control no-store, in every schedule of any requests, the reply is that of a call of its own, without headers and with nothing offered to the store |
| ResponseCacheLaws.StayingOutStoresNothing | libs/foundation/src/foundation/http/cache.py:145-154 | schedules that ask only such requests leave the store empty |
| ResponseCacheLaws.StoredExactlyWhen | libs/foundation/src/foundation/http/cache.py:145-154 | some schedule of a request, with or without a request object, stores its answer exactly when none of the three holds |
| ResponseCacheLaws.AdvertisedLife | libs/foundation/src/foundation/http/cache.py:300-326 | in every schedule a miss advertises the TTL of the endpoint as max-age, and a hit at least one second and at most the TTL |
| ResponseCacheLaws.NoStoreIsHonouredOnlyAlone | libs/foundation/src/foundation/http/cache.py:154 | some schedule of GET requests with a Cache-Control value stores their answer exactly when the value is not the single word no-store |
| ResponseCacheLaws.NoCacheIsHonouredOnlyAlone | libs/foundation/src/foundation/http/cache.py:276-282 | some schedule answers GET requests with a Cache-Control value from the store exactly when the value is neither the single word no-cache nor no-store |
| ResponseCacheLaws.RevalidationIsFresh | libs/foundation/src/foundation/http/cache.py:314-335 | a client that got a body under a tag and is later told 304 for it holds what the endpoint answered less than the TTL plus the fill time ago, if the tags tell its bytes from the stored ones |
| ResponseCacheReplies.RevalidatedExactlyWhen | libs/foundation/src/foundation/http/cache.py:314-347 | in every schedule a 304 goes out exactly to requests answered from the store that had a response injected and sent the tag of the very bytes found there; other hits get these bytes decoded |
| ResponseCacheReplies.HeadersExactlyWhen | libs/foundation/src/foundation/http/cache.py:300-326 | where setting headers works, a reply from the store or with a storable answer carries them exactly when a response was injected and the request does not stay out |
| ResponseCacheReplies.HeadersAreTrue | libs/foundation/src/foundation/http/cache.py:300-326 | in every schedule the headers call exactly the fills a miss and name the tag of the bytes stored or answered from |
| ResponseCacheReplies.FillsExactlyWhen | libs/foundation/src/foundation/http/cache.py:282-298 | as long as nothing damages entries, a call fills the store exactly when its answer can be stored and the request does not stay out, whether it missed, was forced or met a failing lookup |
| ResponseCacheLaws.DamageStays | libs/foundation/src/foundation/http/cache.py:337-347 | as long as a damaged entry lives and nobody refreshes it, every schedule of plain requests leaves it there and answers around it |
| LikePattern.ContainsMeansSubstringIffPlain | libs/db/src/db/utils/query_builder.py:71-72 | the contains pattern matches exactly the texts that contain the value, if and only if the value is plain |
| LikePattern.StartsMeansPrefixIffPlain | libs/db/src/db/utils/query_builder.py:96-97 | the same for prefixes |
| LikePattern.EndsMeansSuffixIffPlain | libs/db/src/db/utils/query_builder.py:100-101 | the same for suffixes |
| LikePattern.AnyCaseContainsIffPlain | libs/db/src/db/utils/query_builder.py:69-70 | the same for icontains, up to case |
| LikePattern.AnyCaseStartsIffPlain | libs/db/src/db/utils/query_builder.py:98-99 | the same for istartswith, up to case |
| LikePattern.AnyCaseEndsIffPlain | libs/db/src/db/utils/query_builder.py:102-103 | the same for iendswith, up to case |
| LikePattern.AnyCaseExactIffPlain | libs/db/src/db/utils/query_builder.py:104-107 | the same for ci and iexact |
| QueryBuilderLaws.TextOperatorsExactIffPlain | libs/db/src/db/utils/query_builder.py:62-118 | for each of the eight text operators, the compiled condition is true exactly on the texts its name says if and only if the value has no wildcard, underscore or backslash |
| QueryBuilder.CollectConditions | libs/db/src/db/utils/query_builder.py:165-185 | the loop over a dictionary gathers the conditions in order and raises on the first bad date |
| QueryBuilder.BuildFiltersAdvanced | libs/db/src/db/utils/query_builder.py:294-367 | one clause that is the AND of all parts, or the statement unchanged, or the first error |
| QueryBuilderLaws.KeysSplitBack | libs/db/src/db/utils/query_builder.py:170-173 | a key splits into the field and operator it was made of exactly when the field holds no double underscore and does not end in one underscore; a field alone means eq exactly when it holds none |
| QueryBuilderLaws.OperatorsMeanWhatTheySay | libs/db/src/db/utils/query_builder.py:62-118 | under three-valued logic each of the 18 operators evaluates to its documented meaning, the eight text operators for plain values |
| QueryBuilderLaws.ComparingMeans | libs/db/src/db/utils/query_builder.py:62-93 | of two comparable values exactly one of less, equal and greater is true, equality holds between equal values alone, texts go by their first difference, moments by day and second; anything else is unknown |
| QueryBuilderLaws.IgnoredExactlyWhen | libs/db/src/db/utils/query_builder.py:56-121 | an entry contributes nothing exactly for None, an unknown field or an unknown operator, and raises exactly for a malformed date |
| QueryBuilderLaws.NullSatisfiesNothing | libs/db/src/db/utils/query_builder.py:62-118 | a NULL column satisfies nothing but isnull and exclusion from an empty list |
| QueryBuilderLaws.FilterSelects | libs/db/src/db/utils/query_builder.py:164-245 | AND keeps rows on which every restricting entry is true, OR those on which some is |
| QueryBuilderLaws.KeyOrderDoesNotMatter | libs/db/src/db/utils/query_builder.py:165-189 | permuting a dictionary changes neither whether it raises nor the rows selected |
| QueryBuilderLaws.IgnoredEntriesHaveNoEffect | libs/db/src/db/utils/query_builder.py:165-185 | leaving out None values, unknown fields and unknown operators gives the same conditions |
| QueryBuilderLaws.AdvancedIsComposition | libs/db/src/db/utils/query_builder.py:294-367 | the advanced builder raises and selects exactly like build_filters, then build_or_filters on the OR part and on each group |
| QueryBuilderLaws.ComposedSelects | libs/db/src/db/utils/query_builder.py:294-367 | that chain keeps a row exactly when the AND part, the OR part and every group admit it |

## Left out

- KaspaFee.EstimateFee: `feerate` is an exact real; rounding of the float product is not modelled.
- KaspaFee.UncoveredMeansNoPrefixCovers: for a non-negative fee rate and priority fee, which the estimator assumes without checking; amounts are natural numbers throughout.
- RateLimiterLaws.QuotaOverAnyRun: one window of the fixed-window strategy; other strategies and the expiry of counters are not modelled, nor collisions of joined storage keys.
- RateLimiterLaws.HeaderIsFirstLeast: rate-limit items are compared by granularity only, as the library that defines them is not part of this model.
- Limiter header injection, its date formatting and its own fail-over, the decorators and their registration tables.
- ConsumerObject.Consumer.Deliver: the coroutine is split at its awaits, one method per uninterrupted segment; dynamic subscriptions and client shutdown are not modelled.
- MessageStats.StatsCounter.Start: what decoder, handlers and DLQ sender do is input; a retry policy makes at least one attempt, a cancelled message is one that is not resumed, and offset commits are not modelled, so nothing is claimed about redelivery.
- DbSessions.EverySessionLivesByTheRules: here a child task runs to its end where it is started and identities are not reused; module DbInterleaving covers both. Creating and closing a session do not fail.
- DbInterleaving.SessionsSurviveAnySchedule: tasks are values of a state machine, and a session may be used only at the entry of a call.
- `db_concurrent_session`, the scoped-session factory and the singleton.
- ResponseCacheLaws.AnswersAreFresh: a corrupt entry is one that does not decode, time is in whole seconds, and a TTL of 0 never yields a live entry; the key builder, signature handling and the framework objects are not modelled.
- ResponseCacheLaws.RevalidationIsFresh: a body computed around a damaged entry goes out under the tag of the damaged bytes; nothing is claimed of that tag.
- LikePattern.EndsMeansSuffixIffPlain: case folding is ASCII only, and a pattern ending in an unfinished escape matches nothing where PostgreSQL raises.
- QueryBuilderLaws.OperatorsMeanWhatTheySay: values of different types and lists given to scalar operators compare as unknown, where the database would raise; text order is by character code.
- Query ordering and pagination: they would only add easy members.
- Real Kafka, Redis, SQLAlchemy and HTTP objects, configuration, bootstrap, CLI, e-mail and migrations.
