# Verified model of Joghd

Joghd is an uptime monitor: it probes targets on a jittered timer, retries with capped
exponential backoff, turns the results into failure, reminder and recovery alerts, fans each
alert out to filtered channels, and keeps a metrics ledger. This project models that stack in
Dafny and proves what its layers promise each other, over every input, every run and every
interleaving.

`dafny verify dfyconfig.toml` checks everything.

## Layers

| file | models |
|---|---|
| `Domain.dfy`, `Counting.dfy`, `Arithmetic.dfy`, `Int64.dfy`, `Float64.dfy` | shared values; counting; products; Go's `int64` and, for the retry multiplier, `float64` with its rounding, NaN and infinities |
| `AlertMachine.dfy` | the per-target alert state machine as a function of its history, and the declarative account it refines |
| `Outages.dfy` | the grammar of a target's alerts and their number |
| `Cadence.dfy` | the timer loop's clock: reminders in time and in number of checks |
| `Backoff.dfy` | the waits between attempts, as computed and as meant |
| `Checker.dfy` | one check: probes, retries, early exits, cancellation before, in and after a probe |
| `CheckAll.dfy` | all checks at once under a semaphore, as a transition system |
| `Metrics.dfy`, `Alerters.dfy` | the ledger and the fan-out |
| `Scheduler.dfy` | the scheduler's classes: state updated in place, timer loop |
| `Interleaving.dfy`, `RoundRefinement.dfy` | all target loops interleaved, with recording a check, judging it and each delivery as steps; a round of the class is one of these runs |
| `TimedInterleaving.dfy` | the timed laws of one loop, inside such an interleaving |
| `Shutdown.dfy` | how the loops stop once the context is cancelled, and how fast |
| `Detection.dfy` | retry loop, timer loop and alert machine together: detection latency, false alarms |
| `Proxy.dfy`, `Config.dfy`, `EnvNames.dfy` | proxy settings, defaults, validation, environment variable names |
| `App.dfy` | building the alerters, the one-shot run |

Each layer has its operations in the form the program gives them (classes whose methods update
fields, loops with invariants), proved against specification functions, and theorems about
those functions.

## Where the code falls short of its promise

Each of these is a theorem with the exact condition, next to the property it limits.

- A retry multiplier of NaN or infinity passes validation, because NaN is not below 1, and a
  finite one can overflow. The waits the loop sleeps stay between the initial and the maximal
  wait in exactly the cases of `Backoff.MachineWaitsInRangeExactly`: at most two attempts, or an
  initial wait that rounding does not push down and either no overflow in the product before the
  last sleep or a platform that converts high. With three attempts or more
  `Backoff.NaNMultiplierDisablesBackoff` is a configuration where they do not, and
  `Backoff.RoundingPushesTheWaitDown` another, with a wait beyond 2^53 nanoseconds.
- The reminder period `interval * reminder_multiplier` wraps around silently and validation
  does not bound it (`Config.AcceptanceAllowsUnsoundPeriods`). The runs of the timer loop space
  reminders by the period exactly when it fits a duration (`Cadence.RemindersSpacedExactly`).
- Adding the jitter to an accepted interval can wrap around to a negative sleep
  (`Config.AcceptanceAllowsNegativeSleeps`); it does not exactly when interval and spread fit
  (`Cadence.DelayInRangeExactly`).
- The repository's README says that the counters exist at zero from startup. For check
  counters that is so (`Scheduler.TargetCountersAtStartUp`). Alert counters are registered
  under the bare configuration key but incremented under the channel's own name, so whatever
  is configured, some enabled alerter has none (`App.CountersAtStartUpExactly`).
- A context that is done at the start of an attempt, in a probe or in a wait, as on shutdown,
  makes a target that would pass attempt a failure alert if it was not unhealthy, exactly then
  (`Detection.FalseAlarmExactly`); the fan-out runs under the same context, so the attempt need
  not arrive. A recovery is never false (`Detection.RecoveryIsGenuine`).
- A loop whose timer and context are both ready may take the timer, so passes can follow the
  cancellation, each of which attempts such an alert without probing
  (`Shutdown.LatePassProbesNothing`). A loop makes at most one exactly if the runtime gets round
  to a ready select in less than the shortest delay (`Shutdown.OneLatePassExactly`), and then one
  exactly if its timer may still fire (`Shutdown.LatePassPossibleExactly`).
- A cancelled one-shot run over healthy targets exits with 1 exactly if one of its steps cut a
  check off (`App.ExitZeroExactly`).
- An environment variable overrides the intended key exactly for the segments described in
  `EnvNames.EnvNameRoundTripExactly`; an alerter whose name ends in an underscore is out.

## Model

| member | source | states |
|---|---|---|
| AlertMachine.MachineRefinesHistory | internal/scheduler/scheduler.go:129-179 | for every history of results and clock readings the incremental machine attempts exactly the alerts of the declarative account, and no other log satisfies that account |
| AlertMachine.StateSummarisesHistory | internal/scheduler/scheduler.go:35-38 | unhealthy means the latest check failed and `lastAlertTime` is the stamp of the latest failure or reminder of the current outage; otherwise `lastAlertTime` is zero |
| Cadence.RefinementHoldsExactly | internal/scheduler/scheduler.go:173-179 | the refinement holds on all runs of the timer loop, and likewise on all histories, if and only if reminders are off or the period fits a duration |
| Outages.AlertGrammar | internal/scheduler/scheduler.go:129-170 | every run's alerts are (Failure Reminder* Recovery)*, cut inside an outage exactly while the target is unhealthy |
| Outages.AlertCounts | internal/scheduler/scheduler.go:141-169 | failures equal the maximal runs of failed checks, recoveries the passes after a failed check, and their difference is 1 exactly while unhealthy |
| Cadence.DelayInRangeExactly | internal/scheduler/scheduler.go:116-127 | for every jitter draw the sleep lies in [interval, interval + interval/10), or is the interval, if and only if interval plus spread does not overflow |
| Cadence.SleepFollowsDrawExactly | internal/scheduler/scheduler.go:116-127 | the sleep is the interval plus the draw from a tenth of it, and the bare interval below 10 ns, if and only if the sum is a duration |
| Cadence.DrawsKeepLoopsApart | internal/scheduler/scheduler.go:97-99 | different draws give loops of the same interval different sleeps |
| Cadence.SoundPoliciesSpaceReminders | internal/scheduler/scheduler.go:147-149 | any two alerts of one outage, the later a reminder, are at least a period apart |
| Cadence.RemindersSpacedExactly | internal/scheduler/scheduler.go:173-179 | all runs of the timer loop, clocked and paced, space reminders by the period if and only if interval times multiplier fits a duration |
| Cadence.RemindersPerOutage | internal/scheduler/scheduler.go:141-149 | n reminders of an outage take at least n periods since its failure alert; with multiplier 0 there are none |
| Cadence.ReminderWithinMultiplierChecks | internal/scheduler/scheduler.go:89-109 | if a check raised an alert and the next N all fail, one of those N raises a reminder |
| Cadence.ReminderAtExactlyMultiplierChecks | internal/scheduler/scheduler.go:89-127 | if N - 1 rounds of jitter and latency stay below one interval, the reminder comes at exactly the N-th check |
| Backoff.IdealWaitBounded | internal/checker/checker.go:101-147 | for every rounding that does not push the initial wait down, waits are non-decreasing, lie in [initial wait, max wait] and stay at the cap |
| Backoff.IdealWaitBelowExponential | internal/checker/checker.go:145-146 | without rounding, wait k is at most initial wait times multiplier to the k |
| Backoff.IdealTotalBounded | internal/checker/checker.go:136-147 | n waits sum to between n initial waits and n maximal waits |
| Backoff.WaitFollowsProduct | internal/checker/checker.go:145-146 | every wait is the integer part of the rounded product of the one before it with the multiplier, capped; a product out of range, or a NaN or infinite multiplier, leaves the platform's conversion result, capped |
| Backoff.IdealWaitFollowsMultiplier | internal/checker/checker.go:145-146 | without rounding each wait is the one before it times the multiplier, less than a nanosecond short, or the cap once that product reaches it |
| Backoff.WholeMultiplierIsGeometric | internal/checker/checker.go:145-146 | a whole multiplier makes wait k exactly the smaller of initial wait times multiplier to the k and the cap |
| Backoff.MachineWaitsAreIdealExactly | internal/checker/checker.go:145-146 | without rounding, for every number of attempts at once: the computed waits are the unbounded ones if and only if no product ever overflows or the platform clamps high |
| Backoff.SleptWaitsAreIdealExactly | internal/checker/checker.go:136-147 | for every rounding that does not push the initial wait down, the waits slept are those of a product that always converts if and only if there are at most two attempts, the last product before a sleep does not overflow, or the platform clamps high |
| Backoff.MachineWaitsInRangeExactly | internal/checker/checker.go:136-147 | for every accepted configuration and every monotone rounding, NaN and infinite multipliers included, exactly when the waits the loop sleeps stay between the initial and the maximal wait |
| Backoff.RepresentableIsSteady | internal/checker/checker.go:145-146 | an initial wait that is a `float64`, as any up to 2^53 ns is, is not pushed down by rounding |
| Backoff.RoundingPushesTheWaitDown | internal/checker/checker.go:145-146 | an accepted wait of 2^53 + 1 ns with multiplier 1 and three attempts leaves the range without any overflow |
| Backoff.NaNMultiplierDisablesBackoff | internal/config/config.go:418-420 | `multiplier = nan` is accepted and, with three attempts or more and the least `int64` as conversion result, makes every wait slept after the first negative, so only the first takes time |
| Backoff.TotalBounded | internal/checker/checker.go:136-147 | with any accepted configuration, overflow or not, n waits take no longer than n maximal waits |
| Backoff.TotalAddsUp | internal/checker/checker.go:136-147 | the backoff total is the sum of the waits one by one, a non-positive one taking no time |
| Checker.Checker.constructor | internal/checker/checker.go:69-92 | without options the retry settings are 3 attempts, 1 s to 10 s, factor 2, and the concurrency is 10; a non-positive concurrency becomes 10, a non-positive attempt count 1, anything else is kept |
| Checker.Probe | internal/checker/checker.go:155-189 | passes exactly when the exchange has no error and, over HTTP, the expected status and no certificate in the warning window; observes the response |
| Checker.ProbeVerdictExactly | internal/checker/checker.go:155-189 | the whole verdict in plain numbers: for every target and exchange the response, the pass, and the transport, status or certificate error with its contents |
| Checker.Checker.Check | internal/checker/checker.go:95-151 | the loop ends in the first attempt that does not lead to another, returns the result of that attempt, starts the stated number of probes, and sleeps the computed waits |
| Checker.UncancelledCheckReportsDecidingAttempt | internal/checker/checker.go:95-150 | without cancellation the first attempt that passes or meets an expiring certificate decides, else the last; every field comes from it and no earlier error survives |
| Checker.CancelledCheckReportsLastAttempt | internal/checker/checker.go:103-142 | a cancelled check fails with the cancellation, counts the attempt it stopped in, and otherwise reports the last attempt made, or nothing |
| Checker.EveryExitIsCoherent | internal/checker/checker.go:103-150 | on every exit, cancelled ones included, success holds exactly when the error is nil, and the probes started are the attempts or one less |
| Checker.FailureWithoutFailedProbeExactly | internal/checker/checker.go:104-109 | a check fails with no failed probe if and only if its context is done before the first |
| Checker.CancellationFailsPassingCheckExactly | internal/checker/checker.go:103-150 | cancellation makes a check fail that would pass in attempt n if and only if the context is found done at one of the points up to there: a start, a probe or a wait; equivalently by the start of attempt n or in its probe |
| Checker.CancelledPassIsGenuine | internal/checker/checker.go:112-128 | a check that passes under cancellation returns the very result of the full check |
| Checker.DurationBounded | internal/checker/checker.go:101-148 | for every accepted configuration, if probes respect the timeout, a check takes at most MaxAttempts timeouts plus the backoff, a wait cut short counted in full; the backoff is at most MaxAttempts - 1 maximal waits and without overflow the ideal total |
| Checker.DurationAddsUp | internal/checker/checker.go:101-148 | the duration is the latencies of the probes started plus the waits begun, one by one |
| Checker.DurationBoundIsAttained | internal/checker/checker.go:101-148 | a check whose probes all run into their timeout takes exactly the bound |
| CheckAll.RunPreservesInv | internal/checker/checker.go:217-246 | in every reachable state slots in use are the goroutines holding one and at most the concurrency, and every goroutine has a partial result its attempts account for |
| CheckAll.SlotsNeverExceedConcurrency | internal/checker/checker.go:220-231 | from the start, in every interleaving, slots never exceed the concurrency |
| CheckAll.SomeStepIsEnabled | internal/checker/checker.go:80-85 | until all goroutines are done some goroutine can step: no deadlock |
| CheckAll.RunsAreBounded | internal/checker/checker.go:224-245 | with M attempts, every run over n targets has at most n(4M + 2) steps besides the cancellation |
| CheckAll.ScheduleIndependence | internal/checker/checker.go:217-246 | without cancellation every complete interleaving yields the checks of the targets in order |
| CheckAll.CancelledRunsFillEveryResult | internal/checker/checker.go:229-240 | with cancellation, which may also abort a probe in flight with any error, every result is filled: a full check, one a cancelled `Check` returns, or a given-up one |
| CheckAll.EveryResultIsCoherent | internal/checker/checker.go:229-240 | in every run a result names its own target, succeeds exactly when it has no error, and has zero attempts exactly when its goroutine took the give-up branch, whose result is spelled out |
| CheckAll.CutOffExactly | internal/checker/checker.go:103-150 | in every run a target's result is a success exactly when its full check is and no step cut it off, and a check that was not cut off is the full check |
| CheckAll.ResultsAreWrittenOnce | internal/checker/checker.go:232-240 | each result is written at most once, by its own goroutine, and never changes |
| CheckAll.WriteBeforeRelease | internal/checker/checker.go:229-240 | a slot is given back only after its goroutine's single write |
| CheckAll.CancellationStopsProbes | internal/checker/checker.go:103-148 | after cancellation at most one further probe per held slot starts, at most the concurrency in total, none by a goroutine without a slot |
| Metrics.Metrics.ObserveCheck | internal/metrics/metrics.go:138-158 | the ledger after a check |
| Metrics.Metrics.ObserveAlert | internal/metrics/metrics.go:160-168 | the ledger after a delivery attempt |
| Metrics.Metrics.RegisterTarget | internal/metrics/metrics.go:124-129 | the ledger after registering a target |
| Metrics.Metrics.RegisterAlerter | internal/metrics/metrics.go:131-136 | the ledger after registering an alerter, kind by kind |
| Metrics.SharedLabelsExactly | internal/metrics/metrics.go:175-182 | two targets share their series exactly when name, company and URL scheme agree |
| Metrics.RegisterTargetCreatesExactly | internal/metrics/metrics.go:124-129 | registering a target creates its two check counters at zero and changes nothing else |
| Metrics.RegisterKindsCreatesExactly | internal/metrics/metrics.go:131-136 | registering creates the series of that name and those kinds at zero, keeps every count and creates no other |
| Metrics.AlertMovesOneCounter | internal/metrics/metrics.go:160-168 | an observed delivery moves one counter of one alerter and kind by one |
| Metrics.SeriesDependsOnOwnChecks | internal/metrics/metrics.go:138-182 | checks under other labels leave no trace in a target's series |
| Metrics.SeriesReportsHistory | internal/metrics/metrics.go:138-158 | gauges show the latest check, counters every check run, the certificate gauge the latest expiry seen, failed handshakes since notwithstanding |
| Alerters.CompanyFilter.constructor | internal/alerter/filter.go:19-30 | the company set is the list; an empty list admits everything |
| Alerters.CompanyFilter.Send | internal/alerter/filter.go:33-41 | forwards, counts and reports an alert exactly when the filter is a catch-all or lists the company of the alert's target |
| Alerters.Instrumented.Send | internal/alerter/instrument.go:28-33 | returns the channel's outcome and records it under the channel's name |
| Alerters.CompositeAlerter.Send | internal/alerter/composite.go:23-37 | every alerter is tried in order, and the joined error holds the failures, or is nil without any |
| Alerters.CompositeAlerter.Add | internal/alerter/composite.go:49-51 | appends one alerter and keeps the others |
| Alerters.NamesIdentifyChannels | internal/alerter/telegram.go:98-101 | no two channels share a name |
| Alerters.FanOutCounts | internal/alerter/composite.go:26-30 | a fan-out adds one delivery attempt to each alerter that admits the alert, however the others fared |
| Alerters.DeliveryConservation | internal/alerter/instrument.go:28-33 | over any alerts, sent plus failed of an alerter and kind count exactly the alerts its filter admits, failed those it could not deliver |
| Alerters.FanOutErrorsMatchFailures | internal/alerter/composite.go:24-36 | a fan-out's error list has as many entries as failure increments, and is empty exactly when no admitted delivery failed |
| Alerters.ErrorsNameTheFailures | internal/alerter/composite.go:24-36 | the joined error names each alerter that let the alert through and failed, in order, with its own error, and no other |
| Scheduler.Scheduler.constructor | internal/scheduler/scheduler.go:55-67 | registers every target |
| Scheduler.TargetCountersAtStartUp | internal/scheduler/scheduler.go:56-58 | every target's check counters exist at start-up, at zero, and no others |
| Scheduler.Scheduler.CheckAndAlert | internal/scheduler/scheduler.go:129-170 | the state, the attempted alert with the result it carries, and the metrics after a round; delivery decides nothing |
| Scheduler.Scheduler.Send | internal/scheduler/scheduler.go:183-194 | one attempt is logged and fanned out, its errors do not come back |
| Scheduler.Scheduler.RunTargetLoop | internal/scheduler/scheduler.go:89-127 | the loop sets its timers to the interval plus the draws and yields a clocked and paced history; its state, alerts and metrics are those of that history |
| Interleaving.TargetsDoNotInterfere | internal/scheduler/scheduler.go:70-109 | in every interleaving one target's state, alerts and series are those of the same checks with that target alone |
| Interleaving.ForeignActionsChangeNothing | internal/scheduler/scheduler.go:32-43 | the steps of other loops leave a target's state, alerts and series as they are |
| Interleaving.EveryTargetFollowsItsMachine | internal/scheduler/scheduler.go:73-77 | in every interleaving each target's state, alerts and series are those of its own rounds |
| Interleaving.InterleavedAlertGrammar | internal/scheduler/scheduler.go:70-170 | the alerts about a target keep to the grammar in every interleaving |
| Interleaving.AlertsTellWhatHappened | internal/scheduler/scheduler.go:141-162 | in every interleaving each alert carries the result of a check its own target went through, failed for failures and reminders, passed for recoveries |
| Interleaving.MetricsAgreeWithStates | internal/scheduler/scheduler.go:129-139 | between rounds the up gauge is 1 exactly when the state is healthy, counters add up to the rounds run; only between recording and judging is the gauge ahead |
| Interleaving.ConcurrentDeliveriesConserved | internal/alerter/composite.go:23-37 | however fan-outs overlap, delivery attempts plus alerts in flight equal the admitted alerts, per alerter and kind |
| RoundRefinement.CheckAndAlertIsAnInterleaving | internal/scheduler/scheduler.go:129-170 | a round of the scheduler is an uninterrupted run of the interleaved system with the same effect |
| TimedInterleaving.InterleavedReminders | internal/scheduler/scheduler.go:70-127 | in every timely interleaving each target's rounds are a run of the timer loop, the shared log holds the alerts of that run, and sound policies space its reminders |
| TimedInterleaving.InterleavedOutageIsReportedInTime | internal/scheduler/scheduler.go:70-194 | in every timely interleaving a target that breaks for good is reported in the shared log as soon as if it were watched alone |
| Detection.FailureFollowsPreviousDecision | internal/scheduler/scheduler.go:89-127 | the first failed check raises a failure within fan-out timeout + interval + jitter + longest check of the previous decision |
| Detection.OutageIsReportedInTime | internal/scheduler/scheduler.go:89-194 | a target that breaks for good at time t is reported by t + two checks + one fan-out + one sleep |
| Detection.BoundsSpelledOut | internal/checker/checker.go:101-148 | the check bound is the timeouts plus at most the maximal waits between attempts plus slack, the sleep bound the interval and a tenth plus slack |
| Detection.FalseAlarmExactly | internal/scheduler/scheduler.go:130-145 | for a target that was not unhealthy and would pass a failure alert is attempted if and only if the context is found done at a point its full check passes through |
| Detection.RecoveryIsGenuine | internal/scheduler/scheduler.go:158-162 | in spite of cancellation a recovery alert means the full check passes |
| Detection.AlarmWithoutFailedProbeExactly | internal/scheduler/scheduler.go:130-145 | a failure alert with no failed probe happens if and only if the context is done before the first probe |
| Shutdown.LoopsStopAfterCancel | internal/scheduler/scheduler.go:100-108 | with a reaction time below the shortest delay, a loop starts one more pass at most after cancellation, none unless its timer may still fire, and takes at most three steps |
| Shutdown.OneLatePassExactly | internal/scheduler/scheduler.go:100-108 | in every run of any number of loops at most one pass of each begins after cancellation if and only if the reaction time is below the shortest delay; otherwise there is a run with any number of them |
| Shutdown.LatePassPossibleExactly | internal/scheduler/scheduler.go:100-108 | after cancellation a loop can start a pass if and only if its timer expires before its select has to be taken |
| Shutdown.StartReturnsInTime | internal/scheduler/scheduler.go:70-87 | given that passes end in bounded time, all loops have returned one pass and two reactions after cancellation, and until then one of them can step at once |
| Shutdown.NoLoopReturnsBeforeCancel | internal/scheduler/scheduler.go:69-109 | until the context is cancelled no loop returns |
| Shutdown.RoundsKeepPace | internal/scheduler/scheduler.go:129-194 | a pass ends within the bound of a check and a fan-out, and its timer is set to an interval or more |
| Shutdown.LateLoopsKeepPassing | internal/scheduler/scheduler.go:100-108 | a loop whose reaction is as slow as its timer passes any number of times after cancellation |
| Shutdown.LatePassProbesNothing | internal/checker/checker.go:103-109 | a pass begun after cancellation starts no probe, fails with the cancellation, attempts at most one alert, never a recovery, and leaves the target unhealthy |
| Config.Config.ApplyDefaults | internal/config/config.go:311-348 | every alerter and target is defaulted in place; a field changes only if it was zero or empty, to the value given, and no other field changes |
| Config.DefaultsAreIdempotent | internal/config/config.go:311-348 | defaulting twice is defaulting once |
| Config.ValidateRetry | internal/config/config.go:406-423 | accepts exactly the retry settings the backoff laws start from |
| Config.ValidateAlerters | internal/config/config.go:425-461 | accepts exactly the maps whose enabled alerters are all good, and otherwise names a bad one |
| Config.GoodAlerterExactly | internal/config/config.go:425-461 | which alerters are accepted, in plain terms by type |
| Config.ValidateTargets | internal/config/config.go:463-521 | accepts exactly the non-empty lists of good targets with distinct names; names the first spoiling target, its problem, and the only earlier bearer of a repeated name |
| Config.GoodTargetExactly | internal/config/config.go:463-521 | which targets are accepted, in plain terms by scheme |
| Config.Config.Validate | internal/config/config.go:350-396 | accepts exactly the acceptable configurations; a complaint is about the first broken rule in the program's order, and its details are true |
| Config.OverrideMode | internal/config/config.go:293-299 | an empty flag keeps the configured mode, a set one wins, and only the two run modes get through |
| Proxy.Validate | internal/proxy/proxy.go:57-79 | accepts exactly the empty setting, `direct`, and URLs with a host and one of the four schemes; a complaint says what is wrong |
| Proxy.DialerExactly | internal/proxy/proxy.go:83-140 | a TCP check dials directly exactly without a proxy, tunnels exactly through SOCKS5, and of the usable settings refuses exactly HTTP proxies |
| Config.AcceptanceDischargesPreconditions | internal/config/config.go:350-521 | an accepted configuration yields a valid concurrent set-up of its checks, valid detection bounds, sleeps in range for intervals whose spread fits, distinct names, and no tcp target for the dialer's non-SOCKS branch |
| Config.AcceptanceAllowsUnsoundPeriods | internal/config/config.go:365-367 | for every multiplier of at least two some accepted interval makes the reminder period overflow |
| Config.AcceptanceAllowsNegativeSleeps | internal/config/config.go:463-521 | a target stays acceptable with the largest interval, where some jitter draw makes the sleep negative |
| EnvNames.EnvNameRoundTripExactly | internal/config/config.go:192-202 | for every list of segments the variable name maps back to the key if and only if no segment has a capital or a double underscore and only the last may end in an underscore |
| EnvNames.EnvNameSpelledOut | internal/config/config.go:30-32 | the variable of a key is the prefix and its segments in capitals with double underscores between |
| EnvNames.ScanLosesNothing | internal/config/config.go:197-201 | for every name without a dot the levels written back as double underscores give the name, none is left, and of three underscores the first two make the level |
| EnvNames.TrailingUnderscoreBreaksTheName | internal/config/config.go:197-201 | an alerter called `team_` cannot be configured from the environment |
| App.AddAlerter | cmd/joghd/main.go:221-234 | a supported alerter is registered under its key and stacked as filter around instrument around channel; an unsupported one changes nothing |
| App.ProvideAlerter | cmd/joghd/main.go:211-244 | the composite has exactly one route per enabled alerter, in the order visited; it fails exactly on an unsupported type |
| App.RouteFollowsConfiguration | cmd/joghd/main.go:221-234 | an alerter's channel is named after its type and key, and its filter lets through exactly the listed companies, or all if none is listed |
| App.RoutesAreDistinct | cmd/joghd/main.go:216-234 | different alerters never share counters |
| App.CountersAtStartUpExactly | cmd/joghd/main.go:232-233 | an alerter's sent and failed counters exist at start-up exactly when its own name is an enabled key, and for some enabled alerter none of them does |
| App.RunOneshot | cmd/joghd/main.go:307-346 | exit code 0 exactly when all results passed, one failure alert per failed result, whatever the alerters answer |
| App.OneAlertPerFailedTarget | cmd/joghd/main.go:314-335 | the alerts are one failure per failed target and none else, in configuration order |
| App.DeliveriesAreTheAlerts | cmd/joghd/main.go:314-335 | each failed result is sent out once, in order, against the network's answer to it |
| App.OneshotIsDeterministic | cmd/joghd/main.go:307-346 | for every uncancelled interleaving exit code and alerts are those of checking the targets in order |
| App.ExitZeroMeansAllHealthy | cmd/joghd/main.go:310-345 | in every run, cancelled or not, exit code 0 means every target passes its full check |
| App.ExitZeroExactly | cmd/joghd/main.go:310-345 | in every run, cancelled or not, exit code 0 means exactly that every target passes its full check and none was cut off |

## Left out

- HTTP, TCP, TLS, SOCKS5 and resty: an attempt's exchange with the network is an arbitrary input.
- `url.Parse` and `net.SplitHostPort`: arbitrary functions, the same for every caller.
- Telegram and Mattermost payloads, JSON, logging, banner, message texts, alert identifiers, severities and timestamps.
- fx, flags, koanf and TOML loading, the Prometheus registry and HTTP handler; counters and gauges are maps.
- Backoff.MachineWaitsAreIdealExactly: like `Backoff.IdealWaitBelowExponential`, takes products as exact; with rounding the waits need not grow by a nanosecond each, nor stay below the exponential.
- Cadence.DelayInRangeExactly: takes the spread as the interval divided by ten; the program multiplies by the `float64` nearest to 0.1, which differs only for intervals beyond the 53-bit mantissa.
- Alphabets beyond ASCII in `ToLower` and in environment names.
- Target headers and contact, which no modelled code looks at.
- The random generator: the jitter is any draw in its range.
- Scheduler.Scheduler.RunTargetLoop: takes the outside (results, clock, draws, network answers) as a script that ends where the loop returns, because the loop itself never ends; the choice between timer and context is in `Shutdown`.
- Config.DefaultsAreIdempotent: is about the values the in-place defaulting produces.
- App.OneshotIsDeterministic: the start time in a result is fixed per target, since a schedule may move it.
- Shutdown.LoopsStopAfterCancel: the reaction time of the runtime is a parameter; Go promises none.
- Interleaving.MetricsAgreeWithStates: takes the writes of one `ObserveCheck` as one step; a scrape in between can see some of a target's gauges before the others.
- `Interleaving` leaves clock readings free; `TimedInterleaving` ties them to instants, with the readings a round will have fixed when it is recorded.
