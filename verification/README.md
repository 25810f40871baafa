# A Dafny model of VeriKube

VeriKube is a Kubernetes operator that runs network checks. A **CheckSuite** describes checks, the runners that execute them and a schedule; a **CheckRun** is one execution of a frozen copy of that template. The suite reconciler creates CheckRuns, the run reconciler turns each one into one Job per runner, runner pods execute their checks and write their results into the run's status, and the run reconciler aggregates them into a verdict. All of this is shared state behind an API server that fails, lags and interleaves.

`dafny verify dfyconfig.toml` checks the whole project.

| file | what it holds |
|---|---|
| `Types.dfy` | suite template, results, controller-owned status fields |
| `Names.dfy` | names derived from runs, runners, ticks and triggers |
| `RunnerPod.dfy` | check assignment and the retry loop |
| `FanOut.dfy` | the bounded concurrent execution of a runner's checks |
| `FieldOwnership.dfy` | server-side apply with field managers; the pod's report |
| `RunnerProcess.dfy` | one runner pod from start to exit |
| `Aggregation.dfy` | the verdict over all reported results |
| `Metrics.dfy` | gauges and counters, and how they relate to the verdict |
| `CheckRunController.dfy` | one pass of the run reconciler |
| `CheckRunProtocol.dfy` | a run over its whole life as a transition system, and its invariant |
| `CheckRunTheorems.dfy` | what holds over every such history |
| `CheckRunStatuses.dfy` | the forms a stored status can take, and the pass behind each |
| `CheckRunVerdicts.dfy` | what a stored verdict says about the results on the server |
| `CheckRunFinality.dfy` | exactly when a finished run stays as it is |
| `CheckRunLateReport.dfy`, `CheckRunStaleReads.dfy` | concrete histories in which a naive claim fails |
| `GaugeCleanup.dfy` | the race between finished runs writing gauges and suite deletion |
| `GaugeRecords.dfy` | what the gauges of a suite that exists show |
| `CronScan.dfy` | the missed-tick scan and catching up with a backlog |
| `SuiteController.dfy` | one pass of the suite reconciler, as the writes it makes |
| `SuitePass.dfy` | what a pass achieves; cleanup of history |
| `SuiteOutcome.dfy` | what passes decide and leave, in terms of phases, ticks and spec fields |
| `SuiteReplay.dfy`, `SuiteCleanupReplay.dfy` | passes that fail and are replayed |
| `SuiteProtocol.dfy` | a suite over its whole life as a transition system, and its invariant |
| `SuiteTheorems.dfy` | what holds over every such history |
| `MinuteSuites.dfy` | a suite that runs every minute, for concrete histories |
| `SuiteStaleReads.dfy` | concrete histories in which a stale cache or a withdrawn Error breaks a guarantee |

## How it is modelled

- **Code that changes state stays imperative.** The loops of the runner, the aggregation, the metrics registry, both reconcilers and the status server are methods with invariants, over classes whose fields they update. Each is proved against a specification function or predicate, and the lemmas are about those.
- **Whole histories are transition systems.** `CheckRunProtocol`, `SuiteProtocol` and `GaugeCleanup` take one step per API call or environment action. A state keeps every moment the server went through, so a cached read is a read of an earlier moment. Any call may fail, and a failed write may have landed or not; a pass may be abandoned between any two steps.
- **The two levels share their definitions.** The protocol's passes decide with the functions that the imperative passes are proved against (`CheckRunController.Decide` and `StatusFor`, `SuiteController.Plan`).
- **Oracles.** A probe is a function from check and attempt to an observation; a cron schedule is the function from an instant to the next tick; the name hash is a parameter. Facts about them are hypotheses, stated where they are used: `CronScan.Satisfiable` (the next tick is later, and none lies in between), `SuitePass.Advancing` (it is later, by whole seconds), `Names.IsHash`, `Names.HashCoincidence`.
- **Schema guarantees** (unique names, replicas of at least one, checks naming existing runners) are `Types.ValidTemplate`. The run's spec is a parameter of its protocol because it is immutable.
- **Genuine runners.** Result entries come from runner pods of the run's own Jobs. Field managers are pod names, and no pod is named like the controller's field manager.
- **Time** is in integer nanoseconds; stored times are rounded down to whole seconds (`Types.Stored`).

## Where the code and its documentation part

The model follows the code in each case.

- `mostRecentScheduleTime` is documented to return the most recent missed tick. When it hits its cap it returns the 81st tick after the starting point (`CronScan.CappedScan` says when the two coincide).
- "At most the final tick fires" after unsuspending (`docs/src/content/docs/reference/operations.md:16`) fails for long backlogs of frequent ticks: `CronScan.TwoTicksMayFire` is an every-minute schedule under the default deadline. `CronScan.OnlyFinalTickFires` gives the exact condition and `CronScan.FewCatchUpRuns` the bound that always holds.
- `summary.total` is described as counting results; it counts (runner, check) pairs (`Aggregation.SummaryMeaning`).
- When a wait is cancelled, the reported attempts are the configured maximum, not the probes made (`RunnerPod.AttemptsCountProbes`).
- A failed Job's reason `RunnerError` is never stored, because finishing sets the same condition again (`CheckRunTheorems.RunnerErrorNeverStored`).
- "Succeeded" reads as "all checks passed". A pass reads the run before its Jobs and asks for at least as many entries as replicas, so a failing report that lands in between is overlooked although it completes the Job (`CheckRunLateReport.SucceededBesideFailure`). `CheckRunVerdicts.EndToEndVerdict` says exactly when everything reported holds.
- A comment says results and pod exit have no ordering guarantee. At the server they do: a pod exits 0 only after its apply was answered, so the waiting branch needs a lagging read (`CheckRunTheorems.WaitingNeedsLag`).
- The gauge-cleanup comment covers every interleaving except one: a suite lookup that fails with an error other than "not found" returns without cleaning up (`GaugeCleanup.FailedLookupLeaksGauges`); `NoGaugeOutlivesItsSuite` shows that nothing else leaves a gauge behind.
- A terminal phase is meant to end a run. While the run cache lags, an Error from a missing ServiceAccount or from the deadline can be withdrawn (`CheckRunStaleReads`), and with it the guarantee of Forbid (`SuiteStaleReads.WithdrawnErrorBreaksForbid`); verdicts and Errors from failed Jobs cannot. `CheckRunFinality` gives the exact conditions.
- Re-creating the run of a tick is idempotent, but a replayed pass as a whole is not when a run-now trigger and a tick meet: Forbid then drops the tick, Replace drops the manual run or creates it twice (`SuiteReplay.ReplaysAgreeExactly`).

## Model

| member | source | states |
|---|---|---|
| Names.TruncateNameFits | internal/controller/names.go:32-43 | A derived name never exceeds the limit, exists for any limit of at least 9 (the slice panics exactly for a long name below that), and short names are kept as they are |
| Names.TruncateNameInjective | internal/controller/names.go:36-43 | Distinct names stay distinct if and only if the 8-character hash does not happen to coincide |
| Names.JobNamesDistinct | internal/controller/names.go:45-49 | Within one run, two runners get the same Job name only through a hash coincidence |
| Names.TickNamesDistinct | internal/controller/checksuite_controller.go:197 | For one suite, two different whole-second ticks get the same run name only through a hash coincidence |
| Names.ManualNamesDistinct | internal/controller/checksuite_controller.go:122-125 | A run-now run never takes a scheduled run's name, short of a hash coincidence |
| Names.ManualNamesShared | internal/controller/checksuite_controller.go:122-125 | Two run-now values of a suite name the same run if and only if their hashes agree or a long name coincides |
| Names.DerivedNames | internal/controller/names.go:32-49 | Job names fit 57 characters and are run and runner joined by a dash; run names fit 63 and are suite and tick in seconds, or suite, "manual" and the hashed trigger; longer ones keep their beginning and end in the hash |
| Names.TickNameReadsBack | internal/controller/checksuite_controller.go:197 | The digits of a short run name read back as the second its tick is in |
| RunnerPod.FilterChecks | internal/runner/runner.go:136-144 | The loop returns the specified selection of checks |
| RunnerPod.FilterSelects | internal/runner/runner.go:134-144 | The selection is exactly the assigned checks, in suite order, none twice and none missing |
| RunnerPod.FilterKeepsNamesUnique | internal/runner/runner.go:134-144 | Unique check names stay unique per runner, and a check is selected if and only if it restricts no runner or names this one |
| RunnerPod.ExecuteCheck | internal/runner/runner.go:166-232 | A check passes if and only if its type is known and its last observation is the expected one; every earlier probe missed; probes stop early only on success or cancellation; an unknown type fails with one attempt even when failure is expected |
| RunnerPod.ProbesDecide | internal/runner/runner.go:166-226 | An unknown type fails without a probe; otherwise the check passes if and only if its last probe succeeded and no failure is expected, or failed and one is, and every earlier probe was on the other side |
| RunnerPod.ProbesMade | internal/runner/runner.go:185-218 | At least one probe and at most the configured attempts, one when unset; fewer only after a match or before a cancelled wait |
| RunnerPod.LastProbeReported | internal/runner/runner.go:220-231 | The result carries the last probe's observation, the first 1024 characters of its message, and its duration to the nearest millisecond, halves away from zero |
| RunnerPod.ResultMeaning | internal/runner/runner.go:196-231 | A check passed if and only if its type is known and some probe met the expectation, namely the one numbered by the attempts; uncancelled failures of a known type used every attempt |
| RunnerPod.AttemptsCountProbes | internal/runner/runner.go:198-218 | The reported attempts bound the probes made, and equal them except after a cancelled wait |
| RunnerPod.OneOutcome | internal/runner/runner.go:166-232 | What a check reports, message and duration included, is determined by what its probes find and which waits are cancelled |
| FanOut.ExecuteChecks | internal/runner/runner.go:146-163 | Under every complete schedule of launches and finishes, exactly those events happen, and slot i ends up with the outcome of check i against its own probes |
| FanOut.EachOnce | internal/runner/runner.go:155-161 | In every complete schedule each task is launched once and writes its slot once, and no other task does |
| FanOut.NeverAboveLimit | internal/runner/runner.go:149-154 | At every moment of every schedule the tasks launched and not finished number at most the limit, 8 when unset |
| FanOut.NextEvents | internal/runner/runner.go:155-161 | Exactly which event may follow any schedule: the next launch while fewer than the limit are in flight, or the finish of any task launched and not finished |
| FanOut.LimitIsReached | internal/runner/runner.go:149-154 | The limit is the configured one, 8 when unset, and some schedule has that many checks in flight |
| FanOut.JoinDrains | internal/runner/runner.go:155-162 | No schedule is longer than two events per check, one is complete exactly when it has that many, and until then some event is possible: the join always returns |
| FanOut.ScheduleIrrelevant | internal/runner/runner.go:146-163 | The results do not depend on the schedule |
| RunnerProcess.Run | internal/runner/runner.go:98-132 | The exit code is 0 if and only if the run was fetched and a try to apply the pod's whole result set was answered, whatever the verdicts; each result is the outcome of its own check; a failed fetch writes nothing |
| FieldOwnership.DocsAgree | internal/runner/report.go:32-60 | Documents of different writers share only runner keys and agree on them |
| FieldOwnership.WritesNeverConflict | internal/controller/checkrun_controller.go:282-318 | No sequence of controller and pod applies ever conflicts, and the status is the union of everyone's last document |
| FieldOwnership.EveryoneReadsTheirLastWrite | internal/controller/checkrun_controller.go:271-306 | After any sequence of writes each pod entry is that pod's last report and each controller field is that of the last controller apply |
| FieldOwnership.StatusReadsBack | internal/controller/checkrun_controller.go:282-306 | After any sequence of writes a reader decodes exactly the status the controller applied last, field by field |
| FieldOwnership.ItemsAreNamed | internal/runner/report.go:32-60 | Runner and pod items exist exactly as far as someone's last report is for them, each under its own name |
| FieldOwnership.RefusedExactly | internal/runner/report.go:77-81 | An apply is refused if and only if it gives some field another value than another manager's last document does |
| FieldOwnership.InterleavingIrrelevant | internal/runner/report.go:32-60 | Two histories with the same per-writer order end in the same status, values and ownership |
| FieldOwnership.RepeatIsNoOp | internal/runner/report.go:62-82 | Repeating one's last write changes nothing, whatever others wrote in between |
| FieldOwnership.StatusServer.TryApply | internal/runner/report.go:77-81 | A call that is not lost and does not conflict is applied as a whole, any other changes nothing; it succeeds if and only if it was applied and answered |
| FieldOwnership.Report | internal/runner/report.go:62-82 | The report succeeds if and only if one of its tries is answered, and its entry lands if and only if one is carried out; however many are, the status changes at most once |
| Aggregation.PodPasses | internal/controller/checkrun_controller.go:345-358 | A pod passes a check by its first result of that name; a missing result is a failure |
| Aggregation.PodsPass | internal/controller/checkrun_controller.go:344-359 | A check passes for a runner if and only if it passes on every pod entry |
| Aggregation.AggregateRunner | internal/controller/checkrun_controller.go:342-366 | One runner's failing pairs in order, and counters that add up |
| Aggregation.Aggregate | internal/controller/checkrun_controller.go:320-369 | Complete if and only if every runner has at least as many entries as replicas; then summary and failing list meet their definition, otherwise both are empty |
| Aggregation.CompleteMeaning | internal/controller/checkrun_controller.go:333-340 | Results are complete if and only if every runner has at least as many entries as replicas, one when unset |
| Aggregation.FailsExactly | internal/controller/checkrun_controller.go:342-366 | The failed count is positive if and only if, for some check assigned to a runner, some entry of that runner has no result of that name or a first one that did not pass |
| Aggregation.SummaryCounts | internal/controller/checkrun_controller.go:342-366 | Total, failed and passed are the numbers of assigned (runner, check) pairs, of those that fail, and of the rest, each pair counted once |
| Aggregation.SummaryMeaning | internal/controller/checkrun_controller.go:333-368 | Total is passed plus failed and is the sum over runners of their assigned checks; nothing failed if and only if every pair passed on every pod |
| Aggregation.VerdictMonotone | internal/controller/checkrun_controller.go:320-340 | More entries never make complete results incomplete or a failure disappear |
| Aggregation.FailedCountsFailures | internal/controller/checkrun_controller.go:360-366 | The failed count is positive if and only if some pair failed |
| Metrics.Registry.SetLastResults | internal/metrics/metrics.go:82-97 | The suite's gauges become exactly the given verdicts, and no other suite's series changes |
| Metrics.Registry.DeleteSuite | internal/metrics/metrics.go:99-106 | All gauge series of the suite are gone, and no other suite's |
| Metrics.Registry.RecordMetrics | internal/controller/checkrun_controller.go:487-537 | The phase is counted and the run's duration observed; for Succeeded and Failed, counters and latency histograms grow by exactly the reported results and the gauges are replaced, or dropped if the suite is gone; nothing else moves |
| Metrics.GaugesAgreeWithVerdict | internal/controller/checkrun_controller.go:501-521 | For a completed genuine run there is one gauge per check of the suite, and it is 1 if and only if every (runner, check) pair of that name passed |
| Metrics.SucceededMeansAllGauges | internal/controller/checkrun_controller.go:205-206 | The run succeeded if and only if all its gauges are 1 |
| Metrics.CountersCountPods | internal/controller/checkrun_controller.go:505-512 | A check's pass and fail counters together grow by the number of pods that ran it |
| Metrics.CountIsSize | internal/controller/checkrun_controller.go:505-512 | A result counter grows by the number of reported results of its check and outcome |
| Metrics.DurationsAreReported | internal/controller/checkrun_controller.go:513-515 | A latency histogram observes, in order, the durations of the results of its check and outcome that carry one |
| Metrics.VerdictExported | internal/controller/checkrun_controller.go:504-522 | After a verdict of an existing suite has been recorded: one gauge per check of the suite, 1 if and only if every pair of it passed, the completion time, and one more result counted per pod that ran a check |
| Metrics.RecordedOnce | internal/controller/checkrun_controller.go:487-537 | Recording counts each run once for its phase, never touches another suite's gauges, leaves all gauges alone for an Error, and leaves a suite that is gone none |
| CheckRunController.EnsureJobs | internal/controller/checkrun_controller.go:130-153 | Only fresh Jobs of suite runners missing from the view are added, and on success every runner has one |
| CheckRunController.Conclude | internal/controller/checkrun_controller.go:164-220 | The imperative decision equals the specified one: deadline, then failed Jobs, then complete results, else wait |
| CheckRunController.DeadlineExactly | internal/controller/checkrun_controller.go:164-176 | A pass gives up for the deadline if and only if more than the timeout, ten minutes when unset, has passed since the start it read; on an unstarted run only with a negative timeout |
| CheckRunController.InTimeDecision | internal/controller/checkrun_controller.go:178-220 | In time: Error if and only if some Job failed; a verdict if and only if every Job and all results are complete, Failed exactly when some entry lacks a pass for an assigned check; else it waits |
| CheckRunController.AppliedFields | internal/controller/checkrun_controller.go:222-263 | Which fields a pass applies: the start it read or its clock as whole seconds; while waiting nothing else; when finishing also its clock, phase, summary, and its conditions over those it read |
| CheckRunController.Settle | internal/controller/checkrun_controller.go:222-269 | Metrics are recorded exactly when the status of a finished run was applied, for the decided phase; otherwise nothing exported changes |
| CheckRunController.Reconcile | internal/controller/checkrun_controller.go:90-230 | A finished run is untouched; a missing ServiceAccount errors the run before any Job exists; otherwise the status becomes the decided one or stays, and success implies it was applied; metrics are recorded exactly when this pass finished the run |
| CheckRunController.MetricsMatchStatus | internal/controller/checkrun_controller.go:263-266 | The metrics of a finished run, under its namespace and suite: the duration since the start the pass read, its phase, and for a verdict of an existing suite exactly the completion time that is stored |
| CheckRunController.VerdictWithinTimeout | internal/controller/checkrun_controller.go:155-176 | Any Succeeded or Failed status has completion minus start within the timeout, on stored times |
| CheckRunController.WakeUpIsPastDeadline | internal/controller/checkrun_controller.go:222-229 | A waiting pass wakes exactly one second after the deadline, so after at least a second and strictly past the deadline despite rounding, and a pass then ends the run |
| CheckRunController.CompletedReasonIsPhase | internal/controller/checkrun_controller.go:251-259 | A pass that finishes a run stores Completed with the phase as reason; RunnerError is overwritten, the other reasons stay |
| CheckRunController.VerdictSurvives | internal/controller/checkrun_controller.go:193-213 | From any view that is not older, a decided run stays decided and a failure never turns into success |
| CheckRunProtocol.InvStep | internal/controller/checkrun_controller.go:90-230 | Every step of controller, pods, Jobs, clock and failures keeps the protocol's invariant |
| CheckRunProtocol.Invariant | internal/controller/checkrun_controller.go:90-230 | The invariant holds in every reachable state, for any lag of the caches |
| CheckRunProtocol.NoJobAfterVerdict | internal/controller/checkrun_controller.go:140-149 | Once a verdict is stored no pass, however stale, creates a Job again |
| CheckRunProtocol.DoneJobsMeanComplete | internal/controller/checkrun_controller.go:469-470 | A complete Job has as many entries as completions, so all Jobs complete means complete results |
| CheckRunProtocol.EntryTellsTruth | internal/runner/runner.go:116-131 | A pod's entry passes all assigned checks if and only if on that pod each had a known type and a last observation as expected |
| CheckRunProtocol.VerdictTellsTruth | internal/controller/checkrun_controller.go:201-212 | Over complete results, Succeeded if and only if everything held on every entry, Failed if and only if something did not |
| CheckRunVerdicts.VerdictHasItsPass | internal/controller/checkrun_controller.go:201-212 | Every stored verdict was stored, and not changed since, by a pass that had seen every Job complete and decided that verdict and summary from the complete results it read |
| CheckRunVerdicts.EndToEndVerdict | internal/controller/checkrun_controller.go:201-212 | From the moment a verdict is stored and ever after, results are complete; after Failed some reported check had not held; after Succeeded everything reported holds if and only if whatever landed after the pass's read held, and always when no runner has more entries than replicas |
| CheckRunVerdicts.HoldsMeansObserved | internal/runner/runner.go:166-231 | That everything held means: every pod of every runner last observed, for each check assigned to it, a failure exactly where one is expected |
| CheckRunVerdicts.VerdictAsObserved | internal/controller/checkrun_controller.go:201-212 | In every history, Succeeded or Failed was stored according to whether that was so in the complete results the pass had read |
| CheckRunLateReport.SucceededBesideFailure | internal/controller/checkrun_controller.go:93-136 | A history with current run reads in which Succeeded is stored while the server holds a failing entry, because the run is read before its Jobs |
| CheckRunTheorems.ResultsLandBeforeCompletion | internal/controller/checkrun_controller.go:214-219 | At the server each pod that exited 0 has its entry, each entry is a pod's full result set, and all Jobs complete makes the results complete |
| CheckRunTheorems.WaitingNeedsLag | internal/controller/checkrun_controller.go:214-219 | A pass that saw all Jobs complete waits only if it read the run earlier than the Jobs |
| CheckRunTheorems.VerdictsAreStable | internal/controller/checkrun_controller.go:97-99 | Under any cache lag a stored verdict is followed only by terminal phases, and Failed never by Succeeded |
| CheckRunTheorems.VerdictNeedsEveryJob | internal/controller/checkrun_controller.go:178-201 | In every history, once a verdict is stored every runner's Job is complete and none is or will be failed |
| CheckRunTheorems.VerdictsAreOnTime | internal/controller/checkrun_controller.go:167-176 | In every history a verdict came within the run's timeout |
| CheckRunTheorems.TerminalIsFinal | internal/controller/checkrun_controller.go:97-99 | With current run reads every terminal status is final and the start time never moves |
| CheckRunTheorems.FinishedStaysFinished | internal/controller/checkrun_controller.go:97-99 | With current run reads a finished run never becomes unfinished |
| CheckRunTheorems.OnlyErrorIsLeft | internal/controller/checkrun_controller.go:97-99 | With lagging reads Error is the only terminal phase that can be left |
| CheckRunTheorems.RunnerErrorNeverStored | internal/controller/checkrun_controller.go:184-189 | No stored status of any history carries the reason RunnerError |
| CheckRunStatuses.StoredStatusShape | internal/controller/checkrun_controller.go:234-263 | In every history: an unfinished run has no completion time, summary or condition; a verdict has all three; an Error has no summary and at most one reason of its own; times are whole seconds, in order and never in the future |
| CheckRunStatuses.StatusHasItsPass | internal/controller/checkrun_controller.go:222-263 | Every stored status but the initial one was applied by a pass of the history, and not changed since |
| CheckRunStatuses.DeadlineErrorsAreLate | internal/controller/checkrun_controller.go:164-176 | In every history, a run stored as timed out was: the pass that stored it read a start more than the timeout before its clock, which start and completion time show |
| CheckRunStatuses.AccountErrorsAreTrue | internal/controller/checkrun_controller.go:107-128 | In every history, a pass stores a missing ServiceAccount only for a run it read unstarted and with the account absent since; and it stores nothing else if the account was absent throughout |
| CheckRunStatuses.InTimePassesDecide | internal/controller/checkrun_controller.go:178-220 | In every history, a pass in time stores an Error if and only if it saw a failed Job, a verdict if and only if it saw every Job complete and none failed and read complete results, and Running otherwise |
| CheckRunFinality.FinalExactlyWhenCaughtUp | internal/controller/checkrun_controller.go:93-99 | A stored terminal status is final under every continuation if and only if no pass is in flight and every moment the run cache can still show is terminal |
| CheckRunFinality.RevivedExactlyWhenUnspent | internal/controller/checkrun_controller.go:167-229 | A finished run can never be put back to Running if and only if every moment still readable is finished or past its deadline, or some Job has failed or all results are in as far as the Job cache has come, and a pass in flight, if any, is bound to finish it too |
| CheckRunFinality.FailedJobErrorIsFinal | internal/controller/checkrun_controller.go:178-191 | An Error stored because a Job failed stays Error under any lag |
| CheckRunTheorems.TerminalByWakeUp | internal/controller/checkrun_controller.go:222-229 | With current run reads, a pass that starts after the requested wake-up and reaches its apply ends the run |
| CheckRunStaleReads.ErrorCanBeWithdrawn | internal/controller/checkrun_controller.go:110-128 | A history in which a lagging run cache turns the Error of a missing ServiceAccount back into Running |
| CheckRunStaleReads.DeadlineErrorCanBeWithdrawn | internal/controller/checkrun_controller.go:155-176 | The same for an Error past the deadline, when a later start time is still readable |
| GaugeCleanup.CleanerStep | internal/controller/checksuite_controller.go:76-85 | Informer and suite-reconciler steps, failed reads included, keep every remaining gauge covered by someone still bound to drop it |
| GaugeCleanup.RecorderStep | internal/controller/checkrun_controller.go:521-536 | So does every step of any number of recorders |
| GaugeCleanup.NoGaugeOutlivesItsSuite | internal/controller/checkrun_controller.go:524-536 | In every interleaving, once the suite is gone and nothing about it is pending, a gauge series of a kind exists if and only if a recorder whose lookup failed after the suite had gone left it behind and nothing has dropped it since |
| GaugeCleanup.LostOnlyByFailedLookup | internal/controller/checkrun_controller.go:533-536 | Only such a failed lookup makes a series count as left behind |
| GaugeCleanup.FailedLookupLeaksGauges | internal/controller/checkrun_controller.go:533-536 | A concrete interleaving in which such a failed lookup leaves gauges behind for good |
| GaugeRecords.DropsExactlyWhenGone | internal/controller/checkrun_controller.go:524-536 | The decision to drop a suite's series is made if and only if the suite is not visible, by the suite reconciler's read or by a recorder's lookup |
| GaugeRecords.NothingDropped | internal/controller/checksuite_controller.go:76-85 | Until then no step removes the completion time, and only a newer run's recorder clears verdicts |
| GaugeRecords.FinishedRunShows | internal/controller/checkrun_controller.go:521-536 | In every history in which a suite exists throughout, its completion time is there ever after one of its runs has been recorded |
| GaugeRecords.LastRunShows | internal/controller/checkrun_controller.go:504-536 | While a suite exists and its runs are recorded one at a time, its series are exactly the last run's verdicts and completion time |
| GaugeRecords.NobodyIsStuck | internal/controller/checkrun_controller.go:521-536 | In every state the cache may change, keys may be queued and runs may finish, and every reconcile and recorder under way can go on |
| GaugeRecords.RecordersEnd | internal/controller/checkrun_controller.go:504-536 | Each step of its own brings a recorder closer to its end and no other step takes it back |
| CronScan.MostRecentScheduleTime | internal/controller/checksuite_controller.go:214-230 | The loop computes the specified scan for any schedule function, within 81 iterations |
| CronScan.MissedMeaning | internal/controller/checksuite_controller.go:217-228 | The count of the scan is exactly the leading run of due ticks, up to the cap |
| CronScan.ScanFindsLatest | internal/controller/checksuite_controller.go:214-230 | Below the cap: the greatest due tick or none if there is none, and the least tick after now |
| CronScan.CappedScan | internal/controller/checksuite_controller.go:223-226 | At the cap: the 81st tick, which is the latest due one if and only if no 82nd is due, and still the least tick after now |
| CronScan.UnsatisfiableScan | internal/controller/checksuite_controller.go:218-230 | For a schedule that never fires again the scan ends all the same, at the cap |
| CronScan.BacklogDrains | internal/controller/checksuite_controller.go:161-206 | Each pass at a fixed time advances by min(81, remaining) ticks |
| CronScan.DrainedWhen | internal/controller/checksuite_controller.go:161-206 | The backlog of k ticks is handled after exactly ceil(k/81) passes, at the true last tick |
| CronScan.OnlyFinalTickFires | docs/src/content/docs/reference/operations.md:12-17 | Only the final tick fires if and only if the backlog fits one scan or the last full batch before its end is past the deadline |
| CronScan.TwoTicksMayFire | docs/src/content/docs/reference/operations.md:16 | Counterexample to the documented claim: 82 missed minutes fire two ticks |
| CronScan.FewCatchUpRuns | internal/controller/checksuite_controller.go:172-206 | A backlog fires at most floor(deadline/d)+2 ticks when 81 ticks span at least d, and at most one if it fits one scan |
| SuiteController.SuiteApi.Create | internal/controller/checksuite_controller.go:249-258 | Creating an existing run changes nothing; a failed call may have landed |
| SuiteController.SuiteApi.UpdateSuiteStatus | internal/controller/checksuite_controller.go:319-322 | A status update lands only on the version it was read from, and success implies that |
| SuiteController.Classify | internal/controller/checksuite_controller.go:94-107 | The owned runs, split by phase, in list order |
| SuiteController.BucketSelects | internal/controller/checksuite_controller.go:94-107 | Each list holds exactly the owned runs that succeeded, that failed or errored, or that did neither, in list order |
| SuiteController.SortByRecency | internal/controller/checksuite_controller.go:276-278 | The same runs, oldest first, ties in any order |
| SuiteController.GcRuns | internal/controller/checksuite_controller.go:271-286 | Deletes, oldest first, exactly the runs beyond the newest `limit`; a failure leaves a prefix of them deleted |
| SuiteController.FireTick | internal/controller/checksuite_controller.go:189-205 | Replace deletes every active run before the tick's run is created; a failure stops at some prefix |
| SuiteController.HandleSchedule | internal/controller/checksuite_controller.go:161-211 | The due tick is skipped or fired as decided, and recorded either way |
| SuiteController.Reconcile | internal/controller/checksuite_controller.go:73-212 | A missing suite only loses its gauges; a failed read changes nothing; otherwise some prefix of the pass's plan was executed, and success means all of it, with the commit on the version read |
| SuitePass.CleanupKeepsNewest | internal/controller/checksuite_controller.go:271-286 | Of n runs of a kind min(n, limit) survive, and no deleted one is more recent than a survivor, however ties are ordered |
| SuitePass.CleanupStopsCleanly | internal/controller/checksuite_controller.go:279-284 | What a partial cleanup has deleted is closed towards older runs |
| SuitePass.CleanupSpares | internal/controller/checksuite_controller.go:94-120 | Cleanup, stopped anywhere, deletes only finished runs of the suite |
| SuitePass.HistoryAfterCleanup | internal/controller/checksuite_controller.go:113-120 | A full cleanup over a current listing keeps the newest of both kinds, and every unfinished run |
| SuitePass.DecisionFacts | internal/controller/checksuite_controller.go:172-206 | Whatever is fired or skipped is a real tick after the recorded one; fired only within the deadline and, under Forbid, with nothing active; nothing due only if no tick was missed |
| SuitePass.RequeueAtNextTick | internal/controller/checksuite_controller.go:208-211 | The requeue delay is positive and ends at the first tick after now |
| SuitePass.StaleScan | internal/controller/checksuite_controller.go:162-166 | A scan from a stale recorded tick comes up with an already handled one if and only if no later tick is due or the 81st tick after its start is itself handled |
| SuitePass.PassAdvances | internal/controller/checksuite_controller.go:161-206 | A pass records what the catch-up analysis says, and fires exactly the ticks it counts |
| SuitePass.PassOutcome | internal/controller/checksuite_controller.go:122-212 | All writes of a pass in one formula: manual run, replaced runs, tick run, committed status |
| SuitePass.TriggerHandledOnce | internal/controller/checksuite_controller.go:122-137 | A run-now trigger creates its run even while suspended and is never due again; a suspended or unscheduled suite otherwise creates nothing and records no tick |
| SuitePass.ActiveRefsCover | internal/controller/checksuite_controller.go:109-111 | The committed active references name every unfinished run the pass leaves |
| SuitePass.ActiveRefsDangle | internal/controller/checksuite_controller.go:190-204 | They also name a run that is gone if and only if Replace deleted some run other than the tick's own |
| SuitePass.ActiveRefsRepeat | internal/controller/checksuite_controller.go:109-132 | They name a run twice if and only if a run the pass answers for was already active, or both have one name |
| SuitePass.DecisionGoesForward | internal/controller/checksuite_controller.go:161-206 | For any schedule that moves on by whole seconds, with or without fixed ticks, what is fired or skipped is what the scan found: after the recorded tick, due, and fired only within the deadline |
| SuiteOutcome.DecidesExactly | internal/controller/checksuite_controller.go:161-206 | A tick fires if and only if the suite is scheduled and not suspended, it is the last one due since the recorded tick or creation, the 81st at most, it is within the starting deadline, 200 seconds when unset, and Forbid finds nothing active; otherwise it is skipped; nothing is due if and only if there is none |
| SuiteOutcome.CommitSays | internal/controller/checksuite_controller.go:109-208 | The committed status: the trigger seen, the tick handled, whether the schedule parsed, and references to the listed active runs and those the pass answers for, in that order |
| SuiteOutcome.HistoryTrimmed | internal/controller/checksuite_controller.go:297-309 | After a whole pass over a current listing the suite has its newest succeeded runs, 3 unless the spec says, and its newest failed or errored ones, 5 unless the spec says, each side on its own |
| SuiteOutcome.PassTouchesOnly | internal/controller/checksuite_controller.go:94-206 | A pass stopped anywhere has removed only finished runs of the suite, or any of its own when Replace fires, and added only unstarted ones of its template for the tick that fires or the trigger that is due |
| SuiteReplay.ReplaysAgreeExactly | internal/controller/checksuite_controller.go:122-211 | After cleanup, every replay of a pass stopped before its commit ends as if it had not stopped, if and only if no due trigger meets a firing tick in the setting that policy is exposed to: never under Allow; under Forbid when neither run exists and their names differ; under Replace unless a finished or foreign run holds the manual run's name |
| SuiteReplay.ForbidLosesTick | internal/controller/checksuite_controller.go:184-188 | Under Forbid the replay finds the manual run active and records the tick without running it |
| SuiteReplay.ReplaceLosesNewManual | internal/controller/checksuite_controller.go:190-196 | Under Replace the replay deletes the manual run the pass has just created and commits its trigger as handled |
| SuiteReplay.ReplaceRevivesManual | internal/controller/checksuite_controller.go:190-196 | Under Replace a pass deletes a manual run it finds active; stopped right after and replayed, it creates that run again |
| SuiteReplay.TriggerDoesMeetTick | internal/controller/checksuite_controller.go:122-206 | A concrete store in which the setting occurs, for Forbid and for Replace |
| SuiteCleanupReplay.CleanupResumes | internal/controller/checksuite_controller.go:113-120 | A cleanup stopped anywhere and resumed from a fresh listing ends with the same runs, unless finished runs tie in recency |
| SuiteCleanupReplay.CleanupResumesWithTies | internal/controller/checksuite_controller.go:271-286 | With ties the resumed cleanup ends as some undisturbed cleanup could have ended |
| SuiteCleanupReplay.WholePassReplays | internal/controller/checksuite_controller.go:94-211 | A whole pass, cleanup included, stopped at any write and replayed ends as if it had not stopped, without ties and in the same setting |
| SuiteCleanupReplay.WholePassReplaysWithTies | internal/controller/checksuite_controller.go:94-211 | With ties it ends as some undisturbed pass over the same reads could have ended |
| SuiteProtocol.CommitKeeps | internal/controller/checksuite_controller.go:319-322 | A commit that lands leaves the recorded tick or moves it forward to what the scan found, a real tick if the schedule has fixed ones |
| SuiteProtocol.InvStep | internal/controller/checksuite_controller.go:73-212 | Every write, failure, edit, deletion, run progress and clock step keeps the suite's invariant |
| SuiteProtocol.Invariant | internal/controller/checksuite_controller.go:73-212 | The invariant holds in every reachable state, for any age of the two cached reads |
| SuiteTheorems.RecordedTickOnlyAdvances | internal/controller/checksuite_controller.go:161-211 | Over every history with schedules that move on by whole seconds, the committed LastScheduleTime only changes to a later one, after creation and never past the clock |
| SuiteTheorems.ScheduledRunsAreGenuine | internal/controller/checksuite_controller.go:161-205 | Every scheduled run is for what a scan of a schedule of its suite found, a real tick if there are fixed ones: after the one handled before, due when fired and within the deadline; and no tick has two runs at once |
| SuiteTheorems.NameTellsTick | internal/controller/checksuite_controller.go:253-256 | A run found under a tick's name is that tick's run, short of a hash coincidence |
| SuiteTheorems.NoRecordedTickFiresAgain | internal/controller/checksuite_controller.go:161-211 | When passes begin from the committed tick, none acts on it or an earlier one, wherever passes broke off |
| SuiteTheorems.ForbidRunsOneAtATime | internal/controller/checksuite_controller.go:184-188 | Whatever the schedules, under a constant Forbid with current listings and runs that stay finished there are never two unfinished scheduled runs |
| SuiteTheorems.OverlapNeedsMissedRun | internal/controller/checksuite_controller.go:184-188 | A Forbid pass over a due tick keeps to one unfinished scheduled run if and only if its listing shows something active or there is none |
| SuiteTheorems.ReplaceLeavesOneRun | internal/controller/checksuite_controller.go:189-204 | Whatever the schedules, with current listings and runs that stay finished: once Replace has fired a tick, only that tick's run and a manual run of the same pass are unfinished |
| SuiteTheorems.ReplaceNeedsMissedRun | internal/controller/checksuite_controller.go:189-204 | For any listing: a firing pass under Replace leaves nothing else unfinished if and only if every other unfinished run was listed |
| SuiteStaleReads.StaleListBreaksForbid | internal/controller/checksuite_controller.go:184-188 | A history under Forbid in which a stale listing leads to two unfinished scheduled runs |
| SuiteStaleReads.StaleListBreaksReplace | internal/controller/checksuite_controller.go:189-196 | The same under Replace |
| SuiteStaleReads.StaleSuiteRepeatsTick | internal/controller/checksuite_controller.go:161-211 | A history in which a stale suite read fires an already committed tick again after its run was deleted, and the commit then conflicts |
| SuiteStaleReads.WithdrawnErrorBreaksForbid | internal/controller/checksuite_controller.go:99-106 | A history under Forbid with current reads in which a withdrawn Error leads to two unfinished scheduled runs |

## Left out

- SuiteReplay.ReplaysAgreeExactly: is about replays at the same instant; a later replay may act on a later tick. When both runs have one name, Replace agrees on the object but the model attributes it to the other cause.
- SuiteTheorems.ForbidRunsOneAtATime: needs listings that show every unfinished run and runs that stay finished; `SuiteStaleReads` shows why. `CheckRunTheorems.FinishedStaysFinished` provides the second for current run reads.
- SuiteTheorems.ReplaceLeavesOneRun: needs the same; `SuiteStaleReads.StaleListBreaksReplace` shows why, and `SuiteTheorems.ReplaceNeedsMissedRun` says exactly what a stale listing costs.
- CheckRunTheorems.TerminalByWakeUp: needs current run reads; a stale read without a start time, or with a later one, starts the deadline afresh.
- SuiteTheorems.NoRecordedTickFiresAgain: needs passes that read the committed tick; `SuiteStaleReads.StaleSuiteRepeatsTick` shows why.
- Names.JobNamesDistinct: is about one run; names of different runs can clash ("a" with runner "b-c" and "a-b" with runner "c").
- RunnerPod.ExecuteCheck: the retry delay is not modelled.
- FanOut.ExecuteChecks: goroutines appear as an arbitrary interleaving of launches and finishes; memory-level concurrency inside a task is not modelled.
- FieldOwnership.Report: how many of the 8 configured tries the capped backoff really makes is the library's business; it is a parameter.
- CheckRunController.Reconcile: one pass over fixed reads; what other writers do meanwhile is in `CheckRunProtocol`.
- SuiteController.Reconcile: one pass at one instant; interleaving is in `SuiteProtocol`.
- Metrics.Registry.RecordMetrics: a suite lookup that fails with an error counts as visible, as in the code; a histogram is the sequence of its observations, without buckets.
- GaugeRecords.LastRunShows: needs recordings of one suite that do not overlap, as with the run controller's single default worker; overlapping ones can interleave their gauges.
- CronScan.ScanFindsLatest: needs `Satisfiable`; `@every` schedules longer than a second count from their last tick and have no fixed set of ticks. The results over suite histories only need `SuitePass.Advancing`, which they meet.
- Probes, the dial guard and TLS: network I/O, represented by observations.
- The cron parser and calendar, and SHA-256: parameters.
- The Job controller: environment steps that start pods, retry them, and complete a Job after enough zero exits; Jobs persist as long as their run does.
- Node placement, topology spread, tolerations and the rest of the pod spec.
- Retry backoff timing of the report.
- Several passes over one object at once: each reconciler works on one key at a time, so the protocols have at most one pass in flight per run, per suite and per gauge key.
- A write of an abandoned pass arriving after a later pass has begun.
- Deletion and re-creation of a suite under the same name: `SuiteProtocol` follows one suite object; gauges across deletion are in `GaugeCleanup`.
- Forged result entries and the warning about them: outside the genuine-runner hypothesis.
- Events, log lines, condition messages and transition times, `observedGeneration`.
- The cap of 32 items on `status.active`; the list's order is the code's, and it may name runs already deleted.
- The label selector of the run listing: owned runs are taken to keep the label they were created with.
- Generated code, CRD YAML, Helm charts and process start-up.
