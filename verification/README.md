# Verified evidence machinery

This project models the part of the repository that decides, fail-closed,
whether a feature may be enabled, and proves what its decisions rest on. The
command to verify it is `dafny verify dfyconfig.toml`, with Dafny 4.11.

## What is modelled

- **Trace evidence.** `TraceEvents`, `TraceSnapshot` and `LatencyBreakdown`
  fold a trace log into system metrics and stage latencies. `Aggregation`
  merges the reports of singleton runs, `RolloutGate` judges them, and
  `DiagnosticOutcome` derives the status of two mirrored series.
  `PooledEvidence` and `PooledLatency` prove that splitting a suite into one
  private log per case and merging gives what one pooled log would have given.
  `Ranks` is about the three nearest-rank codes.
- **What the numbers and verdicts mean.** `SnapshotMeaning`, `EvaluationMerge`,
  `LatencyMeaning`, `GateMeaning` and `DiagnosticVerdict` state reports, merges,
  the gate and the status of a run over the fields of events, cases and
  summaries, without the functions that compute them; `AdmissionMeaning`,
  `RoutingMeaning`, `ReviewMeaning`, `FixtureMeaning`, `CorrelationMeaning`,
  `BudgetMeaning` and `RouterMeaning` do so for the parts below.
- **The interleaved diagnostic.** `DiagnosticPlan` and `DiagnosticRun` are the
  step machine over the declared plan, for any contents of arms and summaries;
  `DiagnosticPath` says where a run ends, and `DiagnosticEvidence` runs it on
  real arms and draws the end-to-end conclusions.
- **The one-shot assay.** `Assay` is the metered provider and the case loop,
  driven by an executor that may do anything; `AssaySafety` holds for every
  such executor, and `AssayProtocol` and `AssayProgress` for any number of runs
  that share a file system, interleave and crash.
- **Trace admission** (`TraceAdmission`), the **routing-label compiler** in two
  contract versions (`RoutingLabels`, `RoutingContracts`), the **locked human
  review pack** (`ReviewPack`, `ReviewBuild`) and the **converging BOM
  repairs** (`BomFixture`, `BomRepair`).
- **Bounded resources and small algorithms**: `SseStream`, `TraceCorrelation`,
  `RequestPacing`, `CallBudget`, `ProviderFailure`, `SemanticRouter`.

`Collections` and `Strings` hold shared folds and string operations.

Code that updates variables is a method with the source's loop, proved equal to
a specification function; the properties are lemmas about those functions.
`Assay.Provider`, `CallBudget.Budget` and `ProviderFailure.Error` are classes,
as in the source. The outside (clocks, disks, providers, databases, executors)
is a parameter that may behave in any way; an executor is the list of its
actions, since what it makes of an outcome shows only in what it does next.

## Conventions

- Parsed JSON is given. Absent values are `None`, absent text is empty. Costs
  and latencies are integers in fixed units; percentiles, ratios and medians
  are exact (p = 1/2 and 19/20).
- SHA-256 is an injective constructor.
- The file system is a set or map of names with atomic exclusive creation.
- An exception the source catches and one that ends the process are kept apart
  where the source does (`Raises` and `Escapes`).

## Where the code differs from what one would expect

- A pass of the merged gate is a pass of the pooled one exactly when no attempt
  key recurs across candidate logs; when the merge fails, so does the pool
  (`PooledEvidence.VerdictOfPool`). Disjoint trace identifiers are not enough,
  because attempts without a trace share the key `<missing>`
  (`PooledEvidence.AnonymousCorrectionsSplitVerdict`).
- The assay's claim is named by the directory of the authorization and its
  digest, so the maximum number of calls holds per directory and digest. It holds
  for the authorization as a whole exactly when no calls are authorized or
  configurations with different outputs name the same copy
  (`AssayProtocol.MaximumHoldsExactly`).
- A fatal stop reason does not itself stop further calls within the case that set
  it, only later cases: a case can still make its one call exactly while its trace
  is unmetered, the limit is not reached and the next reservation is not on disk
  (`AssaySafety.StopBindsWithinCase`).
- Admission of a decomposition arm compares the fallbacks counted in the snapshot
  window with the splits in the appended log. A split outside the window can hide
  a stray fallback inside it (`TraceAdmission.LateSplitHidesStray`); an accepted
  arm can be trusted exactly when the window holds as many strict splits as the
  appended log holds splits (`TraceAdmission.AcceptedArmTrusted`), as it does when
  the two cover the same evaluation events (`TraceAdmission.AdmissionExactly`).
- A request for a negative number of output tokens is reserved below its input
  bound (`CallBudget.AmountBoundsInput`). The reservations still stay within the
  cap, but a negative one that is written and not sent lets later calls spend
  more than the cap and the arm's limit (`CallBudget.OverspendsExactly`).
- The event-stream reader delivers an event that the stream leaves
  unterminated (`SseStream.LastBlankNotNeeded`), unlike section 9.2.6 of the
  WHATWG HTML Standard.

## Model

| member | source | states |
|---|---|---|
| `PooledEvidence.VerdictOfPool` | scripts/eval/crag_rollout_gate.py:60-111 | For logs of one timed, measured query each, the gate passes on the pooled logs if and only if it passes on the merged reports and no correction or repair key recurs across candidate logs |
| `PooledEvidence.MergedMatchesPooled` | scripts/crag_eval/diagnostic_aggregation.py:379-420 | The merged query count, p50, p95, cost, error count, retry rate and sets of identities are those of the pooled log's snapshot |
| `PooledEvidence.MergedRatesUnderCount` | scripts/crag_eval/diagnostic_aggregation.py:379-420 | Merged correction and repair rates never exceed the pooled ones, and equal them if and only if no correction failed and no trace attempted twice |
| `PooledEvidence.AttemptBudgets` | scripts/eval/rag_trace_snapshot.py:254-255 | Exactly when the at-most-one checks hold: in the merge, when each log's keys are distinct; in the pool, when they are distinct and apart across logs |
| `PooledEvidence.MaximaAgree` | scripts/crag_eval/diagnostic_aggregation.py:404-411 | Merged attempt maxima are the pooled maxima when attempt keys are apart |
| `PooledEvidence.MergeSucceeds` | scripts/crag_eval/diagnostic_aggregation.py:379-402 | Merging the snapshots of one-query logs succeeds if and only if each log measured one non-negative latency and a non-negative cost |
| `PooledEvidence.DisjointTracesApart` | scripts/eval/rag_trace_snapshot.py:136-146 | Disjoint traces keep attempt keys apart provided every attempt names its trace |
| `PooledEvidence.AnonymousCorrectionsSplitVerdict` | scripts/eval/rag_trace_snapshot.py:138-146 | Three candidate logs over disjoint traces, two with a correction that names no trace and so shares the key `<missing>`: the gate passes on the merged reports and fails on the pooled logs |
| `TraceSnapshot.BuildSnapshot` | scripts/eval/rag_trace_snapshot.py:45-270 | The one-pass fold computes, for every log and filter, the counts, percentiles, rates, maxima and sorted identities of the selected events |
| `TraceSnapshot.ReadLine` | scripts/eval/rag_trace_snapshot.py:84-171 | One iteration extends every counter by exactly what its line contributes |
| `TraceSnapshot.ReadCorrection` | scripts/eval/rag_trace_snapshot.py:136-143 | Attempts, attempts by trace, successes by trace and failed corrections after one more event |
| `TraceSnapshot.LargestCount` | scripts/eval/rag_trace_snapshot.py:254-255 | The largest multiplicity of a counter, 0 if it is empty |
| `SnapshotMeaning.SelectedExactly` | scripts/eval/rag_trace_snapshot.py:84-98 | An event is read if and only if its line is in the log, its context (production if none) is asked for, and it is stamped within whichever bounds are given |
| `SnapshotMeaning.SnapshotCounts` | scripts/eval/rag_trace_snapshot.py:84-131 | Parse errors are the unreadable lines; error, fallback and retry events are those whose fields or name say so, a community summary with none but the four harmless reasons excepted |
| `SnapshotMeaning.SnapshotRates` | scripts/eval/rag_trace_snapshot.py:136-156 | Attempts, failed corrections, repairs and model retries are counted over the events, and each rate times the finished queries is its count |
| `SnapshotMeaning.SnapshotAttempts` | scripts/eval/rag_trace_snapshot.py:136-146 | The identities with a successful correction or a repair, and the most attempts any one key has, the key being the trace or `<missing>` |
| `SnapshotMeaning.SnapshotPercentiles` | scripts/eval/rag_trace_snapshot.py:159-166 | p50 and p95 are listed final latencies with at least that share of all at or below them, and no smaller one has it; none without a latency |
| `SnapshotMeaning.NothingChargedTwice` | scripts/eval/rag_trace_snapshot.py:132-135 | For every nesting of rollups in which a rollup estimates its own share plus what it includes, and every order of the log: the snapshot's cost is the sum of the outermost estimates |
| `SnapshotMeaning.InclusiveCostIgnored` | scripts/eval/rag_trace_snapshot.py:132-135 | Changing the estimate of a rollup, or the own share stated by any other event, leaves the snapshot's cost as it is |
| `Aggregation.AggregateEvaluations` | scripts/crag_eval/diagnostic_aggregation.py:340-368 | Merged evaluation reports, with summed confusion counts, or the drift or bad cost that stops the merge |
| `EvaluationMerge.MergedEvaluationMeans` | scripts/crag_eval/diagnostic_aggregation.py:340-368 | Reports merge if and only if there are some, their flags agree and no cost is negative; each outcome, and the passed, failed, retried and total cases and costs, are then the sums over the reports, and the rows are those of the reports |
| `EvaluationMerge.OutcomeAbsent` | scripts/crag_eval/diagnostic_aggregation.py:348-350 | With non-negative counts the merge is free of an outcome, such as a leak, if and only if every report is |
| `Aggregation.AggregateLatencies` | scripts/crag_eval/diagnostic_aggregation.py:423-448 | Merged latency reports, or the negative number that stops the merge |
| `Aggregation.GatherRow` | scripts/crag_eval/diagnostic_aggregation.py:424-430 | Appends every stage time of one trace, or stops exactly at a negative one |
| `PooledLatency.MergedLatencyIsPooled` | scripts/crag_eval/diagnostic_aggregation.py:423-448 | When logs name different traces, the merge of their breakdowns succeeds and has the counts, cost and stage statistics of the pooled log's breakdown |
| `PooledLatency.StageValuesOfHalves` | scripts/eval/crag_latency_breakdown.py:83-154 | A stage's values over two logs with different traces are, rearranged, those of each log |
| `PooledLatency.StatsPermuted` | scripts/eval/crag_latency_breakdown.py:149-154 | Sample count, p50, p95 and maximum agree between the two nearest-rank codes on rearranged values |
| `LatencyMeaning.BreakdownRows` | scripts/eval/crag_latency_breakdown.py:83-147 | One row for each trace with a final latency, in identifier order; its total is the last final latency, a stage the sum of its latencies, negative ones as 0, and its cost the sum of its events' costs; the totals are those of the rows |
| `LatencyMeaning.StageSummaryMeans` | scripts/eval/crag_latency_breakdown.py:149-154 | A stage is summarised if and only if some row times it, by the number of rows that do, the least times with half and 95 percent at or below them, and the greatest |
| `LatencyBreakdown.BuildBreakdown` | scripts/eval/crag_latency_breakdown.py:66-154 | The three loops compute the per-trace rows, cost, parse errors and stage statistics of the selected events |
| `LatencyBreakdown.ReadTimes` | scripts/eval/crag_latency_breakdown.py:113-124 | The times of a trace after one usable event: the total is replaced, a stage accumulates |
| `Ranks.NearestRankCodesAgree` | scripts/eval/crag_latency_breakdown.py:51-56 | `int(n*p + 0.999999)` and the ceiling select the same element of every list, for every fraction with a denominator up to a million, so at 1/2 and 19/20 |
| `Ranks.RanksAgree` | backend/src/mech_chatbot/evaluation/metrics.py:6-11 | The two rank formulas are equal for every n and every fraction with a denominator up to a million, so at 1/2 and 19/20 |
| `Ranks.NearestRankIsLeast` | scripts/crag_eval/diagnostic_aggregation.py:296-301 | The nearest rank is a listed value with at least the fraction p of the values at or below it, and no smaller value has that |
| `Ranks.NearestRankPermuted` | scripts/crag_eval/diagnostic_aggregation.py:296-301 | Nearest ranks do not depend on the order of the values |
| `Ranks.PercentilesOrdered` | scripts/crag_eval/diagnostic_aggregation.py:296-301 | p50 is at most p95, which is at most the maximum |
| `GateMeaning.GatePassesExactly` | scripts/eval/crag_rollout_gate.py:22-111 | The gate passes if and only if: no leak or wrong refusal type in the candidate, no more wrong answers, fewer wrong refusals or none, no row failed at the provider on either side, every case passed with the features on, every required trace among the attempted ones, and p95, cost and attempts within 1.25, 1.5, 1 and 2 |
| `DiagnosticOutcome.BuildSeriesSummary` | scripts/crag_eval/diagnostic_aggregation.py:473-517 | The summary of a series of valid case pairs, or the first check that fails |
| `DiagnosticOutcome.BuildMergedArm` | scripts/crag_eval/diagnostic_aggregation.py:490-501 | One arm of a series merged into its gate inputs and summary, with no negative cost or median |
| `DiagnosticOutcome.ComputeArmMetric` | scripts/crag_eval/diagnostic_aggregation.py:52-69 | The median of a metric over the series that have it |
| `DiagnosticOutcome.PooledRatioIsMediant` | scripts/crag_eval/diagnostic_aggregation.py:153-170 | The pooled ratio of a metric lies between the ratios of the two series |
| `DiagnosticOutcome.TargetBoundsEachSeries` | scripts/crag_eval/diagnostic_aggregation.py:192-203 | Meeting the target bounds each series on its own: total latency ratio at most 1.35, cost ratio at most 1.60 |
| `DiagnosticOutcome.BuiltSeries` | scripts/crag_eval/diagnostic_aggregation.py:473-517 | A built summary lists its cases in order and has no negative cost or median |
| `DiagnosticOutcome.SwapKeepsOutcome` | scripts/crag_eval/diagnostic_aggregation.py:141-203 | No metric, and not the status, changes when the two series trade places |
| `DiagnosticOutcome.DominantStageIsGreatest` | scripts/crag_eval/diagnostic_aggregation.py:93-100 | The dominant stage has the greatest positive overhead; there is none exactly when no stage has any |
| `DiagnosticVerdict.DominantExactly` | scripts/crag_eval/diagnostic_aggregation.py:93-100 | The dominant stage is the first listed one whose median in the candidate exceeds the baseline's by most; none if no listed stage is slower |
| `DiagnosticVerdict.FailuresReported` | scripts/crag_eval/diagnostic_aggregation.py:29-49 | Failures and retries of an arm are the most that any one of its evaluation counter, its rows and its trace shows |
| `DiagnosticOutcome.ValidPairsSummarise` | scripts/crag_eval/diagnostic_aggregation.py:473-517 | Valid pairs of distinct, named cases are summarised unless flags drift or a number is negative; nothing is divided by zero |
| `DiagnosticPlan.PlanIsExhaustive` | scripts/crag_eval/run_diagnostic.py:101-109 | The flattened plan names every arm of every case of both series exactly once: 4n arms |
| `DiagnosticPlan.PlanInOrder` | scripts/crag_eval/run_diagnostic.py:101-109 | The first series runs the candidate of each case before its baseline, the second the baseline before the candidate, both the cases in order |
| `DiagnosticPath.LiveExactly` | scripts/crag_eval/run_diagnostic.py:519-585 | A run goes through if and only if in both series every case could be entered, both its arms were yielded clean and its file was written, and the series could be summarised; it then has those two summaries and attempted the whole plan |
| `DiagnosticPath.EndsInCase` | scripts/crag_eval/run_diagnostic.py:426-463 | A run ends at the first case that does not go through: what it attempted, whether the end was caught, whether it counts as failed, and the failures and retries it notes, from the arms of that case |
| `DiagnosticPath.EndsBeforeSeries` | scripts/crag_eval/run_diagnostic.py:519-530 | A run also ends before a series that cannot be begun, and counts as failed if that was caught, with the plan so far attempted |
| `DiagnosticPath.EndsAfterSeries` | scripts/crag_eval/run_diagnostic.py:553-565 | A run also ends behind a series that cannot be summarised, and counts as failed if that was caught, with all arms of the series attempted |
| `DiagnosticRun.RunCasePair` | scripts/crag_eval/run_diagnostic.py:426-463 | Both arms in order, each start recorded before its arm, stopping at the first failure, retry or caught error |
| `DiagnosticRun.PairRunShape` | scripts/crag_eval/run_diagnostic.py:426-463 | What a case pair leaves behind: a prefix of its two starts, at most one start more than finished arms, and a reason if it stopped |
| `DiagnosticRun.RunSeries` | scripts/crag_eval/run_diagnostic.py:519-565 | One series: cases in order until one stops, then the summary and its write |
| `DiagnosticRun.ExecuteSeriesPlan` | scripts/crag_eval/run_diagnostic.py:568-585 | The two series in declared order until one stops or fails |
| `DiagnosticRun.AttemptsFollowPlan` | scripts/crag_eval/run_diagnostic.py:426-469 | Whatever the world does, even if the process dies, the attempted arms are a repetition-free prefix of the declared plan |
| `DiagnosticRun.CaseStep` | scripts/crag_eval/run_diagnostic.py:530-556 | A pair that is not stopped keeps the run's counters exact: starts and arm runs are twice the completed pairs, and the rest of the plan lies ahead |
| `DiagnosticRun.CountersAgree` | scripts/crag_eval/run_diagnostic.py:519-585 | Arm runs are between twice the completed pairs and two more, starts exceed them by 0 or 1, and all are equal to 4n when nothing stopped |
| `DiagnosticRun.PlanShape` | scripts/crag_eval/run_diagnostic.py:568-585 | The same for every continuation of the plan, from any series on |
| `DiagnosticRun.NothingCarriedForward` | scripts/crag_eval/run_diagnostic.py:553-565 | Every finished series is the summary of its own arms, each run for exactly this series and case, and both series are there if nothing stopped |
| `DiagnosticEvidence.PassedExactly` | scripts/crag_eval/run_diagnostic.py:588-623 | The status is `passed` if and only if nothing failed or stopped and the two series meet the target |
| `DiagnosticVerdict.StatusExactly` | scripts/crag_eval/diagnostic_aggregation.py:206-268 | The status is inconclusive if and only if the run failed or stopped or its series disagree in checks, dominant stage or by more than 0.10 in a ratio; passed if they agree, both gates passed and the pooled ratios are within 1.25 and 1.5; failed if they agree and that is not so |
| `DiagnosticVerdict.ReportedExactly` | scripts/crag_eval/diagnostic_aggregation.py:520-543 | An outcome reports the failures and retries of the case that stopped the run, none otherwise, and the series, pairs and arms that were finished |
| `DiagnosticVerdict.ArmGoesThrough` | scripts/crag_eval/diagnostic_aggregation.py:304-337 | An arm goes through if and only if it was produced as one finished query of its case and trace, without provider failure, error, fallback or retry, and nothing had drifted afterwards |
| `DiagnosticVerdict.PassedRunMeans` | scripts/crag_eval/diagnostic_aggregation.py:222-268 | In each series of a passed run every arm was such a clean singleton, every candidate case passed with the features on and had the attempts it requires, and over the suite nothing leaked and no outcome got worse |
| `DiagnosticEvidence.PassedMeansComplete` | scripts/crag_eval/diagnostic_aggregation.py:222-268 | A passed run attempted the whole plan in order: 4n arms and 2n pairs, without failure, both gates passed on the declared cases |
| `DiagnosticEvidence.PassedBoundsEachSeries` | scripts/crag_eval/diagnostic_aggregation.py:192-203 | In a passed run each series alone is within 1.35 of the baseline's latency and 1.60 of its cost |
| `DiagnosticEvidence.StoppedRunsAreInconclusive` | scripts/crag_eval/diagnostic_aggregation.py:520-543 | Every stop and every caught failure of a run ends `inconclusive`, never meeting the target |
| `DiagnosticEvidence.DeclaredCasesKept` | scripts/crag_eval/diagnostic_aggregation.py:531-533 | The check for drifted case identities passes on every execution, so the fallback is never taken |
| `DiagnosticEvidence.AggregationNeverEscapes` | scripts/crag_eval/run_diagnostic.py:553-565 | Summarising a series whose arms ran cannot end the process with an uncaught error |
| `DiagnosticEvidence.SeriesOnPooledEvidence` | scripts/crag_eval/diagnostic_aggregation.py:484-508 | A finished series of privately logged arms would get the same gate verdict, latencies and cost from its pooled logs, with the exact conditions |
| `DiagnosticEvidence.PassedOnPooledEvidence` | scripts/crag_eval/diagnostic_aggregation.py:500-508 | A passed diagnostic passes both gates on the pooled private logs if and only if no attempt key recurs between candidate logs |
| `Assay.Provider.InvokeOnce` | scripts/eval/run_semantic_task_assay.py:281-311 | The whole new state and outcome for every call and every behaviour of clock, disk, pins and provider; a call follows the creation of its own reservation and no file changes. An attempt that is cancelled, expired, improper or not pinned reserves and calls nothing and leaves exactly its reason; any other is metered, and called exactly if it could be reserved and the adapter built |
| `AssaySafety.CallsWereAdmitted` | scripts/eval/run_semantic_task_assay.py:281-291 | Whatever an executor does in a case: every call made is that of an attempt that was neither cancelled nor expired, of the planner surface, for the case's trace and with its inputs pinned |
| `AssaySafety.EveryCallWasLive` | scripts/eval/run_semantic_task_assay.py:435-442 | Every call of an assay was made by such an attempt of the executor of its own case, and that case began in time with its inputs pinned |
| `AssaySafety.LoopEnds` | scripts/eval/run_semantic_task_assay.py:435-442 | The case loop ends behind its last case, or at a closed window, drifted inputs, a file that could not be created, or a row that stops, and at the first of these |
| `Assay.Provider.Stop` | scripts/eval/run_semantic_task_assay.py:276-279 | A stop marks the reason, writes its file at most once, overwrites nothing and calls nothing |
| `Assay.Provider.Write` | scripts/eval/run_semantic_task_assay.py:88-95 | A file is created, or nothing changes; no file is ever overwritten |
| `Assay.Provider.Reserve` | scripts/eval/run_semantic_task_assay.py:290-303 | The call comes right after the creation of its own reservation, which stands with its trace; the provider is called exactly if the reservation was created and the adapter built, and a receipt added exactly if its audit was read |
| `Assay.Provider.Record` | scripts/eval/run_semantic_task_assay.py:303-311 | The receipt is metered before any stop is judged; the reason is that of an incomplete audit, a denial or an expired window, in this order, and a response is returned exactly if none applies, nothing was cancelled and the receipt was written |
| `Assay.Provider.RunCase` | scripts/eval/run_semantic_task_assay.py:353-389 | One case: started file, executor, row with its new receipt and stop decision, row file; the row stands in a file that did not exist and no file changes, and it stops exactly if a reason is set, the window closed, nothing was observed or received, or the receipt is incomplete or denied |
| `Assay.Provider.RunAll` | scripts/eval/run_semantic_task_assay.py:435-442 | The case loop, ending at the first stopped row, closed window, drift or failed write |
| `AssaySafety.AssayIsSafe` | scripts/eval/run_semantic_task_assay.py:267-311 | For every executor: distinct traces within the call limit, every call reserved first, rows in case order with receipts of their own trace, none but the last stopping, a row that goes on fully audited, calls only for cases reached |
| `AssaySafety.CaseCallsOnce` | scripts/eval/run_semantic_task_assay.py:281-291 | Within a case at most one call is made and one receipt added, for the case's own trace, whatever the executor does and swallows |
| `AssaySafety.FatalReasonIsFinal` | scripts/eval/run_semantic_task_assay.py:378-389 | A row with a fatal reason is the last row, and no later case was called for |
| `AssaySafety.UnreachedCaseSilent` | scripts/eval/run_semantic_task_assay.py:435-442 | A case that the loop did not reach made no call |
| `AssaySafety.StopBindsWithinCase` | scripts/eval/run_semantic_task_assay.py:281-291 | From every sound state, whatever its fatal reason, some executor still gets the provider called within the case if and only if the case's trace is unmetered, the limit is not reached and the next reservation file does not exist |
| `AssaySafety.StopDoesNotBindItsOwnCase` | scripts/eval/run_semantic_task_assay.py:281-289 | An instance: an executor that breaks the contract, ignores the stop and then calls properly is still served |
| `AssaySafety.RowsStayOnDisk` | scripts/eval/run_semantic_task_assay.py:385-389 | Every row returned stands unchanged in the file of its case |
| `AssaySafety.CaseKeepsFiles` | scripts/eval/run_semantic_task_assay.py:88-95 | No file changes during a case once it was created |
| `AssayProtocol.ClaimIsExclusive` | scripts/eval/run_semantic_task_assay.py:403-408 | Among any number of interleaved and crashing runs, at most one with a given claim key passes its claim |
| `AssayProtocol.CallsWithinAuthorization` | scripts/eval/run_semantic_task_assay.py:411-446 | The provider calls of all runs with a claim key together never exceed the authorized maximum |
| `AssayProtocol.NeverReclaimed` | scripts/eval/run_semantic_task_assay.py:88-95 | Once a claim exists, no other run ever obtains it, also after its holder crashed |
| `AssayProtocol.ResultFollowsClosure` | scripts/eval/run_semantic_task_assay.py:447-456 | A finished run closed its policy first: the closure file exists and the policy is not active |
| `AssayProtocol.ResultFileFollowsClosure` | scripts/eval/run_semantic_task_assay.py:238-258 | Wherever a result file exists, the closure file of the same output directory does |
| `AssayProtocol.EveryRunKeeps` | scripts/eval/run_semantic_task_assay.py:411-456 | The invariant of the protocol holds after every interleaving of steps and crashes |
| `AssayProgress.FinishedRunWorked` | scripts/eval/run_semantic_task_assay.py:411-456 | A run that has written its result looked at its output, took its claim, made its output, opened its policy, built its report and closed the policy |
| `AssayProgress.OpenPolicyExplained` | scripts/eval/run_semantic_task_assay.py:447-456 | A policy stays open behind a run that is over only if the run crashed, its closing failed, or its closure had been written already |
| `AssayProgress.TakenOutputClaimsNothing` | scripts/eval/run_semantic_task_assay.py:411-421 | A run whose output directory is there before it looks never takes its claim, in any interleaving |
| `AssayProgress.UndisturbedRunFinishes` | scripts/eval/run_semantic_task_assay.py:411-456 | A run on its own gets to its result with its policy closed, and leaves claim, output, closure and result |
| `AssayProtocol.LoopIsTicks` | scripts/eval/run_semantic_task_assay.py:435-442 | The case loop reaches its session by steps of the protocol, so the protocol's results cover it |
| `AssayProtocol.MaximumHoldsExactly` | scripts/eval/run_semantic_task_assay.py:403-446 | For any set of configurations of one authorization, the calls of all their runs stay within the maximum on every execution if and only if no calls are authorized or configurations with different outputs name the same copy |
| `AssayProtocol.CopiesCallSeparately` | scripts/eval/run_semantic_task_assay.py:403-408 | The failing half: two copies of one authorization in different directories can each be used for the maximum number of calls, twice the maximum together |
| `TraceAdmission.AdmissionExactly` | scripts/decomposition_eval/run_rollout.py:165-200 | When snapshot and log cover the same evaluation events, the appended trace is accepted if and only if the arm ended every manifest trace once, its splits are strict, one per trace and candidate-only, and nothing else fell back |
| `TraceAdmission.FallbacksAreStrictSplits` | scripts/decomposition_eval/run_rollout.py:73-105 | In an admitted arm every event the snapshot counted as a fallback is a strict deterministic split, the only one of its trace, and the arm is the candidate's |
| `TraceAdmission.AcceptedArmTrusted` | scripts/decomposition_eval/run_rollout.py:165-200 | Whatever window and log cover: the fallbacks counted for an accepted arm are all strict splits if and only if the window holds as many strict splits as the appended log holds splits |
| `TraceAdmission.AppendedArmTrusted` | scripts/decomposition_eval/run_rollout.py:165-200 | The same when the window selects appended events only: if and only if window and appended log hold equally many splits |
| `TraceAdmission.LateSplitHidesStray` | scripts/decomposition_eval/run_rollout.py:186-195 | A log whose split lies outside the window and whose stray fallback lies inside: snapshot and appended log are accepted, yet the counted fallback is no split |
| `TraceAdmission.EveryCaseEndedOnce` | scripts/decomposition_eval/run_rollout.py:166-173 | In an admitted arm every case of the manifest ended exactly once |
| `TraceAdmission.FallbackCount` | scripts/eval/rag_trace_snapshot.py:106-122 | When every split is strict, the evaluation fallbacks are the splits plus the stray fallbacks |
| `TraceAdmission.AcceptedSnapshotIsClean` | scripts/decomposition_eval/run_rollout.py:125-148 | An accepted snapshot leaves no malformed line, error or retry event in the window, and one finished query per manifest case |
| `TraceAdmission.ManifestTraceIds` | scripts/decomposition_eval/run_rollout.py:108-122 | The expected identities in manifest order, or refusal of bad JSON, empty or repeated cases |
| `TraceAdmission.ReadAppendedTrace` | scripts/decomposition_eval/run_rollout.py:151-162 | All appended events in order, or refusal at the first malformed line |
| `AdmissionMeaning.StrictExactly` | scripts/decomposition_eval/run_rollout.py:73-105 | Which events count as splits, and which of them as strict, field by field |
| `AdmissionMeaning.SnapshotExactly` | scripts/decomposition_eval/run_rollout.py:125-148 | A snapshot is accepted if and only if the evaluation lists the expected traces, as many queries finished, one of them stamped, no line is unreadable and no event in the window failed or was retried |
| `AdmissionMeaning.AppendedExactly` | scripts/decomposition_eval/run_rollout.py:165-200 | The appended log is accepted if and only if every expected trace ended once and no other, its splits are strict, one per trace and the candidate's only, and as many as the fallbacks counted |
| `AdmissionMeaning.ManifestMeans` | scripts/decomposition_eval/run_rollout.py:108-122 | A manifest is accepted if and only if it is readable, not empty, and its case names are given and distinct; the expected traces are `eval:`, the arm and the case |
| `RoutingContracts.CompilationsCommute` | scripts/eval/semantic_task_routing.py:165-223 | A resolved route label is accepted by the fourth version exactly when it is by the third; the third's tasks are then the fourth's with selections renamed to slots, injectively |
| `RoutingMeaning.ResolvedExactly` | scripts/eval/semantic_task_routing.py:81-134 | A label is resolved if and only if header, tasks, selectors and plan are consistent, stated over its fields |
| `RoutingMeaning.CompiledTask` | scripts/eval/semantic_task_routing.py:165-189 | Every task accepted by the third version has the template of its selector's kind, and keeps outputs, note and dependencies of its label task under the slots of the plan |
| `RoutingMeaning.CandidateTaskKept` | scripts/eval/semantic_task_routing.py:192-223 | Every task accepted by the fourth version does so under its own selection |
| `RoutingMeaning.MatchesExactly` | scripts/eval/semantic_task_routing.py:317-323 | An observation matches a compiled label if and only if it is ready with the same tasks in the same order |
| `RoutingMeaning.ObservedExactly` | backend/src/mech_chatbot/evaluation/grounded_math_v2.py:129-150 | Observed tasks are accepted if and only if there are at most eight, one to three in a ready plan, each new, with a template and outputs as its disposition allows, and referring back |
| `RoutingContracts.PlanIsKept` | scripts/eval/semantic_task_routing.py:137-162 | Accepted tasks run the declared branches in order with the declared dependencies, without a cycle |
| `RoutingContracts.ProjectionIsRenaming` | scripts/eval/semantic_task_routing.py:137-147 | The incremental slot table of the third version and the global task table of the fourth give the same tasks up to renaming |
| `RoutingContracts.SlotsInjective` | scripts/eval/semantic_task_routing.py:121-134 | Slots are injective, and the declared plan inverts them |
| `RoutingContracts.GradesAlike` | scripts/eval/semantic_task_routing.py:317-323 | An observation passes under the fourth version exactly when its renaming passes under the third |
| `RoutingContracts.ReadyIsTopological` | backend/src/mech_chatbot/evaluation/grounded_math_v2.py:129-150 | An accepted list of ready tasks is ordered along its dependencies |
| `RoutingContracts.LabelIsTopological` | scripts/eval/semantic_task_routing.py:97-107 | The expected tasks of an accepted label are ordered along their dependencies |
| `RoutingContracts.ExportedIsTopological` | scripts/eval/semantic_task_routing.py:256-268 | Accepted exported branches are ordered along their dependencies |
| `RoutingContracts.NoCycles` | scripts/eval/semantic_task_routing.py:97-107 | In such a list no chain of dependencies returns to its start |
| `RoutingLabels.CheckExpected` | scripts/eval/semantic_task_routing.py:81-107 | Accepts exactly the expected policies whose header is consistent and whose tasks are new and refer back |
| `RoutingLabels.ResolveLabel` | scripts/eval/semantic_task_routing.py:110-134 | The selection and slots of a label, or its rejection |
| `RoutingLabels.BindPlan` | scripts/eval/semantic_task_routing.py:121-131 | Binds every selector of the plan to its branch, or rejects an unknown or repeated one |
| `RoutingLabels.Project` | scripts/eval/semantic_task_routing.py:137-147 | The projected tasks of a resolved label, or its rejection at an unresolved task |
| `RoutingLabels.CheckTasks` | backend/src/mech_chatbot/evaluation/grounded_math_v2.py:129-150 | Accepts at most eight tasks of the required shape; of a ready plan exactly one to three that are new and refer back |
| `RoutingLabels.CheckBranches` | scripts/eval/semantic_task_routing.py:256-268 | Accepts exactly the exported branches that are well-formed, new and refer back |
| `ReviewPack.ContractLocksAllButReviews` | scripts/decomposition_eval/human_review_pack.py:114-133 | The contract digests of two row lists are equal if and only if the rows differ in their human reviews at most |
| `ReviewPack.ReviewContract` | scripts/decomposition_eval/human_review_pack.py:114-133 | The contract digest of the rows with every review blanked |
| `ReviewPack.EvaluateReview` | scripts/decomposition_eval/human_review_pack.py:426-519 | The verdict computed by the loops is that of the tallies over all rows and instances |
| `ReviewPack.TallyItem` | scripts/decomposition_eval/human_review_pack.py:466-508 | What one judgment adds to the invalid names, reviewers and decisions |
| `ReviewMeaning.ReviewerByWords` | scripts/decomposition_eval/human_review_pack.py:110-111 | A reviewer is identified by the words of the field in lower case, whatever white space is around and between them |
| `ReviewMeaning.ValidExactly` | scripts/decomposition_eval/human_review_pack.py:470-500 | A judgment counts if and only if it is complete, in time, on a formal pair, by someone named who is neither the owner nor Codex, and its decision fits its three labels and its reason |
| `ReviewMeaning.VerdictExactly` | scripts/decomposition_eval/human_review_pack.py:426-519 | Validation passes if and only if the pack is the locked one, stamped, sound and of these 13 rows, and all outputs are judged by one reviewer; the review is complete if none is left for discussion, and quality passes if all are accepted |
| `ReviewBuild.QualityPassesExactly` | scripts/decomposition_eval/human_review_pack.py:508-519 | Quality of a built pack passes if and only if pack and rows are the locked ones up to reviews, the evaluation is stamped, and all 39 outputs are accepted with valid timestamps by one reviewer other than owner and Codex |
| `ReviewBuild.BuiltPack` | scripts/decomposition_eval/human_review_pack.py:346-423 | A built pack has 13 distinct cases with one blank judgment for each formal pair in order, and locks exactly these rows |
| `ReviewMeaning.BuiltExactly` | scripts/decomposition_eval/human_review_pack.py:269-423 | A pack is built if and only if its inputs are sound: 13 manifest cases, evaluated and captured once per arm with matching questions and answers; its rows are those cases in order with the evaluated answers, and it locks them under the owner |
| `ReviewBuild.CheckManifest` | scripts/decomposition_eval/human_review_pack.py:289-300 | Accepts exactly 13 named, distinct cases, ten complex and three simple |
| `ReviewBuild.IndexCases` | scripts/decomposition_eval/human_review_pack.py:179-186 | The evaluated cases by identity, or rejection of an empty or repeated one |
| `ReviewBuild.IndexCaptures` | scripts/decomposition_eval/human_review_pack.py:189-219 | The captured answers by case, or rejection of a malformed, repeated or mismatched one |
| `ReviewBuild.BuildRows` | scripts/decomposition_eval/human_review_pack.py:346-391 | One row per manifest case with an instance per pair, or rejection where a captured answer is not the evaluated one |
| `ReviewBuild.AcceptedTally` | scripts/decomposition_eval/human_review_pack.py:457-519 | The tallies pass if and only if one independent reviewer accepted every output |
| `BomFixture.RepairConverges` | scripts/decomposition_eval/prepare_fixture.py:105-116 | After inserting the missing rows, in whatever order the table is read, nothing is missing and every demanded key is there once |
| `BomFixture.BomRowsConverge` | scripts/decomposition_eval/constants.py:10-13 | The repository's own fixture converges so, from any acceptable table |
| `BomFixture.MissingBomRows` | scripts/decomposition_eval/prepare_fixture.py:26-78 | The demanded rows that are absent, exactly when no row is unkeyed, repeated or in conflict; a conflict is only reported if the first two do not occur |
| `FixtureMeaning.MissingExactly` | scripts/decomposition_eval/prepare_fixture.py:26-78 | The table is accepted if and only if rows of demanded parts stand for demanded rows by key or by source identity, no two for the same, with the columns demanded; missing are the demanded rows no row stands for, in order |
| `BomFixture.IndexRows` | scripts/decomposition_eval/prepare_fixture.py:32-52 | The keyed rows by key, unless a demanded part is unkeyed or a key repeats |
| `BomFixture.AcceptablePermuted` | scripts/decomposition_eval/prepare_fixture.py:26-78 | Acceptance and the keys found do not depend on the order of rows |
| `BomRepair.PresentExactly` | scripts/controlled_demo_eval/repair_structured_bom.py:98-118 | `already_present` is planned if and only if the records are well formed and the table holds exactly their rows in some order |
| `BomRepair.PlanIgnoresRowOrder` | scripts/controlled_demo_eval/repair_structured_bom.py:98-118 | The plan does not depend on the order of the table's rows |
| `BomRepair.BuildRepairPlan` | scripts/controlled_demo_eval/repair_structured_bom.py:79-123 | The plan or the first failing check, for all records and rows |
| `BomRepair.RefusedFor` | scripts/controlled_demo_eval/repair_structured_bom.py:79-123 | What a plan is refused for, over records and rows: identities missing, repeated or not the source's, rows other than the records', other contents, other columns, in this order |
| `BomRepair.Repair` | scripts/controlled_demo_eval/repair_structured_bom.py:255-271 | An executed repair passes only if the table ends with exactly the records' rows, and does pass when the database stored them; it is idempotent |
| `SseStream.RoundTrip` | scripts/eval/benchmark_rag_concurrency.py:200-227 | Printing and reading back a stream is the identity if and only if every event has a trimmed name, data, and no data line that starts with white space |
| `SseStream.PrintedStream` | scripts/eval/benchmark_rag_concurrency.py:200-227 | A printed stream is read as its events with data, trimmed |
| `SseStream.CommentsIgnored` | scripts/eval/benchmark_rag_concurrency.py:216-217 | A comment line inserted anywhere changes nothing |
| `SseStream.OtherFieldsIgnored` | scripts/eval/benchmark_rag_concurrency.py:216-222 | A line that is neither blank nor an event or data field changes nothing anywhere |
| `SseStream.SpaceNotNeeded` | scripts/eval/benchmark_rag_concurrency.py:218-222 | The space behind the colon of a field may be left out |
| `SseStream.NameAnywhere` | scripts/eval/benchmark_rag_concurrency.py:218-222 | A name counts for its whole event, before its data or behind, and the last of several counts |
| `SseStream.JoinedParts` | scripts/eval/benchmark_rag_concurrency.py:200-214 | Data lines are joined by line feeds, wherever the list is cut |
| `SseStream.IterSseEvents` | scripts/eval/benchmark_rag_concurrency.py:200-227 | The loop yields the events of the line-by-line specification, the flushed one included, with their joined data decoded, or the empty object where they are none |
| `TraceCorrelation.ExactlyExact` | scripts/eval/benchmark_rag_concurrency.py:680-714 | `exact_trace_id` is reported if and only if every successful request names a trace of its own and those traces are the ones with stage events |
| `CorrelationMeaning.CorrelationExactly` | scripts/eval/benchmark_rag_concurrency.py:680-714 | The four correlations, each exactly: over which successful requests name a trace, share one, and left stage events in the window |
| `CorrelationMeaning.LevelValuesExactly` | scripts/eval/benchmark_rag_concurrency.py:717-742 | A level reports a value for a stage if and only if its correlation is exact and the log measures it for the trace of a successful request |
| `CorrelationMeaning.ReadExactly` | scripts/eval/benchmark_rag_concurrency.py:567-613 | Every line with stages in the window is a kept event or an excluded one, unreadable lines are ignored, and the traces are those that kept events name |
| `CorrelationMeaning.MeasuredExactly` | scripts/eval/benchmark_rag_concurrency.py:482-542 | The value read for a stage of an allowed trace, from its lines in the window: caches summed, the longest embedding, the last of anything else |
| `TraceCorrelation.OneValuePerRequest` | scripts/eval/benchmark_rag_concurrency.py:717-742 | A stage never reports more values than there were successful requests |
| `TraceCorrelation.Accumulated` | scripts/eval/benchmark_rag_concurrency.py:482-492 | Per trace, cache latencies add up, embeddings keep the largest, other stages the last |
| `TraceCorrelation.OrderDoesNotMatter` | scripts/eval/benchmark_rag_concurrency.py:482-492 | Cache and embedding values do not depend on the order of events |
| `TraceCorrelation.CorrelationIgnoresOrder` | scripts/eval/benchmark_rag_concurrency.py:567-613 | The reported correlation does not depend on the order of the log |
| `TraceCorrelation.ReadTraceJsonl` | scripts/eval/benchmark_rag_concurrency.py:567-613 | The loop's metrics, order, traces and counts are those of the specification, for every log and window, with allowed traces or without, unnamed events kept under their line |
| `TraceCorrelation.AllowedReading` | scripts/eval/benchmark_rag_concurrency.py:590-611 | With allowed traces what is read is keyed by trace |
| `TraceCorrelation.LevelDecidedOnReading` | scripts/eval/benchmark_rag_concurrency.py:680-714 | The correlation of a level is the one decided on the number of traces the loop reads with the level's allowed traces |
| `TraceCorrelation.MergeEvent` | scripts/eval/benchmark_rag_concurrency.py:532-542 | The stages of one event merged into those of its trace |
| `RequestPacing.WindowsPaced` | scripts/eval/benchmark_rag_concurrency.py:834-868 | Every window sends at most the limit, before the next one starts, and windows start more than the window length apart |
| `RequestPacing.TwiceTheLimit` | scripts/eval/benchmark_rag_concurrency.py:834-868 | Any interval of one window length sees at most twice the limit |
| `RequestPacing.WindowsHoldAll` | scripts/eval/benchmark_rag_concurrency.py:834-868 | The windows of a run hold all sends of its levels, in order |
| `RequestPacing.NoIdleWait` | scripts/eval/benchmark_rag_concurrency.py:840-853 | A new window is begun only when the last has no room for a level, and then one window length and a second after it, or when the level is ready if that is later |
| `RequestPacing.Pace` | scripts/eval/benchmark_rag_concurrency.py:834-868 | The loop splits the levels into the windows of the specification |
| `CallBudget.NoUnreservedCall` | scripts/eval/run_five_fixes.py:18-32 | Over any sequence of arm runs with crashes, the paid calls sent were all reserved and the reservations stay within the cap |
| `CallBudget.ArmWithinLimit` | scripts/eval/run_five_fixes.py:18-32 | Over any sequence of arm runs with crashes, what an arm has reserved, in the file and in the running process, sent or not, stays within the largest limit its runs were started with |
| `CallBudget.SentWithinCap` | scripts/eval/run_five_fixes.py:24-32 | Without negative reservations the amounts sent stay within the cap and, arm by arm, within its largest limit |
| `CallBudget.PaidRequestsReserved` | scripts/eval/run_five_fixes.py:43-88 | Over every evaluation, any requests and crashes: a request got out with a reservation if and only if it went to a paid host, for exactly the amount decided, and all calls sent are covered by reservations within the cap |
| `BudgetMeaning.EverySendingLawful` | scripts/eval/run_five_fixes.py:43-88 | Over every evaluation, what got out was a bounded completion of the frozen model without tools, a rerank, each reserved for its bytes, framing and tokens at the stated rates, or a read from a local host |
| `BudgetMeaning.GetsOutExactly` | scripts/eval/run_five_fixes.py:24-88 | A request gets out if and only if a run is going on and the request reads from a local host, or may be paid for, fits 10 USD over all arms and the arm's own limit, and is not cut off |
| `CallBudget.OverspendsExactly` | scripts/eval/run_five_fixes.py:49-58 | With all other reservations non-negative, one request can make the amounts sent exceed the cap, and likewise an arm's limit, if and only if its own reservation is negative |
| `CallBudget.CorruptFileStopsEverything` | scripts/eval/run_five_fixes.py:20-22 | After a crash while writing, no run starts and nothing more is sent |
| `CallBudget.PaidHostsNeverFree` | scripts/eval/run_five_fixes.py:43-88 | No request to a paid host is ever sent unreserved, if and only if neither paid host is among the local ones |
| `CallBudget.AmountBoundsInput` | scripts/eval/run_five_fixes.py:49-58 | The reserved amount covers the input bound exactly when the requested output bound is positive |
| `CallBudget.Budget.Reserve` | scripts/eval/run_five_fixes.py:24-32 | Appends the reservation and writes the file, or refuses and changes neither |
| `CallBudget.Budget.Send` | scripts/eval/run_five_fixes.py:57-74 | Reserve, send, record: the step of the specification, for every answer |
| `CallBudget.Budget.Totals` | scripts/eval/run_five_fixes.py:25-26 | The reserved totals of all arms and of this arm |
| `ProviderFailure.IsProviderFailure` | scripts/eval/run_eval.py:88-109 | Ends on every chain, cyclic or not, and is true if and only if some exception on the chain is a provider failure |
| `ProviderFailure.ChainFailsExactly` | scripts/eval/run_eval.py:88-109 | A chain fails if and only if its first exception is a provider error, an exhausted retry budget or says one of the seven phrases in any case, or the chain of its cause, else its context, else its source fails |
| `SemanticRouter.RecallMonotone` | scripts/eval_semantic_router.py:93-102 | Raising threshold or margin never lowers technical recall nor raises that of any other route |
| `SemanticRouter.DiagonalIsCorrect` | scripts/eval_semantic_router.py:176-183 | For all samples scored by the router's own prototypes, at every threshold and margin, the confusion diagonal equals `correct` |
| `SemanticRouter.AccuracyFor` | scripts/eval_semantic_router.py:105-116 | Counts, overall and macro accuracy for all samples; nothing at an unlisted expected route |
| `RouterMeaning.PredictedExactly` | scripts/eval_semantic_router.py:93-102 | A rule sample is chitchat; any other goes to its best route if that scores the threshold and leads by the margin, and is technical otherwise |
| `RouterMeaning.EvaluatedExactly` | scripts/eval_semantic_router.py:105-116 | Every sample is asked for one of five routes and hit for the same: hits and samples add up over the routes, a route has all its hits if and only if all its samples are sent there, overall is the share of hits and macro the mean of the five shares |
| `SemanticRouter.Confusion` | scripts/eval_semantic_router.py:176-183 | Every cell of the matrix counts its expected route and predicted column |
| `SemanticRouter.Sweep` | scripts/eval_semantic_router.py:208-220 | The reported setting is on the grid and no grid setting is ahead of it |

## Left out

- Rounding of costs to eight decimals and of floating point in general: costs are exact integers.
- Non-numeric values of numeric fields in trace logs other than a negative cost, and a JSON line that is not an object.
- TraceSnapshot.BuildSnapshot: does not tally refusals, providers and observed budget maxima, independent counters that no gate reads.
- Unicode white space and case folding beyond ASCII (with the control characters Python strips), and white space inside identifiers.
- Timestamp parsing: timestamps are integers, or a predicate says which values are valid.
- Git, SQL, Qdrant, HTTP, subprocesses, environment variables, argument parsing, and the writing of reports and Markdown.
- The texts of an outcome (`next_action`) and of public series: constant prose chosen by the same conditions.
- Preparation of a diagnostic context and declaration, and the provider-smoke and drift checks inside an arm: they return, raise or end the process as the world decides.
- The request, authorization and manifest checks before an assay's claim, and the database of its policy: only the order of claim, policy, calls, closure and result is kept.
- Atomicity below exclusive creation: a file that exists counts as written.
- The disposition and artifact-binding checks of the review pack: wide conjunctions, taken as one condition; writing the pack directory.
- Review fields that are numbers, lists or objects.
- The selector payload codecs of routing labels, and the joined fields of an observation other than its routing.
- Fields of a label, task or branch whose JSON type is wrong: the types of the model exclude them.
- Stage-name normalisation and stage extraction of the benchmark's trace reader.
- Concurrent runs of the paired evaluation on one budget file (runs follow one another), and a write of that file that fails without ending its run.
- Threads within one process: the actions of an assay's executor and the paid calls of one budget are taken one after the other, so that neither two calls of `invoke_once` nor a reservation and another call's record interleave.
- `retrieval_intelligence_gate`, `failure_family_gate`, `crag_pilot_gate`, `pilot_rollout_gate`, fixture generators, ingestion scripts and the Vue frontend: conjunctions of independent checks, constant data or small tables.
