# Verification of the load-testing toolkit

The toolkit records load-test events in a DuckDB file, streams live figures to
browsers, aggregates a run per endpoint, and decides with a performance gate
whether a build passes. This project models these parts in Dafny and proves what
they promise over every input, run and interleaving. Latencies and rates are
exact reals.

| Files | Part of the system |
|---|---|
| `Policy.dfy`, `Gate.dfy` | policy loading and overrides; the gate engine as a method with loops, a map and sorts |
| `GateJudgement.dfy`, `GateFolds.dfy` | the decision procedure stated independently of the code, and the algebra of verdicts |
| `GateOrder.dfy`, `GateAccounting.dfy`, `GateDecomposition.dfy`, `GateMonotone.dfy` | the theorems about the gate |
| `BrowserGate.dfy` | the gate view of the result viewer and where it agrees with the engine |
| `Percentiles.dfy`, `Aggregation.dfy`, `Conservation.dfy` | the SQL summaries as specifications, the merge of their results, conservation |
| `Figures.dfy`, `EndToEnd.dfy`, `Insertion.dfy` | every figure of an analysis in terms of the rows, determinism up to the report, agreement with the ingested events |
| `Diagnosis.dfy`, `Comparator.dfy`, `Stats.dfy` | regression findings, explanations, affected pods, averaged baselines, bottleneck evidence |
| `Fixtures.dfy`, `FixtureVerdicts.dfy`, `FixtureEndpoints.dfy`, `FixtureTimings.dfy` | the pseudo-random fixtures; verdicts, endpoint lists and causes that hold for every seed |
| `Models.dfy`, `FlushProtocol.dfy`, `Storage.dfy` | the event, the buffered flush as a protocol and as an object |
| `Hub.dfy`, `HubClients.dfy`, `Ingest.dfy` | live statistics, the WebSocket client loop, the ingest handlers feeding buffer and hub |
| `Orchestrator.dfy` | the fan-out of flushes to all pods and the flush protocol at their storages |
| `Catalog.dfy`, `CatalogRoundTrip.dfy` | the query-catalog parser and a renderer for it |
| `Sequences.dfy`, `Text.dfy` | shared vocabulary: permutations, sorting, concatenated images, counting, strings |

How the model reads the source:

- `Gate.Reports` relates inputs to every result the engine may return: the order
  of map iteration and the arrangement of ties by an unstable sort are left open.
  `Gate.Evaluate` is proved to return one of these results, and the theorems
  quantify over all of them.
- `GateJudgement.Judge` decides one check from limits, floor and evidence. The
  engine's findings are proved to be exactly these judgements, so the theorems
  about findings do not rest on the code's own branches.
- The flush protocol, the client loop, the ingest handlers and the fan-out are
  state machines over atomic steps; a theorem about `Run` or `After` holds for
  every sequence of possible actions. Writing a batch is one step that succeeds or
  fails: the concurrent use of one temporary file name by two flushers
  (sidecar-go/storage/duckdb.go:140) is outside the model.
- Query results are relations between rows and result rows, so that the arrangement
  of equally frequent endpoints is open. `PERCENTILE_CONT` is linear interpolation
  at position p·(n−1), as in section 10.9 of ISO/IEC 9075-2.

What the proofs found:

- The browser's gate view disagrees with the engine exactly about endpoints that
  became faster and whose relative change nevertheless exceeds the allowance
  (`BrowserGate.ViewAgreesExactlyWhen`). That takes an allowance below 0% or a
  negative baseline (`BrowserGate.DisagreementNeedsNegative`). Its count of passed
  checks is too small by one per endpoint and one more per disagreement, and can be
  negative (`BrowserGate.BothFailingCountsMinusOne`).
- A line of a catalog file's description is kept exactly if it does not begin with
  one word of lower-case letters and a colon. That is what the comment at
  sidecar-go/analysis/queries/catalog.go:129-130 declares, but a line "note: ..."
  is lost without notice (`CatalogRoundTrip.ContinuationKeptExactlyWhen`).
- Writing out and reading back a parsed query is lossless except where the scanner
  does not deliver the file written: a line that is too long, or an SQL line that
  ends in a carriage return (`CatalogRoundTrip.ReparsedExactlyWhen`).
- Defaults and overrides that each become stricter can loosen the gate: through a
  limit newly set above the default it replaces, through a floor that rises because
  an override drops its own, or through the number of samples in force
  (`GateMonotone.StricterOverrideExactlyWhen`).
- A growing latency can improve a judgement only under a negative baseline, and
  there exactly if the floor is below the limit's share of the baseline
  (`GateMonotone.MonotoneExactlyWhen`).
- Any number of flushes in flight keep the order of arrival exactly if batches are
  written oldest first and put back youngest first; the storage does not enforce
  that (`FlushProtocol.OrderKeptExactlyWhen`, `FlushProtocol.TwoFlushersReorder`).
- The documentation names `insufficient_samples` as the reason for a short baseline
  run too (docs/performance-gate.md:55). The code uses
  `insufficient_baseline_samples` there, exactly if the current run is long enough
  (`GateAccounting.ViolationReasons`, `GateAccounting.ShortBaselineReason`).

## Model

| member | source | states |
|---|---|---|
| Policy.LoadedPolicies | sidecar-go/analysis/policy/policy.go:142-170 | loading accepts exactly version 1 with PASS, WARN or FAIL as treatment once the default is filled in, and is idempotent |
| Policy.LoadingExactly | sidecar-go/analysis/policy/policy.go:142-170 | which decoded policies load, and that an unset treatment of unknowns becomes WARN while everything else stays |
| Policy.OverridesMergeFieldByField | sidecar-go/analysis/policy/policy.go:176-250 | every single setting comes from the endpoint's override where set there and from the defaults otherwise |
| Stats.LargestPhase | sidecar-go/analysis/bottleneck.go:89-104 | the loop returns the first phase whose absolute change no phase exceeds |
| Stats.LargestPhaseIsLargest | sidecar-go/analysis/bottleneck.go:89-104 | no phase changed more than the chosen one, and every earlier phase changed less |
| Stats.BottleneckFigures | sidecar-go/analysis/bottleneck.go:66-87 | the evidence holds both breakdowns, their differences phase by phase, and the largest of these |
| Stats.IndexPermuted | sidecar-go/analysis/gate/gate.go:119-123 | for distinct endpoints the lookup map does not depend on the order of the baseline |
| Stats.LastEntryWins | sidecar-go/analysis/regression.go:47-50 | of several entries of one name the lookup keeps the last |
| Stats.PercentChangeExceeds | sidecar-go/analysis/gate/gate.go:406-411 | when the relative change exceeds p percent, in terms of the absolute change, for positive, negative and zero baselines |
| Gate.Evaluate | sidecar-go/analysis/gate/gate.go:116-176 | the engine returns a result related to its inputs by `Reports`, for all inputs including duplicates |
| Gate.Build | sidecar-go/analysis/gate/gate.go:349-393 | status, counts and sorted violations are those of the given findings |
| Gate.CollectRemoved | sidecar-go/analysis/gate/gate.go:164-172 | in any iteration order: the sorted baseline endpoints missing from the current run, each once |
| Gate.FindingLeTotalOrder | sidecar-go/analysis/gate/gate.go:380-389 | the comparison of scope, metric and check is a total order up to equal keys |
| Text.StringLeMeans | sidecar-go/analysis/gate/gate.go:171-173 | sorting by strings is sorting by characters, prefixes first |
| GateOrder.ReportOrdered | sidecar-go/analysis/gate/gate.go:171-389 | in every report both endpoint lists ascend by characters, and the violations by scope, then error rate before p50, p95 and p99, then budget before regression; the schema version is 1 |
| GateJudgement.SlotJudged | sidecar-go/analysis/gate/gate.go:180-338 | one finding per applicable check, with the independently judged status |
| GateJudgement.LatencyJudgedByFields | sidecar-go/analysis/gate/gate.go:180-269 | each latency decision in the fields of statistics and policy, with 30 samples by default |
| GateJudgement.ErrorRateJudgedByFields | sidecar-go/analysis/gate/gate.go:271-338 | each error-rate decision likewise, in percentage points |
| GateJudgement.FindingEvidence | sidecar-go/analysis/gate/gate.go:224-342 | which measurements and threshold a finding carries per status, and exactly which reason an UNKNOWN one |
| GateJudgement.TimingEvidence | sidecar-go/analysis/gate/gate.go:152-156 | exactly the latency regressions that did not pass name the phase that moved most, and by how much |
| GateJudgement.InEndpointFindings | sidecar-go/analysis/gate/gate.go:158-161 | the findings of an endpoint are exactly those of its eight slots |
| GateJudgement.KeysIdentifyFindings | sidecar-go/analysis/gate/gate.go:130-162 | with distinct endpoints (scope, metric, check) identifies a finding |
| GateFolds.WorstIsLeastUpperBound | sidecar-go/analysis/gate/gate.go:358-404 | the verdict is the least upper bound of the weighted statuses |
| GateOrder.OrderIndependence | sidecar-go/analysis/gate/gate.go:104-176 | permuted current and baseline endpoints give an identical result, including the order of violations |
| GateAccounting.FindingsAnswerQuestions | sidecar-go/analysis/gate/gate.go:130-162 | findings answer the configured applicable checks one by one, in order |
| GateAccounting.AccountsForEverything | sidecar-go/analysis/gate/gate.go:349-393 | the four counts add up to the applicable checks, and the violations to warned, failed and unknown, status by status |
| GateAccounting.ViolationsAreJudgements | sidecar-go/analysis/gate/gate.go:147-219 | a check is listed with a status exactly if it applies and is judged so; UNKNOWN exactly without enough samples or baseline |
| GateAccounting.ViolationReasons | docs/performance-gate.md:53-56 | every listed UNKNOWN carries the applicable reason; it is a documented one unless only the baseline run is too short |
| GateAccounting.ShortBaselineReason | docs/performance-gate.md:55 | 50 requests against a baseline of 5: the reason is not the documented one |
| GateAccounting.ReportedEndpoints | sidecar-go/analysis/gate/gate.go:138-172 | new and removed endpoints are exactly the differences of the two runs, and none without a baseline |
| GateAccounting.EndpointListsDistinct | sidecar-go/analysis/gate/gate.go:138-172 | for distinct endpoints neither list repeats one |
| GateAccounting.VerdictIsWorstJudgement | sidecar-go/analysis/gate/gate.go:358-404 | the verdict is as bad as WARN or FAIL exactly if some weighted judgement is; loaded policies never yield UNKNOWN |
| GateAccounting.VerdictInWords | sidecar-go/analysis/gate/gate.go:358-404 | FAIL if a check counts as FAIL, else WARN if one counts as WARN, else UNKNOWN for policies that were not loaded, else PASS |
| GateAccounting.UnsetTreatmentWarns | sidecar-go/analysis/policy/policy.go:151-153 | under a policy loaded without a treatment the verdict is WARN whenever a check is UNKNOWN and none FAILs |
| GateAccounting.TreatmentOnlyWeighs | sidecar-go/analysis/gate/gate.go:344-378 | another treatment of unknowns changes the status alone, monotonically, and nothing without unknowns |
| GateDecomposition.HalvesCommuteWithOverrides | sidecar-go/analysis/policy/policy.go:176-250 | taking the budget or regression half commutes with resolving overrides |
| GateDecomposition.SlotOfHalf | sidecar-go/analysis/gate/gate.go:189-221 | a half sees its own checks unchanged and none of the others |
| GateDecomposition.Decomposition | sidecar-go/analysis/gate/gate.go:180-393 | verdict, counts and violations of a policy are join, sum and sorted merge of those of its halves |
| GateMonotone.RaisingNeverImproves | sidecar-go/analysis/gate/gate.go:224-338 | worse percentiles or error rates never improve the status, unless a configured latency regression can invert |
| GateMonotone.MonotoneExactlyWhen | sidecar-go/analysis/gate/gate.go:242-269 | with enough samples a growing latency never improves a regression judgement if and only if, under a negative baseline, no limit's share of it lies above the floor |
| GateMonotone.NonNegativeNeverInverts | sidecar-go/analysis/gate/gate.go:242-269 | neither non-negative baselines nor non-negative limits with a non-negative floor ever invert |
| GateMonotone.NegativeBaselineInverts | sidecar-go/analysis/gate/gate.go:242-269 | with a negative floor and baseline a rising latency turns the overall status from FAIL to PASS |
| GateMonotone.StricterNeverImproves | sidecar-go/analysis/gate/gate.go:224-338 | stricter effective policies never improve the status |
| GateMonotone.StricterOverrideExactlyWhen | sidecar-go/analysis/policy/policy.go:176-250 | stricter defaults and override give a stricter effective policy if and only if new limits stay within the defaults they replace, no floor in force rises and the samples in force agree |
| GateMonotone.StricterOverridesNeverImprove | sidecar-go/analysis/policy/policy.go:176-250 | under that condition the overall status never improves |
| GateMonotone.NewLimitCanLoosen | sidecar-go/analysis/policy/policy.go:209-227 | a newly set limit turns the overall status from FAIL to PASS |
| GateMonotone.DroppedFloorCanLoosen | sidecar-go/analysis/policy/policy.go:209-227 | a dropped floor does so with all limits unchanged |
| BrowserGate.GateView | frontend/app.js:292-322 | the view computes the verdict of its per-row findings |
| BrowserGate.Conclude | frontend/app.js:316-322 | status and counts are those of the given findings |
| BrowserGate.ViewAgreesExactlyWhen | frontend/app.js:292-322 | for all settings the view lists the engine's violations exactly if no endpoint became faster with a relative change beyond the allowance; then status and counts agree; passed is too small by the endpoints and the disagreements |
| BrowserGate.ViewRefinesEngine | frontend/app.js:292-322 | for allowances from 0% on it agrees, except that passed is too small by the number of endpoints |
| BrowserGate.DisagreementNeedsNegative | frontend/app.js:305-312 | a disagreement takes a negative allowance or a negative baseline |
| BrowserGate.DisagreementTurnsVerdict | frontend/app.js:292-322 | a single endpoint the two disagree on is failed by the view and passed by the engine |
| BrowserGate.ViewCanDisagree | frontend/app.js:292-322 | both kinds of disagreement occur: 100 to 95 ms under -10%, and -1 to -3 ms under 10% |
| BrowserGate.BothFailingCountsMinusOne | frontend/app.js:316-322 | one endpoint failing both checks is shown with -1 passed |
| Percentiles.InterpolateBracket | sidecar-go/analysis/queries/sql/endpoint_summary.sql:21-24 | PERCENTILE_CONT lies between its neighbours and when it meets the lower one |
| Percentiles.PercentilesOrdered | sidecar-go/analysis/queries/sql/endpoint_summary.sql:21-24 | a higher quantile is never below a lower one |
| Percentiles.PercentileWithin | sidecar-go/analysis/queries/sql/endpoint_summary.sql:21-24 | a percentile keeps a lower and a strict upper bound of the values |
| Percentiles.PercentileAboveMinimum | sidecar-go/analysis/queries/sql/endpoint_summary.sql:21-24 | percentiles from the median on exceed a minimum held by at most half of the values |
| Percentiles.HubBelowDatabase | sidecar-go/realtime/hub.go:267-273 | the hub's percentile is the nearest value not above PERCENTILE_CONT |
| Percentiles.PercentilesAt | sidecar-go/analysis/queries/sql/endpoint_summary.sql:21-24 | both percentiles in numbers: the value at the position, and the point between two values in the ratio of the position |
| Percentiles.HubPercentilesOrdered | sidecar-go/realtime/hub.go:267-273 | P50, P95 and P99 of the hub are in order |
| Aggregation.GetEndpointStats | sidecar-go/analysis/endpoint.go:46-102 | the merge attaches to each summary row the status counts of its endpoint, or fails on NULL |
| Aggregation.ScanSummary | sidecar-go/analysis/endpoint.go:54-73 | the first loop: summaries by endpoint, the last one winning, and their order |
| Aggregation.ScanDistribution | sidecar-go/analysis/endpoint.go:82-95 | the second loop: counts go to known endpoints under the rendered status |
| Text.FormatIntInjective | sidecar-go/analysis/endpoint.go:89-91 | different status codes have different renderings |
| Text.FormatIntMeans | sidecar-go/analysis/endpoint.go:89-91 | the rendering is the decimal numeral of the status code |
| Conservation.MergeSucceedsExactlyWhen | sidecar-go/analysis/endpoint.go:56-88 | statistics exist exactly if the run has no NULL endpoint or status |
| Conservation.DistributionCounts | sidecar-go/analysis/endpoint.go:82-95 | no status count is overwritten; the counts of an endpoint add up |
| Conservation.AggregationConserves | sidecar-go/analysis/endpoint.go:54-101 | distinct endpoints; requests add up to the run's rows, errors to its erroneous rows, status counts to the requests; error rates are percentages |
| Figures.EndpointRows | sidecar-go/analysis/queries/sql/endpoint_summary.sql:17-33 | the rows of an endpoint are all rows of the run with its name, or with its URL and no name |
| Figures.ErrorsCounted | sidecar-go/analysis/queries/sql/endpoint_summary.sql:19 | errors are the rows with a status from 400 on or an error code |
| Figures.AnalysisFigures | sidecar-go/analysis/queries/sql/endpoint_summary.sql:16-30 | counts, percentiles, maximum and averages of an analysed endpoint are those of its rows, quantile by quantile and phase by phase |
| Figures.AnalysisOrdered | sidecar-go/analysis/queries/sql/endpoint_summary.sql:34 | endpoints with more requests come first |
| Insertion.ErrorsAgree | sidecar-go/models/event.go:42-44 | the query and the hub call the same events errors |
| Insertion.ServedEndpoint | sidecar-go/analysis/queries/sql/endpoint_summary.sql:17 | an event is accounted to its name, or to its URL if that is empty |
| Insertion.AnalysedCounts | sidecar-go/analysis/queries/sql/endpoint_summary.sql:16-34 | the analysis of inserted events counts the run's events, and as errors those with a status from 400 on or an error code |
| Insertion.LiveTotalsMatchAnalysis | sidecar-go/realtime/hub.go:131-140 | once a run is written and recorded, the live totals are those of its analysis, for every interleaving |
| EndToEnd.AnalysisExists | sidecar-go/analysis/endpoint.go:46-102 | every run without NULL endpoint or status has an analysis, so the theorems about analyses speak of every such run |
| EndToEnd.AnalysesArePermutations | sidecar-go/analysis/queries/sql/endpoint_summary.sql:33-34 | two analyses of a run differ at most in the order of endpoints |
| EndToEnd.ReportDependsOnRowsOnly | sidecar-go/analysis/gate/gate.go:104-111 | from rows to report, with a baseline or without, no ordering freedom of database, maps or sorts can be observed |
| EndToEnd.AnalyzedEndpoints | sidecar-go/analysis/queries/sql/endpoint_summary.sql:16-34 | the analysed endpoints are exactly those of the run's rows |
| EndToEnd.AnalysisComputed | sidecar-go/analysis/endpoint.go:66-70 | analysed error rates are the ones the browser's view recomputes |
| EndToEnd.ViewOfRowsRefinesEngine | frontend/app.js:292-322 | on analysed runs with latencies from 0 on, and allowances from 0% on, view and engine agree |
| EndToEnd.DiagnosesOfRowsAgree | sidecar-go/analysis/explain.go:35-91 | both diagnosis paths agree on rows each of them analyses itself |
| Diagnosis.CompareEndpoints | sidecar-go/analysis/regression.go:37-72 | the loops pair current endpoints with the last baseline entry of that name |
| Diagnosis.DetectEndpointRegressions | sidecar-go/analysis/regression.go:86-112 | the findings are those of each comparison, in order |
| Diagnosis.CollectEvidence | sidecar-go/analysis/explain.go:46-49 | the loop keeps the largest timing change of each compared endpoint |
| Diagnosis.Explain | sidecar-go/analysis/explain.go:35-91 | the explanations are those of each comparison, with affected pods and the bottleneck evidence of a second query |
| Diagnosis.AffectedPods | sidecar-go/analysis/explain.go:97-139 | the loops return, in order, exactly the pods above 1.3 times a positive mean |
| Diagnosis.DiagnosisAgreement | sidecar-go/analysis/explain.go:51-88 | for all thresholds, and statistics in any order, both detectors diagnose the same, breached endpoints, with matching critical severity |
| Diagnosis.ComparisonFigures | sidecar-go/analysis/regression.go:52-70 | a comparison pairs two entries of one name and holds the change of each metric |
| Diagnosis.ComparisonExists | sidecar-go/analysis/regression.go:52-70 | every endpoint of both runs is compared |
| Diagnosis.FindingFigures | sidecar-go/analysis/regression.go:86-119 | metric, figures and severity of every finding |
| Diagnosis.FindingsExactlyWhen | sidecar-go/analysis/regression.go:86-112 | there is a latency or an error finding exactly when that limit is exceeded |
| Diagnosis.ExplanationFigures | sidecar-go/analysis/explain.go:59-87 | every figure of an explanation is of its own endpoint in the two runs, its pods are exactly that endpoint's slow ones, and it is critical exactly beyond twice the threshold or for errors |
| Diagnosis.OutliersAreFew | sidecar-go/analysis/explain.go:131-138 | fewer than 10/13 of the pods stand out, so never all of them |
| Diagnosis.OutliersInNumbers | sidecar-go/analysis/explain.go:131-138 | a pod is reported exactly if ten times its p95, times the pods, exceeds 13 times a positive sum |
| Diagnosis.PodsOfEndpoint | sidecar-go/analysis/explain.go:111-129 | only the endpoint's own rows count, in the order of the query |
| Diagnosis.OutliersKeepOrder | sidecar-go/analysis/explain.go:132-138 | affected pods form a subsequence of the pods |
| Diagnosis.OutliersScaleInvariant | sidecar-go/analysis/explain.go:131-138 | a positive factor on all latencies changes no report |
| Comparator.RunStatsValid | sidecar-go/analysis/comparator.go:80-128 | statistics of an existing run have ordered percentiles and a true error rate |
| Comparator.RunFigures | sidecar-go/analysis/comparator.go:80-128 | a run has statistics exactly if it has rows; each figure, the duration and the throughput in terms of these |
| Comparator.CalculateBaseline | sidecar-go/analysis/comparator.go:324-366 | the loops compute means and pooled rate of the readable runs, or fail without any |
| Comparator.ReadableRuns | sidecar-go/analysis/comparator.go:329-336 | every readable run counts, as often as it is named |
| Comparator.BaselineFigures | sidecar-go/analysis/comparator.go:342-365 | counts are summed, latencies and throughputs averaged, each with its own kind, and the error rate is that of the summed counts |
| Comparator.BaselineOrderIndependent | sidecar-go/analysis/comparator.go:329-365 | the baseline does not depend on the order of the runs |
| Comparator.BaselineWithinRuns | sidecar-go/analysis/comparator.go:342-365 | percentiles stay ordered; the pooled error rate lies between two runs' rates |
| Comparator.BaselineFiguresWithin | sidecar-go/analysis/comparator.go:342-359 | an averaged figure keeps every bound that the figure keeps in all runs |
| Fixtures.DrawInUnit | sidecar-go/analysis/fixtures/fixtures.go:94-98 | draws lie in [0,1) and are 0 exactly for states below 2^11 |
| Fixtures.NoTwoZeroDraws | sidecar-go/analysis/fixtures/fixtures.go:95-98 | no zero draw is followed by a zero two draws later, for every state |
| Fixtures.Lcg.Next | sidecar-go/analysis/fixtures/fixtures.go:95-98 | one step of the generator on wrapping 64-bit arithmetic, and a draw in [0,1) |
| Fixtures.Generate | sidecar-go/analysis/fixtures/fixtures.go:110-161 | the loop generates event i from draws 2i+1 and 2i+2 |
| Fixtures.ErrorsByDraw | sidecar-go/analysis/fixtures/fixtures.go:131-136 | an event fails exactly if its second draw lies below the error rate, with status 500, and has status 200 otherwise |
| Fixtures.CertainOutcomes | sidecar-go/analysis/fixtures/fixtures.go:131-136 | no errors at a rate of 0, only errors from 1 on, for every seed |
| Fixtures.EventShape | sidecar-go/analysis/fixtures/fixtures.go:119-158 | time stamp, pod, user, names, sizes and jittered phases of every event |
| FixtureVerdicts.RunPercentiles | sidecar-go/analysis/fixtures/fixtures.go:119-148 | percentiles of a generated run lie strictly within ten percent of the profile's total |
| FixtureVerdicts.SingleEndpoint | sidecar-go/analysis/queries/sql/endpoint_summary.sql:16-34 | a run of one endpoint is analysed as that endpoint alone |
| FixtureVerdicts.RelativeRegressionAlwaysFails | sidecar-go/analysis/fixtures/gate_fixtures.go:87-98 | for all seeds it fails under allowances up to 44%, floors up to 24.2 ms and at most 100 samples |
| FixtureVerdicts.AbsoluteBudgetAlwaysFails | sidecar-go/analysis/fixtures/gate_fixtures.go:100-114 | for all seeds and baselines, and without one, it fails under budgets up to and including 542.7 ms and at most 100 samples |
| FixtureVerdicts.InsufficientSamplesNeverDecide | sidecar-go/analysis/fixtures/gate_fixtures.go:128-138 | for all seeds, baselines and policies asking for more than five samples every applicable check is UNKNOWN |
| FixtureVerdicts.InsufficientSamplesErrorFree | sidecar-go/analysis/fixtures/gate_fixtures.go:128-138 | for all seeds its analysis shows five requests and an error rate of 0 |
| FixtureTimings.RegressionAverages | sidecar-go/analysis/fixtures/gate_fixtures.go:87-98 | for all seeds every average phase lies within ten percent of the profiles |
| FixtureTimings.BudgetAverages | sidecar-go/analysis/fixtures/gate_fixtures.go:100-114 | likewise for the budget fixture |
| FixtureTimings.RelativeRegressionBlamesTtfb | sidecar-go/analysis/fixtures/gate_fixtures.go:87-98 | for all seeds and policies each latency regression listed blames the time to first byte, by more than 28 ms |
| FixtureEndpoints.NewEndpointReported | sidecar-go/analysis/fixtures/gate_fixtures.go:140-155 | for all seeds exactly the new endpoint is listed as new, and each configured regression check of it is UNKNOWN for want of a baseline |
| FixtureEndpoints.RemovedEndpointReported | sidecar-go/analysis/fixtures/gate_fixtures.go:157-172 | for all seeds exactly the legacy endpoint is listed as removed |
| FlushProtocol.NothingLost | sidecar-go/storage/duckdb.go:94-136 | any flushers and failures: table, flight and buffer are the ingested events as multisets; counts add up to the table |
| FlushProtocol.OrderKept | sidecar-go/storage/duckdb.go:116-136 | any number of flushes in flight: if batches are written oldest first and put back youngest first, table, flight and buffer are the ingested sequence at every moment |
| FlushProtocol.OrderKeptExactlyWhen | sidecar-go/storage/duckdb.go:94-136 | for distinct events the order of arrival is kept at every moment if and only if all writes are of that kind |
| FlushProtocol.OneAtATimeInTurn | sidecar-go/storage/duckdb.go:116-136 | flushes one at a time are |
| FlushProtocol.DrainedTable | sidecar-go/storage/duckdb.go:116-136 | once drained after flushes in turn, or one at a time, the table is the ingested sequence |
| FlushProtocol.TwoFlushersReorder | sidecar-go/storage/duckdb.go:116-136 | two flushes in flight out of turn reorder events without any failure |
| Storage.DuckDBStorage.AddEvent | sidecar-go/storage/duckdb.go:94-99 | appends one event, as one protocol step |
| Storage.DuckDBStorage.AddEvents | sidecar-go/storage/duckdb.go:102-106 | appends a batch, as one protocol step |
| Storage.DuckDBStorage.Flush | sidecar-go/storage/duckdb.go:116-136 | all of the buffer moves to the table and is counted, or nothing changes; the protocol's take and write |
| Hub.SortFloat64s | sidecar-go/realtime/hub.go:243-254 | the in-place insertion sort yields the sorted arrangement |
| Hub.Average | sidecar-go/realtime/hub.go:256-265 | the mean, 0 without values |
| Hub.Percentile | sidecar-go/realtime/hub.go:267-273 | the value at the truncated position, always within bounds |
| Hub.Statistics.RecordEvent | sidecar-go/realtime/hub.go:131-158 | one event updates counters, per-second rate, time of the last event and window as specified |
| Hub.Statistics.CalculatePercentiles | sidecar-go/realtime/hub.go:194-215 | the figures of the sorted window; unchanged without values |
| Hub.LiveStatistics | sidecar-go/realtime/hub.go:131-158 | after any history: last 1000 latencies, exact totals, the lengths of the current and previous one-second stretch, and the time of the last event |
| Hub.LiveAgainstDatabase | sidecar-go/realtime/hub.go:194-215 | live percentiles are ordered and the nearest values not above the database's on the same latencies |
| HubClients.NeverPanics | sidecar-go/realtime/hub.go:76-106 | with clients registered once, no run sends on a closed queue or closes one twice |
| HubClients.PanicsExactlyWhen | sidecar-go/realtime/hub.go:76-106 | a run sends on a closed queue or closes one twice if and only if it broadcasts to, or removes, a registered client that was removed before |
| HubClients.ClosedExactlyWhenRemoved | sidecar-go/realtime/hub.go:84-91 | in every run a queue is closed exactly once its client has been removed |
| HubClients.QueuedInOrder | sidecar-go/realtime/hub.go:93-105 | queued messages are an ordered subsequence of those heard; each skipped one left an unregister request |
| HubClients.QueuedExactlyWhenRoom | sidecar-go/realtime/hub.go:93-105 | a broadcast reaches a registered client exactly if fewer than 256 messages wait; otherwise it leaves an unregister request |
| HubClients.ListeningIsRegistered | sidecar-go/realtime/hub.go:78-91 | the client set is what the run's registrations and removals say |
| HubClients.ClosedExactlyAfterRemoval | sidecar-go/realtime/hub.go:78-91 | a queue is closed exactly once its client has registered and then been unregistered |
| HubClients.Loop.OnRegister | sidecar-go/realtime/hub.go:78-82 | the register case is the protocol's step |
| HubClients.Loop.OnUnregister | sidecar-go/realtime/hub.go:84-91 | the unregister case is the protocol's step |
| HubClients.Loop.OnBroadcast | sidecar-go/realtime/hub.go:93-105 | in any iteration order the broadcast loop is the protocol's step |
| Ingest.Handlers.HandleIngest | sidecar-go/handlers/handlers.go:50-67 | a valid event reaches buffer, hub and broadcast channel as the protocol's request, an invalid body none of them |
| Ingest.Handlers.HandleIngestBatch | sidecar-go/handlers/handlers.go:70-98 | a non-empty batch reaches buffer and hub completely as the protocol's request, whatever the clock reads in between; an empty or invalid one neither |
| Ingest.RequestHandled | sidecar-go/handlers/handlers.go:57-94 | a request handled alone is the run of its receiving and recording steps |
| Ingest.ErrorsCounted | sidecar-go/handlers/handlers.go:60-88 | errors are the events with a status from 400 on or an error code |
| Ingest.TwoPathsAgree | sidecar-go/handlers/handlers.go:57-94 | when no handler is mid-way, the hub's totals equal the stored events and their errors, for every interleaving with flushes |
| Orchestrator.OneResultPerPod | sidecar-go/orchestrator/controller.go:173-212 | for every interleaving, with any other ingests and flushes, one result per pod, a pod unhealthy exactly with an error and healthy otherwise, and no event lost at any storage, shared addresses included |
| Orchestrator.FaultlessIsClean | sidecar-go/orchestrator/controller.go:214-259 | if every request arrives, every write succeeds and every answer comes back, no result carries an error |
| Orchestrator.CleanFanOut | sidecar-go/orchestrator/controller.go:173-259 | without errors and other traffic all buffers are empty, in order, and the counts add up to the former sizes |
| Catalog.Parse | sidecar-go/analysis/queries/catalog.go:69-121 | the scanner loop computes `Parsed`, or fails on an overlong line |
| Catalog.SplitCSV | sidecar-go/analysis/queries/catalog.go:143-156 | the trimmed non-empty parts |
| Catalog.ParseParameters | sidecar-go/analysis/queries/catalog.go:158-170 | name and type of each part, VARCHAR by default |
| CatalogRoundTrip.ContinuationKeptExactlyWhen | sidecar-go/analysis/queries/catalog.go:81-106 | a prose line is kept exactly if it does not read as a header, and is lost for an unknown key |
| CatalogRoundTrip.EarlyProseIgnored | sidecar-go/analysis/queries/catalog.go:101-106 | prose above the description is ignored |
| CatalogRoundTrip.OneWordLeadInIsAKey | sidecar-go/analysis/queries/catalog.go:123-141 | every one-word lower-case lead-in is taken for a key |
| CatalogRoundTrip.HeaderExactlyWhen | sidecar-go/analysis/queries/catalog.go:123-141 | a line reads as a header if and only if it begins with one word of a to z and underscores, and a colon |
| CatalogRoundTrip.CSVRoundTrip | sidecar-go/analysis/queries/catalog.go:143-156 | splitting joined items gives the items back |
| CatalogRoundTrip.ParametersRoundTrip | sidecar-go/analysis/queries/catalog.go:158-170 | parsing spelled parameters gives them back |
| CatalogRoundTrip.LinesRoundTrip | sidecar-go/analysis/queries/catalog.go:75-78 | scanning joined lines gives the lines back |
| CatalogRoundTrip.DocumentRoundTrip | sidecar-go/analysis/queries/catalog.go:69-121 | every well-formed document parses to the query it lays out |
| CatalogRoundTrip.QueryRoundTrip | sidecar-go/analysis/queries/catalog.go:69-121 | parsing the rendering of a canonical query gives it back if the scanner delivers it |
| CatalogRoundTrip.LinesDelivered | sidecar-go/analysis/queries/catalog.go:75-78 | what the scanner delivers of any written lines |
| CatalogRoundTrip.TextDelivered | sidecar-go/analysis/queries/catalog.go:75-78 | likewise for a text whose last line lacks its line break |
| CatalogRoundTrip.TrimExactly | sidecar-go/analysis/queries/catalog.go:79-83 | trimming removes exactly the blanks around a text |
| CatalogRoundTrip.DropCRExactly | sidecar-go/analysis/queries/catalog.go:77-78 | one carriage return is dropped from the end of a line |
| CatalogRoundTrip.ParsedCanonical | sidecar-go/analysis/queries/catalog.go:69-170 | whatever the parser returns for any content is canonical |
| CatalogRoundTrip.ReparsedExactlyWhen | sidecar-go/analysis/queries/catalog.go:69-121 | for every parsed content, parsing the rendering gives the query back if and only if the scanner delivers it |

## Left out

- Floating-point rounding, `%f` formatting and the two-decimal rounding of responses: all figures are exact reals.
- DuckDB, the CSV file, S3, HTTP, WebSocket frames and YAML decoding: the model starts from decoded policies and row sequences, and a write succeeds or fails as one step.
- RelativeRegressionAlwaysFails: quantifies over all seeds where the source fixes two; the error rates of the remaining gate fixtures depend on the draws, so that only their endpoint lists have theorems.
- ViewRefinesEngine: the view's lookup finds own properties only; endpoints named like members of JavaScript's `Object.prototype` are not modelled.
- HandleIngest: handing the event to the broadcast channel never blocks here, while the channel in the source holds 256 messages.
- Lines: counts characters against the scanner's 1 MiB limit, which equals bytes for ASCII files.
- StepKeeps: the set of pods is stable during a fan-out, as the source re-reads the map entry after the network call.
- Liveness of the hub's event loop: it sends into the bounded queue it drains itself, so progress is not guaranteed; only safety is proved. The content of statistics messages is not modelled.
- `HealthCheckAll`, test runs, `WaitForCompletion`, statistics collection of the controller: bookkeeping or wall-clock waits.
- `Compare`, `checkRegression` and the historical trend of the comparator, argument parsing, reports, exit codes, charts and the validator: plumbing or settled by one branch.
- NULL latencies: the latency columns are taken as present, as every inserted event has them.
