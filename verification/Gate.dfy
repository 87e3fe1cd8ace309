/** The performance gate's evaluation engine (analysis/gate/gate.go). */
module Gate {
  import opened Sequences
  import opened Text
  import opened Policy
  import opened Stats

  const RESULT_SCHEMA_VERSION := 1

  const REASON_INSUFFICIENT_SAMPLES := "insufficient_samples"
  const REASON_NO_BASELINE_ENDPOINT := "no_baseline_for_endpoint"
  const REASON_INSUFFICIENT_BASELINE := "insufficient_baseline_samples"

  datatype Metric = P50 | P95 | P99 | ErrorRate {
    function Name(): string {
      match this case P50 => "p50" case P95 => "p95" case P99 => "p99" case ErrorRate => "error_rate"
    }
  }

  datatype Check = Budget | Regression {
    function Name(): string {
      match this case Budget => "budget" case Regression => "regression"
    }
  }

  datatype Finding = Finding(
    scope: string,
    metric: Metric,
    check: Check,
    status: Status,
    baseline: Option<real>,
    current: Option<real>,
    delta: Option<real>,
    changePercent: Option<real>,
    threshold: Option<real>,
    reason: string,
    primaryTimingChange: Option<TimingChange>)

  datatype Summary = Summary(passed: nat, warned: nat, failed: nat, unknown: nat)

  datatype GateResult = GateResult(
    schemaVersion: int,
    status: Status,
    summary: Summary,
    violations: seq<Finding>,
    newEndpoints: seq<string>,
    removedEndpoints: seq<string>)

  /** What the gate holds against one endpoint of the current run: no baseline
      was asked for, the baseline never saw it, or these statistics. */
  datatype BaselineView = NotRequested | Missing | Present(stats: EndpointStats)

  /** The baseline run indexed by endpoint; None when no baseline was given. */
  type BaselineIndex = Option<map<string, EndpointStats>>

  function View(index: BaselineIndex, endpoint: string): BaselineView {
    match index
    case None => NotRequested
    case Some(m) => if endpoint in m then Present(m[endpoint]) else Missing
  }

  /** The current statistics of one endpoint with the evidence around them. */
  datatype Evidence = Evidence(
    current: EndpointStats,
    view: BaselineView,
    insufficientCurrent: bool,
    insufficientBaseline: bool,
    timingChange: Option<TimingChange>)

  function Gather(cur: EndpointStats, view: BaselineView, minSamples: int): Evidence {
    var insufficientCurrent := cur.requestCount < minSamples;
    var insufficientBaseline := view.Present? && view.stats.requestCount < minSamples;
    Evidence(cur, view, insufficientCurrent, insufficientBaseline,
             if view.Present? && !insufficientCurrent && !insufficientBaseline
             then Some(TimingDelta(view.stats, cur).largest) else None)
  }

  function ValueOf(m: Metric, s: EndpointStats): real {
    match m case P50 => s.p50 case P95 => s.p95 case P99 => s.p99 case ErrorRate => s.errorRate
  }

  // ----- Single findings -----

  function UnknownFinding(endpoint: string, metric: Metric, check: Check, reason: string): Finding {
    Finding(endpoint, metric, check, Unknown, None, None, None, None, None, reason, None)
  }

  function BudgetFinding(endpoint: string, metric: Metric, current: real, lp: LatencyPolicy): Finding {
    var f := Finding(endpoint, metric, Budget, Pass, None, Some(current), None, None, None, "", None);
    if lp.maxMs.Some? && current > lp.maxMs.value then f.(status := Fail, threshold := lp.maxMs)
    else if lp.warnMaxMs.Some? && current > lp.warnMaxMs.value then f.(status := Warn, threshold := lp.warnMaxMs)
    else if lp.maxMs.Some? then f.(threshold := lp.maxMs)
    else if lp.warnMaxMs.Some? then f.(threshold := lp.warnMaxMs)
    else f
  }

  function RegressionFinding(endpoint: string, metric: Metric, baseline: real, current: real, lp: LatencyPolicy): Finding {
    var delta := current - baseline;
    var changePercent := PercentChange(baseline, current);
    var minAbsolute := if lp.minAbsoluteRegressionMs.Some? then lp.minAbsoluteRegressionMs.value else 0.0;
    var exceedsFloor := delta >= minAbsolute;
    var f := Finding(endpoint, metric, Regression, Pass, Some(baseline), Some(current), Some(delta), Some(changePercent), None, "", None);
    if lp.maxRegressionPercent.Some? && changePercent > lp.maxRegressionPercent.value && exceedsFloor then
      f.(status := Fail, threshold := lp.maxRegressionPercent)
    else if lp.warnRegressionPercent.Some? && changePercent > lp.warnRegressionPercent.value && exceedsFloor then
      f.(status := Warn, threshold := lp.warnRegressionPercent)
    else if lp.maxRegressionPercent.Some? then f.(threshold := lp.maxRegressionPercent)
    else if lp.warnRegressionPercent.Some? then f.(threshold := lp.warnRegressionPercent)
    else f
  }

  function ErrorBudgetFinding(endpoint: string, current: real, ep: ErrorRatePolicy): Finding {
    var f := Finding(endpoint, ErrorRate, Budget, Pass, None, Some(current), None, None, None, "", None);
    if ep.maxAbsolute.Some? && current > ep.maxAbsolute.value then f.(status := Fail, threshold := ep.maxAbsolute)
    else if ep.warnMaxAbsolute.Some? && current > ep.warnMaxAbsolute.value then f.(status := Warn, threshold := ep.warnMaxAbsolute)
    else if ep.maxAbsolute.Some? then f.(threshold := ep.maxAbsolute)
    else if ep.warnMaxAbsolute.Some? then f.(threshold := ep.warnMaxAbsolute)
    else f
  }

  function ErrorIncreaseFinding(endpoint: string, baseline: real, current: real, ep: ErrorRatePolicy): Finding {
    var delta := current - baseline;
    var f := Finding(endpoint, ErrorRate, Regression, Pass, Some(baseline), Some(current), Some(delta), None, None, "", None);
    if ep.maxAbsoluteIncrease.Some? && delta > ep.maxAbsoluteIncrease.value then
      f.(status := Fail, threshold := ep.maxAbsoluteIncrease)
    else if ep.warnAbsoluteIncrease.Some? && delta > ep.warnAbsoluteIncrease.value then
      f.(status := Warn, threshold := ep.warnAbsoluteIncrease)
    else if ep.maxAbsoluteIncrease.Some? then f.(threshold := ep.maxAbsoluteIncrease)
    else if ep.warnAbsoluteIncrease.Some? then f.(threshold := ep.warnAbsoluteIncrease)
    else f
  }

  // ----- Both halves of one metric -----

  function LatencyBudget(m: Metric, ev: Evidence, lp: Option<LatencyPolicy>): seq<Finding> {
    if lp.None? || (lp.value.maxMs.None? && lp.value.warnMaxMs.None?) then []
    else if ev.insufficientCurrent then
      [UnknownFinding(ev.current.endpoint, m, Budget, REASON_INSUFFICIENT_SAMPLES)]
    else
      [BudgetFinding(ev.current.endpoint, m, ValueOf(m, ev.current), lp.value)]
  }

  function LatencyRegression(m: Metric, ev: Evidence, lp: Option<LatencyPolicy>): seq<Finding> {
    if lp.None? || (lp.value.maxRegressionPercent.None? && lp.value.warnRegressionPercent.None?) then []
    else if ev.view.NotRequested? then []
    else if ev.view.Missing? then
      [UnknownFinding(ev.current.endpoint, m, Regression, REASON_NO_BASELINE_ENDPOINT)]
    else if ev.insufficientCurrent then
      [UnknownFinding(ev.current.endpoint, m, Regression, REASON_INSUFFICIENT_SAMPLES)]
    else if ev.insufficientBaseline then
      [UnknownFinding(ev.current.endpoint, m, Regression, REASON_INSUFFICIENT_BASELINE)]
    else
      var f := RegressionFinding(ev.current.endpoint, m, ValueOf(m, ev.view.stats), ValueOf(m, ev.current), lp.value);
      [if f.status != Pass then f.(primaryTimingChange := ev.timingChange) else f]
  }

  function EvaluateLatency(m: Metric, ev: Evidence, lp: Option<LatencyPolicy>): seq<Finding> {
    LatencyBudget(m, ev, lp) + LatencyRegression(m, ev, lp)
  }

  function ErrorBudget(ev: Evidence, ep: Option<ErrorRatePolicy>): seq<Finding> {
    if ep.None? || (ep.value.maxAbsolute.None? && ep.value.warnMaxAbsolute.None?) then []
    else if ev.insufficientCurrent then
      [UnknownFinding(ev.current.endpoint, ErrorRate, Budget, REASON_INSUFFICIENT_SAMPLES)]
    else
      [ErrorBudgetFinding(ev.current.endpoint, ev.current.errorRate, ep.value)]
  }

  function ErrorIncrease(ev: Evidence, ep: Option<ErrorRatePolicy>): seq<Finding> {
    if ep.None? || (ep.value.maxAbsoluteIncrease.None? && ep.value.warnAbsoluteIncrease.None?) then []
    else if ev.view.NotRequested? then []
    else if ev.view.Missing? then
      [UnknownFinding(ev.current.endpoint, ErrorRate, Regression, REASON_NO_BASELINE_ENDPOINT)]
    else if ev.insufficientCurrent then
      [UnknownFinding(ev.current.endpoint, ErrorRate, Regression, REASON_INSUFFICIENT_SAMPLES)]
    else if ev.insufficientBaseline then
      [UnknownFinding(ev.current.endpoint, ErrorRate, Regression, REASON_INSUFFICIENT_BASELINE)]
    else
      [ErrorIncreaseFinding(ev.current.endpoint, ev.view.stats.errorRate, ev.current.errorRate, ep.value)]
  }

  function EvaluateErrorRate(ev: Evidence, ep: Option<ErrorRatePolicy>): seq<Finding> {
    ErrorBudget(ev, ep) + ErrorIncrease(ev, ep)
  }

  // ----- All findings -----

  function EndpointFindings(cur: EndpointStats, view: BaselineView, mp: MetricPolicy): seq<Finding> {
    var ev := Gather(cur, view, mp.MinSamplesOrDefault());
    EvaluateLatency(P50, ev, mp.p50)
    + EvaluateLatency(P95, ev, mp.p95)
    + EvaluateLatency(P99, ev, mp.p99)
    + EvaluateErrorRate(ev, mp.errorRate)
  }

  function FindingsAt(cur: EndpointStats, index: BaselineIndex, pol: Policy): seq<Finding> {
    EndpointFindings(cur, View(index, cur.endpoint), EffectiveMetricPolicy(pol, cur.endpoint))
  }

  function FindingsOf(index: BaselineIndex, pol: Policy): EndpointStats -> seq<Finding> {
    (cur: EndpointStats) => FindingsAt(cur, index, pol)
  }

  function AllFindings(current: seq<EndpointStats>, index: BaselineIndex, pol: Policy): seq<Finding> {
    Flatten(FindingsOf(index, pol), current)
  }

  function NewEndpointOf(index: BaselineIndex): EndpointStats -> seq<string> {
    (cur: EndpointStats) => if View(index, cur.endpoint).Missing? then [cur.endpoint] else []
  }

  function NewEndpoints(current: seq<EndpointStats>, index: BaselineIndex): seq<string> {
    Flatten(NewEndpointOf(index), current)
  }

  // ----- The verdict -----

  function Rank(s: Status): nat {
    match s case Pass => 0 case Unknown => 1 case Warn => 2 case Fail => 3 case Other(_) => 0
  }

  function Worse(a: Status, b: Status): Status {
    if Rank(b) > Rank(a) then b else a
  }

  function Weighted(treatment: Status, s: Status): Status {
    if s == Unknown then treatment else s
  }

  function Worst(treatment: Status, fs: seq<Finding>): Status {
    if fs == [] then Pass
    else Worse(Worst(treatment, fs[..|fs| - 1]), Weighted(treatment, fs[|fs| - 1].status))
  }

  function CountStatus(fs: seq<Finding>, s: Status): nat {
    if fs == [] then 0
    else CountStatus(fs[..|fs| - 1], s) + (if fs[|fs| - 1].status == s then 1 else 0)
  }

  function Tally(fs: seq<Finding>): Summary {
    Summary(CountStatus(fs, Pass), CountStatus(fs, Warn), CountStatus(fs, Fail), CountStatus(fs, Unknown))
  }

  function NonPass(fs: seq<Finding>): seq<Finding> {
    if fs == [] then []
    else NonPass(fs[..|fs| - 1]) + (if fs[|fs| - 1].status == Pass then [] else [fs[|fs| - 1]])
  }

  // ----- Report order -----

  predicate FindingLess(a: Finding, b: Finding) {
    if a.scope != b.scope then StringLess(a.scope, b.scope)
    else if a.metric != b.metric then StringLess(a.metric.Name(), b.metric.Name())
    else StringLess(a.check.Name(), b.check.Name())
  }

  predicate FindingLe(a: Finding, b: Finding) {
    !FindingLess(b, a)
  }

  predicate SameKey(a: Finding, b: Finding) {
    a.scope == b.scope && a.metric == b.metric && a.check == b.check
  }

  lemma NamesOrdered(m: Metric, n: Metric, c: Check, d: Check)
    ensures m.Name() == n.Name() <==> m == n
    ensures c.Name() == d.Name() <==> c == d
  {}

  lemma FindingLessTotal(a: Finding, b: Finding)
    ensures FindingLess(a, b) || FindingLess(b, a) || SameKey(a, b)
    ensures !(FindingLess(a, b) && FindingLess(b, a))
  {
    NamesOrdered(a.metric, b.metric, a.check, b.check);
    StringLessTotal(a.scope, b.scope);
    StringLessTotal(a.metric.Name(), b.metric.Name());
    StringLessTotal(a.check.Name(), b.check.Name());
  }

  lemma FindingLessTransitive(a: Finding, b: Finding, c: Finding)
    requires FindingLess(a, b) && FindingLess(b, c)
    ensures FindingLess(a, c)
  {
    if a.scope != b.scope && b.scope != c.scope {
      StringLessTransitive(a.scope, b.scope, c.scope);
      StringLessTotal(a.scope, b.scope);
    } else if a.scope == b.scope == c.scope {
      if a.metric != b.metric && b.metric != c.metric {
        StringLessTransitive(a.metric.Name(), b.metric.Name(), c.metric.Name());
        StringLessTotal(a.metric.Name(), b.metric.Name());
      } else if a.metric == b.metric == c.metric {
        StringLessTransitive(a.check.Name(), b.check.Name(), c.check.Name());
      }
    }
  }

  lemma FindingLeTotalOrder()
    ensures TotalOrder(FindingLe)
  {
    forall a, b ensures FindingLe(a, b) || FindingLe(b, a) { FindingLessTotal(a, b); }
    forall a, b, c | FindingLe(a, b) && FindingLe(b, c) ensures FindingLe(a, c) {
      FindingLessTotal(a, b);
      FindingLessTotal(b, c);
      if FindingLess(c, a) {
        if FindingLess(a, b) { FindingLessTransitive(c, a, b); }
        else if FindingLess(b, c) { FindingLessTransitive(b, c, a); }
      }
    }
  }

  // ----- Results -----

  function Indexed(baseline: Option<seq<EndpointStats>>): BaselineIndex {
    match baseline case None => None case Some(b) => Some(IndexByEndpoint(b))
  }

  ghost function EndpointSet(s: seq<EndpointStats>): set<string> {
    set i | 0 <= i < |s| :: s[i].endpoint
  }

  ghost predicate ListsRemoved(current: seq<EndpointStats>, index: BaselineIndex, removed: seq<string>) {
    && Distinct(removed) && SortedBy(StringLe, removed)
    && forall e :: e in removed <==> index.Some? && e in index.value && e !in EndpointSet(current)
  }

  /** Every result the engine may return: map iteration order and the
      arrangement of ties by the sort are left open. */
  ghost predicate Reports(current: seq<EndpointStats>, baseline: Option<seq<EndpointStats>>, pol: Policy, r: GateResult) {
    var index := Indexed(baseline);
    var fs := AllFindings(current, index, pol);
    && r.schemaVersion == RESULT_SCHEMA_VERSION
    && r.status == Worst(pol.unknownTreatment, fs)
    && r.summary == Tally(fs)
    && multiset(r.violations) == multiset(NonPass(fs)) && SortedBy(FindingLe, r.violations)
    && multiset(r.newEndpoints) == multiset(NewEndpoints(current, index)) && SortedBy(StringLe, r.newEndpoints)
    && ListsRemoved(current, index, r.removedEndpoints)
  }

  // ----- The engine -----

  method BuildIndex(s: seq<EndpointStats>) returns (m: map<string, EndpointStats>)
    ensures m == IndexByEndpoint(s)
  {
    m := map[];
    for i := 0 to |s|
      invariant m == IndexByEndpoint(s[..i])
    {
      assert s[..i + 1][..i] == s[..i];
      m := m[s[i].endpoint := s[i]];
    }
    assert s[..|s|] == s;
  }

  /** The baseline endpoints the current run no longer has, in whatever order
      the map yields its keys, sorted. */
  method CollectRemoved(keys: set<string>, seen: set<string>) returns (removed: seq<string>)
    ensures Distinct(removed) && SortedBy(StringLe, removed)
    ensures forall e :: e in removed <==> e in keys && e !in seen
  {
    removed := [];
    var rest := keys;
    while rest != {}
      invariant rest <= keys && Distinct(removed)
      invariant forall e :: e in removed <==> e in keys && e !in rest && e !in seen
    {
      var e :| e in rest;
      rest := rest - {e};
      if e !in seen { removed := removed + [e]; }
    }
    StringLeTotalOrder();
    ghost var unsorted := removed;
    removed := Sort(StringLe, removed);
    DistinctPermuted(unsorted, removed);
    forall e ensures e in removed <==> e in unsorted {
      assert e in multiset(removed) <==> e in multiset(unsorted);
    }
  }

  method Build(pol: Policy, findings: seq<Finding>, newEndpoints: seq<string>, removedEndpoints: seq<string>)
      returns (res: GateResult)
    ensures res.schemaVersion == RESULT_SCHEMA_VERSION
    ensures res.status == Worst(pol.unknownTreatment, findings)
    ensures res.summary == Tally(findings)
    ensures multiset(res.violations) == multiset(NonPass(findings)) && SortedBy(FindingLe, res.violations)
    ensures res.newEndpoints == newEndpoints && res.removedEndpoints == removedEndpoints
  {
    var summary := Summary(0, 0, 0, 0);
    var violations: seq<Finding> := [];
    var worst := Pass;
    for i := 0 to |findings|
      invariant worst == Worst(pol.unknownTreatment, findings[..i])
      invariant summary == Tally(findings[..i])
      invariant violations == NonPass(findings[..i])
    {
      var f := findings[i];
      assert findings[..i + 1][..i] == findings[..i];
      match f.status {
        case Pass => summary := summary.(passed := summary.passed + 1);
        case Warn => summary := summary.(warned := summary.warned + 1);
        case Fail => summary := summary.(failed := summary.failed + 1);
        case Unknown => summary := summary.(unknown := summary.unknown + 1);
        case Other(_) =>
      }
      if f.status != Pass {
        violations := violations + [f];
        worst := Worse(worst, if f.status == Unknown then pol.unknownTreatment else f.status);
      }
    }
    assert findings[..|findings|] == findings;
    FindingLeTotalOrder();
    violations := Sort(FindingLe, violations);
    res := GateResult(RESULT_SCHEMA_VERSION, worst, summary, violations, newEndpoints, removedEndpoints);
  }

  method Evaluate(current: seq<EndpointStats>, baseline: Option<seq<EndpointStats>>, pol: Policy) returns (res: GateResult)
    ensures Reports(current, baseline, pol, res)
  {
    var index: BaselineIndex := None;
    if baseline.Some? {
      var m := BuildIndex(baseline.value);
      index := Some(m);
    }
    var seen: set<string> := {};
    var findings: seq<Finding> := [];
    var newEndpoints: seq<string> := [];
    for i := 0 to |current|
      invariant seen == EndpointSet(current[..i])
      invariant findings == AllFindings(current[..i], index, pol)
      invariant newEndpoints == NewEndpoints(current[..i], index)
    {
      var cur := current[i];
      assert current[..i + 1] == current[..i] + [cur];
      FlattenOne(FindingsOf(index, pol), current[..i], cur);
      FlattenOne(NewEndpointOf(index), current[..i], cur);
      SeenOneMore(current, i);
      seen := seen + {cur.endpoint};
      var mp := EffectiveMetricPolicy(pol, cur.endpoint);
      var view := View(index, cur.endpoint);
      if view.Missing? { newEndpoints := newEndpoints + [cur.endpoint]; }
      findings := findings + EndpointFindings(cur, view, mp);
    }
    assert current[..|current|] == current;
    var removed: seq<string> := [];
    if index.Some? { removed := CollectRemoved(index.value.Keys, seen); }
    StringLeTotalOrder();
    newEndpoints := Sort(StringLe, newEndpoints);
    res := Build(pol, findings, newEndpoints, removed);
  }

  lemma SeenOneMore(current: seq<EndpointStats>, i: nat)
    requires i < |current|
    ensures EndpointSet(current[..i + 1]) == EndpointSet(current[..i]) + {current[i].endpoint}
  {}
}
