/** The two diagnosis paths over the same pair of runs: regression findings
    (analysis/regression.go) and explanations (analysis/explain.go). */
module Diagnosis {
  import opened Sequences
  import opened Stats

  datatype Thresholds = Thresholds(
    p50RttIncreasePercent: real,
    p95RttIncreasePercent: real,
    p99RttIncreasePercent: real,
    errorRateIncreasePercent: real,
    errorRateAbsoluteMax: real,
    rpsDecreasePercent: real)

  datatype Severity = Warning | Critical

  datatype SignalMetric = P95Rtt | ErrorRateSignal

  datatype RegressionFinding = RegressionFinding(
    metric: SignalMetric, scope: string, baseline: real, current: real, changePercent: real, severity: Severity)

  datatype EndpointComparison = EndpointComparison(
    endpoint: string,
    baseline: EndpointStats,
    current: EndpointStats,
    p50DeltaMs: real, p50ChangePct: real,
    p95DeltaMs: real, p95ChangePct: real,
    p99DeltaMs: real, p99ChangePct: real,
    errorRateDelta: real)

  datatype Explanation = Explanation(
    endpoint: string,
    p95BaselineMs: real,
    p95CurrentMs: real,
    p95ChangePercent: real,
    largestTimingChange: TimingChange,
    affectedPods: seq<string>,
    errorRateBaseline: real,
    errorRateCurrent: real,
    severity: Severity)

  // ----- Comparison -----

  function Comparison(base: EndpointStats, cur: EndpointStats): EndpointComparison {
    EndpointComparison(cur.endpoint, base, cur,
                       cur.p50 - base.p50, PercentChange(base.p50, cur.p50),
                       cur.p95 - base.p95, PercentChange(base.p95, cur.p95),
                       cur.p99 - base.p99, PercentChange(base.p99, cur.p99),
                       cur.errorRate - base.errorRate)
  }

  function ComparisonWith(index: map<string, EndpointStats>): EndpointStats -> seq<EndpointComparison> {
    (cur: EndpointStats) => if cur.endpoint in index then [Comparison(index[cur.endpoint], cur)] else []
  }

  function Comparisons(baseline: seq<EndpointStats>, current: seq<EndpointStats>): seq<EndpointComparison> {
    Flatten(ComparisonWith(IndexByEndpoint(baseline)), current)
  }

  method CompareEndpoints(baseline: seq<EndpointStats>, current: seq<EndpointStats>) returns (out: seq<EndpointComparison>)
    ensures out == Comparisons(baseline, current)
  {
    hide Comparison;
    var index: map<string, EndpointStats> := map[];
    for i := 0 to |baseline|
      invariant index == IndexByEndpoint(baseline[..i])
    {
      assert baseline[..i + 1][..i] == baseline[..i];
      index := index[baseline[i].endpoint := baseline[i]];
    }
    assert baseline[..|baseline|] == baseline;
    out := [];
    for i := 0 to |current|
      invariant out == Flatten(ComparisonWith(index), current[..i])
    {
      assert current[..i + 1] == current[..i] + [current[i]];
      FlattenOne(ComparisonWith(index), current[..i], current[i]);
      if current[i].endpoint in index {
        out := out + [Comparison(index[current[i].endpoint], current[i])];
      }
    }
    assert current[..|current|] == current;
  }

  // ----- Regression findings -----

  function SeverityOf(changePercent: real, threshold: real): Severity {
    if changePercent > threshold * 2.0 then Critical else Warning
  }

  function LatencyFinding(c: EndpointComparison, t: Thresholds): seq<RegressionFinding> {
    if c.p95ChangePct > t.p95RttIncreasePercent then
      [RegressionFinding(P95Rtt, c.endpoint, c.baseline.p95, c.current.p95, c.p95ChangePct,
                         SeverityOf(c.p95ChangePct, t.p95RttIncreasePercent))]
    else []
  }

  function ErrorFinding(c: EndpointComparison, t: Thresholds): seq<RegressionFinding> {
    if c.current.errorRate > t.errorRateAbsoluteMax then
      [RegressionFinding(ErrorRateSignal, c.endpoint, c.baseline.errorRate, c.current.errorRate,
                         PercentChange(c.baseline.errorRate, c.current.errorRate), Critical)]
    else []
  }

  function Detection(t: Thresholds): EndpointComparison -> seq<RegressionFinding> {
    (c: EndpointComparison) => LatencyFinding(c, t) + ErrorFinding(c, t)
  }

  method DetectEndpointRegressions(baseline: seq<EndpointStats>, current: seq<EndpointStats>, t: Thresholds)
      returns (findings: seq<RegressionFinding>)
    ensures findings == Flatten(Detection(t), Comparisons(baseline, current))
  {
    hide PercentChange, Comparisons;
    var comparisons := CompareEndpoints(baseline, current);
    findings := [];
    for i := 0 to |comparisons|
      invariant findings == Flatten(Detection(t), comparisons[..i])
    {
      var c := comparisons[i];
      assert comparisons[..i + 1] == comparisons[..i] + [c];
      FlattenOne(Detection(t), comparisons[..i], c);
      ghost var before := findings;
      if c.p95ChangePct > t.p95RttIncreasePercent {
        findings := findings + [RegressionFinding(P95Rtt, c.endpoint, c.baseline.p95, c.current.p95, c.p95ChangePct,
                                                  SeverityOf(c.p95ChangePct, t.p95RttIncreasePercent))];
      }
      if c.current.errorRate > t.errorRateAbsoluteMax {
        findings := findings + [RegressionFinding(ErrorRateSignal, c.endpoint, c.baseline.errorRate, c.current.errorRate,
                                                  PercentChange(c.baseline.errorRate, c.current.errorRate), Critical)];
      }
      assert findings == before + (LatencyFinding(c, t) + ErrorFinding(c, t));
    }
    assert comparisons[..|comparisons|] == comparisons;
  }

  // ----- Affected pods -----

  const POD_OUTLIER_MULTIPLIER := 1.3

  /** A result row of the pod_endpoint_summary query. */
  datatype PodRow = PodRow(endpoint: string, pod: string, p95: real)

  function PodsOf(rows: seq<PodRow>, endpoint: string): seq<PodRow> {
    if rows == [] then []
    else PodsOf(rows[..|rows| - 1], endpoint) + (if rows[|rows| - 1].endpoint == endpoint then [rows[|rows| - 1]] else [])
  }

  function P95s(stats: seq<PodRow>): (s: seq<real>)
    ensures |s| == |stats| && forall i :: 0 <= i < |s| ==> s[i] == stats[i].p95
  {
    seq(|stats|, i requires 0 <= i < |stats| => stats[i].p95)
  }

  function Names(stats: seq<PodRow>): (s: seq<string>)
    ensures |s| == |stats| && forall i :: 0 <= i < |s| ==> s[i] == stats[i].pod
  {
    seq(|stats|, i requires 0 <= i < |stats| => stats[i].pod)
  }

  predicate StandsOut(avg: real, p95: real) {
    avg > 0.0 && p95 > avg * POD_OUTLIER_MULTIPLIER
  }

  /** The pods above 1.3 times a positive average, in order. */
  function Above(avg: real, stats: seq<PodRow>): seq<string> {
    if stats == [] then []
    else
      var last := stats[|stats| - 1];
      Above(avg, stats[..|stats| - 1]) + (if StandsOut(avg, last.p95) then [last.pod] else [])
  }

  function Outliers(stats: seq<PodRow>): seq<string> {
    if stats == [] then [] else Above(Sum(P95s(stats)) / |stats| as real, stats)
  }

  /** The report names, in order, exactly the pods whose p95 exceeds 1.3 times the
      mean of all pods, if that mean is positive. */
  ghost predicate NamesSlowPods(stats: seq<PodRow>, report: seq<string>) {
    var total, n := Sum(P95s(stats)), |stats| as real;
    exists ks :: Picks(ks, set k: nat | k < |stats| && total > 0.0 && 10.0 * n * stats[k].p95 > 13.0 * total)
      && |report| == |ks| && forall j :: 0 <= j < |ks| ==> ks[j] < |stats| && report[j] == stats[ks[j]].pod
  }

  /** Only the endpoint's own rows count, in the order of the query. */
  lemma PodsOfEndpoint(rows: seq<PodRow>, endpoint: string) returns (ks: seq<nat>)
    ensures Picks(ks, set k: nat | k < |rows| && rows[k].endpoint == endpoint)
    ensures |PodsOf(rows, endpoint)| == |ks|
    ensures forall j :: 0 <= j < |ks| ==> ks[j] < |rows| && PodsOf(rows, endpoint)[j] == rows[ks[j]]
  {
    hide PodsOf, Flatten;
    var own, row := (r: PodRow) => r.endpoint == endpoint, (r: PodRow) => r;
    PodsOfKept(rows, endpoint, own, row);
    ks := KeptPositions(own, row, rows);
    assert (set k: nat | k < |rows| && own(rows[k])) == set k: nat | k < |rows| && rows[k].endpoint == endpoint;
  }

  lemma {:induction false} PodsOfKept(rows: seq<PodRow>, endpoint: string, own: PodRow -> bool, row: PodRow -> PodRow)
    requires forall r :: (own(r) <==> r.endpoint == endpoint) && row(r) == r
    ensures PodsOf(rows, endpoint) == Flatten(Kept(own, row), rows)
  {
    if rows != [] { PodsOfKept(rows[..|rows| - 1], endpoint, own, row); }
  }

  lemma AbovePositions(avg: real, stats: seq<PodRow>) returns (ks: seq<nat>)
    ensures Picks(ks, set k: nat | k < |stats| && StandsOut(avg, stats[k].p95))
    ensures |Above(avg, stats)| == |ks| && forall j :: 0 <= j < |ks| ==> ks[j] < |stats| && Above(avg, stats)[j] == stats[ks[j]].pod
  {
    hide StandsOut, Above, Flatten;
    var slow, name := (r: PodRow) => StandsOut(avg, r.p95), (r: PodRow) => r.pod;
    AboveKept(avg, stats, slow, name);
    ks := KeptPositions(slow, name, stats);
    assert (set k: nat | k < |stats| && slow(stats[k])) == set k: nat | k < |stats| && StandsOut(avg, stats[k].p95);
  }

  lemma {:induction false} AboveKept(avg: real, stats: seq<PodRow>, slow: PodRow -> bool, name: PodRow -> string)
    requires forall r :: (slow(r) <==> StandsOut(avg, r.p95)) && name(r) == r.pod
    ensures Above(avg, stats) == Flatten(Kept(slow, name), stats)
  {
    hide StandsOut;
    if stats != [] { AboveKept(avg, stats[..|stats| - 1], slow, name); }
  }

  lemma StandsOutInNumbers(total: real, n: real, p95: real)
    requires n > 0.0
    ensures StandsOut(total / n, p95) <==> total > 0.0 && 10.0 * n * p95 > 13.0 * total
  {
    var avg := total / n;
    assert total == avg * n;
    assert 10.0 * n * p95 - 13.0 * total == (10.0 * p95 - 13.0 * avg) * n;
    SignOfProduct(10.0 * p95 - 13.0 * avg, n);
    SignOfProduct(avg, n);
  }

  lemma SignOfProduct(x: real, n: real)
    requires n > 0.0
    ensures x * n > 0.0 <==> x > 0.0
  {}

  lemma OutliersInNumbers(stats: seq<PodRow>)
    ensures NamesSlowPods(stats, Outliers(stats))
  {
    hide StandsOut, Sum, P95s, Above;
    var total, n := Sum(P95s(stats)), |stats| as real;
    var slow := set k: nat | k < |stats| && total > 0.0 && 10.0 * n * stats[k].p95 > 13.0 * total;
    if stats == [] {
      assert Picks([], slow);
    } else {
      var ks := AbovePositions(total / n, stats);
      forall k: nat | k < |stats| ensures k in slow <==> StandsOut(total / n, stats[k].p95) {
        StandsOutInNumbers(total, n, stats[k].p95);
      }
      assert Picks(ks, slow);
    }
  }

  method AffectedPods(rows: seq<PodRow>, endpoint: string) returns (affected: seq<string>)
    ensures affected == Outliers(PodsOf(rows, endpoint))
    ensures NamesSlowPods(PodsOf(rows, endpoint), affected)
  {
    hide NamesSlowPods, PodsOf, Above, Sum, P95s;
    OutliersInNumbers(PodsOf(rows, endpoint));
    var stats: seq<PodRow> := [];
    var sum := 0.0;
    NoPods(rows, endpoint);
    for i := 0 to |rows|
      invariant stats == PodsOf(rows[..i], endpoint) && sum == Sum(P95s(stats))
    {
      OneMorePod(rows, endpoint, i);
      if rows[i].endpoint != endpoint { continue; }
      stats := stats + [rows[i]];
      sum := sum + rows[i].p95;
    }
    assert rows[..|rows|] == rows;
    if |stats| == 0 { return []; }
    var avg := sum / |stats| as real;
    affected := [];
    NoneReported(avg, stats);
    for i := 0 to |stats|
      invariant affected == Above(avg, stats[..i])
    {
      assert stats[..i + 1][..i] == stats[..i];
      AboveAppend(avg, stats[..i + 1]);
      if avg > 0.0 && stats[i].p95 > avg * POD_OUTLIER_MULTIPLIER {
        affected := affected + [stats[i].pod];
      }
    }
    assert stats[..|stats|] == stats;
  }

  lemma NoPods(rows: seq<PodRow>, endpoint: string)
    ensures PodsOf(rows[..0], endpoint) == [] && Sum(P95s([])) == 0.0
  {}

  lemma OneMorePod(rows: seq<PodRow>, endpoint: string, i: nat)
    requires i < |rows|
    ensures var stats := PodsOf(rows[..i], endpoint);
      && PodsOf(rows[..i + 1], endpoint) == (if rows[i].endpoint == endpoint then stats + [rows[i]] else stats)
      && Sum(P95s(stats + [rows[i]])) == Sum(P95s(stats)) + rows[i].p95
  {
    assert rows[..i + 1][..i] == rows[..i];
    var stats := PodsOf(rows[..i], endpoint);
    assert P95s(stats + [rows[i]]) == P95s(stats) + [rows[i].p95];
    SumAppend(P95s(stats), rows[i].p95);
  }

  lemma NoneReported(avg: real, stats: seq<PodRow>)
    ensures Above(avg, stats[..0]) == []
  {}

  lemma AboveAppend(avg: real, stats: seq<PodRow>)
    requires stats != []
    ensures var n := |stats| - 1;
      Above(avg, stats) == if StandsOut(avg, stats[n].p95) then Above(avg, stats[..n]) + [stats[n].pod] else Above(avg, stats[..n])
  {}

  // ----- Explanations -----

  function Evidence(comparisons: seq<EndpointComparison>): (m: map<string, TimingChange>)
    ensures forall c :: c in comparisons ==> c.endpoint in m
  {
    if comparisons == [] then map[]
    else
      var last := comparisons[|comparisons| - 1];
      assert comparisons == comparisons[..|comparisons| - 1] + [last];
      Evidence(comparisons[..|comparisons| - 1])[last.endpoint := TimingDelta(last.baseline, last.current).largest]
  }

  function ExplanationOf(evidence: map<string, TimingChange>, pods: seq<PodRow>, t: Thresholds): EndpointComparison -> seq<Explanation> {
    (c: EndpointComparison) =>
      var regressedLatency := c.p95ChangePct > t.p95RttIncreasePercent;
      var regressedErrors := c.current.errorRate > t.errorRateAbsoluteMax;
      if !regressedLatency && !regressedErrors then []
      else
        [Explanation(c.endpoint, c.baseline.p95, c.current.p95, c.p95ChangePct,
                     if c.endpoint in evidence then evidence[c.endpoint] else TimingChange("", 0.0),
                     Outliers(PodsOf(pods, c.endpoint)),
                     c.baseline.errorRate, c.current.errorRate,
                     if regressedErrors || c.p95ChangePct > t.p95RttIncreasePercent * 2.0 then Critical else Warning)]
  }

  function Explanations(comparisons: seq<EndpointComparison>, evidence: map<string, TimingChange>, pods: seq<PodRow>, t: Thresholds):
      seq<Explanation>
  {
    Flatten(ExplanationOf(evidence, pods, t), comparisons)
  }

  method CollectEvidence(comparisons: seq<EndpointComparison>) returns (evidence: map<string, TimingChange>)
    ensures evidence == Evidence(comparisons)
  {
    hide TimingDelta;
    evidence := map[];
    for i := 0 to |comparisons|
      invariant evidence == Evidence(comparisons[..i])
    {
      assert comparisons[..i + 1][..i] == comparisons[..i];
      evidence := evidence[comparisons[i].endpoint := TimingDelta(comparisons[i].baseline, comparisons[i].current).largest];
    }
    assert comparisons[..|comparisons|] == comparisons;
  }

  /** The loop body for one comparison: nothing, or one explanation. */
  method ExplainOne(c: EndpointComparison, evidence: map<string, TimingChange>, pods: seq<PodRow>, t: Thresholds)
      returns (x: seq<Explanation>)
    ensures x == ExplanationOf(evidence, pods, t)(c)
  {
    hide Outliers, PodsOf;
    var regressedLatency := c.p95ChangePct > t.p95RttIncreasePercent;
    var regressedErrors := c.current.errorRate > t.errorRateAbsoluteMax;
    if !regressedLatency && !regressedErrors { return []; }
    var affected := AffectedPods(pods, c.endpoint);
    var severity := Warning;
    if regressedErrors || c.p95ChangePct > t.p95RttIncreasePercent * 2.0 { severity := Critical; }
    x := [Explanation(c.endpoint, c.baseline.p95, c.current.p95, c.p95ChangePct,
                      if c.endpoint in evidence then evidence[c.endpoint] else TimingChange("", 0.0),
                      affected, c.baseline.errorRate, c.current.errorRate, severity)];
  }

  /** The statistics are queried twice: for the comparisons, and once more for the
      bottleneck evidence. */
  method Explain(baseline: seq<EndpointStats>, current: seq<EndpointStats>, baseline': seq<EndpointStats>, current': seq<EndpointStats>,
                 pods: seq<PodRow>, t: Thresholds)
      returns (explanations: seq<Explanation>)
    ensures explanations == Explanations(Comparisons(baseline, current), Evidence(Comparisons(baseline', current')), pods, t)
  {
    hide Comparisons, ExplanationOf;
    var comparisons := CompareEndpoints(baseline, current);
    var again := CompareEndpoints(baseline', current');
    var evidence := CollectEvidence(again);
    explanations := [];
    for i := 0 to |comparisons|
      invariant explanations == Flatten(ExplanationOf(evidence, pods, t), comparisons[..i])
    {
      assert comparisons[..i + 1] == comparisons[..i] + [comparisons[i]];
      FlattenOne(ExplanationOf(evidence, pods, t), comparisons[..i], comparisons[i]);
      var explained := ExplainOne(comparisons[i], evidence, pods, t);
      explanations := explanations + explained;
    }
    assert comparisons[..|comparisons|] == comparisons;
  }

  // ----- Agreement -----

  lemma ComparisonsDistinct(baseline: seq<EndpointStats>, current: seq<EndpointStats>, c: EndpointComparison, d: EndpointComparison)
    requires DistinctEndpoints(current)
    requires c in Comparisons(baseline, current) && d in Comparisons(baseline, current) && c.endpoint == d.endpoint
    ensures c == d
  {
    hide Comparison;
    var index := IndexByEndpoint(baseline);
    InFlatten(ComparisonWith(index), current, c);
    InFlatten(ComparisonWith(index), current, d);
    var x :| x in current && c in ComparisonWith(index)(x);
    var y :| y in current && d in ComparisonWith(index)(y);
    ComparisonNames(index, x);
    ComparisonNames(index, y);
    assert x == y;
  }

  lemma ComparisonNames(index: map<string, EndpointStats>, x: EndpointStats)
    ensures forall c :: c in ComparisonWith(index)(x) ==> c.endpoint == x.endpoint
  {}

  predicate Explained(explanations: seq<Explanation>, e: string) {
    exists x :: x in explanations && x.endpoint == e
  }

  predicate Flagged(findings: seq<RegressionFinding>, e: string) {
    exists f :: f in findings && f.scope == e
  }

  predicate FlaggedCritical(findings: seq<RegressionFinding>, e: string) {
    exists f :: f in findings && f.scope == e && f.severity == Critical
  }

  /** The comparisons do not depend on the order of the statistics, but for their
      own order. */
  lemma ComparisonsPermuted(baseline: seq<EndpointStats>, current: seq<EndpointStats>,
                            baseline': seq<EndpointStats>, current': seq<EndpointStats>)
    requires DistinctEndpoints(baseline) && multiset(baseline) == multiset(baseline') && multiset(current) == multiset(current')
    ensures forall c :: c in Comparisons(baseline, current) <==> c in Comparisons(baseline', current')
  {
    hide Comparison;
    IndexPermuted(baseline, baseline');
    var a, b := Comparisons(baseline, current), Comparisons(baseline', current');
    FlattenPermuted(ComparisonWith(IndexByEndpoint(baseline)), current, current');
    forall c ensures c in a <==> c in b { assert c in multiset(a) <==> c in multiset(b); }
  }

  /** Both detectors, coded independently and each querying the statistics itself,
      diagnose the same endpoints: those of both runs whose p95 rose by more than
      the threshold or whose error rate exceeds the maximum. An explanation is
      critical exactly if some finding about its endpoint is. */
  lemma DiagnosisAgreement(baseline: seq<EndpointStats>, current: seq<EndpointStats>,
                           baseline': seq<EndpointStats>, current': seq<EndpointStats>,
                           evidence: map<string, TimingChange>, pods: seq<PodRow>, t: Thresholds,
                           findings: seq<RegressionFinding>, explanations: seq<Explanation>)
    requires DistinctEndpoints(baseline) && multiset(baseline) == multiset(baseline')
    requires DistinctEndpoints(current) && multiset(current) == multiset(current')
    requires findings == Flatten(Detection(t), Comparisons(baseline, current))
    requires explanations == Explanations(Comparisons(baseline', current'), evidence, pods, t)
    ensures forall e :: Explained(explanations, e) <==> Flagged(findings, e)
    ensures forall e :: Explained(explanations, e) <==> Breached(Comparisons(baseline, current), t, e)
    ensures forall x :: x in explanations ==> (x.severity == Critical <==> FlaggedCritical(findings, x.endpoint))
  {
    hide *;
    var cs, cs' := Comparisons(baseline, current), Comparisons(baseline', current');
    ComparisonsPermuted(baseline, current, baseline', current');
    forall e ensures Explained(explanations, e) <==> Flagged(findings, e)
             ensures Explained(explanations, e) <==> Breached(cs, t, e) {
      ExplainedBreaches(cs', evidence, pods, t, e);
      FlaggedBreaches(cs, t, e);
      SameBreaches(cs, cs', t, e);
    }
    forall x | x in explanations ensures x.severity == Critical <==> FlaggedCritical(findings, x.endpoint) {
      forall c, d | c in cs && d in cs && c.endpoint == d.endpoint ensures c == d { ComparisonsDistinct(baseline, current, c, d); }
      SameSeverity(cs, cs', evidence, pods, t, x);
    }
  }

  predicate Breached(cs: seq<EndpointComparison>, t: Thresholds, e: string) {
    exists c :: c in cs && c.endpoint == e && (c.p95ChangePct > t.p95RttIncreasePercent || c.current.errorRate > t.errorRateAbsoluteMax)
  }

  lemma SameBreaches(cs: seq<EndpointComparison>, cs': seq<EndpointComparison>, t: Thresholds, e: string)
    requires forall c :: c in cs <==> c in cs'
    ensures Breached(cs, t, e) <==> Breached(cs', t, e)
  {}

  lemma ExplainedBreaches(cs: seq<EndpointComparison>, evidence: map<string, TimingChange>, pods: seq<PodRow>, t: Thresholds, e: string)
    ensures Explained(Explanations(cs, evidence, pods, t), e) <==> Breached(cs, t, e)
  {
    hide ExplanationOf, Flatten;
    var explain := ExplanationOf(evidence, pods, t);
    if x :| x in Explanations(cs, evidence, pods, t) && x.endpoint == e {
      InFlatten(explain, cs, x);
      var c :| c in cs && x in explain(c);
      OneDiagnosis(evidence, pods, t, c);
    }
    if c :| c in cs && c.endpoint == e && (c.p95ChangePct > t.p95RttIncreasePercent || c.current.errorRate > t.errorRateAbsoluteMax) {
      OneDiagnosis(evidence, pods, t, c);
      InFlatten(explain, cs, explain(c)[0]);
    }
  }

  lemma FlaggedBreaches(cs: seq<EndpointComparison>, t: Thresholds, e: string)
    ensures Flagged(Flatten(Detection(t), cs), e) <==> Breached(cs, t, e)
  {
    hide Detection, Flatten;
    var detect := Detection(t);
    if f: RegressionFinding :| f in Flatten(detect, cs) && f.scope == e {
      InFlatten(detect, cs, f);
      var c :| c in cs && f in detect(c);
      OneDiagnosis(map[], [], t, c);
    }
    if c :| c in cs && c.endpoint == e && (c.p95ChangePct > t.p95RttIncreasePercent || c.current.errorRate > t.errorRateAbsoluteMax) {
      OneDiagnosis(map[], [], t, c);
      InFlatten(detect, cs, detect(c)[0]);
    }
  }

  lemma SameSeverity(cs: seq<EndpointComparison>, cs': seq<EndpointComparison>, evidence: map<string, TimingChange>,
                     pods: seq<PodRow>, t: Thresholds, x: Explanation)
    requires forall c :: c in cs <==> c in cs'
    requires forall c, d :: c in cs && d in cs && c.endpoint == d.endpoint ==> c == d
    requires x in Explanations(cs', evidence, pods, t)
    ensures x.severity == Critical <==> FlaggedCritical(Flatten(Detection(t), cs), x.endpoint)
  {
    hide ExplanationOf, Detection, Flatten;
    var detect, explain := Detection(t), ExplanationOf(evidence, pods, t);
    InFlatten(explain, cs', x);
    var c :| c in cs' && x in explain(c);
    OneDiagnosis(evidence, pods, t, c);
    if f :| f in detect(c) && f.severity == Critical { InFlatten(detect, cs, f); }
    if f: RegressionFinding :| f in Flatten(detect, cs) && f.scope == x.endpoint && f.severity == Critical {
      InFlatten(detect, cs, f);
      var d :| d in cs && f in detect(d);
      OneDiagnosis(evidence, pods, t, d);
      assert c == d;
    }
  }

  lemma {:induction false} EvidenceOf(comparisons: seq<EndpointComparison>, c: EndpointComparison)
    requires c in comparisons && forall d :: d in comparisons && d.endpoint == c.endpoint ==> d == c
    ensures Evidence(comparisons)[c.endpoint] == TimingDelta(c.baseline, c.current).largest
  {
    hide TimingDelta;
    var init, last := comparisons[..|comparisons| - 1], comparisons[|comparisons| - 1];
    assert comparisons == init + [last];
    if last.endpoint != c.endpoint { EvidenceOf(init, c); }
  }

  /** Every figure of an explanation comes from the endpoint's own statistics in
      the two runs, and its pods from the endpoint's own pods. */
  lemma ExplanationFigures(baseline: seq<EndpointStats>, current: seq<EndpointStats>,
                           baseline': seq<EndpointStats>, current': seq<EndpointStats>,
                           pods: seq<PodRow>, t: Thresholds, x: Explanation)
    requires DistinctEndpoints(baseline) && multiset(baseline) == multiset(baseline')
    requires DistinctEndpoints(current) && multiset(current) == multiset(current')
    requires x in Explanations(Comparisons(baseline, current), Evidence(Comparisons(baseline', current')), pods, t)
    ensures exists b, c ::
      && b in baseline && c in current && b.endpoint == c.endpoint == x.endpoint
      && x.p95BaselineMs == b.p95 && x.p95CurrentMs == c.p95 && x.p95ChangePercent == PercentChange(b.p95, c.p95)
      && x.errorRateBaseline == b.errorRate && x.errorRateCurrent == c.errorRate
      && x.largestTimingChange == TimingDelta(b, c).largest
      && NamesSlowPods(PodsOf(pods, x.endpoint), x.affectedPods)
      && (x.severity == Critical <==>
            c.errorRate > t.errorRateAbsoluteMax || PercentChange(b.p95, c.p95) > 2.0 * t.p95RttIncreasePercent)
  {
    hide Outliers, PodsOf, Evidence, PercentChange, TimingDelta, Flatten, NamesSlowPods;
    OutliersInNumbers(PodsOf(pods, x.endpoint));
    var index, cs, again := IndexByEndpoint(baseline), Comparisons(baseline, current), Comparisons(baseline', current');
    ComparisonsPermuted(baseline, current, baseline', current');
    InFlatten(ExplanationOf(Evidence(again), pods, t), cs, x);
    var k :| k in cs && x in ExplanationOf(Evidence(again), pods, t)(k);
    InFlatten(ComparisonWith(index), current, k);
    var c :| c in current && k in ComparisonWith(index)(c);
    IndexKeys(baseline, c.endpoint);
    forall d | d in again && d.endpoint == k.endpoint ensures d == k { ComparisonsDistinct(baseline, current, d, k); }
    EvidenceOf(again, k);
    assert k == Comparison(index[c.endpoint], c);
  }

  /** A comparison sets an endpoint of the current run beside the baseline's, metric by
      metric. */
  lemma ComparisonFigures(baseline: seq<EndpointStats>, current: seq<EndpointStats>, k: EndpointComparison)
    requires k in Comparisons(baseline, current)
    ensures k.baseline in baseline && k.current in current && k.baseline.endpoint == k.current.endpoint == k.endpoint
    ensures k.p50DeltaMs == k.current.p50 - k.baseline.p50 && k.p50ChangePct == PercentChange(k.baseline.p50, k.current.p50)
    ensures k.p95DeltaMs == k.current.p95 - k.baseline.p95 && k.p95ChangePct == PercentChange(k.baseline.p95, k.current.p95)
    ensures k.p99DeltaMs == k.current.p99 - k.baseline.p99 && k.p99ChangePct == PercentChange(k.baseline.p99, k.current.p99)
    ensures k.errorRateDelta == k.current.errorRate - k.baseline.errorRate
  {
    hide PercentChange;
    var index := IndexByEndpoint(baseline);
    InFlatten(ComparisonWith(index), current, k);
    var c :| c in current && k in ComparisonWith(index)(c);
    IndexKeys(baseline, c.endpoint);
  }

  /** Every endpoint of both runs is compared. */
  lemma ComparisonExists(baseline: seq<EndpointStats>, current: seq<EndpointStats>, b: EndpointStats, c: EndpointStats)
      returns (k: EndpointComparison)
    requires DistinctEndpoints(baseline) && b in baseline && c in current && b.endpoint == c.endpoint
    ensures k in Comparisons(baseline, current) && k.baseline == b && k.current == c && k.endpoint == c.endpoint
  {
    hide PercentChange;
    var index := IndexByEndpoint(baseline);
    IndexFinds(baseline, b);
    k := Comparison(b, c);
    assert k in ComparisonWith(index)(c);
    InFlatten(ComparisonWith(index), current, k);
  }

  /** What a finding says: about p95, that it rose by more than the threshold, critical
      beyond twice the threshold; about errors, that the rate exceeds the maximum,
      always critical. */
  ghost predicate FindingFits(f: RegressionFinding, b: EndpointStats, c: EndpointStats, t: Thresholds) {
    && b.endpoint == c.endpoint == f.scope
    && match f.metric
       case P95Rtt =>
         && f.baseline == b.p95 && f.current == c.p95 && f.changePercent == PercentChange(b.p95, c.p95) > t.p95RttIncreasePercent
         && f.severity == (if f.changePercent > 2.0 * t.p95RttIncreasePercent then Critical else Warning)
       case ErrorRateSignal =>
         && f.baseline == b.errorRate && f.current == c.errorRate > t.errorRateAbsoluteMax
         && f.changePercent == PercentChange(b.errorRate, c.errorRate) && f.severity == Critical
  }

  lemma FindingFigures(baseline: seq<EndpointStats>, current: seq<EndpointStats>, t: Thresholds, f: RegressionFinding)
    requires f in Flatten(Detection(t), Comparisons(baseline, current))
    ensures exists b, c :: b in baseline && c in current && FindingFits(f, b, c, t)
  {
    hide PercentChange, Flatten, Comparisons;
    var cs := Comparisons(baseline, current);
    InFlatten(Detection(t), cs, f);
    var k :| k in cs && f in Detection(t)(k);
    ComparisonFigures(baseline, current, k);
    assert f in LatencyFinding(k, t) || f in ErrorFinding(k, t);
  }

  /** And exactly when there is one, for an endpoint of both runs. */
  lemma FindingsExactlyWhen(baseline: seq<EndpointStats>, current: seq<EndpointStats>, t: Thresholds, b: EndpointStats, c: EndpointStats)
    requires DistinctEndpoints(baseline) && DistinctEndpoints(current)
    requires b in baseline && c in current && b.endpoint == c.endpoint
    ensures var findings := Flatten(Detection(t), Comparisons(baseline, current));
      && ((exists f :: f in findings && f.scope == c.endpoint && f.metric == P95Rtt)
          <==> PercentChange(b.p95, c.p95) > t.p95RttIncreasePercent)
      && ((exists f :: f in findings && f.scope == c.endpoint && f.metric == ErrorRateSignal)
          <==> c.errorRate > t.errorRateAbsoluteMax)
  {
    hide PercentChange, Flatten, Comparisons, Detection;
    var cs := Comparisons(baseline, current);
    var k := ComparisonExists(baseline, current, b, c);
    ComparisonFigures(baseline, current, k);
    DetectedOf(t, k);
    forall f ensures f in Detection(t)(k) ==> f in Flatten(Detection(t), cs) { InFlatten(Detection(t), cs, f); }
    forall f: RegressionFinding | f in Flatten(Detection(t), cs) && f.scope == c.endpoint ensures f in Detection(t)(k) {
      InFlatten(Detection(t), cs, f);
      var l :| l in cs && f in Detection(t)(l);
      DetectedOf(t, l);
      ComparisonsDistinct(baseline, current, k, l);
    }
  }

  lemma DetectedOf(t: Thresholds, k: EndpointComparison)
    ensures forall f :: f in Detection(t)(k) ==> f.scope == k.endpoint
    ensures (exists f :: f in Detection(t)(k) && f.metric == P95Rtt) <==> k.p95ChangePct > t.p95RttIncreasePercent
    ensures (exists f :: f in Detection(t)(k) && f.metric == ErrorRateSignal) <==> k.current.errorRate > t.errorRateAbsoluteMax
  {
    hide PercentChange;
    if k.p95ChangePct > t.p95RttIncreasePercent { assert LatencyFinding(k, t)[0] in Detection(t)(k); }
    if k.current.errorRate > t.errorRateAbsoluteMax { assert ErrorFinding(k, t)[0] in Detection(t)(k); }
  }

  lemma OneDiagnosis(evidence: map<string, TimingChange>, pods: seq<PodRow>, t: Thresholds, c: EndpointComparison)
    ensures var explained, found := ExplanationOf(evidence, pods, t)(c), Detection(t)(c);
      && (forall x :: x in explained ==> x.endpoint == c.endpoint)
      && (forall f :: f in found ==> f.scope == c.endpoint)
      && (explained == [] <==> found == [])
      && (explained != [] <==> c.p95ChangePct > t.p95RttIncreasePercent || c.current.errorRate > t.errorRateAbsoluteMax)
      && (explained != [] ==> explained[0] in explained && found[0] in found)
      && (forall x :: x in explained ==> (x.severity == Critical <==> exists f :: f in found && f.severity == Critical))
  {}

  // ----- How many pods can stand out -----

  function Weight(k: nat, t: real): real {
    k as real * t
  }

  lemma OneMoreWeight(k: nat, t: real)
    ensures Weight(0, t) == 0.0 && Weight(k + 1, t) == Weight(k, t) + t
  {}

  lemma {:induction false} AboveWeight(avg: real, t: real, stats: seq<PodRow>)
    requires t > 0.0 && forall p95 :: StandsOut(avg, p95) ==> p95 > t
    requires forall i :: 0 <= i < |stats| ==> stats[i].p95 >= 0.0
    ensures Sum(P95s(stats)) >= Weight(|Above(avg, stats)|, t)
    ensures Above(avg, stats) != [] ==> Sum(P95s(stats)) > Weight(|Above(avg, stats)|, t)
  {
    hide StandsOut, Weight, Sum, P95s;
    OneMoreWeight(0, t);
    if stats == [] {
      NoWeight();
    } else {
      var init := stats[..|stats| - 1];
      AboveWeight(avg, t, init);
      LastP95(stats);
      OneMoreWeight(|Above(avg, init)|, t);
    }
  }

  lemma NoWeight()
    ensures Sum(P95s([])) == 0.0
  {}

  lemma LastP95(stats: seq<PodRow>)
    requires stats != []
    ensures Sum(P95s(stats)) == Sum(P95s(stats[..|stats| - 1])) + stats[|stats| - 1].p95
  {
    assert P95s(stats)[..|stats| - 1] == P95s(stats[..|stats| - 1]);
  }

  /** With non-negative latencies fewer than ten thirteenths of the pods can be
      reported, so never all of them and never the only one. */
  lemma OutliersAreFew(stats: seq<PodRow>)
    requires stats != [] && forall s :: s in stats ==> s.p95 >= 0.0
    ensures 13 * |Outliers(stats)| < 10 * |stats|
    ensures |Outliers(stats)| < |stats|
  {
    hide StandsOut, Weight, Sum, P95s, Above;
    var n, total := |stats| as real, Sum(P95s(stats));
    var avg := total / n;
    assert Outliers(stats) == Above(avg, stats);
    if avg > 0.0 {
      var t, k := avg * 1.3, |Above(avg, stats)|;
      BeyondLimit(avg, t);
      AboveWeight(avg, t, stats);
      if k > 0 { CancelAverage(avg, t, n, k, total); }
    } else {
      NoneAbove(avg, stats);
    }
  }

  lemma BeyondLimit(avg: real, t: real)
    requires t == avg * 1.3
    ensures forall p95 :: StandsOut(avg, p95) ==> p95 > t
  {}

  lemma CancelAverage(avg: real, t: real, n: real, k: nat, total: real)
    requires n > 0.0 && avg > 0.0 && avg == total / n && t == avg * 1.3 && total > Weight(k, t)
    ensures 13.0 * k as real < 10.0 * n
  {
    assert avg * n == total;
    assert avg * (10.0 * n - 13.0 * k as real) > 0.0;
  }

  lemma {:induction false} NoneAbove(avg: real, stats: seq<PodRow>)
    requires avg <= 0.0
    ensures Above(avg, stats) == []
  {
    if stats != [] { NoneAbove(avg, stats[..|stats| - 1]); }
  }

  lemma {:induction false} AboveKeepsOrder(avg: real, stats: seq<PodRow>)
    ensures Subsequence(Above(avg, stats), Names(stats))
  {
    if stats != [] {
      var init, last := stats[..|stats| - 1], stats[|stats| - 1];
      AboveKeepsOrder(avg, init);
      assert Names(stats) == Names(init) + [last.pod];
      SubsequenceKeep(Above(avg, init), Names(init), last.pod);
      SubsequenceSkip(Above(avg, init), Names(init), last.pod);
      assert Above(avg, stats) == Above(avg, init) || Above(avg, stats) == Above(avg, init) + [last.pod];
    }
  }

  /** The report names pods of the endpoint in the order of the query. */
  lemma OutliersKeepOrder(stats: seq<PodRow>)
    ensures Subsequence(Outliers(stats), Names(stats))
  {
    if stats != [] { AboveKeepsOrder(Sum(P95s(stats)) / |stats| as real, stats); }
  }

  function ScaledPod(c: real, s: PodRow): PodRow {
    s.(p95 := c * s.p95)
  }

  function Scaled(c: real, stats: seq<PodRow>): (s: seq<PodRow>)
    ensures |s| == |stats| && forall i :: 0 <= i < |s| ==> s[i] == ScaledPod(c, stats[i])
  {
    seq(|stats|, i requires 0 <= i < |stats| => ScaledPod(c, stats[i]))
  }

  lemma ScaledInit(c: real, stats: seq<PodRow>)
    requires stats != []
    ensures Scaled(c, stats)[..|stats| - 1] == Scaled(c, stats[..|stats| - 1])
  {
    hide ScaledPod;
  }

  lemma {:induction false} SumScaled(c: real, stats: seq<PodRow>)
    ensures Sum(P95s(Scaled(c, stats))) == c * Sum(P95s(stats))
  {
    if stats != [] {
      var n := |stats| - 1;
      SumScaled(c, stats[..n]);
      ScaledInit(c, stats);
      assert P95s(Scaled(c, stats))[..n] == P95s(Scaled(c, stats)[..n]);
      assert P95s(stats)[..n] == P95s(stats[..n]);
    }
  }

  lemma {:induction false} AboveScaled(c: real, avg: real, avg': real, stats: seq<PodRow>)
    requires c > 0.0 && avg' == c * avg
    ensures Above(avg', Scaled(c, stats)) == Above(avg, stats)
  {
    if stats == [] {
      assert Scaled(c, stats) == [];
    } else {
      hide StandsOut, Above, Scaled, ScaledPod;
      var n, scaled := |stats| - 1, Scaled(c, stats);
      AboveScaled(c, avg, avg', stats[..n]);
      ScaledInit(c, stats);
      ScaledPodOf(c, stats[n]);
      SameComparison(c, stats[n].p95, avg, avg', scaled[n].p95);
      AboveAppend(avg, stats);
      AboveAppend(avg', scaled);
    }
  }

  lemma ScaledPodOf(c: real, s: PodRow)
    ensures ScaledPod(c, s).pod == s.pod && ScaledPod(c, s).p95 == c * s.p95
  {}

  lemma SameComparison(c: real, p95: real, avg: real, avg': real, p95': real)
    requires c > 0.0 && avg' == c * avg && p95' == c * p95
    ensures StandsOut(avg', p95') <==> StandsOut(avg, p95)
  {}

  lemma ScaledAverage(c: real, total: real, n: real)
    requires n > 0.0
    ensures c * total / n == c * (total / n)
  {}

  /** Changing the unit of all latencies changes no report. */
  lemma OutliersScaleInvariant(c: real, stats: seq<PodRow>)
    requires c > 0.0
    ensures Outliers(Scaled(c, stats)) == Outliers(stats)
  {
    hide Sum, StandsOut;
    if stats == [] {
      assert Scaled(c, stats) == [];
    } else {
      SumScaled(c, stats);
      var total, n := Sum(P95s(stats)), |stats| as real;
      ScaledAverage(c, total, n);
      var scaled := Scaled(c, stats);
      assert |scaled| as real == n && Sum(P95s(scaled)) == c * total;
      AboveScaled(c, total / n, Sum(P95s(scaled)) / n, stats);
    }
  }
}
