/** From the metrics rows to the gate's report: the order in which the database
    delivers endpoints and status counts cannot be observed. */
module EndToEnd {
  import opened Sequences
  import opened Text
  import opened Percentiles
  import opened Stats
  import opened Aggregation
  import opened Conservation
  import opened Policy
  import opened Gate
  import opened GateOrder
  import BrowserGate
  import Diagnosis

  /** `out` is what the analysis may compute for a run of the rows. */
  ghost predicate Analyzed(rows: seq<Row>, runId: string, out: seq<EndpointStats>) {
    exists s, d :: IsEndpointSummary(rows, runId, s) && IsStatusDistribution(rows, runId, d) && Merges(s, d, Ok(out))
  }

  lemma {:induction false} DistributionKeys(d: seq<StatusRow>, e: string, k: string)
    requires forall x :: x in d ==> x.endpoint.Some? && x.status.Some?
    requires k in DistributionOf(d, e)
    ensures exists code :: k == FormatInt(code)
  {
    hide FormatInt;
    var init, last := d[..|d| - 1], d[|d| - 1];
    assert d == init + [last];
    if k in DistributionOf(init, e) { DistributionKeys(init, e, k); }
  }

  lemma DistributionWithin(rows: seq<Row>, runId: string, d: seq<StatusRow>, d': seq<StatusRow>, e: string)
    requires IsStatusDistribution(rows, runId, d) && IsStatusDistribution(rows, runId, d')
    requires forall x :: x in d + d' ==> x.endpoint.Some? && x.status.Some?
    ensures forall k :: k in DistributionOf(d, e) ==> k in DistributionOf(d', e) && DistributionOf(d, e)[k] == DistributionOf(d', e)[k]
  {
    hide FormatInt, DistributionOf, Group, Occurrences;
    var column := Column(RowStatus(), Group(RunRows(rows, runId), Some(e)));
    StatusCounts(rows, runId, d, e);
    StatusCounts(rows, runId, d', e);
    forall k | k in DistributionOf(d, e) ensures k in DistributionOf(d', e) && DistributionOf(d, e)[k] == DistributionOf(d', e)[k] {
      DistributionKeys(d, e, k);
      var code :| k == FormatInt(code);
      StatusesListed(d, e, Some(code));
      StatusesListed(d', e, Some(code));
    }
  }

  lemma StatusCounts(rows: seq<Row>, runId: string, d: seq<StatusRow>, e: string)
    requires IsStatusDistribution(rows, runId, d) && forall x :: x in d ==> x.endpoint.Some? && x.status.Some?
    ensures forall code :: FormatInt(code) in DistributionOf(d, e) <==> Some(code) in StatusesFor(d, e)
    ensures forall code :: FormatInt(code) in DistributionOf(d, e) ==>
      DistributionOf(d, e)[FormatInt(code)] == Occurrences(Some(code), Column(RowStatus(), Group(RunRows(rows, runId), Some(e))))
  {
    hide FormatInt, DistributionOf, Group, Occurrences;
    var run := RunRows(rows, runId);
    forall x | x in d && x.endpoint == Some(e)
      ensures x.count == Occurrences(x.status, Column(RowStatus(), Group(run, Some(e))))
    {
      var i := IndexOfMember(d, x);
      GroupStatuses(run, Some(e), x.status);
    }
    DistributionCounts(d, e, Column(RowStatus(), Group(run, Some(e))));
  }

  /** An entry depends on the rows only. */
  lemma EntryOfRows(rows: seq<Row>, runId: string, s: seq<SummaryRow>, d: seq<StatusRow>, out: seq<EndpointStats>, i: nat)
    requires IsEndpointSummary(rows, runId, s) && Merges(s, d, Ok(out)) && i < |out|
    ensures |s| == |out| && Scannable(s, d) && s[i].endpoint == Some(out[i].endpoint)
    ensures var group := Group(RunRows(rows, runId), Some(out[i].endpoint));
      group != [] && out[i] == Attach(d, FromSummary(Summarize(Some(out[i].endpoint), group)))
  {
    hide Summarize, Group, DistributionOf, ByEndpoint;
    ByEndpointFinds(s, i);
  }

  lemma MembersAgree(rows: seq<Row>, runId: string, out: seq<EndpointStats>, out': seq<EndpointStats>, x: EndpointStats)
    requires Analyzed(rows, runId, out) && Analyzed(rows, runId, out') && x in out
    ensures x in out'
  {
    hide Mean, Max, CountErrors, Group, DistributionOf, IsStatusDistribution, FromSummary, Merges, IsEndpointSummary;
    var s: seq<SummaryRow>, d: seq<StatusRow> :| IsEndpointSummary(rows, runId, s) && IsStatusDistribution(rows, runId, d) && Merges(s, d, Ok(out));
    var s': seq<SummaryRow>, d': seq<StatusRow> :| IsEndpointSummary(rows, runId, s') && IsStatusDistribution(rows, runId, d') && Merges(s', d', Ok(out'));
    var i := IndexOfMember(out, x);
    EntryOfRows(rows, runId, s, d, out, i);
    SameEndpoints(rows, runId, s, s', s[i]);
    var j: nat :| j < |s'| && s'[j].endpoint == s[i].endpoint;
    SameLength(s', d', out');
    EntryOfRows(rows, runId, s', d', out', j);
    DistributionWithin(rows, runId, d, d', x.endpoint);
    DistributionWithin(rows, runId, d', d, x.endpoint);
    assert DistributionOf(d, x.endpoint) == DistributionOf(d', x.endpoint);
    AttachCongruent(d, d', Summarize(Some(x.endpoint), Group(RunRows(rows, runId), Some(x.endpoint))));
    assert out'[j] == x;
  }

  lemma AttachCongruent(d: seq<StatusRow>, d': seq<StatusRow>, s: SummaryRow)
    requires s.endpoint.Some? && forall x :: x in d + d' ==> x.endpoint.Some? && x.status.Some?
    requires DistributionOf(d, s.endpoint.value) == DistributionOf(d', s.endpoint.value)
    ensures Attach(d, FromSummary(s)) == Attach(d', FromSummary(s))
  {}

  lemma SameLength(s: seq<SummaryRow>, d: seq<StatusRow>, out: seq<EndpointStats>)
    requires Merges(s, d, Ok(out))
    ensures |s| == |out|
  {}

  lemma SameEndpoints(rows: seq<Row>, runId: string, s: seq<SummaryRow>, s': seq<SummaryRow>, x: SummaryRow)
    requires IsEndpointSummary(rows, runId, s) && IsEndpointSummary(rows, runId, s') && x in s
    ensures exists j: nat :: j < |s'| && s'[j].endpoint == x.endpoint
  {
    hide Summarize, Group;
    var i := IndexOfMember(s, x);
    assert SummaryKeys(s)[i] in SummaryKeys(s');
    var j := IndexOfMember(SummaryKeys(s'), x.endpoint);
    assert s'[j].endpoint == x.endpoint;
  }

  /** Two analyses of the same run differ at most in the order of endpoints. */
  lemma AnalysesArePermutations(rows: seq<Row>, runId: string, out: seq<EndpointStats>, out': seq<EndpointStats>)
    requires Analyzed(rows, runId, out) && Analyzed(rows, runId, out')
    ensures multiset(out) == multiset(out') && DistinctEndpoints(out)
  {
    AnalysisDistinct(rows, runId, out);
    AnalysisDistinct(rows, runId, out');
    hide Analyzed;
    forall x ensures multiset(out)[x] == multiset(out')[x] {
      DistinctCounts(out, x);
      DistinctCounts(out', x);
      assert x in multiset(out) <==> x in out;
      assert x in multiset(out') <==> x in out';
      if x in out { MembersAgree(rows, runId, out, out', x); }
      if x in out' { MembersAgree(rows, runId, out', out, x); }
    }
  }

  lemma AnalysisDistinct(rows: seq<Row>, runId: string, out: seq<EndpointStats>)
    requires Analyzed(rows, runId, out)
    ensures DistinctEndpoints(out) && Distinct(out)
  {
    hide IsEndpointSummary, IsStatusDistribution, Merges;
    var s: seq<SummaryRow>, d: seq<StatusRow> :| IsEndpointSummary(rows, runId, s) && IsStatusDistribution(rows, runId, d) && Merges(s, d, Ok(out));
    AggregationConserves(rows, runId, s, d, out);
  }

  /** The endpoints of an analysis are those of the run's rows. */
  lemma AnalyzedEndpoints(rows: seq<Row>, runId: string, out: seq<EndpointStats>, e: string)
    requires Analyzed(rows, runId, out)
    ensures e in EndpointSet(out) <==> Some(e) in Column(RowEndpoint(), RunRows(rows, runId))
  {
    hide IsStatusDistribution, Summarize, Group, RunRows;
    var s: seq<SummaryRow>, d: seq<StatusRow> :| IsEndpointSummary(rows, runId, s) && IsStatusDistribution(rows, runId, d) && Merges(s, d, Ok(out));
    hide Merges, IsEndpointSummary;
    SameLength(s, d, out);
    forall i | 0 <= i < |out| ensures SummaryKeys(s)[i] == Some(out[i].endpoint) { EntryOfRows(rows, runId, s, d, out, i); }
    KeysListed(rows, runId, s, Some(e));
    if Some(e) in SummaryKeys(s) {
      var i := IndexOfMember(SummaryKeys(s), Some(e));
      assert out[i].endpoint == e;
    }
    if e in EndpointSet(out) {
      var i :| 0 <= i < |out| && out[i].endpoint == e;
      assert SummaryKeys(s)[i] == Some(e);
    }
  }

  lemma KeysListed(rows: seq<Row>, runId: string, s: seq<SummaryRow>, k: Option<string>)
    requires IsEndpointSummary(rows, runId, s)
    ensures k in SummaryKeys(s) <==> k in Column(RowEndpoint(), RunRows(rows, runId))
  {
    hide Summarize, Group, RunRows;
  }

  /** The analysis of the baseline run, if there is one. */
  ghost predicate BaselineAnalyzed(rows: seq<Row>, runId: Option<string>, out: Option<seq<EndpointStats>>) {
    (runId.Some? <==> out.Some?) && (runId.Some? ==> Analyzed(rows, runId.value, out.value))
  }

  /** Analysing two runs of the same rows, or one run alone, twice and gating them
      under the same policy yields the same report, whatever orders the database,
      the maps and the sorts chose. */
  lemma ReportDependsOnRowsOnly(
      rows: seq<Row>, currentRun: string, baselineRun: Option<string>, pol: Policy,
      current: seq<EndpointStats>, baseline: Option<seq<EndpointStats>>, r: GateResult,
      current': seq<EndpointStats>, baseline': Option<seq<EndpointStats>>, r': GateResult)
    requires Analyzed(rows, currentRun, current) && BaselineAnalyzed(rows, baselineRun, baseline)
    requires Analyzed(rows, currentRun, current') && BaselineAnalyzed(rows, baselineRun, baseline')
    requires Reports(current, baseline, pol, r) && Reports(current', baseline', pol, r')
    ensures r == r'
  {
    hide Analyzed, Reports;
    AnalysesArePermutations(rows, currentRun, current, current');
    if baselineRun.Some? { AnalysesArePermutations(rows, baselineRun.value, baseline.value, baseline'.value); }
    OrderIndependence(current, current', baseline, baseline', pol, r, r');
  }

  /** The two diagnosis paths agree although each analyses the runs itself. */
  lemma DiagnosesOfRowsAgree(
      rows: seq<Row>, currentRun: string, baselineRun: string, evidence: map<string, TimingChange>,
      pods: seq<Diagnosis.PodRow>, t: Diagnosis.Thresholds,
      current: seq<EndpointStats>, baseline: seq<EndpointStats>, findings: seq<Diagnosis.RegressionFinding>,
      current': seq<EndpointStats>, baseline': seq<EndpointStats>, explanations: seq<Diagnosis.Explanation>)
    requires Analyzed(rows, currentRun, current) && Analyzed(rows, baselineRun, baseline)
    requires Analyzed(rows, currentRun, current') && Analyzed(rows, baselineRun, baseline')
    requires findings == Flatten(Diagnosis.Detection(t), Diagnosis.Comparisons(baseline, current))
    requires explanations == Diagnosis.Explanations(Diagnosis.Comparisons(baseline', current'), evidence, pods, t)
    ensures forall e :: Diagnosis.Explained(explanations, e) <==> Diagnosis.Flagged(findings, e)
    ensures forall x :: x in explanations ==>
      (x.severity == Diagnosis.Critical <==> Diagnosis.FlaggedCritical(findings, x.endpoint))
  {
    hide *;
    AnalysesArePermutations(rows, currentRun, current, current');
    AnalysesArePermutations(rows, baselineRun, baseline, baseline');
    Diagnosis.DiagnosisAgreement(baseline, current, baseline', current', evidence, pods, t, findings, explanations);
  }

  /** Analysed statistics are of the kind the browser's gate view computes with. */
  lemma AnalysisComputed(rows: seq<Row>, runId: string, out: seq<EndpointStats>, x: EndpointStats)
    requires Analyzed(rows, runId, out) && x in out
    ensures BrowserGate.Computed(x)
  {
    hide Mean, Max, Group, DistributionOf, IsStatusDistribution, Merges, IsEndpointSummary, PercentileCont, CountErrors;
    var s: seq<SummaryRow>, d: seq<StatusRow> :| IsEndpointSummary(rows, runId, s) && IsStatusDistribution(rows, runId, d) && Merges(s, d, Ok(out));
    var i := IndexOfMember(out, x);
    EntryOfRows(rows, runId, s, d, out, i);
  }

  /** On the analyses of two runs the browser's view refines the engine, for
      allowances from 0% on and latencies that are not negative. */
  lemma ViewOfRowsRefinesEngine(
      rows: seq<Row>, currentRun: string, baselineRun: string, maxRegressionPct: real, maxErrorRate: real,
      current: seq<EndpointStats>, baseline: seq<EndpointStats>, r: GateResult, v: BrowserGate.Verdict)
    requires Analyzed(rows, currentRun, current) && Analyzed(rows, baselineRun, baseline)
    requires maxRegressionPct >= 0.0 && forall x :: x in baseline ==> x.p95 >= 0.0
    requires Reports(current, Some(baseline), BrowserGate.ViewPolicy(maxRegressionPct, maxErrorRate), r)
    requires v == BrowserGate.VerdictOf(
      Flatten(BrowserGate.RowFindings(BrowserGate.IndexRows(BrowserGate.ToRows(baseline)), maxRegressionPct, maxErrorRate),
              BrowserGate.ToRows(current)), |current|)
    ensures multiset(v.findings) == multiset(BrowserGate.Briefs(r.violations)) && v.status == r.status
    ensures v.failed == r.summary.failed && v.unknown == r.summary.unknown && v.passed == r.summary.passed - |current|
  {
    hide *;
    forall x | x in current ensures BrowserGate.Computed(x) { AnalysisComputed(rows, currentRun, current, x); }
    forall x | x in baseline ensures BrowserGate.Computed(x) { AnalysisComputed(rows, baselineRun, baseline, x); }
    BrowserGate.ViewRefinesEngine(current, baseline, maxRegressionPct, maxErrorRate, r, v);
  }

  // ----- Every complete run has an analysis -----

  lemma {:induction false} DistinctKeys<K>(s: seq<K>) returns (keys: seq<K>)
    ensures Distinct(keys) && forall k :: k in keys <==> k in s
  {
    if s == [] { return []; }
    keys := DistinctKeys(s[..|s| - 1]);
    var last := s[|s| - 1];
    assert s == s[..|s| - 1] + [last];
    if last !in keys { keys := keys + [last]; }
  }

  predicate MoreRequests(a: SummaryRow, b: SummaryRow) {
    a.requestCount >= b.requestCount
  }

  function Summaries(run: seq<Row>, keys: seq<Option<string>>): (s: seq<SummaryRow>)
    requires forall k :: k in keys ==> Group(run, k) != []
    ensures |s| == |keys|
    ensures forall i :: 0 <= i < |s| ==> keys[i] in keys && s[i] == Summarize(keys[i], Group(run, keys[i]))
  {
    seq(|keys|, i requires 0 <= i < |keys| => assert keys[i] in keys; Summarize(keys[i], Group(run, keys[i])))
  }

  lemma GroupsNonEmpty(run: seq<Row>, keys: seq<Option<string>>)
    requires forall k :: k in keys ==> k in Column(RowEndpoint(), run)
    ensures forall k :: k in keys ==> Group(run, k) != []
  {
    hide Group;
    forall k | k in keys ensures Group(run, k) != [] {
      var i := IndexOfMember(Column(RowEndpoint(), run), k);
      GroupSize(run, k);
      assert run[i] in Group(run, k);
    }
  }

  /** Sorted by request count, the summaries of all groups answer the query. */
  lemma SummaryExists(rows: seq<Row>, runId: string) returns (s: seq<SummaryRow>)
    ensures IsEndpointSummary(rows, runId, s)
  {
    hide Summarize, Group;
    var run := RunRows(rows, runId);
    var column := Column(RowEndpoint(), run);
    var keys := DistinctKeys(column);
    GroupsNonEmpty(run, keys);
    var listed := Summaries(run, keys);
    s := Arrange(MoreRequests, listed);
    ArrangeSorts(MoreRequests, listed);
    forall i ensures 0 <= i < |listed| ==> listed[i].endpoint == keys[i] { if 0 <= i < |listed| { SummaryNames(run, keys[i]); } }
    ListedSummaries(run, keys, listed, s);
    assert forall i, j :: 0 <= i < j < |s| ==> MoreRequests(s[i], s[j]);
  }

  lemma SummaryNames(run: seq<Row>, k: Option<string>)
    requires Group(run, k) != []
    ensures Summarize(k, Group(run, k)).endpoint == k
  {
    hide Group, PercentileCont, Mean, Max, CountErrors;
  }

  lemma ListedSummaries(run: seq<Row>, keys: seq<Option<string>>, listed: seq<SummaryRow>, s: seq<SummaryRow>)
    requires Distinct(keys) && forall k :: k in keys ==> Group(run, k) != []
    requires listed == Summaries(run, keys) && multiset(s) == multiset(listed)
    requires forall i :: 0 <= i < |listed| ==> listed[i].endpoint == keys[i]
    ensures Distinct(SummaryKeys(s)) && forall k :: k in SummaryKeys(s) <==> k in keys
    ensures forall i :: 0 <= i < |s| ==> Group(run, s[i].endpoint) != [] && s[i] == Summarize(s[i].endpoint, Group(run, s[i].endpoint))
  {
    hide Summarize, Group;
    forall i, j | 0 <= i < j < |listed| ensures listed[i] != listed[j] { assert keys[i] != keys[j]; }
    DistinctPermuted(listed, s);
    forall i | 0 <= i < |s|
      ensures s[i].endpoint in keys && s[i] == Summarize(s[i].endpoint, Group(run, s[i].endpoint))
    {
      assert s[i] in multiset(listed);
      var j := IndexOfMember(listed, s[i]);
    }
    forall i, j | 0 <= i < j < |s| ensures s[i].endpoint != s[j].endpoint { assert s[i] != s[j]; }
    forall k | k in keys ensures k in SummaryKeys(s) {
      var i := IndexOfMember(keys, k);
      assert listed[i] in multiset(s);
      var j := IndexOfMember(s, listed[i]);
      assert SummaryKeys(s)[j] == k;
    }
  }

  lemma DistributionExists(rows: seq<Row>, runId: string) returns (d: seq<StatusRow>)
    ensures IsStatusDistribution(rows, runId, d)
  {
    hide Occurrences, RunRows;
    var keys := Column(RowStatusKey(), RunRows(rows, runId));
    var listed := DistinctKeys(keys);
    d := seq(|listed|, i requires 0 <= i < |listed| => StatusRow(listed[i].0, listed[i].1, Occurrences(listed[i], keys)));
    assert StatusKeys(d) == listed;
  }

  /** Every run without NULL endpoint or status has an analysis, so the theorems
      about analyses speak of every such run. */
  lemma AnalysisExists(rows: seq<Row>, runId: string) returns (out: seq<EndpointStats>)
    requires forall x :: x in RunRows(rows, runId) ==> EndpointOf(x).Some? && x.status.Some?
    ensures Analyzed(rows, runId, out)
  {
    hide IsEndpointSummary, IsStatusDistribution, EndpointOf, RunRows, ByEndpoint, DistributionOf;
    var s := SummaryExists(rows, runId);
    var d := DistributionExists(rows, runId);
    if Scannable(s, d) {
      out := seq(|s|, i requires 0 <= i < |s| => assert s[i] in s; Attach(d, ByEndpoint(s)[s[i].endpoint.value]));
      assert Merges(s, d, Ok(out));
    } else {
      out := [];
      MergeSucceedsExactlyWhen(rows, runId, s, d, Err("scan failed"));
    }
  }
}
