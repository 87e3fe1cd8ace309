/** Two gate fixtures (analysis/fixtures/gate_fixtures.go) whose runs serve
    different endpoints: which endpoints the report names, for every seed. */
module FixtureEndpoints {
  import opened Sequences
  import opened Models
  import opened Insertion
  import opened FixtureVerdicts
  import opened Stats
  import opened Aggregation
  import opened EndToEnd
  import opened Policy
  import opened Gate
  import opened GateJudgement
  import opened GateAccounting

  const USERS := "/api/users"
  const NEW_FEATURE := "/api/new-feature"
  const LEGACY := "/api/legacy"

  function Healthy(runId: string, endpoint: string, seed: nat): seq<Event> {
    GateRun(runId, endpoint, GATE_HEALTHY, seed)
  }

  function NewEndpointFixture(s: nat, t: nat, u: nat): seq<Event> {
    Healthy(BASELINE_RUN, USERS, s) + (Healthy(CURRENT_RUN, USERS, t) + Healthy(CURRENT_RUN, NEW_FEATURE, u))
  }

  function RemovedEndpointFixture(s: nat, t: nat, u: nat): seq<Event> {
    (Healthy(BASELINE_RUN, USERS, s) + Healthy(BASELINE_RUN, LEGACY, t)) + Healthy(CURRENT_RUN, USERS, u)
  }

  /** A run serves exactly the endpoints of the events generated for it. */
  lemma ServedEndpoints(rows: seq<Row>, runId: string, es: seq<Event>, endpoints: set<string>, out: seq<EndpointStats>)
    requires Analyzed(rows, runId, out) && RunRows(rows, runId) == Inserted(es) && "" !in endpoints
    requires forall i :: 0 <= i < |es| ==> es[i].name in endpoints
    requires forall e :: e in endpoints ==> exists i :: 0 <= i < |es| && es[i].name == e
    ensures EndpointSet(out) == endpoints && DistinctEndpoints(out)
  {
    hide Analyzed, RunRows;
    AnalysesArePermutations(rows, runId, out, out);
    var run := Inserted(es);
    var column := Column(RowEndpoint(), run);
    forall i | 0 <= i < |es| ensures column[i] == Some(es[i].name) { assert run[i] == InsertedRow(es[i]); }
    forall e ensures e in EndpointSet(out) <==> e in endpoints {
      AnalyzedEndpoints(rows, runId, out, e);
      if Some(e) in column { var i := IndexOfMember(column, Some(e)); }
      if e in endpoints {
        var i :| 0 <= i < |es| && es[i].name == e;
        assert column[i] == Some(e);
      }
    }
  }

  /** One endpoint, or two generated one after the other. */
  lemma OneServed(rows: seq<Row>, runId: string, e: string, seed: nat, out: seq<EndpointStats>)
    requires Analyzed(rows, runId, out) && e != "" && RunRows(rows, runId) == Inserted(Healthy(runId, e, seed))
    ensures EndpointSet(out) == {e} && DistinctEndpoints(out)
  {
    hide GateRun, Analyzed, RunRows, EndpointSet;
    RunShape(runId, e, GATE_HEALTHY, seed);
    assert Healthy(runId, e, seed)[0].name == e;
    ServedEndpoints(rows, runId, Healthy(runId, e, seed), {e}, out);
  }

  lemma TwoServed(rows: seq<Row>, runId: string, e: string, f: string, seed: nat, seed': nat, out: seq<EndpointStats>)
    requires Analyzed(rows, runId, out) && e != "" && f != ""
    requires RunRows(rows, runId) == Inserted(Healthy(runId, e, seed) + Healthy(runId, f, seed'))
    ensures EndpointSet(out) == {e, f} && DistinctEndpoints(out)
  {
    hide GateRun, Analyzed, RunRows, EndpointSet;
    RunShape(runId, e, GATE_HEALTHY, seed);
    RunShape(runId, f, GATE_HEALTHY, seed');
    var es := Healthy(runId, e, seed) + Healthy(runId, f, seed');
    assert es[0].name == e && es[GATE_SAMPLES].name == f;
    ServedEndpoints(rows, runId, es, {e, f}, out);
  }

  lemma NamesDiffer()
    ensures USERS != NEW_FEATURE && USERS != LEGACY
  {
    assert USERS[5] != NEW_FEATURE[5] && USERS[5] != LEGACY[5];
  }

  /** A report without any, or with a single, new or removed endpoint. */
  lemma ListedEndpoints(current: seq<EndpointStats>, baseline: seq<EndpointStats>, pol: Policy, r: GateResult)
    requires Reports(current, Some(baseline), pol, r) && DistinctEndpoints(current)
    ensures EndpointSet(current) <= EndpointSet(baseline) ==> r.newEndpoints == []
    ensures EndpointSet(baseline) <= EndpointSet(current) ==> r.removedEndpoints == []
    ensures forall e :: EndpointSet(current) - EndpointSet(baseline) == {e} ==> r.newEndpoints == [e]
    ensures forall e :: EndpointSet(baseline) - EndpointSet(current) == {e} ==> r.removedEndpoints == [e]
  {
    hide Reports, EndpointSet;
    var c, b := EndpointSet(current), EndpointSet(baseline);
    EndpointListsDistinct(current, Some(baseline), pol, r);
    forall e ensures e in r.newEndpoints <==> e in c - b
             ensures e in r.removedEndpoints <==> e in b - c {
      ReportedEndpoints(current, Some(baseline), pol, r, e);
    }
    DistinctCoverSize(r.newEndpoints, c - b);
    DistinctCoverSize(r.removedEndpoints, b - c);
    forall e | c - b == {e} ensures r.newEndpoints == [e] { assert r.newEndpoints[0] in r.newEndpoints; }
    forall e | b - c == {e} ensures r.removedEndpoints == [e] { assert r.removedEndpoints[0] in r.removedEndpoints; }
  }

  /** For every seed the new endpoint is listed as new, nothing as removed, and each
      configured regression check of the new endpoint is UNKNOWN for want of a
      baseline. */
  lemma NewEndpointReported(s: nat, t: nat, u: nat, baseline: seq<EndpointStats>, current: seq<EndpointStats>,
                            pol: Policy, r: GateResult, m: Metric)
    requires Analyzed(Inserted(NewEndpointFixture(s, t, u)), BASELINE_RUN, baseline)
    requires Analyzed(Inserted(NewEndpointFixture(s, t, u)), CURRENT_RUN, current)
    requires Reports(current, Some(baseline), pol, r)
    ensures r.newEndpoints == [NEW_FEATURE] && r.removedEndpoints == []
    ensures LimitsOf(EffectiveMetricPolicy(pol, NEW_FEATURE), Slot(m, Regression)) != Limits(None, None) <==>
      exists v :: v in r.violations && KeyOf(v) == (NEW_FEATURE, Slot(m, Regression))
        && v.status == Unknown && v.reason == "no_baseline_for_endpoint"
  {
    hide GateRun, Analyzed, EffectiveMetricPolicy, EndpointSet, Reports, LimitsOf, RunRows;
    var a, b := Healthy(BASELINE_RUN, USERS, s), Healthy(CURRENT_RUN, USERS, t) + Healthy(CURRENT_RUN, NEW_FEATURE, u);
    RunShape(BASELINE_RUN, USERS, GATE_HEALTHY, s);
    RunShape(CURRENT_RUN, USERS, GATE_HEALTHY, t);
    RunShape(CURRENT_RUN, NEW_FEATURE, GATE_HEALTHY, u);
    FixtureRuns(a, b);
    var rows := Inserted(a + b);
    OneServed(rows, BASELINE_RUN, USERS, s, baseline);
    TwoServed(rows, CURRENT_RUN, USERS, NEW_FEATURE, t, u, current);
    NamesDiffer();
    assert EndpointSet(current) - EndpointSet(baseline) == {NEW_FEATURE};
    ListedEndpoints(current, baseline, pol, r);
    UnseenRegression(current, baseline, pol, r, NEW_FEATURE, m);
  }

  /** A regression check of an endpoint the baseline never saw. */
  lemma UnseenRegression(current: seq<EndpointStats>, baseline: seq<EndpointStats>, pol: Policy, r: GateResult, e: string, m: Metric)
    requires Reports(current, Some(baseline), pol, r) && DistinctEndpoints(current)
    requires e in EndpointSet(current) && e !in EndpointSet(baseline)
    ensures LimitsOf(EffectiveMetricPolicy(pol, e), Slot(m, Regression)) != Limits(None, None) <==>
      exists v :: v in r.violations && KeyOf(v) == (e, Slot(m, Regression))
        && v.status == Unknown && v.reason == "no_baseline_for_endpoint"
  {
    hide Reports, EffectiveMetricPolicy, LimitsOf, Breaches;
    var i :| 0 <= i < |current| && current[i].endpoint == e;
    var slot := Slot(m, Regression);
    IndexKeys(baseline, e);
    assert View(Indexed(Some(baseline)), e) == Missing;
    ViolationsAreJudgements(current, Some(baseline), pol, r, current[i], slot, Unknown);
    if v :| v in r.violations && KeyOf(v) == (e, slot) && v.status == Unknown {
      var c := ViolationReasons(current, Some(baseline), pol, r, v);
    }
  }

  /** For every seed the endpoint gone from the current run is listed as removed,
      and nothing as new. */
  lemma RemovedEndpointReported(s: nat, t: nat, u: nat, baseline: seq<EndpointStats>, current: seq<EndpointStats>,
                                pol: Policy, r: GateResult)
    requires Analyzed(Inserted(RemovedEndpointFixture(s, t, u)), BASELINE_RUN, baseline)
    requires Analyzed(Inserted(RemovedEndpointFixture(s, t, u)), CURRENT_RUN, current)
    requires Reports(current, Some(baseline), pol, r)
    ensures r.removedEndpoints == [LEGACY] && r.newEndpoints == []
  {
    hide GateRun, Analyzed, EndpointSet, Reports, RunRows;
    var a, b := Healthy(BASELINE_RUN, USERS, s) + Healthy(BASELINE_RUN, LEGACY, t), Healthy(CURRENT_RUN, USERS, u);
    RunShape(BASELINE_RUN, USERS, GATE_HEALTHY, s);
    RunShape(BASELINE_RUN, LEGACY, GATE_HEALTHY, t);
    RunShape(CURRENT_RUN, USERS, GATE_HEALTHY, u);
    FixtureRuns(a, b);
    var rows := Inserted(a + b);
    TwoServed(rows, BASELINE_RUN, USERS, LEGACY, s, t, baseline);
    OneServed(rows, CURRENT_RUN, USERS, u, current);
    NamesDiffer();
    assert EndpointSet(baseline) - EndpointSet(current) == {LEGACY};
    ListedEndpoints(current, baseline, pol, r);
  }
}
