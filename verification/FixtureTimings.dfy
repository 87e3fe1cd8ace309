/** What the relative-regression fixture (analysis/fixtures/gate_fixtures.go) says
    about the cause: its latency findings blame the time to first byte, for every
    seed. */
module FixtureTimings {
  import opened Sequences
  import opened Models
  import opened Fixtures
  import opened Insertion
  import opened FixtureVerdicts
  import opened Figures
  import opened Stats
  import opened Aggregation
  import opened EndToEnd
  import opened Policy
  import opened Gate
  import opened GateJudgement
  import opened GateAccounting

  predicate Near(base: real, x: real) {
    base * 0.9 <= x <= base * 1.1
  }

  /** Every phase lies within ten percent of the profile. */
  predicate NearProfile(base: Profile, t: TimingBreakdown) {
    Near(base.dns, t.dns) && Near(base.tcp, t.tcp) && Near(base.tls, t.tls) && Near(base.ttfb, t.ttfb) && Near(base.transfer, t.transfer)
  }

  predicate NonNegative(p: Profile) {
    p.dns >= 0.0 && p.tcp >= 0.0 && p.tls >= 0.0 && p.ttfb >= 0.0 && p.transfer >= 0.0
  }

  lemma EventNearProfile(runId: string, endpoint: string, base: Profile, seed: nat, i: nat)
    requires i < GATE_SAMPLES && NonNegative(base)
    ensures |GateRun(runId, endpoint, base, seed)| == GATE_SAMPLES
    ensures NearProfile(base, InsertedRow(GateRun(runId, endpoint, base, seed)[i]).timing)
  {
    hide Draw, StateAfter, Events, NearProfile;
    var opt := GenOptions(runId, endpoint, base, 0.01, seed, map[], GATE_SAMPLES);
    EventShape(opt, GATE_SAMPLES, i);
    ShapeNear(opt, i, Draw(StateAfter(seed, 2 * i + 1)), Events(opt, GATE_SAMPLES)[i]);
  }

  lemma ShapeNear(opt: GenOptions, i: nat, draw: real, e: Event)
    requires ShapedBy(opt, i, draw, e) && opt.podMultiplier == map[] && NonNegative(opt.base)
    ensures NearProfile(opt.base, InsertedRow(e).timing)
  {
    hide Near;
    var jitter := 0.9 + draw / 5.0;
    JitteredNear(opt.base.dns, jitter, e.dnsLookup);
    JitteredNear(opt.base.tcp, jitter, e.tcpConnect);
    JitteredNear(opt.base.tls, jitter, e.tlsHandshake);
    JitteredNear(opt.base.ttfb, jitter, e.ttfb);
    JitteredNear(opt.base.transfer, jitter, e.contentTransfer);
  }

  lemma JitteredNear(base: real, jitter: real, x: real)
    requires base >= 0.0 && 0.9 <= jitter < 1.1 && x == base * 1.0 * jitter
    ensures Near(base, x)
  {
    var below, above := jitter - 0.9, 1.1 - jitter;
    assert base * below >= 0.0 && base * above >= 0.0;
    assert x == base * 0.9 + base * below == base * 1.1 - base * above;
  }

  lemma AverageNear(c: seq<real>, average: real, base: real)
    requires |c| == GATE_SAMPLES && average * GATE_SAMPLES as real == Sum(c)
    requires forall i :: 0 <= i < |c| ==> Near(base, c[i])
    ensures Near(base, average)
  {
    SumBounds(c, base * 0.9, base * 1.1);
  }

  lemma RunNearProfile(run: seq<Row>, base: Profile, t: TimingBreakdown)
    requires |run| == GATE_SAMPLES && TimingFigures(t, run)
    requires forall i :: 0 <= i < |run| ==> NearProfile(base, run[i].timing)
    ensures NearProfile(base, t)
  {
    hide Sum, Near;
    AverageNear(Column((r: Row) => r.timing.dns, run), t.dns, base.dns);
    AverageNear(Column((r: Row) => r.timing.tcp, run), t.tcp, base.tcp);
    AverageNear(Column((r: Row) => r.timing.tls, run), t.tls, base.tls);
    AverageNear(Column((r: Row) => r.timing.ttfb, run), t.ttfb, base.ttfb);
    AverageNear(Column((r: Row) => r.timing.transfer, run), t.transfer, base.transfer);
  }

  /** The averages of a generated run, for every seed. */
  lemma AnalysedNearProfile(rows: seq<Row>, runId: string, endpoint: string, base: Profile, seed: nat, x: EndpointStats, out: seq<EndpointStats>)
    requires NonNegative(base) && endpoint != "" && Analyzed(rows, runId, out) && x in out && x.endpoint == endpoint
    requires RunRows(rows, runId) == Inserted(GateRun(runId, endpoint, base, seed))
    ensures NearProfile(base, x.timing)
  {
    hide Analyzed, GateRun, NearProfile, TimingFigures, CountFigures, LatencyFigures, InsertedRow;
    var es, run := GateRun(runId, endpoint, base, seed), RunRows(rows, runId);
    RunShape(runId, endpoint, base, seed);
    forall i | 0 <= i < |run| ensures EndpointOf(run[i]) == Some(endpoint) && NearProfile(base, run[i].timing) {
      NamedAfterEndpoint(es[i]);
      EventNearProfile(runId, endpoint, base, seed, i);
    }
    GroupAll(run, Some(endpoint));
    AnalysisFigures(rows, runId, out, x);
    RunNearProfile(run, base, x.timing);
  }

  /** The averages, in milliseconds, that the regression fixture shows for every seed:
      50 in the baseline run, and 38 more to the first byte in the current one. */
  lemma RegressionAverages(seed: nat, seed': nat, baseline: seq<EndpointStats>, current: seq<EndpointStats>)
    requires Analyzed(Inserted(RelativeRegressionFixture(seed, seed')), BASELINE_RUN, baseline)
    requires Analyzed(Inserted(RelativeRegressionFixture(seed, seed')), CURRENT_RUN, current)
    ensures |baseline| == |current| == 1 && baseline[0].endpoint == current[0].endpoint == "/api/slow"
    ensures NearProfile(Profile(2.0, 3.0, 5.0, 30.0, 10.0), baseline[0].timing)
    ensures NearProfile(Profile(2.0, 3.0, 5.0, 68.0, 10.0), current[0].timing)
  {
    hide Analyzed, GateRun, NearProfile;
    var a, b := GateRun(BASELINE_RUN, "/api/slow", GATE_HEALTHY, seed), GateRun(CURRENT_RUN, "/api/slow", REGRESSED, seed');
    RunShape(BASELINE_RUN, "/api/slow", GATE_HEALTHY, seed);
    RunShape(CURRENT_RUN, "/api/slow", REGRESSED, seed');
    FixtureRuns(a, b);
    FixtureRunAnalyzed("/api/slow", GATE_HEALTHY, REGRESSED, seed, seed', true, baseline);
    FixtureRunAnalyzed("/api/slow", GATE_HEALTHY, REGRESSED, seed, seed', false, current);
    AnalysedNearProfile(Inserted(a + b), BASELINE_RUN, "/api/slow", GATE_HEALTHY, seed, baseline[0], baseline);
    AnalysedNearProfile(Inserted(a + b), CURRENT_RUN, "/api/slow", REGRESSED, seed', current[0], current);
  }

  /** The same for the budget fixture, whose requests take 603 ms. */
  lemma BudgetAverages(seed: nat, seed': nat, current: seq<EndpointStats>)
    requires Analyzed(Inserted(AbsoluteBudgetFixture(seed, seed')), CURRENT_RUN, current)
    ensures |current| == 1 && current[0].endpoint == "/api/report"
    ensures NearProfile(Profile(5.0, 8.0, 10.0, 550.0, 30.0), current[0].timing)
  {
    hide Analyzed, GateRun, NearProfile;
    var a, b := GateRun(BASELINE_RUN, "/api/report", SLOW, seed), GateRun(CURRENT_RUN, "/api/report", SLOW, seed');
    RunShape(BASELINE_RUN, "/api/report", SLOW, seed);
    RunShape(CURRENT_RUN, "/api/report", SLOW, seed');
    FixtureRuns(a, b);
    FixtureRunAnalyzed("/api/report", SLOW, SLOW, seed, seed', false, current);
    AnalysedNearProfile(Inserted(a + b), CURRENT_RUN, "/api/report", SLOW, seed', current[0], current);
  }

  lemma TtfbMovedMost(b: TimingBreakdown, c: TimingBreakdown, best: TimingChange)
    requires NearProfile(GATE_HEALTHY, b) && NearProfile(REGRESSED, c) && IsLargestPhase(Change(b, c), best)
    ensures best.phase == "ttfb" && best.deltaMs > 28.0
  {
    var d := Change(b, c);
    var names, deltas := ["dns", "tcp", "tls", "ttfb", "transfer"], [d.dns, d.tcp, d.tls, d.ttfb, d.transfer];
    var k :| 0 <= k < 5 && best.phase == names[k] && best.deltaMs == deltas[k]
      && (forall i :: 0 <= i < 5 ==> NoLarger(deltas[i], best.deltaMs))
      && (forall i :: 0 <= i < k ==> !NoLarger(best.deltaMs, deltas[i]));
    assert NoLarger(deltas[3], best.deltaMs);
  }

  /** For every seed, each latency that fails is reported with the time to first byte
      as the phase that moved most, by more than 28 ms. */
  lemma RelativeRegressionBlamesTtfb(seed: nat, seed': nat, baseline: seq<EndpointStats>, current: seq<EndpointStats>,
                                     pol: Policy, r: GateResult, v: Finding)
    requires Analyzed(Inserted(RelativeRegressionFixture(seed, seed')), BASELINE_RUN, baseline)
    requires Analyzed(Inserted(RelativeRegressionFixture(seed, seed')), CURRENT_RUN, current)
    requires Reports(current, Some(baseline), pol, r)
    requires v in r.violations && v.metric != ErrorRate && v.check == Regression && v.status in {Warn, Fail}
    ensures v.primaryTimingChange.Some? && v.primaryTimingChange.value.phase == "ttfb" && v.primaryTimingChange.value.deltaMs > 28.0
  {
    hide Analyzed, GateRun, AllFindings, SlotFindings, EffectiveMetricPolicy, IsLargestPhase, NearProfile, Reports;
    RegressionAverages(seed, seed', baseline, current);
    ViewOfSingle(baseline, "/api/slow");
    ViolationsAmongFindings(current, Some(baseline), pol, r, v);
    var cur := FindingOrigin(current, Indexed(Some(baseline)), pol, v);
    TimingEvidence(cur, Present(baseline[0]), EffectiveMetricPolicy(pol, v.scope), Slot(v.metric, v.check), v);
    TtfbMovedMost(baseline[0].timing, current[0].timing, v.primaryTimingChange.value);
  }
}
