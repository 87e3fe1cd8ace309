/** From the seed of a fixture to the verdict of the gate: two of the gate
    fixtures (analysis/fixtures/gate_fixtures.go) fail whatever the random
    numbers are. */
module FixtureVerdicts {
  import opened Sequences
  import opened Percentiles
  import opened Models
  import opened Fixtures
  import opened Insertion
  import opened Stats
  import opened Aggregation
  import opened Conservation
  import opened EndToEnd
  import opened Figures
  import Ingest
  import opened Policy
  import opened Gate
  import opened GateJudgement
  import opened GateAccounting

  const BASELINE_RUN := "baseline"
  const CURRENT_RUN := "current"
  const GATE_SAMPLES := 100

  const GATE_HEALTHY := Profile(2.0, 3.0, 5.0, 30.0, 10.0)
  const REGRESSED := Profile(2.0, 3.0, 5.0, 68.0, 10.0)
  const SLOW := Profile(5.0, 8.0, 10.0, 550.0, 30.0)

  const INSUFFICIENT_SAMPLES := 5

  function GateRun(runId: string, endpoint: string, base: Profile, seed: nat): seq<Event> {
    Events(GenOptions(runId, endpoint, base, 0.01, seed, map[], GATE_SAMPLES), GATE_SAMPLES)
  }

  function RareRun(runId: string, seed: nat): seq<Event> {
    Events(GenOptions(runId, "/api/rare", GATE_HEALTHY, 0.0, seed, map[], INSUFFICIENT_SAMPLES), INSUFFICIENT_SAMPLES)
  }

  /** A fixture: a baseline run followed by a current run of one endpoint. The
      seeds in the source are 20000 and 20100 for the relative regression, 30000
      and 30100 for the absolute budget. */
  function TwoRuns(endpoint: string, base: Profile, cur: Profile, seed: nat, seed': nat): seq<Event> {
    GateRun(BASELINE_RUN, endpoint, base, seed) + GateRun(CURRENT_RUN, endpoint, cur, seed')
  }

  function RelativeRegressionFixture(seed: nat, seed': nat): seq<Event> {
    TwoRuns("/api/slow", GATE_HEALTHY, REGRESSED, seed, seed')
  }

  function AbsoluteBudgetFixture(seed: nat, seed': nat): seq<Event> {
    TwoRuns("/api/report", SLOW, SLOW, seed, seed')
  }

  function InsufficientSamplesFixture(seed: nat, seed': nat): seq<Event> {
    RareRun(BASELINE_RUN, seed) + RareRun(CURRENT_RUN, seed')
  }

  // ----- One run of one endpoint -----

  lemma {:induction false} RunRowsNone(rows: seq<Row>, runId: string)
    requires forall i :: 0 <= i < |rows| ==> rows[i].runId != runId
    ensures RunRows(rows, runId) == []
  {
    if rows != [] { RunRowsNone(rows[..|rows| - 1], runId); }
  }

  lemma {:induction false} RunRowsConcat(a: seq<Row>, b: seq<Row>, runId: string)
    ensures RunRows(a + b, runId) == RunRows(a, runId) + RunRows(b, runId)
  {
    if b == [] {
      assert a + b == a;
    } else {
      assert (a + b)[..|a + b| - 1] == a + b[..|b| - 1];
      RunRowsConcat(a, b[..|b| - 1], runId);
    }
  }

  /** Selecting a run of a fixture finds exactly the events generated for it. */
  lemma FixtureRuns(a: seq<Event>, b: seq<Event>)
    requires forall i :: 0 <= i < |a| ==> a[i].runId == BASELINE_RUN
    requires forall i :: 0 <= i < |b| ==> b[i].runId == CURRENT_RUN
    ensures RunRows(Inserted(a + b), BASELINE_RUN) == Inserted(a)
    ensures RunRows(Inserted(a + b), CURRENT_RUN) == Inserted(b)
  {
    assert BASELINE_RUN[0] != CURRENT_RUN[0];
    assert Inserted(a + b) == Inserted(a) + Inserted(b);
    RunRowsConcat(Inserted(a), Inserted(b), BASELINE_RUN);
    RunRowsConcat(Inserted(a), Inserted(b), CURRENT_RUN);
    RunRowsAll(Inserted(a), BASELINE_RUN);
    RunRowsNone(Inserted(b), BASELINE_RUN);
    RunRowsNone(Inserted(a), CURRENT_RUN);
    RunRowsAll(Inserted(b), CURRENT_RUN);
  }

  lemma {:induction false} GroupAll(rows: seq<Row>, e: Option<string>)
    requires forall i :: 0 <= i < |rows| ==> EndpointOf(rows[i]) == e
    ensures Group(rows, e) == rows
  {
    hide EndpointOf;
    if rows != [] {
      GroupAll(rows[..|rows| - 1], e);
      assert rows == rows[..|rows| - 1] + [rows[|rows| - 1]];
    }
  }

  lemma SingleSummary(rows: seq<Row>, runId: string, e: string, s: seq<SummaryRow>)
    requires IsEndpointSummary(rows, runId, s)
    requires RunRows(rows, runId) != [] && forall r :: r in RunRows(rows, runId) ==> EndpointOf(r) == Some(e)
    ensures s == [Summarize(Some(e), RunRows(rows, runId))]
  {
    hide Summarize, Group, EndpointOf, Distinct;
    var run := RunRows(rows, runId);
    var endpoints, keys := Column(RowEndpoint(), run), SummaryKeys(s);
    assert run[0] in run && endpoints[0] == Some(e);
    assert Some(e) in keys;
    forall i | 0 <= i < |s| ensures keys[i] == Some(e) {
      assert keys[i] in endpoints;
      var j := IndexOfMember(endpoints, keys[i]);
      assert run[j] in run;
    }
    if |s| > 1 { RepeatedNotDistinct(keys, 0, 1); }
    assert |s| == 1;
    GroupAll(run, Some(e));
  }

  /** A run of a single endpoint is analysed as that endpoint alone. */
  lemma SingleEndpoint(rows: seq<Row>, runId: string, e: string, s: seq<SummaryRow>, d: seq<StatusRow>, out: seq<EndpointStats>)
    requires IsEndpointSummary(rows, runId, s) && IsStatusDistribution(rows, runId, d) && Merges(s, d, Ok(out))
    requires RunRows(rows, runId) != [] && forall r :: r in RunRows(rows, runId) ==> EndpointOf(r) == Some(e)
    ensures |out| == 1 && out[0].endpoint == e && out[0].requestCount == |RunRows(rows, runId)|
    ensures var rtts := Column(Rtt(), RunRows(rows, runId));
      && out[0].p50 == PercentileCont(rtts, 0.50)
      && out[0].p95 == PercentileCont(rtts, 0.95)
      && out[0].p99 == PercentileCont(rtts, 0.99)
  {
    hide PercentileCont, Mean, Max, DistributionOf, ByEndpoint, Group, IsStatusDistribution, EndpointOf;
    SingleSummary(rows, runId, e, s);
    ByEndpointFinds(s, 0);
  }

  // ----- Bounds on the generated latencies -----

  lemma EventLatency(opt: GenOptions, i: nat, x: real, y: real)
    requires opt.podMultiplier == map[]
    ensures EventAt(opt, i, x, y).rtt == opt.base.Rtt() * Jitter(x)
  {
    hide Jitter;
    assert EventAt(opt, i, x, y).rtt == opt.base.Scaled(IDENTITY, Jitter(x)).Rtt();
  }

  function Jittered(total: real, state: nat): real {
    total * Jitter(Draw(state))
  }

  lemma RunLatency(runId: string, endpoint: string, base: Profile, seed: nat, i: nat)
    requires i < GATE_SAMPLES
    ensures GateRun(runId, endpoint, base, seed)[i].rtt == Jittered(base.Rtt(), StateAfter(seed, 2 * i + 1))
  {
    hide Draw, Jitter, EventAt, NextState;
    var opt := GenOptions(runId, endpoint, base, 0.01, seed, map[], GATE_SAMPLES);
    EventLatency(opt, i, Draw(StateAfter(seed, 2 * i + 1)), Draw(StateAfter(seed, 2 * i + 2)));
  }

  /** Within ten percent of the profile's total, the upper bound excluded, and at
      the lower bound exactly for a zero draw. */
  predicate WithinTenPercent(total: real, rtt: real, state: nat) {
    total * 0.9 <= rtt < total * 1.1 && (rtt == total * 0.9 <==> state < 2048)
  }

  lemma RunLatencies(runId: string, endpoint: string, base: Profile, seed: nat, i: nat)
    requires i < GATE_SAMPLES && base.Rtt() > 0.0
    ensures WithinTenPercent(base.Rtt(), GateRun(runId, endpoint, base, seed)[i].rtt, StateAfter(seed, 2 * i + 1))
  {
    hide *;
    RunShape(runId, endpoint, base, seed);
    RunLatency(runId, endpoint, base, seed, i);
    StateInRange(seed, 2 * i + 1);
    JitterBounds(base.Rtt(), StateAfter(seed, 2 * i + 1));
  }

  lemma JitterBounds(total: real, state: nat)
    requires total > 0.0 && state < TWO_TO_64
    ensures WithinTenPercent(total, Jittered(total, state), state)
  {
    hide Draw, Jitter;
    JitterRange(state);
    Proportional(total, Jitter(Draw(state)), Jittered(total, state), state);
  }

  lemma JitterRange(state: nat)
    requires state < TWO_TO_64
    ensures 0.9 <= Jitter(Draw(state)) < 1.1
    ensures Jitter(Draw(state)) == 0.9 <==> state < 2048
  {}

  lemma Proportional(total: real, j: real, rtt: real, state: nat)
    requires total > 0.0 && 0.9 <= j < 1.1 && rtt == total * j
    requires j == 0.9 <==> state < 2048
    ensures WithinTenPercent(total, rtt, state)
  {
    var above, below := 1.1 - j, j - 0.9;
    assert total * above > 0.0 && total * above == total * 1.1 - rtt;
    assert total * below == rtt - total * 0.9;
    assert total * below >= 0.0 && (total * below == 0.0 <==> below == 0.0);
  }

  // ----- Few draws sit at the lower bound -----

  lemma {:induction false} IsolatedOccurrences(s: seq<real>, m: real)
    requires forall i :: 0 <= i < |s| - 1 ==> !(s[i] == m && s[i + 1] == m)
    ensures 2 * multiset(s)[m] <= |s| + 1
    ensures s != [] && s[0] != m ==> 2 * multiset(s)[m] <= |s|
  {
    if s != [] {
      HeadMultiset(s);
      IsolatedOccurrences(s[1..], m);
    }
  }

  lemma AtMostHalf(s: seq<real>, m: real)
    requires |s| % 2 == 0
    requires forall i :: 0 <= i < |s| - 1 ==> !(s[i] == m && s[i + 1] == m)
    ensures 2 * multiset(s)[m] <= |s|
  {
    IsolatedOccurrences(s, m);
  }

  function Latencies(es: seq<Event>): (s: seq<real>)
    ensures |s| == |es| && forall i :: 0 <= i < |es| ==> s[i] == es[i].rtt
  {
    seq(|es|, i requires 0 <= i < |es| => es[i].rtt)
  }

  /** All three percentiles of a generated run, for every seed. */
  lemma RunPercentiles(runId: string, endpoint: string, base: Profile, seed: nat, p: real)
    requires base.Rtt() > 0.0 && 0.5 <= p <= 1.0
    ensures |Latencies(GateRun(runId, endpoint, base, seed))| == GATE_SAMPLES
    ensures base.Rtt() * 0.9 < PercentileCont(Latencies(GateRun(runId, endpoint, base, seed)), p) < base.Rtt() * 1.1
  {
    hide GateRun, PercentileCont;
    var es := GateRun(runId, endpoint, base, seed);
    RunShape(runId, endpoint, base, seed);
    var s, lo := Latencies(es), base.Rtt() * 0.9;
    forall i | 0 <= i < |s| ensures lo <= s[i] < base.Rtt() * 1.1 { RunLatencies(runId, endpoint, base, seed, i); }
    forall i | 0 <= i < |s| - 1 ensures !(s[i] == lo && s[i + 1] == lo) {
      RunLatencies(runId, endpoint, base, seed, i);
      RunLatencies(runId, endpoint, base, seed, i + 1);
      NextJitter(seed, i);
      if StateAfter(seed, 2 * i + 1) < 2048 { NoTwoZeroDraws(StateAfter(seed, 2 * i + 1)); }
    }
    AtMostHalf(s, lo);
    PercentileWithin(s, p, lo, base.Rtt() * 1.1);
    PercentileAboveMinimum(s, p, lo);
  }

  lemma NextJitter(seed: nat, i: nat)
    ensures StateAfter(seed, 2 * (i + 1) + 1) == NextState(NextState(StateAfter(seed, 2 * i + 1)))
  {}

  lemma RunShape(runId: string, endpoint: string, base: Profile, seed: nat)
    ensures var es := GateRun(runId, endpoint, base, seed);
      |es| == GATE_SAMPLES && forall i :: 0 <= i < |es| ==> es[i].runId == runId && es[i].name == endpoint
  {
    hide Draw, StateAfter;
  }

  lemma GateRunAnalyzed(rows: seq<Row>, runId: string, endpoint: string, base: Profile, seed: nat,
                        s: seq<SummaryRow>, d: seq<StatusRow>, out: seq<EndpointStats>)
    requires base.Rtt() > 0.0 && endpoint != ""
    requires RunRows(rows, runId) == Inserted(GateRun(runId, endpoint, base, seed))
    requires IsEndpointSummary(rows, runId, s) && IsStatusDistribution(rows, runId, d) && Merges(s, d, Ok(out))
    ensures |out| == 1 && out[0].endpoint == endpoint && out[0].requestCount == GATE_SAMPLES
    ensures forall m :: m != ErrorRate ==> base.Rtt() * 0.9 < ValueOf(m, out[0]) < base.Rtt() * 1.1
  {
    hide GateRun, PercentileCont, IsEndpointSummary, IsStatusDistribution, Merges;
    var es := GateRun(runId, endpoint, base, seed);
    RunShape(runId, endpoint, base, seed);
    var run := RunRows(rows, runId);
    assert Column(Rtt(), run) == Latencies(es);
    forall r | r in run ensures EndpointOf(r) == Some(endpoint) { var i := IndexOfMember(run, r); }
    SingleEndpoint(rows, runId, endpoint, s, d, out);
    RunPercentiles(runId, endpoint, base, seed, 0.50);
    RunPercentiles(runId, endpoint, base, seed, 0.95);
    RunPercentiles(runId, endpoint, base, seed, 0.99);
  }

  /** One of the two runs of a fixture as the gate gets to see it. */
  lemma FixtureRunAnalyzed(endpoint: string, base: Profile, cur: Profile, seed: nat, seed': nat, isBaseline: bool, out: seq<EndpointStats>)
    requires base.Rtt() > 0.0 && cur.Rtt() > 0.0 && endpoint != ""
    requires Analyzed(Inserted(TwoRuns(endpoint, base, cur, seed, seed')), if isBaseline then BASELINE_RUN else CURRENT_RUN, out)
    ensures |out| == 1 && out[0].endpoint == endpoint && out[0].requestCount == GATE_SAMPLES
    ensures var rtt := if isBaseline then base.Rtt() else cur.Rtt();
      forall m :: m != ErrorRate ==> rtt * 0.9 < ValueOf(m, out[0]) < rtt * 1.1
  {
    hide GateRun, IsEndpointSummary, IsStatusDistribution, Merges, ValueOf;
    var a, b := GateRun(BASELINE_RUN, endpoint, base, seed), GateRun(CURRENT_RUN, endpoint, cur, seed');
    RunShape(BASELINE_RUN, endpoint, base, seed);
    RunShape(CURRENT_RUN, endpoint, cur, seed');
    FixtureRuns(a, b);
    var rows, runId := Inserted(a + b), if isBaseline then BASELINE_RUN else CURRENT_RUN;
    var s, d :| IsEndpointSummary(rows, runId, s) && IsStatusDistribution(rows, runId, d) && Merges(s, d, Ok(out));
    if isBaseline {
      GateRunAnalyzed(rows, BASELINE_RUN, endpoint, base, seed, s, d, out);
    } else {
      GateRunAnalyzed(rows, CURRENT_RUN, endpoint, cur, seed', s, d, out);
    }
  }

  // ----- Verdicts -----

  ghost predicate AtMost(limit: Option<real>, bound: real) {
    limit.Some? && limit.value <= bound
  }

  lemma FailingJudgement(current: seq<EndpointStats>, baseline: Option<seq<EndpointStats>>, pol: Policy, r: GateResult, slot: Slot)
    requires Reports(current, baseline, pol, r) && |current| == 1
    requires var view, mp := View(Indexed(baseline), current[0].endpoint), EffectiveMetricPolicy(pol, current[0].endpoint);
      Applies(view, mp, slot) && Judge(current[0], view, mp, slot) == Fail
    ensures r.status == Fail
  {
    hide Reports, Applies, Judge, View, EffectiveMetricPolicy;
    assert current[0] in current;
    VerdictIsWorstJudgement(current, baseline, pol, r, Fail);
    RankOfFail(r.status);
  }

  lemma RankOfFail(s: Status)
    ensures Rank(Fail) <= Rank(s) ==> s == Fail
  {}

  lemma ViewOfSingle(baseline: seq<EndpointStats>, endpoint: string)
    requires |baseline| == 1 && baseline[0].endpoint == endpoint
    ensures View(Indexed(Some(baseline)), endpoint) == Present(baseline[0])
  {}

  /** The relative-regression fixture fails for every seed under every policy
      that allows some latency percentile at most 44% with a floor of at most
      24.2 ms and asks for at most 100 samples. */
  lemma RelativeRegressionAlwaysFails(seed: nat, seed': nat, baseline: seq<EndpointStats>, current: seq<EndpointStats>,
                                      pol: Policy, m: Metric, r: GateResult)
    requires Analyzed(Inserted(RelativeRegressionFixture(seed, seed')), BASELINE_RUN, baseline)
    requires Analyzed(Inserted(RelativeRegressionFixture(seed, seed')), CURRENT_RUN, current)
    requires var mp := EffectiveMetricPolicy(pol, "/api/slow");
      m != ErrorRate && AtMost(LimitsOf(mp, Slot(m, Regression)).hard, 44.0) && FloorOf(mp, m) <= 24.2
      && mp.MinSamplesOrDefault() <= 100
    requires Reports(current, Some(baseline), pol, r)
    ensures r.status == Fail
  {
    hide Reports, Analyzed, EffectiveMetricPolicy, TwoRuns, LimitsOf, FloorOf, PercentChange;
    FixtureRunAnalyzed("/api/slow", GATE_HEALTHY, REGRESSED, seed, seed', true, baseline);
    FixtureRunAnalyzed("/api/slow", GATE_HEALTHY, REGRESSED, seed, seed', false, current);
    ViewOfSingle(baseline, "/api/slow");
    assert GATE_HEALTHY.Rtt() == 50.0 && REGRESSED.Rtt() == 88.0;
    var b, c := ValueOf(m, baseline[0]), ValueOf(m, current[0]);
    PercentChangeExceeds(b, c, 44.0);
    FailingJudgement(current, Some(baseline), pol, r, Slot(m, Regression));
  }

  /** The absolute-budget fixture fails for every seed under every policy with
      a budget of at most 542.7 ms for some latency percentile and at most 100
      required samples, whatever the baseline and also without one. */
  lemma AbsoluteBudgetAlwaysFails(seed: nat, seed': nat, baseline: Option<seq<EndpointStats>>, current: seq<EndpointStats>,
                                  pol: Policy, m: Metric, r: GateResult)
    requires Analyzed(Inserted(AbsoluteBudgetFixture(seed, seed')), CURRENT_RUN, current)
    requires var mp := EffectiveMetricPolicy(pol, "/api/report");
      m != ErrorRate && AtMost(LimitsOf(mp, Slot(m, Budget)).hard, 542.7) && mp.MinSamplesOrDefault() <= 100
    requires Reports(current, baseline, pol, r)
    ensures r.status == Fail
  {
    hide Reports, Analyzed, EffectiveMetricPolicy, TwoRuns, LimitsOf, FloorOf, PercentChange;
    FixtureRunAnalyzed("/api/report", SLOW, SLOW, seed, seed', false, current);
    assert SLOW.Rtt() == 603.0;
    FailingJudgement(current, baseline, pol, r, Slot(m, Budget));
  }

  lemma {:induction false} OnlyUnknowns(fs: seq<Finding>)
    requires forall i :: 0 <= i < |fs| ==> fs[i].status == Unknown
    ensures Tally(fs) == Summary(0, 0, 0, |fs|)
  {
    if fs != [] { OnlyUnknowns(fs[..|fs| - 1]); }
  }

  lemma RareShape(runId: string, seed: nat)
    ensures var es := RareRun(runId, seed);
      |es| == INSUFFICIENT_SAMPLES && forall i :: 0 <= i < |es| ==> es[i].runId == runId && es[i].name == "/api/rare"
  {
    hide Draw, StateAfter;
  }

  lemma RareAnalyzed(seed: nat, seed': nat, current: seq<EndpointStats>)
    requires Analyzed(Inserted(InsufficientSamplesFixture(seed, seed')), CURRENT_RUN, current)
    ensures |current| == 1 && current[0].endpoint == "/api/rare" && current[0].requestCount == INSUFFICIENT_SAMPLES
  {
    hide RareRun, IsEndpointSummary, IsStatusDistribution, Merges, Group;
    var a, b := RareRun(BASELINE_RUN, seed), RareRun(CURRENT_RUN, seed');
    RareShape(BASELINE_RUN, seed);
    RareShape(CURRENT_RUN, seed');
    FixtureRuns(a, b);
    var rows := Inserted(a + b);
    var run := RunRows(rows, CURRENT_RUN);
    forall x | x in run ensures EndpointOf(x) == Some("/api/rare") { var i := IndexOfMember(run, x); }
    var s: seq<SummaryRow>, d: seq<StatusRow> :|
      IsEndpointSummary(rows, CURRENT_RUN, s) && IsStatusDistribution(rows, CURRENT_RUN, d) && Merges(s, d, Ok(current));
    SingleEndpoint(rows, CURRENT_RUN, "/api/rare", s, d, current);
  }

  lemma {:induction false} NoErrors(es: seq<Event>)
    requires forall i :: 0 <= i < |es| ==> !es[i].IsError()
    ensures Ingest.ErrorCount(es) == 0
  {
    if es != [] { NoErrors(es[..|es| - 1]); }
  }

  /** The insufficient-samples fixture has no errors, for every seed. */
  lemma InsufficientSamplesErrorFree(seed: nat, seed': nat, current: seq<EndpointStats>)
    requires Analyzed(Inserted(InsufficientSamplesFixture(seed, seed')), CURRENT_RUN, current)
    ensures |current| == 1 && current[0].requestCount == 5 && current[0].errorCount == 0 && current[0].errorRate == 0.0
  {
    hide RareRun, Analyzed, Group, RunRows, CountErrors, LatencyFigures, TimingFigures, InsertedRow, EndpointOf, PercentileCont;
    RareAnalyzed(seed, seed', current);
    var a, b := RareRun(BASELINE_RUN, seed), RareRun(CURRENT_RUN, seed');
    RareShape(BASELINE_RUN, seed);
    RareShape(CURRENT_RUN, seed');
    FixtureRuns(a, b);
    var run := Inserted(b);
    forall i | 0 <= i < |run| ensures EndpointOf(run[i]) == Some("/api/rare") { NamedAfterEndpoint(b[i]); }
    GroupAll(run, Some("/api/rare"));
    forall i | 0 <= i < |b| ensures !b[i].IsError() { RareEventFine(CURRENT_RUN, seed', i); }
    NoErrors(b);
    ErrorsOfInserted(b);
    AnalysisFigures(Inserted(a + b), CURRENT_RUN, current, current[0]);
  }

  lemma NamedAfterEndpoint(e: Event)
    ensures e.name != "" ==> EndpointOf(InsertedRow(e)) == Some(e.name)
  {}

  lemma RareEventFine(runId: string, seed: nat, i: nat)
    requires i < INSUFFICIENT_SAMPLES
    ensures |RareRun(runId, seed)| == INSUFFICIENT_SAMPLES && !RareRun(runId, seed)[i].IsError()
  {
    CertainOutcomes(GenOptions(runId, "/api/rare", GATE_HEALTHY, 0.0, seed, map[], INSUFFICIENT_SAMPLES), INSUFFICIENT_SAMPLES, i);
  }

  /** The insufficient-samples fixture is never decided: for every seed, every
      baseline and every policy that asks for more than five samples, no check
      passes, warns or fails. */
  lemma InsufficientSamplesNeverDecide(seed: nat, seed': nat, baseline: Option<seq<EndpointStats>>, current: seq<EndpointStats>,
                                       pol: Policy, r: GateResult)
    requires Analyzed(Inserted(InsufficientSamplesFixture(seed, seed')), CURRENT_RUN, current)
    requires forall cur :: cur in current ==> EffectiveMetricPolicy(pol, cur.endpoint).MinSamplesOrDefault() > INSUFFICIENT_SAMPLES
    requires Reports(current, baseline, pol, r)
    ensures r.summary.passed == r.summary.warned == r.summary.failed == 0
    ensures r.summary.unknown == |r.violations| == |Questions(current, Indexed(baseline), pol)|
  {
    hide Analyzed, InsufficientSamplesFixture, AllFindings, Questions, EffectiveMetricPolicy, View, Applies, Breaches, Worst, NonPass;
    RareAnalyzed(seed, seed', current);
    var index := Indexed(baseline);
    var fs := AllFindings(current, index, pol);
    forall i | 0 <= i < |fs| ensures fs[i].status == Unknown {
      var cur := FindingJudged(current, index, pol, fs[i]);
    }
    OnlyUnknowns(fs);
    AccountsForEverything(current, baseline, pol, r);
  }
}
