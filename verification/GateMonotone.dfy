/** Worse measurements and stricter policies never improve the verdict. */
module GateMonotone {
  import opened Sequences
  import opened Policy
  import opened Stats
  import opened Gate
  import opened GateFolds
  import opened GateJudgement
  import opened GateAccounting

  /** Findings outranked one by one yield a verdict outranked as a whole. */
  lemma DominatedVerdict(t: Status, a: seq<Finding>, b: seq<Finding>)
    requires forall f :: f in a ==> exists g :: g in b && Rank(Weighted(t, f.status)) <= Rank(Weighted(t, g.status))
    ensures Rank(Worst(t, a)) <= Rank(Worst(t, b))
  {
    WorstIsLeastUpperBound(t, b);
    WorstBound(t, a, Rank(Worst(t, b)));
  }

  // ----- Worse measurements -----

  /** The same endpoint with the same request count and no better figures. */
  ghost predicate Raised(low: EndpointStats, high: EndpointStats) {
    && low.endpoint == high.endpoint && low.requestCount == high.requestCount
    && low.p50 <= high.p50 && low.p95 <= high.p95 && low.p99 <= high.p99 && low.errorRate <= high.errorRate
  }

  /** A latency regression that breaches the limit keeps breaching it as the
      latency grows: a breach lasts from the floor on, but for a negative baseline
      only up to the limit's share of it. */
  predicate Lasting(base: real, floor: real, limit: Option<real>) {
    base >= 0.0 || limit.None? || floor >= base * limit.value / 100.0
  }

  predicate LastingAt(base: EndpointStats, mp: MetricPolicy, m: Metric) {
    var limits := LimitsOf(mp, Slot(m, Regression));
    && Lasting(ValueOf(m, base), FloorOf(mp, m), limits.hard)
    && Lasting(ValueOf(m, base), FloorOf(mp, m), limits.soft)
  }

  /** Every configured latency regression of the endpoint is of that kind. */
  ghost predicate NeverInverts(base: EndpointStats, mp: MetricPolicy) {
    forall m :: m != ErrorRate ==> LastingAt(base, mp, m)
  }

  lemma BreachesMonotone(low: EndpointStats, high: EndpointStats, view: BaselineView, mp: MetricPolicy, slot: Slot, limit: Option<real>)
    requires Raised(low, high) && Breaches(low, view, mp, slot, limit)
    requires slot.check.Regression? && slot.metric != ErrorRate && view.Present? ==>
      Lasting(ValueOf(slot.metric, view.stats), FloorOf(mp, slot.metric), limit)
    ensures Breaches(high, view, mp, slot, limit)
  {
    hide PercentChange;
    if slot.check.Regression? && slot.metric != ErrorRate {
      var base := ValueOf(slot.metric, view.stats);
      PercentChangeExceeds(base, ValueOf(slot.metric, low), limit.value);
      PercentChangeExceeds(base, ValueOf(slot.metric, high), limit.value);
    }
  }

  lemma JudgeRaised(t: Status, low: EndpointStats, high: EndpointStats, view: BaselineView, mp: MetricPolicy, slot: Slot)
    requires Raised(low, high) && (view.Present? ==> NeverInverts(view.stats, mp))
    ensures Rank(Weighted(t, Judge(low, view, mp, slot))) <= Rank(Weighted(t, Judge(high, view, mp, slot)))
  {
    hide Breaches, LimitsOf, Lasting, FloorOf;
    var limits := LimitsOf(mp, slot);
    if view.Present? && slot.check.Regression? && slot.metric != ErrorRate { assert LastingAt(view.stats, mp, slot.metric); }
    if Breaches(low, view, mp, slot, limits.hard) { BreachesMonotone(low, high, view, mp, slot, limits.hard); }
    if Breaches(low, view, mp, slot, limits.soft) { BreachesMonotone(low, high, view, mp, slot, limits.soft); }
  }

  function WithLatency(s: EndpointStats, m: Metric, v: real): EndpointStats {
    match m case P50 => s.(p50 := v) case P95 => s.(p95 := v) case P99 => s.(p99 := v) case ErrorRate => s
  }

  function JudgeAt(cur: EndpointStats, base: EndpointStats, mp: MetricPolicy, m: Metric, v: real): Status {
    Judge(WithLatency(cur, m, v), Present(base), mp, Slot(m, Regression))
  }

  lemma BreachedBetween(cur: EndpointStats, base: EndpointStats, mp: MetricPolicy, m: Metric, v: real, limit: Option<real>)
    requires m != ErrorRate && ValueOf(m, base) < 0.0
    ensures Breaches(WithLatency(cur, m, v), Present(base), mp, Slot(m, Regression), limit)
       <==> limit.Some? && FloorOf(mp, m) <= v - ValueOf(m, base) < ValueOf(m, base) * limit.value / 100.0
  {
    hide PercentChange;
    if limit.Some? { PercentChangeExceeds(ValueOf(m, base), v, limit.value); }
  }

  /** The condition is exact: with enough samples, a growing latency never improves
      the judgement of a regression check if and only if both limits are lasting. */
  lemma MonotoneExactlyWhen(cur: EndpointStats, base: EndpointStats, mp: MetricPolicy, m: Metric)
    requires m != ErrorRate && !Unanswerable(cur, Present(base), mp, Slot(m, Regression))
    ensures (forall v, w :: v <= w ==> Rank(JudgeAt(cur, base, mp, m, v)) <= Rank(JudgeAt(cur, base, mp, m, w)))
       <==> LastingAt(base, mp, m)
  {
    hide Breaches, LimitsOf, FloorOf;
    var b, floor, limits := ValueOf(m, base), FloorOf(mp, m), LimitsOf(mp, Slot(m, Regression));
    if LastingAt(base, mp, m) {
      forall v, w | v <= w ensures Rank(JudgeAt(cur, base, mp, m, v)) <= Rank(JudgeAt(cur, base, mp, m, w)) {
        var low, high := WithLatency(cur, m, v), WithLatency(cur, m, w);
        if Breaches(low, Present(base), mp, Slot(m, Regression), limits.hard) {
          BreachesMonotone(low, high, Present(base), mp, Slot(m, Regression), limits.hard);
        }
        if Breaches(low, Present(base), mp, Slot(m, Regression), limits.soft) {
          BreachesMonotone(low, high, Present(base), mp, Slot(m, Regression), limits.soft);
        }
      }
    } else {
      var limit := if Lasting(b, floor, limits.hard) then limits.soft else limits.hard;
      var v, w := b + floor, b + b * limit.value / 100.0;
      BreachedBetween(cur, base, mp, m, v, limits.hard);
      BreachedBetween(cur, base, mp, m, v, limits.soft);
      BreachedBetween(cur, base, mp, m, w, limits.hard);
      BreachedBetween(cur, base, mp, m, w, limits.soft);
      assert Rank(JudgeAt(cur, base, mp, m, v)) > Rank(JudgeAt(cur, base, mp, m, w));
    }
  }

  /** Raising any percentile or error rate of any current endpoint never improves
      the overall status, as long as no latency regression check can invert. */
  lemma RaisingNeverImproves(
      current: seq<EndpointStats>, raised: seq<EndpointStats>, baseline: Option<seq<EndpointStats>>, pol: Policy,
      r: GateResult, r': GateResult)
    requires |current| == |raised| && forall i :: 0 <= i < |current| ==> Raised(current[i], raised[i])
    requires forall cur :: cur in current ==>
      var view := View(Indexed(baseline), cur.endpoint);
      view.Present? ==> NeverInverts(view.stats, EffectiveMetricPolicy(pol, cur.endpoint))
    requires Reports(current, baseline, pol, r) && Reports(raised, baseline, pol, r')
    ensures Rank(r.status) <= Rank(r'.status)
  {
    hide AllFindings, Applies, Judge, EffectiveMetricPolicy, View, Weighted, Raised, NeverInverts;
    var index, t := Indexed(baseline), pol.unknownTreatment;
    var a, b := AllFindings(current, index, pol), AllFindings(raised, index, pol);
    forall f | f in a ensures exists g :: g in b && Rank(Weighted(t, f.status)) <= Rank(Weighted(t, g.status)) {
      var cur := FindingJudged(current, index, pol, f);
      var i := IndexOfMember(current, cur);
      SameName(cur, raised[i]);
      var g := FindingExists(raised, index, pol, raised[i], Slot(f.metric, f.check));
      JudgeRaised(t, cur, raised[i], View(index, f.scope), EffectiveMetricPolicy(pol, f.scope), Slot(f.metric, f.check));
    }
    DominatedVerdict(t, a, b);
  }

  /** Non-negative baselines never invert, and neither do negative ones under
      non-negative limits and floors. */
  lemma NonNegativeNeverInverts(base: EndpointStats, mp: MetricPolicy)
    requires forall m :: m != ErrorRate ==>
      var limits := LimitsOf(mp, Slot(m, Regression));
      || ValueOf(m, base) >= 0.0
      || (FloorOf(mp, m) >= 0.0 && (limits.hard.Some? ==> limits.hard.value >= 0.0) && (limits.soft.Some? ==> limits.soft.value >= 0.0))
    ensures NeverInverts(base, mp)
  {
    forall m | m != ErrorRate ensures LastingAt(base, mp, m) {
      var b, limits := ValueOf(m, base), LimitsOf(mp, Slot(m, Regression));
      if limits.hard.Some? { ShareOfNegative(b, limits.hard.value); }
      if limits.soft.Some? { ShareOfNegative(b, limits.soft.value); }
    }
  }

  lemma ShareOfNegative(base: real, percent: real)
    ensures base <= 0.0 && percent >= 0.0 ==> base * percent / 100.0 <= 0.0
  {}

  lemma SameName(low: EndpointStats, high: EndpointStats)
    requires Raised(low, high)
    ensures low.endpoint == high.endpoint
  {}

  /** The verdict on one endpoint when a single check applies to it. */
  lemma OnlyCheck(cur: EndpointStats, baseline: Option<seq<EndpointStats>>, pol: Policy, r: GateResult, slot: Slot)
    requires Reports([cur], baseline, pol, r) && Loaded(pol)
    requires var view, mp := View(Indexed(baseline), cur.endpoint), EffectiveMetricPolicy(pol, cur.endpoint);
      && (forall other :: Applies(view, mp, other) <==> other == slot)
      && Judge(cur, view, mp, slot) in {Pass, Warn, Fail}
    ensures r.status == Judge(cur, View(Indexed(baseline), cur.endpoint), EffectiveMetricPolicy(pol, cur.endpoint), slot)
  {
    hide Reports, Applies, Judge, View, EffectiveMetricPolicy, Loaded;
    assert cur in [cur];
    VerdictIsWorstJudgement([cur], baseline, pol, r, Warn);
    VerdictIsWorstJudgement([cur], baseline, pol, r, Fail);
  }

  const NO_TIMING := TimingBreakdown(0.0, 0.0, 0.0, 0.0, 0.0)
  const NOTHING_SET := MetricPolicy(None, None, None, None, None)
  const UNLIMITED := LatencyPolicy(None, None, None, None, None)

  function Sample(p95: real): EndpointStats {
    EndpointStats("/", 50, 0, 0.0, 0.0, 0.0, 0.0, p95, 0.0, 0.0, NO_TIMING, map[])
  }

  function OnP95(lp: LatencyPolicy): MetricPolicy {
    NOTHING_SET.(p95 := Some(lp))
  }

  lemma SampleVerdict(p95: real, baseline: Option<seq<EndpointStats>>, pol: Policy, r: GateResult, slot: Slot)
    requires Reports([Sample(p95)], baseline, pol, r) && pol.version == 1 && pol.unknownTreatment == Warn
    requires var view, mp := View(Indexed(baseline), "/"), EffectiveMetricPolicy(pol, "/");
      && (forall other :: Applies(view, mp, other) <==> other == slot)
      && Judge(Sample(p95), view, mp, slot) in {Pass, Warn, Fail}
    ensures r.status == Judge(Sample(p95), View(Indexed(baseline), "/"), EffectiveMetricPolicy(pol, "/"), slot)
  {
    hide Reports, Applies, Judge, View, EffectiveMetricPolicy;
    LoadedPolicies(pol);
    OnlyCheck(Sample(p95), baseline, pol, r, slot);
  }

  /** Samples under a policy whose one check is a p95 regression. */
  lemma RegressionOnly(p95: real, base95: real, limit: real, floor: real, pol: Policy, r: GateResult)
    requires Reports([Sample(p95)], Some([Sample(base95)]), pol, r) && pol.version == 1 && pol.unknownTreatment == Warn
    requires EffectiveMetricPolicy(pol, "/")
          == OnP95(UNLIMITED.(maxRegressionPercent := Some(limit), minAbsoluteRegressionMs := Some(floor)))
    ensures r.status == if PercentChange(base95, p95) > limit && p95 - base95 >= floor then Fail else Pass
  {
    hide Reports, EffectiveMetricPolicy, PercentChange;
    SingleView(Sample(base95), "/");
    SampleVerdict(p95, Some([Sample(base95)]), pol, r, Slot(P95, Regression));
  }

  /** A rising latency can turn FAIL into PASS: with a negative floor, a fall below
      a negative baseline counts as a relative increase. */
  lemma NegativeBaselineInverts() returns (low: EndpointStats, high: EndpointStats, base: EndpointStats, pol: Policy)
    ensures Raised(low, high) && base.p95 < 0.0
    ensures forall r, r' :: Reports([low], Some([base]), pol, r) && Reports([high], Some([base]), pol, r') ==>
      r.status == Fail && r'.status == Pass
  {
    hide Reports;
    low, high, base := Sample(-3.0), Sample(-1.0), Sample(-1.0);
    var mp := OnP95(UNLIMITED.(maxRegressionPercent := Some(50.0), minAbsoluteRegressionMs := Some(-5.0)));
    pol := Policy(1, Warn, mp, map[]);
    forall r, r' | Reports([low], Some([base]), pol, r) && Reports([high], Some([base]), pol, r')
      ensures r.status == Fail && r'.status == Pass
    {
      assert PercentChange(-1.0, -3.0) == 200.0 && PercentChange(-1.0, -1.0) == 0.0;
      RegressionOnly(-3.0, -1.0, 50.0, -5.0, pol, r);
      RegressionOnly(-1.0, -1.0, 50.0, -5.0, pol, r');
    }
  }

  lemma SingleView(base: EndpointStats, endpoint: string)
    requires base.endpoint == endpoint
    ensures View(Indexed(Some([base])), endpoint) == Present(base)
  {}

  // ----- Stricter policies -----

  /** No limit is relaxed or dropped; new ones may appear. */
  ghost predicate StricterLimit(o: Option<real>, o': Option<real>) {
    o.Some? ==> o'.Some? && o'.value <= o.value
  }

  ghost predicate Stricter(mp: MetricPolicy, mp': MetricPolicy) {
    && mp.MinSamplesOrDefault() == mp'.MinSamplesOrDefault()
    && (forall slot :: StricterLimit(LimitsOf(mp, slot).hard, LimitsOf(mp', slot).hard)
                    && StricterLimit(LimitsOf(mp, slot).soft, LimitsOf(mp', slot).soft))
    && (forall m :: FloorOf(mp', m) <= FloorOf(mp, m))
  }

  lemma JudgeStricter(t: Status, cur: EndpointStats, view: BaselineView, mp: MetricPolicy, mp': MetricPolicy, slot: Slot)
    requires Stricter(mp, mp') && Applies(view, mp, slot)
    ensures Applies(view, mp', slot)
    ensures Rank(Weighted(t, Judge(cur, view, mp, slot))) <= Rank(Weighted(t, Judge(cur, view, mp', slot)))
  {}

  /** Making the effective policy of every current endpoint stricter never
      improves the overall status. */
  lemma StricterNeverImproves(
      current: seq<EndpointStats>, baseline: Option<seq<EndpointStats>>, pol: Policy, pol': Policy,
      r: GateResult, r': GateResult)
    requires pol.unknownTreatment == pol'.unknownTreatment
    requires forall cur :: cur in current ==>
      Stricter(EffectiveMetricPolicy(pol, cur.endpoint), EffectiveMetricPolicy(pol', cur.endpoint))
    requires Reports(current, baseline, pol, r) && Reports(current, baseline, pol', r')
    ensures Rank(r.status) <= Rank(r'.status)
  {
    hide AllFindings, Applies, Judge, EffectiveMetricPolicy, View, Weighted, Stricter;
    var index, t := Indexed(baseline), pol.unknownTreatment;
    var a, b := AllFindings(current, index, pol), AllFindings(current, index, pol');
    forall f | f in a ensures exists g :: g in b && Rank(Weighted(t, f.status)) <= Rank(Weighted(t, g.status)) {
      var cur := FindingJudged(current, index, pol, f);
      JudgeStricter(t, cur, View(index, f.scope), EffectiveMetricPolicy(pol, f.scope),
                    EffectiveMetricPolicy(pol', f.scope), Slot(f.metric, f.check));
      var g := FindingExists(current, index, pol', cur, Slot(f.metric, f.check));
    }
    DominatedVerdict(t, a, b);
  }

  // ----- Stricter defaults and overrides -----

  function FloorSetting(mp: MetricPolicy, m: Metric): Option<real> {
    match LatencyPolicyFor(mp, m) case None => None case Some(lp) => lp.minAbsoluteRegressionMs
  }

  /** The floor that an override and the defaults behind it leave in force. */
  function FloorInForce(d: MetricPolicy, o: MetricPolicy, m: Metric): real {
    var floor := Prefer(FloorSetting(o, m), FloorSetting(d, m));
    if floor.Some? then floor.value else 0.0
  }

  function SamplesInForce(d: MetricPolicy, o: MetricPolicy): int {
    var samples := Prefer(o.minSamples, d.minSamples);
    if samples.Some? then samples.value else DEFAULT_MIN_SAMPLES
  }

  /** A limit that only the new override sets is at most the default it replaces. */
  predicate ReplacesWithin(d: Option<real>, o: Option<real>, o': Option<real>) {
    o.None? && o'.Some? && d.Some? ==> o'.value <= d.value
  }

  /** What a change of an override must respect beside becoming stricter itself. */
  ghost predicate Compatible(d: MetricPolicy, o: MetricPolicy, d': MetricPolicy, o': MetricPolicy) {
    && (forall slot :: ReplacesWithin(LimitsOf(d, slot).hard, LimitsOf(o, slot).hard, LimitsOf(o', slot).hard)
                    && ReplacesWithin(LimitsOf(d, slot).soft, LimitsOf(o, slot).soft, LimitsOf(o', slot).soft))
    && (forall m :: FloorInForce(d', o', m) <= FloorInForce(d, o, m))
    && SamplesInForce(d, o) == SamplesInForce(d', o')
  }

  lemma ResolvedLimits(d: MetricPolicy, o: MetricPolicy, slot: Slot)
    ensures LimitsOf(Resolve(d, o), slot).hard == Prefer(LimitsOf(o, slot).hard, LimitsOf(d, slot).hard)
    ensures LimitsOf(Resolve(d, o), slot).soft == Prefer(LimitsOf(o, slot).soft, LimitsOf(d, slot).soft)
  {}

  lemma ResolvedFloor(d: MetricPolicy, o: MetricPolicy, m: Metric)
    ensures FloorOf(Resolve(d, o), m) == FloorInForce(d, o, m)
  {}

  /** If defaults and override both become stricter, the policy in force becomes
      stricter if and only if they are compatible. */
  lemma StricterOverrideExactlyWhen(d: MetricPolicy, o: MetricPolicy, d': MetricPolicy, o': MetricPolicy)
    requires Stricter(d, d') && Stricter(o, o')
    ensures Stricter(Resolve(d, o), Resolve(d', o')) <==> Compatible(d, o, d', o')
  {
    hide LimitsOf, FloorOf, FloorInForce, Resolve;
    forall slot: Slot ensures
      var e, e' := Resolve(d, o), Resolve(d', o');
      (StricterLimit(LimitsOf(e, slot).hard, LimitsOf(e', slot).hard)
       <==> ReplacesWithin(LimitsOf(d, slot).hard, LimitsOf(o, slot).hard, LimitsOf(o', slot).hard))
      && (StricterLimit(LimitsOf(e, slot).soft, LimitsOf(e', slot).soft)
       <==> ReplacesWithin(LimitsOf(d, slot).soft, LimitsOf(o, slot).soft, LimitsOf(o', slot).soft))
    {
      ResolvedLimits(d, o, slot);
      ResolvedLimits(d', o', slot);
    }
    forall m: Metric ensures FloorOf(Resolve(d, o), m) == FloorInForce(d, o, m) && FloorOf(Resolve(d', o'), m) == FloorInForce(d', o', m) {
      ResolvedFloor(d, o, m);
      ResolvedFloor(d', o', m);
    }
    ResolvedSamples(d, o);
    ResolvedSamples(d', o');
  }

  lemma ResolvedSamples(d: MetricPolicy, o: MetricPolicy)
    ensures Resolve(d, o).MinSamplesOrDefault() == SamplesInForce(d, o)
  {}

  /** An endpoint without an override is one whose override sets nothing. */
  function OverrideFor(pol: Policy, endpoint: string): MetricPolicy {
    if endpoint in pol.endpoints then pol.endpoints[endpoint] else NOTHING_SET
  }

  lemma EffectiveResolves(pol: Policy, endpoint: string)
    ensures EffectiveMetricPolicy(pol, endpoint) == Resolve(pol.defaults, OverrideFor(pol, endpoint))
  {}

  /** Stricter defaults with stricter, compatible overrides never improve the
      overall status. */
  lemma StricterOverridesNeverImprove(
      current: seq<EndpointStats>, baseline: Option<seq<EndpointStats>>, pol: Policy, pol': Policy,
      r: GateResult, r': GateResult)
    requires pol.unknownTreatment == pol'.unknownTreatment && Stricter(pol.defaults, pol'.defaults)
    requires forall cur :: cur in current ==>
      var o, o' := OverrideFor(pol, cur.endpoint), OverrideFor(pol', cur.endpoint);
      Stricter(o, o') && Compatible(pol.defaults, o, pol'.defaults, o')
    requires Reports(current, baseline, pol, r) && Reports(current, baseline, pol', r')
    ensures Rank(r.status) <= Rank(r'.status)
  {
    hide Reports, Stricter, Compatible, Resolve, OverrideFor, EffectiveMetricPolicy;
    forall cur | cur in current
      ensures Stricter(EffectiveMetricPolicy(pol, cur.endpoint), EffectiveMetricPolicy(pol', cur.endpoint))
    {
      EffectiveResolves(pol, cur.endpoint);
      EffectiveResolves(pol', cur.endpoint);
      StricterOverrideExactlyWhen(pol.defaults, OverrideFor(pol, cur.endpoint), pol'.defaults, OverrideFor(pol', cur.endpoint));
    }
    StricterNeverImproves(current, baseline, pol, pol', r, r');
  }

  /** A limit newly set in an override replaces a lower default: FAIL becomes PASS. */
  lemma NewLimitCanLoosen() returns (cur: EndpointStats, pol: Policy, pol': Policy)
    ensures Stricter(pol.defaults, pol'.defaults) && pol.unknownTreatment == pol'.unknownTreatment
    ensures Stricter(OverrideFor(pol, cur.endpoint), OverrideFor(pol', cur.endpoint))
    ensures forall r, r' :: Reports([cur], None, pol, r) && Reports([cur], None, pol', r') ==> r.status == Fail && r'.status == Pass
  {
    hide Reports;
    cur := Sample(200.0);
    pol := Policy(1, Warn, OnP95(UNLIMITED.(maxMs := Some(100.0))), map["/" := NOTHING_SET]);
    pol' := pol.(endpoints := map["/" := OnP95(UNLIMITED.(maxMs := Some(300.0)))]);
    forall r, r' | Reports([cur], None, pol, r) && Reports([cur], None, pol', r') ensures r.status == Fail && r'.status == Pass {
      SampleVerdict(200.0, None, pol, r, Slot(P95, Budget));
      SampleVerdict(200.0, None, pol', r', Slot(P95, Budget));
    }
  }

  /** An override that drops its lower floor falls back to a higher default: FAIL
      becomes PASS, although no limit changes. */
  lemma DroppedFloorCanLoosen() returns (cur: EndpointStats, base: EndpointStats, pol: Policy, pol': Policy)
    ensures Stricter(pol.defaults, pol'.defaults) && pol.unknownTreatment == pol'.unknownTreatment
    ensures Stricter(OverrideFor(pol, cur.endpoint), OverrideFor(pol', cur.endpoint))
    ensures forall slot :: LimitsOf(OverrideFor(pol, cur.endpoint), slot) == LimitsOf(OverrideFor(pol', cur.endpoint), slot)
    ensures forall r, r' :: Reports([cur], Some([base]), pol, r) && Reports([cur], Some([base]), pol', r') ==>
      r.status == Fail && r'.status == Pass
  {
    hide Reports;
    cur, base := Sample(17.0), Sample(10.0);
    var defaults := OnP95(UNLIMITED.(maxRegressionPercent := Some(20.0), minAbsoluteRegressionMs := Some(10.0)));
    pol := Policy(1, Warn, defaults, map["/" := OnP95(UNLIMITED.(minAbsoluteRegressionMs := Some(5.0)))]);
    pol' := pol.(endpoints := map["/" := OnP95(UNLIMITED)]);
    forall r, r' | Reports([cur], Some([base]), pol, r) && Reports([cur], Some([base]), pol', r')
      ensures r.status == Fail && r'.status == Pass
    {
      assert PercentChange(10.0, 17.0) == 70.0;
      RegressionOnly(17.0, 10.0, 20.0, 5.0, pol, r);
      RegressionOnly(17.0, 10.0, 20.0, 10.0, pol', r');
    }
  }
}
