/** The gate's decision procedure stated once, independently of its code: which
    checks apply to an endpoint, when one cannot be answered, and when a limit
    is breached. The engine's findings are shown to be exactly these judgements. */
module GateJudgement {
  import opened Sequences
  import opened Policy
  import opened Stats
  import opened Gate

  datatype Slot = Slot(metric: Metric, check: Check)

  const SLOTS: seq<Slot> :=
    [Slot(P50, Budget), Slot(P50, Regression), Slot(P95, Budget), Slot(P95, Regression),
     Slot(P99, Budget), Slot(P99, Regression), Slot(ErrorRate, Budget), Slot(ErrorRate, Regression)]

  /** The threshold that fails the build and the softer one that warns. */
  datatype Limits = Limits(hard: Option<real>, soft: Option<real>)

  function LatencyPolicyFor(mp: MetricPolicy, m: Metric): Option<LatencyPolicy> {
    match m case P50 => mp.p50 case P95 => mp.p95 case P99 => mp.p99 case ErrorRate => None
  }

  function LimitsOf(mp: MetricPolicy, slot: Slot): Limits {
    if slot.metric.ErrorRate? then
      match mp.errorRate
      case None => Limits(None, None)
      case Some(ep) =>
        if slot.check.Budget? then Limits(ep.maxAbsolute, ep.warnMaxAbsolute)
        else Limits(ep.maxAbsoluteIncrease, ep.warnAbsoluteIncrease)
    else
      match LatencyPolicyFor(mp, slot.metric)
      case None => Limits(None, None)
      case Some(lp) =>
        if slot.check.Budget? then Limits(lp.maxMs, lp.warnMaxMs)
        else Limits(lp.maxRegressionPercent, lp.warnRegressionPercent)
  }

  /** The noise floor in milliseconds, for latencies only. */
  function FloorOf(mp: MetricPolicy, m: Metric): real {
    match LatencyPolicyFor(mp, m)
    case None => 0.0
    case Some(lp) => if lp.minAbsoluteRegressionMs.Some? then lp.minAbsoluteRegressionMs.value else 0.0
  }

  /** The check is configured, and a baseline was given if it needs one. */
  predicate Applies(view: BaselineView, mp: MetricPolicy, slot: Slot) {
    && LimitsOf(mp, slot) != Limits(None, None)
    && (slot.check.Regression? ==> !view.NotRequested?)
  }

  /** There is not enough evidence to answer the check. */
  predicate Unanswerable(cur: EndpointStats, view: BaselineView, mp: MetricPolicy, slot: Slot) {
    || cur.requestCount < mp.MinSamplesOrDefault()
    || (slot.check.Regression? &&
        (view.Missing? || (view.Present? && view.stats.requestCount < mp.MinSamplesOrDefault())))
  }

  /** The limit is exceeded: by the value itself for a budget; for a latency
      regression by the relative change, provided the absolute change reaches
      the floor; for the error rate by the change in percentage points. */
  predicate Breaches(cur: EndpointStats, view: BaselineView, mp: MetricPolicy, slot: Slot, limit: Option<real>) {
    && limit.Some?
    && var value := ValueOf(slot.metric, cur);
       if slot.check.Budget? then value > limit.value
       else
         view.Present? &&
         var base := ValueOf(slot.metric, view.stats);
         if slot.metric.ErrorRate? then value - base > limit.value
         else PercentChange(base, value) > limit.value && value - base >= FloorOf(mp, slot.metric)
  }

  function Judge(cur: EndpointStats, view: BaselineView, mp: MetricPolicy, slot: Slot): Status {
    if Unanswerable(cur, view, mp, slot) then Unknown
    else if Breaches(cur, view, mp, slot, LimitsOf(mp, slot).hard) then Fail
    else if Breaches(cur, view, mp, slot, LimitsOf(mp, slot).soft) then Warn
    else Pass
  }

  predicate Over(limit: Option<real>, v: real) {
    limit.Some? && v > limit.value
  }

  function Graded(hard: bool, soft: bool): Status {
    if hard then Fail else if soft then Warn else Pass
  }

  /** The decision on one latency percentile, field by field. */
  lemma LatencyJudgedByFields(cur: EndpointStats, view: BaselineView, mp: MetricPolicy, m: Metric, value: real, lp: LatencyPolicy)
    requires (m, value, Some(lp)) in {(P50, cur.p50, mp.p50), (P95, cur.p95, mp.p95), (P99, cur.p99, mp.p99)}
    ensures var few := if mp.minSamples.Some? then mp.minSamples.value else 30;
      Judge(cur, view, mp, Slot(m, Budget))
      == if cur.requestCount < few then Unknown else Graded(Over(lp.maxMs, value), Over(lp.warnMaxMs, value))
    ensures view.Present? ==>
      var few := if mp.minSamples.Some? then mp.minSamples.value else 30;
      var base := match m case P50 => view.stats.p50 case P95 => view.stats.p95 case _ => view.stats.p99;
      var change := PercentChange(base, value);
      var notable := value - base >= if lp.minAbsoluteRegressionMs.Some? then lp.minAbsoluteRegressionMs.value else 0.0;
      Judge(cur, view, mp, Slot(m, Regression))
      == if cur.requestCount < few || view.stats.requestCount < few then Unknown
         else Graded(Over(lp.maxRegressionPercent, change) && notable, Over(lp.warnRegressionPercent, change) && notable)
    ensures view.Missing? ==> Judge(cur, view, mp, Slot(m, Regression)) == Unknown
  {
    hide PercentChange;
  }

  /** The decision on the error rate, in percentage points. */
  lemma ErrorRateJudgedByFields(cur: EndpointStats, view: BaselineView, mp: MetricPolicy, ep: ErrorRatePolicy)
    requires mp.errorRate == Some(ep)
    ensures var few := if mp.minSamples.Some? then mp.minSamples.value else 30;
      Judge(cur, view, mp, Slot(ErrorRate, Budget))
      == if cur.requestCount < few then Unknown
         else Graded(Over(ep.maxAbsolute, cur.errorRate), Over(ep.warnMaxAbsolute, cur.errorRate))
    ensures view.Present? ==>
      var few := if mp.minSamples.Some? then mp.minSamples.value else 30;
      var rise := cur.errorRate - view.stats.errorRate;
      Judge(cur, view, mp, Slot(ErrorRate, Regression))
      == if cur.requestCount < few || view.stats.requestCount < few then Unknown
         else Graded(Over(ep.maxAbsoluteIncrease, rise), Over(ep.warnAbsoluteIncrease, rise))
    ensures view.Missing? ==> Judge(cur, view, mp, Slot(ErrorRate, Regression)) == Unknown
  {
    hide PercentChange;
  }

  /** The part of the engine's output that belongs to one slot. */
  function SlotFindings(cur: EndpointStats, view: BaselineView, mp: MetricPolicy, slot: Slot): seq<Finding> {
    var ev := Gather(cur, view, mp.MinSamplesOrDefault());
    if slot.metric.ErrorRate? then
      if slot.check.Budget? then ErrorBudget(ev, mp.errorRate) else ErrorIncrease(ev, mp.errorRate)
    else
      if slot.check.Budget? then LatencyBudget(slot.metric, ev, LatencyPolicyFor(mp, slot.metric))
      else LatencyRegression(slot.metric, ev, LatencyPolicyFor(mp, slot.metric))
  }

  predicate Answers(fs: seq<Finding>, cur: EndpointStats, view: BaselineView, mp: MetricPolicy, slot: Slot) {
    if Applies(view, mp, slot) then
      && |fs| == 1 && fs[0].scope == cur.endpoint && fs[0].metric == slot.metric && fs[0].check == slot.check
      && fs[0].status == Judge(cur, view, mp, slot)
    else
      fs == []
  }

  /** One finding per applicable check, none otherwise, with the judged status. */
  lemma SlotJudged(cur: EndpointStats, view: BaselineView, mp: MetricPolicy, slot: Slot)
    ensures !Applies(view, mp, slot) ==> SlotFindings(cur, view, mp, slot) == []
    ensures Applies(view, mp, slot) ==>
      var fs := SlotFindings(cur, view, mp, slot);
      |fs| == 1 && fs[0].scope == cur.endpoint && fs[0].metric == slot.metric && fs[0].check == slot.check
      && fs[0].status == Judge(cur, view, mp, slot)
  {
    hide SlotFindings, Applies, Judge;
    match slot {
      case Slot(_, Budget) => BudgetSlotJudged(cur, view, mp, slot);
      case Slot(_, Regression) => RegressionSlotJudged(cur, view, mp, slot);
    }
  }

  lemma BudgetSlotJudged(cur: EndpointStats, view: BaselineView, mp: MetricPolicy, slot: Slot)
    requires slot.check.Budget?
    ensures Answers(SlotFindings(cur, view, mp, slot), cur, view, mp, slot)
  {
    hide PercentChange, TimingDelta, LatencyRegression, ErrorIncrease, FloorOf;
  }

  lemma RegressionSlotJudged(cur: EndpointStats, view: BaselineView, mp: MetricPolicy, slot: Slot)
    requires slot.check.Regression?
    ensures Answers(SlotFindings(cur, view, mp, slot), cur, view, mp, slot)
  {
    hide PercentChange, TimingDelta, LatencyBudget, ErrorBudget;
  }

  /** Why a check could not be answered: an endpoint the baseline never saw comes
      first, then a short current run, then a short baseline run. */
  function ReasonFor(cur: EndpointStats, view: BaselineView, mp: MetricPolicy, slot: Slot): string {
    if slot.check.Regression? && view.Missing? then "no_baseline_for_endpoint"
    else if cur.requestCount < mp.MinSamplesOrDefault() then "insufficient_samples"
    else "insufficient_baseline_samples"
  }

  /** What a finding reports beside its status: the reason and no measurements
      when it is UNKNOWN; otherwise the limit that was breached (the hard one where set,
      for a PASS), the measured value, and for regressions the baseline value
      they add up from. */
  lemma FindingEvidence(cur: EndpointStats, view: BaselineView, mp: MetricPolicy, slot: Slot, f: Finding)
    requires f in SlotFindings(cur, view, mp, slot)
    ensures f.reason == if f.status == Unknown then ReasonFor(cur, view, mp, slot) else ""
    ensures f.status == Unknown ==>
      f.current == f.baseline == f.delta == f.changePercent == f.threshold == None
    ensures f.status != Unknown ==> f.current == Some(ValueOf(slot.metric, cur)) && f.threshold == ReportedLimit(mp, slot, f.status)
    ensures f.status != Unknown && slot.check.Budget? ==> f.baseline == f.delta == f.changePercent == None
    ensures f.status != Unknown && slot.check.Regression? ==>
      && view.Present? && f.baseline == Some(ValueOf(slot.metric, view.stats))
      && f.delta.Some? && f.baseline.value + f.delta.value == f.current.value
      && f.changePercent == if slot.metric.ErrorRate? then None else Some(PercentChange(f.baseline.value, f.current.value))
  {
    hide SlotFindings, ReasonFor, ReportedLimit, PercentChange;
    if slot.check.Budget? { BudgetEvidence(cur, view, mp, slot, f); } else { RegressionEvidence(cur, view, mp, slot, f); }
  }

  predicate Withheld(f: Finding) {
    f.current == f.baseline == f.delta == f.changePercent == f.threshold == None
  }

  lemma BudgetEvidence(cur: EndpointStats, view: BaselineView, mp: MetricPolicy, slot: Slot, f: Finding)
    requires slot.check.Budget? && f in SlotFindings(cur, view, mp, slot)
    ensures if f.status == Unknown then Withheld(f) && f.reason == ReasonFor(cur, view, mp, slot)
            else
              && f.reason == "" && f.current == Some(ValueOf(slot.metric, cur)) && f.threshold == ReportedLimit(mp, slot, f.status)
              && f.baseline == f.delta == f.changePercent == None
  {
    hide TimingDelta, LatencyRegression, ErrorIncrease;
    match slot.metric {
      case ErrorRate =>
        hide LatencyBudget, LatencyPolicyFor;
      case _ =>
        hide ErrorBudget, ErrorBudgetFinding;
    }
  }

  lemma RegressionEvidence(cur: EndpointStats, view: BaselineView, mp: MetricPolicy, slot: Slot, f: Finding)
    requires slot.check.Regression? && f in SlotFindings(cur, view, mp, slot)
    ensures if f.status == Unknown then Withheld(f) && f.reason == ReasonFor(cur, view, mp, slot)
            else
              && f.reason == "" && f.current == Some(ValueOf(slot.metric, cur)) && f.threshold == ReportedLimit(mp, slot, f.status)
              && view.Present? && f.baseline == Some(ValueOf(slot.metric, view.stats))
              && f.delta.Some? && f.baseline.value + f.delta.value == f.current.value
              && f.changePercent == if slot.metric.ErrorRate? then None else Some(PercentChange(f.baseline.value, f.current.value))
  {
    hide PercentChange, TimingDelta, LatencyBudget, ErrorBudget;
  }

  function ReportedLimit(mp: MetricPolicy, slot: Slot, status: Status): Option<real> {
    var limits := LimitsOf(mp, slot);
    match status
    case Fail => limits.hard
    case Warn => limits.soft
    case _ => if limits.hard.Some? then limits.hard else limits.soft
  }

  function Change(from: TimingBreakdown, to: TimingBreakdown): TimingBreakdown {
    TimingBreakdown(to.dns - from.dns, to.tcp - from.tcp, to.tls - from.tls, to.ttfb - from.ttfb, to.transfer - from.transfer)
  }

  /** The phase that moved most accompanies exactly the latency regressions that
      did not pass. */
  lemma TimingEvidence(cur: EndpointStats, view: BaselineView, mp: MetricPolicy, slot: Slot, f: Finding)
    requires f in SlotFindings(cur, view, mp, slot)
    ensures f.primaryTimingChange.Some? <==>
      slot.check.Regression? && !slot.metric.ErrorRate? && f.status in {Warn, Fail}
    ensures f.primaryTimingChange.Some? ==>
      view.Present? && IsLargestPhase(Change(view.stats.timing, cur.timing), f.primaryTimingChange.value)
  {
    hide PercentChange, LargestPhaseOf, IsLargestPhase;
    if view.Present? { LargestPhaseIsLargest(TimingDelta(view.stats, cur).delta); }
    match slot {
      case Slot(ErrorRate, _) =>
      case Slot(_, Budget) =>
      case Slot(_, Regression) =>
    }
  }

  // ----- From slots to endpoints -----

  function SlotFindingsOf(cur: EndpointStats, view: BaselineView, mp: MetricPolicy): Slot -> seq<Finding> {
    (slot: Slot) => SlotFindings(cur, view, mp, slot)
  }

  lemma FlattenPair<A, B>(f: A -> seq<B>, s: seq<A>, a: A, b: A)
    ensures Flatten(f, s + [a, b]) == Flatten(f, s) + (f(a) + f(b))
  {
    assert s + [a, b] == (s + [a]) + [b];
    FlattenOne(f, s, a);
    FlattenOne(f, s + [a], b);
  }

  lemma EndpointFindingsBySlot(cur: EndpointStats, view: BaselineView, mp: MetricPolicy)
    ensures EndpointFindings(cur, view, mp) == Flatten(SlotFindingsOf(cur, view, mp), SLOTS)
  {
    var f := SlotFindingsOf(cur, view, mp);
    EightSlots(f);
    var ev := Gather(cur, view, mp.MinSamplesOrDefault());
    assert f(Slot(P50, Budget)) + f(Slot(P50, Regression)) == EvaluateLatency(P50, ev, mp.p50);
    assert f(Slot(P95, Budget)) + f(Slot(P95, Regression)) == EvaluateLatency(P95, ev, mp.p95);
    assert f(Slot(P99, Budget)) + f(Slot(P99, Regression)) == EvaluateLatency(P99, ev, mp.p99);
    assert f(Slot(ErrorRate, Budget)) + f(Slot(ErrorRate, Regression)) == EvaluateErrorRate(ev, mp.errorRate);
  }

  lemma EightSlots<B>(f: Slot -> seq<B>)
    ensures Flatten(f, SLOTS)
         == (f(Slot(P50, Budget)) + f(Slot(P50, Regression))) + (f(Slot(P95, Budget)) + f(Slot(P95, Regression)))
            + (f(Slot(P99, Budget)) + f(Slot(P99, Regression))) + (f(Slot(ErrorRate, Budget)) + f(Slot(ErrorRate, Regression)))
  {
    var two, four, six := [SLOTS[0], SLOTS[1]], [SLOTS[0], SLOTS[1], SLOTS[2], SLOTS[3]],
                          [SLOTS[0], SLOTS[1], SLOTS[2], SLOTS[3], SLOTS[4], SLOTS[5]];
    FlattenPair(f, [], SLOTS[0], SLOTS[1]);
    FlattenPair(f, two, SLOTS[2], SLOTS[3]);
    FlattenPair(f, four, SLOTS[4], SLOTS[5]);
    FlattenPair(f, six, SLOTS[6], SLOTS[7]);
    assert [] + [SLOTS[0], SLOTS[1]] == two && two + [SLOTS[2], SLOTS[3]] == four;
    assert four + [SLOTS[4], SLOTS[5]] == six && six + [SLOTS[6], SLOTS[7]] == SLOTS;
  }

  lemma SlotListed(slot: Slot)
    ensures slot in SLOTS
  {
    var k := (match slot.metric case P50 => 0 case P95 => 2 case P99 => 4 case ErrorRate => 6)
             + (if slot.check.Budget? then 0 else 1);
    assert SLOTS[k] == slot;
  }

  /** A finding belongs to an endpoint exactly if its own slot produced it. */
  lemma InEndpointFindings(cur: EndpointStats, view: BaselineView, mp: MetricPolicy, f: Finding)
    ensures f in EndpointFindings(cur, view, mp) <==> f in SlotFindings(cur, view, mp, Slot(f.metric, f.check))
    ensures f in EndpointFindings(cur, view, mp) ==> f.scope == cur.endpoint
  {
    hide *;
    EndpointFindingsBySlot(cur, view, mp);
    InFlatten(SlotFindingsOf(cur, view, mp), SLOTS, f);
    forall slot: Slot ensures SlotFindingsOf(cur, view, mp)(slot) == SlotFindings(cur, view, mp, slot) {
      ApplySlotFindings(cur, view, mp, slot);
    }
    forall slot: Slot | f in SlotFindings(cur, view, mp, slot)
      ensures slot == Slot(f.metric, f.check) && f.scope == cur.endpoint
    {
      SlotJudged(cur, view, mp, slot);
    }
    SlotListed(Slot(f.metric, f.check));
  }

  lemma ApplySlotFindings(cur: EndpointStats, view: BaselineView, mp: MetricPolicy, slot: Slot)
    ensures SlotFindingsOf(cur, view, mp)(slot) == SlotFindings(cur, view, mp, slot)
  {
    hide SlotFindings;
  }

  lemma InAllFindings(current: seq<EndpointStats>, index: BaselineIndex, pol: Policy, f: Finding)
    ensures f in AllFindings(current, index, pol)
       <==> exists cur :: cur in current && f in FindingsAt(cur, index, pol)
  {
    hide FindingsAt;
    InFlatten(FindingsOf(index, pol), current, f);
  }

  /** Where a finding comes from: the endpoint it names and the slot it names. */
  lemma FindingOrigin(current: seq<EndpointStats>, index: BaselineIndex, pol: Policy, f: Finding) returns (cur: EndpointStats)
    requires f in AllFindings(current, index, pol)
    ensures cur in current && cur.endpoint == f.scope
    ensures f in SlotFindings(cur, View(index, f.scope), EffectiveMetricPolicy(pol, f.scope), Slot(f.metric, f.check))
  {
    hide EndpointFindings, SlotFindings, AllFindings;
    InAllFindings(current, index, pol, f);
    cur :| cur in current && f in FindingsAt(cur, index, pol);
    InEndpointFindings(cur, View(index, cur.endpoint), EffectiveMetricPolicy(pol, cur.endpoint), f);
  }

  /** With distinct current endpoints, (scope, metric, check) identifies a finding. */
  lemma KeysIdentifyFindings(current: seq<EndpointStats>, index: BaselineIndex, pol: Policy, f: Finding, g: Finding)
    requires DistinctEndpoints(current)
    requires f in AllFindings(current, index, pol) && g in AllFindings(current, index, pol) && SameKey(f, g)
    ensures f == g
  {
    hide AllFindings, SlotFindings;
    var c := FindingOrigin(current, index, pol, f);
    var d := FindingOrigin(current, index, pol, g);
    assert c == d;
    SlotJudged(c, View(index, f.scope), EffectiveMetricPolicy(pol, f.scope), Slot(f.metric, f.check));
  }
}
