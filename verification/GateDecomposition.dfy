/** A policy is two independent gates: its budget half and its regression half
    can be evaluated apart and put together again. */
module GateDecomposition {
  import opened Sequences
  import opened Policy
  import opened Stats
  import opened Gate
  import opened GateFolds
  import opened GateJudgement
  import opened GateOrder

  function LatencyHalf(c: Check, lp: Option<LatencyPolicy>): Option<LatencyPolicy> {
    match lp
    case None => None
    case Some(p) =>
      if c.Budget? then Some(LatencyPolicy(p.maxMs, p.warnMaxMs, None, None, None))
      else Some(LatencyPolicy(None, None, p.maxRegressionPercent, p.warnRegressionPercent, p.minAbsoluteRegressionMs))
  }

  function ErrorRateHalf(c: Check, ep: Option<ErrorRatePolicy>): Option<ErrorRatePolicy> {
    match ep
    case None => None
    case Some(p) =>
      if c.Budget? then Some(ErrorRatePolicy(p.maxAbsolute, p.warnMaxAbsolute, None, None))
      else Some(ErrorRatePolicy(None, None, p.maxAbsoluteIncrease, p.warnAbsoluteIncrease))
  }

  function MetricHalf(c: Check, mp: MetricPolicy): MetricPolicy {
    MetricPolicy(mp.minSamples, LatencyHalf(c, mp.p50), LatencyHalf(c, mp.p95), LatencyHalf(c, mp.p99),
                 ErrorRateHalf(c, mp.errorRate))
  }

  /** The half of a policy, defaults and overrides alike, that only one kind of
      check looks at. */
  function Half(c: Check, pol: Policy): Policy {
    pol.(defaults := MetricHalf(c, pol.defaults),
         endpoints := map e | e in pol.endpoints :: MetricHalf(c, pol.endpoints[e]))
  }

  /** Splitting before or after resolving the overrides is the same. */
  lemma HalvesCommuteWithOverrides(c: Check, pol: Policy, endpoint: string)
    ensures EffectiveMetricPolicy(Half(c, pol), endpoint) == MetricHalf(c, EffectiveMetricPolicy(pol, endpoint))
  {
    hide MetricHalf;
    if endpoint in pol.endpoints {
      MergeHalves(c, pol.defaults, pol.endpoints[endpoint]);
    }
  }

  lemma MergeHalves(c: Check, d: MetricPolicy, o: MetricPolicy)
    ensures Resolve(MetricHalf(c, d), MetricHalf(c, o)) == MetricHalf(c, Resolve(d, o))
  {}

  /** A half sees its own checks unchanged and none of the others. */
  lemma SlotOfHalf(c: Check, cur: EndpointStats, view: BaselineView, mp: MetricPolicy, slot: Slot)
    ensures SlotFindings(cur, view, MetricHalf(c, mp), slot)
         == if slot.check == c then SlotFindings(cur, view, mp, slot) else []
  {
    hide PercentChange, TimingDelta;
    match slot.check {
      case Budget => hide LatencyRegression, ErrorIncrease;
      case Regression => hide LatencyBudget, ErrorBudget;
    }
  }

  lemma EndpointHalves(cur: EndpointStats, view: BaselineView, mp: MetricPolicy)
    ensures multiset(EndpointFindings(cur, view, mp))
         == multiset(EndpointFindings(cur, view, MetricHalf(Budget, mp)))
            + multiset(EndpointFindings(cur, view, MetricHalf(Regression, mp)))
  {
    hide EndpointFindings, SlotFindings, MetricHalf;
    var b, r := MetricHalf(Budget, mp), MetricHalf(Regression, mp);
    EndpointFindingsBySlot(cur, view, mp);
    EndpointFindingsBySlot(cur, view, b);
    EndpointFindingsBySlot(cur, view, r);
    forall slot: Slot ensures
      multiset(SlotFindings(cur, view, mp, slot))
      == multiset(SlotFindings(cur, view, b, slot)) + multiset(SlotFindings(cur, view, r, slot))
    {
      SlotOfHalf(Budget, cur, view, mp, slot);
      SlotOfHalf(Regression, cur, view, mp, slot);
    }
    FlattenSplit(SlotFindingsOf(cur, view, mp), SlotFindingsOf(cur, view, b), SlotFindingsOf(cur, view, r), SLOTS);
  }

  lemma FindingsHalves(current: seq<EndpointStats>, index: BaselineIndex, pol: Policy)
    ensures multiset(AllFindings(current, index, pol))
         == multiset(AllFindings(current, index, Half(Budget, pol)) + AllFindings(current, index, Half(Regression, pol)))
  {
    hide EndpointFindings, MetricHalf, EffectiveMetricPolicy, Half;
    forall cur: EndpointStats ensures
      multiset(FindingsAt(cur, index, pol))
      == multiset(FindingsAt(cur, index, Half(Budget, pol))) + multiset(FindingsAt(cur, index, Half(Regression, pol)))
    {
      HalvesCommuteWithOverrides(Budget, pol, cur.endpoint);
      HalvesCommuteWithOverrides(Regression, pol, cur.endpoint);
      EndpointHalves(cur, View(index, cur.endpoint), EffectiveMetricPolicy(pol, cur.endpoint));
    }
    FlattenSplit(FindingsOf(index, pol), FindingsOf(index, Half(Budget, pol)), FindingsOf(index, Half(Regression, pol)), current);
  }

  function AddSummaries(a: Summary, b: Summary): Summary {
    Summary(a.passed + b.passed, a.warned + b.warned, a.failed + b.failed, a.unknown + b.unknown)
  }

  /** The verdict of a policy is the worse of its halves' verdicts, the counts
      add up, the violations are the sorted merge of theirs, and the endpoint
      lists do not depend on the half. */
  lemma Decomposition(
      current: seq<EndpointStats>, baseline: Option<seq<EndpointStats>>, pol: Policy,
      whole: GateResult, budget: GateResult, regression: GateResult)
    requires DistinctEndpoints(current)
    requires Reports(current, baseline, pol, whole)
    requires Reports(current, baseline, Half(Budget, pol), budget)
    requires Reports(current, baseline, Half(Regression, pol), regression)
    ensures whole.status == Worse(budget.status, regression.status)
    ensures whole.summary == AddSummaries(budget.summary, regression.summary)
    ensures whole.violations == Merge(FindingLe, budget.violations, regression.violations)
    ensures whole.newEndpoints == budget.newEndpoints == regression.newEndpoints
    ensures whole.removedEndpoints == budget.removedEndpoints == regression.removedEndpoints
  {
    hide AllFindings, NewEndpoints, Half, EffectiveMetricPolicy, Worst, Tally, NonPass;
    var index, t := Indexed(baseline), pol.unknownTreatment;
    HalfKeepsTreatment(pol);
    FindingsHalves(current, index, pol);
    VerdictOfParts(t, AllFindings(current, index, pol),
                   AllFindings(current, index, Half(Budget, pol)), AllFindings(current, index, Half(Regression, pol)));
    ViolationsTieFree(current, index, pol, whole.violations);
    ViolationsMerge(whole.violations, budget.violations, regression.violations);
    SameEndpointLists(whole, budget);
    SameEndpointLists(whole, regression);
  }

  lemma HalfKeepsTreatment(pol: Policy)
    ensures forall c :: Half(c, pol).unknownTreatment == pol.unknownTreatment
  {}

  lemma VerdictOfParts(t: Status, fs: seq<Finding>, fb: seq<Finding>, fr: seq<Finding>)
    requires multiset(fs) == multiset(fb + fr)
    ensures Worst(t, fs) == Worse(Worst(t, fb), Worst(t, fr))
    ensures Tally(fs) == AddSummaries(Tally(fb), Tally(fr))
    ensures multiset(NonPass(fs)) == multiset(NonPass(fb)) + multiset(NonPass(fr))
  {
    hide Worst, CountStatus, NonPass, Worse;
    FoldsConcat(t, fb, fr);
    CountConcat(fb, fr, Pass);
    CountConcat(fb, fr, Warn);
    CountConcat(fb, fr, Fail);
    CountConcat(fb, fr, Unknown);
    SameVerdict(t, fs, fb + fr);
    NonPassPermuted(fs, fb + fr);
  }

  lemma ViolationsMerge(whole: seq<Finding>, a: seq<Finding>, b: seq<Finding>)
    requires multiset(whole) == multiset(a) + multiset(b)
    requires SortedBy(FindingLe, whole) && SortedBy(FindingLe, a) && SortedBy(FindingLe, b) && TieFree(FindingLe, whole)
    ensures whole == Merge(FindingLe, a, b)
  {
    MergeMultiset(FindingLe, a, b);
    FindingLeTotalOrder();
    MergeSorted(FindingLe, a, b);
    SortedPermutationUnique(FindingLe, whole, Merge(FindingLe, a, b));
  }
}
