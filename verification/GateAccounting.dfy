/** The gate answers every configured check exactly once, never invents an
    answer, and derives its verdict from these answers alone. */
module GateAccounting {
  import opened Sequences
  import opened Policy
  import opened Stats
  import opened Gate
  import opened GateFolds
  import opened GateJudgement
  import opened GateOrder

  // ----- Every question is answered once -----

  type Question = (string, Slot)

  function Asked(cur: EndpointStats, view: BaselineView, mp: MetricPolicy): Slot -> seq<Question> {
    (slot: Slot) => if Applies(view, mp, slot) then [(cur.endpoint, slot)] else []
  }

  function AskedAbout(index: BaselineIndex, pol: Policy): EndpointStats -> seq<Question> {
    (cur: EndpointStats) => Flatten(Asked(cur, View(index, cur.endpoint), EffectiveMetricPolicy(pol, cur.endpoint)), SLOTS)
  }

  /** The configured applicable checks, endpoint by endpoint. */
  function Questions(current: seq<EndpointStats>, index: BaselineIndex, pol: Policy): seq<Question> {
    Flatten(AskedAbout(index, pol), current)
  }

  function KeyOf(f: Finding): Question {
    (f.scope, Slot(f.metric, f.check))
  }

  function Keys(fs: seq<Finding>): (ks: seq<Question>)
    ensures |ks| == |fs| && forall i :: 0 <= i < |fs| ==> ks[i] == KeyOf(fs[i])
  {
    seq(|fs|, i requires 0 <= i < |fs| => KeyOf(fs[i]))
  }

  lemma {:induction false} KeysOfFlatten<A>(f: A -> seq<Finding>, q: A -> seq<Question>, s: seq<A>)
    requires forall x :: x in s ==> Keys(f(x)) == q(x)
    ensures Keys(Flatten(f, s)) == Flatten(q, s)
  {
    if s != [] {
      KeysOfFlatten(f, q, s[..|s| - 1]);
      assert Keys(Flatten(f, s)) == Keys(Flatten(f, s[..|s| - 1])) + Keys(f(s[|s| - 1]));
    }
  }

  lemma EndpointQuestions(cur: EndpointStats, view: BaselineView, mp: MetricPolicy)
    ensures Keys(EndpointFindings(cur, view, mp)) == Flatten(Asked(cur, view, mp), SLOTS)
  {
    hide EndpointFindings, SlotFindings, Applies, Judge;
    EndpointFindingsBySlot(cur, view, mp);
    forall slot: Slot ensures Keys(SlotFindings(cur, view, mp, slot)) == Asked(cur, view, mp)(slot) {
      SlotJudged(cur, view, mp, slot);
    }
    KeysOfFlatten(SlotFindingsOf(cur, view, mp), Asked(cur, view, mp), SLOTS);
  }

  /** One finding per configured applicable check, in order, and no other. */
  lemma FindingsAnswerQuestions(current: seq<EndpointStats>, index: BaselineIndex, pol: Policy)
    ensures Keys(AllFindings(current, index, pol)) == Questions(current, index, pol)
  {
    hide EndpointFindings, Asked;
    forall cur ensures Keys(FindingsAt(cur, index, pol)) == AskedAbout(index, pol)(cur) {
      EndpointQuestions(cur, View(index, cur.endpoint), EffectiveMetricPolicy(pol, cur.endpoint));
    }
    KeysOfFlatten(FindingsOf(index, pol), AskedAbout(index, pol), current);
  }

  lemma {:induction false} TallyComplete(fs: seq<Finding>)
    requires forall f :: f in fs ==> !f.status.Other?
    ensures var t := Tally(fs);
      t.passed + t.warned + t.failed + t.unknown == |fs| && t.warned + t.failed + t.unknown == |NonPass(fs)|
  {
    if fs != [] { TallyComplete(fs[..|fs| - 1]); }
  }

  lemma FindingJudged(current: seq<EndpointStats>, index: BaselineIndex, pol: Policy, f: Finding) returns (cur: EndpointStats)
    requires f in AllFindings(current, index, pol)
    ensures cur in current && cur.endpoint == f.scope
    ensures var view, mp, slot := View(index, f.scope), EffectiveMetricPolicy(pol, f.scope), Slot(f.metric, f.check);
      Applies(view, mp, slot) && f.status == Judge(cur, view, mp, slot)
  {
    hide AllFindings, SlotFindings, Applies, Judge, EffectiveMetricPolicy, View;
    cur := FindingOrigin(current, index, pol, f);
    SlotJudged(cur, View(index, f.scope), EffectiveMetricPolicy(pol, f.scope), Slot(f.metric, f.check));
  }

  lemma FindingExists(current: seq<EndpointStats>, index: BaselineIndex, pol: Policy, cur: EndpointStats, slot: Slot)
      returns (f: Finding)
    requires cur in current
    requires Applies(View(index, cur.endpoint), EffectiveMetricPolicy(pol, cur.endpoint), slot)
    ensures f in AllFindings(current, index, pol)
    ensures KeyOf(f) == (cur.endpoint, slot)
    ensures f.status == Judge(cur, View(index, cur.endpoint), EffectiveMetricPolicy(pol, cur.endpoint), slot)
  {
    hide EndpointFindings, SlotFindings, Applies, Judge, EffectiveMetricPolicy, View, AllFindings;
    var view, mp := View(index, cur.endpoint), EffectiveMetricPolicy(pol, cur.endpoint);
    SlotJudged(cur, view, mp, slot);
    f := SlotFindings(cur, view, mp, slot)[0];
    InEndpointFindings(cur, view, mp, f);
    InAllFindings(current, index, pol, f);
  }

  /** The counts add up to the number of configured applicable checks, and the
      violations are all findings that did not pass, each counted under its status. */
  lemma AccountsForEverything(current: seq<EndpointStats>, baseline: Option<seq<EndpointStats>>, pol: Policy, r: GateResult)
    requires Reports(current, baseline, pol, r)
    ensures var s := r.summary;
      && s.passed + s.warned + s.failed + s.unknown == |Questions(current, Indexed(baseline), pol)|
      && |r.violations| == s.warned + s.failed + s.unknown
      && s.warned == |set i | 0 <= i < |r.violations| && r.violations[i].status == Warn|
      && s.failed == |set i | 0 <= i < |r.violations| && r.violations[i].status == Fail|
      && s.unknown == |set i | 0 <= i < |r.violations| && r.violations[i].status == Unknown|
  {
    hide Judge, Applies, AllFindings, Questions;
    var index := Indexed(baseline);
    var fs := AllFindings(current, index, pol);
    forall f | f in fs ensures !f.status.Other? {
      var cur := FindingJudged(current, index, pol, f);
      JudgementRange(cur, View(index, f.scope), EffectiveMetricPolicy(pol, f.scope), Slot(f.metric, f.check));
    }
    TallyComplete(fs);
    FindingsAnswerQuestions(current, index, pol);
    PermutationLength(r.violations, NonPass(fs));
    ListedByStatus(fs, r.violations, Warn);
    ListedByStatus(fs, r.violations, Fail);
    ListedByStatus(fs, r.violations, Unknown);
  }

  lemma ListedByStatus(fs: seq<Finding>, violations: seq<Finding>, s: Status)
    requires s != Pass && multiset(violations) == multiset(NonPass(fs))
    ensures CountStatus(fs, s) == |set i | 0 <= i < |violations| && violations[i].status == s|
  {
    NonPassCounts(fs, s);
    CountPermuted(violations, NonPass(fs), s);
    StatusPositions(violations, s);
  }

  lemma {:induction false} NonPassCounts(fs: seq<Finding>, s: Status)
    requires s != Pass
    ensures CountStatus(NonPass(fs), s) == CountStatus(fs, s)
  {
    if fs != [] {
      var init, last := fs[..|fs| - 1], fs[|fs| - 1];
      NonPassCounts(init, s);
      CountConcat(NonPass(init), if last.status == Pass then [] else [last], s);
    }
  }

  function StatusOf(): Finding -> Status { (f: Finding) => f.status }

  lemma {:induction false} StatusOccurrences(fs: seq<Finding>, s: Status)
    ensures CountStatus(fs, s) == Occurrences(s, Column(StatusOf(), fs))
  {
    if fs != [] {
      StatusOccurrences(fs[..|fs| - 1], s);
      assert Column(StatusOf(), fs)[..|fs| - 1] == Column(StatusOf(), fs[..|fs| - 1]);
    }
  }

  lemma StatusPositions(fs: seq<Finding>, s: Status)
    ensures CountStatus(fs, s) == |set i | 0 <= i < |fs| && fs[i].status == s|
  {
    hide CountStatus, Occurrences;
    var column := Column(StatusOf(), fs);
    StatusOccurrences(fs, s);
    var ps := OccurrencesPositions(s, column);
    assert ps == set i | 0 <= i < |fs| && fs[i].status == s;
  }

  lemma JudgementRange(cur: EndpointStats, view: BaselineView, mp: MetricPolicy, slot: Slot)
    ensures Judge(cur, view, mp, slot) in {Pass, Warn, Fail, Unknown}
  {}

  /** A violation is listed for a check exactly if the check applies and its
      judgement is that status; in particular it is UNKNOWN exactly when samples
      or the baseline endpoint are missing. */
  lemma ViolationsAreJudgements(
      current: seq<EndpointStats>, baseline: Option<seq<EndpointStats>>, pol: Policy, r: GateResult,
      cur: EndpointStats, slot: Slot, s: Status)
    requires Reports(current, baseline, pol, r) && DistinctEndpoints(current)
    requires cur in current && s != Pass
    ensures var view, mp := View(Indexed(baseline), cur.endpoint), EffectiveMetricPolicy(pol, cur.endpoint);
      (exists v :: v in r.violations && KeyOf(v) == (cur.endpoint, slot) && v.status == s)
      <==> Applies(view, mp, slot) && Judge(cur, view, mp, slot) == s
  {
    hide AllFindings, Judge, Applies, EffectiveMetricPolicy, View;
    var index := Indexed(baseline);
    var fs := AllFindings(current, index, pol);
    if v :| v in r.violations && KeyOf(v) == (cur.endpoint, slot) && v.status == s {
      ViolationIsFinding(fs, r.violations, v);
      var c := FindingJudged(current, index, pol, v);
      assert c == cur;
    }
    if Applies(View(index, cur.endpoint), EffectiveMetricPolicy(pol, cur.endpoint), slot)
       && Judge(cur, View(index, cur.endpoint), EffectiveMetricPolicy(pol, cur.endpoint), slot) == s {
      var f := FindingExists(current, index, pol, cur, slot);
      ViolationIsFinding(fs, r.violations, f);
    }
  }

  lemma ViolationIsFinding(fs: seq<Finding>, violations: seq<Finding>, f: Finding)
    requires multiset(violations) == multiset(NonPass(fs))
    ensures f in violations <==> f in fs && f.status != Pass
  {
    NonPassMultiset(fs, f);
    assert f in violations <==> f in multiset(violations);
    assert f in fs <==> f in multiset(fs);
  }

  // ----- Reasons -----

  /** The documented reasons for UNKNOWN (docs/performance-gate.md): too few
      requests in the current run or, for a regression, in the baseline run; and
      an endpoint the baseline never saw. */
  ghost predicate DocumentedReason(cur: EndpointStats, view: BaselineView, mp: MetricPolicy, slot: Slot, reason: string) {
    var few := mp.MinSamplesOrDefault();
    || (reason == "insufficient_samples"
        && (cur.requestCount < few || (slot.check.Regression? && view.Present? && view.stats.requestCount < few)))
    || (reason == "no_baseline_for_endpoint" && slot.check.Regression? && view.Missing?)
  }

  /** Every listed UNKNOWN carries exactly the reason that applies. It is a
      documented one unless the current run is long enough and only the baseline
      run is too short. */
  lemma ViolationReasons(
      current: seq<EndpointStats>, baseline: Option<seq<EndpointStats>>, pol: Policy, r: GateResult, v: Finding)
      returns (cur: EndpointStats)
    requires Reports(current, baseline, pol, r) && v in r.violations
    ensures cur in current && cur.endpoint == v.scope
    ensures var view, mp, slot := View(Indexed(baseline), v.scope), EffectiveMetricPolicy(pol, v.scope), Slot(v.metric, v.check);
      && v.reason == (if v.status == Unknown then ReasonFor(cur, view, mp, slot) else "")
      && (v.status == Unknown ==>
            (DocumentedReason(cur, view, mp, slot, v.reason)
             <==> (slot.check.Regression? && view.Missing?) || cur.requestCount < mp.MinSamplesOrDefault()))
  {
    hide *;
    ViolationsAmongFindings(current, baseline, pol, r, v);
    var index := Indexed(baseline);
    cur := FindingOrigin(current, index, pol, v);
    var view, mp, slot := View(index, v.scope), EffectiveMetricPolicy(pol, v.scope), Slot(v.metric, v.check);
    SlotJudged(cur, view, mp, slot);
    FindingEvidence(cur, view, mp, slot, v);
    if v.status == Unknown { ReasonDocumented(cur, view, mp, slot); }
  }

  lemma ViolationsAmongFindings(current: seq<EndpointStats>, baseline: Option<seq<EndpointStats>>, pol: Policy, r: GateResult, v: Finding)
    requires Reports(current, baseline, pol, r) && v in r.violations
    ensures v in AllFindings(current, Indexed(baseline), pol)
  {
    hide AllFindings;
    ViolationIsFinding(AllFindings(current, Indexed(baseline), pol), r.violations, v);
  }

  lemma ReasonDocumented(cur: EndpointStats, view: BaselineView, mp: MetricPolicy, slot: Slot)
    requires Applies(view, mp, slot) && Judge(cur, view, mp, slot) == Unknown
    ensures DocumentedReason(cur, view, mp, slot, ReasonFor(cur, view, mp, slot))
       <==> (slot.check.Regression? && view.Missing?) || cur.requestCount < mp.MinSamplesOrDefault()
  {
    hide LimitsOf, Breaches;
  }

  /** A run of 50 requests against a baseline of 5: the finding does not carry the
      documented reason. */
  lemma ShortBaselineReason() returns (cur: EndpointStats, base: EndpointStats, pol: Policy)
    ensures cur.requestCount == 50 && base.requestCount == 5
    ensures forall r :: Reports([cur], Some([base]), pol, r) ==>
      exists v :: v in r.violations && v.status == Unknown && v.check == Regression && v.reason == "insufficient_baseline_samples"
  {
    hide Reports;
    cur := EndpointStats("/", 50, 0, 0.0, 0.0, 0.0, 0.0, 20.0, 0.0, 0.0, TimingBreakdown(0.0, 0.0, 0.0, 0.0, 0.0), map[]);
    base := cur.(requestCount := 5, p95 := 10.0);
    var mp := MetricPolicy(None, None, Some(LatencyPolicy(None, None, Some(20.0), None, None)), None, None);
    pol := Policy(1, Warn, mp, map[]);
    forall r | Reports([cur], Some([base]), pol, r) ensures
      exists v :: v in r.violations && v.status == Unknown && v.check == Regression && v.reason == "insufficient_baseline_samples"
    {
      var slot := Slot(P95, Regression);
      assert cur in [cur] && View(Indexed(Some([base])), "/") == Present(base) && EffectiveMetricPolicy(pol, "/") == mp;
      ViolationsAreJudgements([cur], Some([base]), pol, r, cur, slot, Unknown);
      var v :| v in r.violations && KeyOf(v) == ("/", slot) && v.status == Unknown;
      var c := ViolationReasons([cur], Some([base]), pol, r, v);
      assert v.reason == ReasonFor(cur, Present(base), mp, slot);
    }
  }

  // ----- The verdict -----

  /** The verdict is as bad as `s` exactly if some judgement, UNKNOWN weighed by
      the policy's treatment, is; for a loaded policy it is never UNKNOWN. */
  lemma VerdictIsWorstJudgement(
      current: seq<EndpointStats>, baseline: Option<seq<EndpointStats>>, pol: Policy, r: GateResult, s: Status)
    requires Reports(current, baseline, pol, r) && s in {Warn, Fail}
    ensures Rank(s) <= Rank(r.status) <==>
      exists cur, slot :: cur in current
        && Applies(View(Indexed(baseline), cur.endpoint), EffectiveMetricPolicy(pol, cur.endpoint), slot)
        && Rank(s) <= Rank(Weighted(pol.unknownTreatment,
             Judge(cur, View(Indexed(baseline), cur.endpoint), EffectiveMetricPolicy(pol, cur.endpoint), slot)))
    ensures Loaded(pol) ==> r.status in {Pass, Warn, Fail}
  {
    hide AllFindings, Judge, Applies, EffectiveMetricPolicy, View;
    var index := Indexed(baseline);
    var fs := AllFindings(current, index, pol);
    WorstIsLeastUpperBound(pol.unknownTreatment, fs);
    if Rank(s) <= Rank(r.status) {
      var f :| f in fs && Weighted(pol.unknownTreatment, f.status) == r.status;
      var cur := FindingJudged(current, index, pol, f);
    }
    if cur, slot :|
      && cur in current
      && Applies(View(index, cur.endpoint), EffectiveMetricPolicy(pol, cur.endpoint), slot)
      && Rank(s) <= Rank(Weighted(pol.unknownTreatment,
                       Judge(cur, View(index, cur.endpoint), EffectiveMetricPolicy(pol, cur.endpoint), slot)))
    {
      var f := FindingExists(current, index, pol, cur, slot);
    }
    if Loaded(pol) { LoadedPolicies(pol); }
  }

  /** Some applicable check of the run counts as `s`: by its judgement, or as the
      treatment of an UNKNOWN one. */
  ghost predicate SomeCheckCounts(current: seq<EndpointStats>, index: BaselineIndex, pol: Policy, s: Status) {
    exists cur, slot :: cur in current
      && Applies(View(index, cur.endpoint), EffectiveMetricPolicy(pol, cur.endpoint), slot)
      && var judged := Judge(cur, View(index, cur.endpoint), EffectiveMetricPolicy(pol, cur.endpoint), slot);
         s == if judged == Unknown then pol.unknownTreatment else judged
  }

  /** FAIL if any check counts as FAIL, else WARN if any counts as WARN, else UNKNOWN
      if any counts as that, which takes a policy that did not go through loading,
      else PASS. */
  lemma VerdictInWords(current: seq<EndpointStats>, baseline: Option<seq<EndpointStats>>, pol: Policy, r: GateResult)
    requires Reports(current, baseline, pol, r)
    ensures var index := Indexed(baseline);
      r.status == if SomeCheckCounts(current, index, pol, Fail) then Fail
                  else if SomeCheckCounts(current, index, pol, Warn) then Warn
                  else if SomeCheckCounts(current, index, pol, Unknown) then Unknown
                  else Pass
    ensures Loaded(pol) ==> r.status in {Pass, Warn, Fail}
  {
    hide AllFindings, SomeCheckCounts, SomeFindingCounts, Loaded;
    var index, t := Indexed(baseline), pol.unknownTreatment;
    var fs := AllFindings(current, index, pol);
    VerdictOfFindings(t, fs);
    FindingsCount(current, index, pol, Fail);
    FindingsCount(current, index, pol, Warn);
    FindingsCount(current, index, pol, Unknown);
    if Loaded(pol) { VerdictIsWorstJudgement(current, baseline, pol, r, Warn); }
  }

  lemma FindingsCount(current: seq<EndpointStats>, index: BaselineIndex, pol: Policy, s: Status)
    ensures SomeCheckCounts(current, index, pol, s)
       <==> SomeFindingCounts(pol.unknownTreatment, AllFindings(current, index, pol), s)
  {
    hide AllFindings, Judge, Applies, EffectiveMetricPolicy, View;
    if f :| f in AllFindings(current, index, pol) && s == if f.status == Unknown then pol.unknownTreatment else f.status {
      var cur := FindingJudged(current, index, pol, f);
      var judged := Judge(cur, View(index, cur.endpoint), EffectiveMetricPolicy(pol, cur.endpoint), Slot(f.metric, f.check));
      assert s == if judged == Unknown then pol.unknownTreatment else judged;
    }
    if SomeCheckCounts(current, index, pol, s) {
      var cur, slot :| cur in current
        && Applies(View(index, cur.endpoint), EffectiveMetricPolicy(pol, cur.endpoint), slot)
        && var judged := Judge(cur, View(index, cur.endpoint), EffectiveMetricPolicy(pol, cur.endpoint), slot);
           s == if judged == Unknown then pol.unknownTreatment else judged;
      var f := FindingExists(current, index, pol, cur, slot);
    }
  }

  ghost predicate SomeFindingCounts(t: Status, fs: seq<Finding>, s: Status) {
    exists f :: f in fs && s == if f.status == Unknown then t else f.status
  }

  lemma OneMoreFinding(t: Status, fs: seq<Finding>, s: Status)
    requires fs != []
    ensures var init, last := fs[..|fs| - 1], fs[|fs| - 1];
      SomeFindingCounts(t, fs, s) <==> SomeFindingCounts(t, init, s) || s == if last.status == Unknown then t else last.status
  {
    assert fs == fs[..|fs| - 1] + [fs[|fs| - 1]];
  }

  lemma {:induction false} VerdictOfFindings(t: Status, fs: seq<Finding>)
    ensures Worst(t, fs) == if SomeFindingCounts(t, fs, Fail) then Fail
                            else if SomeFindingCounts(t, fs, Warn) then Warn
                            else if SomeFindingCounts(t, fs, Unknown) then Unknown
                            else Pass
  {
    if fs == [] {
      assert !SomeFindingCounts(t, fs, Fail) && !SomeFindingCounts(t, fs, Warn) && !SomeFindingCounts(t, fs, Unknown);
    } else {
      hide SomeFindingCounts;
      VerdictOfFindings(t, fs[..|fs| - 1]);
      OneMoreFinding(t, fs, Fail);
      OneMoreFinding(t, fs, Warn);
      OneMoreFinding(t, fs, Unknown);
    }
  }

  /** A policy that leaves the treatment of unknowns open warns: the verdict is WARN
      whenever some check is UNKNOWN and none FAILs. */
  lemma UnsetTreatmentWarns(
      decoded: Policy, pol: Policy, current: seq<EndpointStats>, baseline: Option<seq<EndpointStats>>, r: GateResult,
      cur: EndpointStats, slot: Slot)
    requires decoded.version == 1 && decoded.unknownTreatment == Other("") && Parse(Some(decoded)) == Ok(pol)
    requires Reports(current, baseline, pol, r) && cur in current
    requires Applies(View(Indexed(baseline), cur.endpoint), EffectiveMetricPolicy(pol, cur.endpoint), slot)
    requires Judge(cur, View(Indexed(baseline), cur.endpoint), EffectiveMetricPolicy(pol, cur.endpoint), slot) == Unknown
    requires forall c, s :: c in current && Applies(View(Indexed(baseline), c.endpoint), EffectiveMetricPolicy(pol, c.endpoint), s) ==>
      Judge(c, View(Indexed(baseline), c.endpoint), EffectiveMetricPolicy(pol, c.endpoint), s) != Fail
    ensures r.status == Warn
  {
    LoadingExactly(decoded);
    hide Reports, Judge, Applies, EffectiveMetricPolicy, View;
    VerdictInWords(current, baseline, pol, r);
  }

  // ----- Endpoint lists -----

  /** With a baseline, new and removed endpoints are the two differences between
      the runs; without one, neither is reported. */
  lemma ReportedEndpoints(current: seq<EndpointStats>, baseline: Option<seq<EndpointStats>>, pol: Policy, r: GateResult, e: string)
    requires Reports(current, baseline, pol, r)
    ensures e in r.newEndpoints <==> baseline.Some? && e in EndpointSet(current) && e !in EndpointSet(baseline.value)
    ensures e in r.removedEndpoints <==> baseline.Some? && e in EndpointSet(baseline.value) && e !in EndpointSet(current)
  {
    hide AllFindings, Worst, Tally, NonPass;
    var index := Indexed(baseline);
    if baseline.Some? { IndexKeys(baseline.value, e); }
    assert e in r.newEndpoints <==> e in multiset(r.newEndpoints);
    InFlatten(NewEndpointOf(index), current, e);
    if e in EndpointSet(current) && index.Some? && e !in index.value {
      var i :| 0 <= i < |current| && current[i].endpoint == e;
      assert current[i] in current && e in NewEndpointOf(index)(current[i]);
    }
    if cur :| cur in current && e in NewEndpointOf(index)(cur) {
      var i := IndexOfMember(current, cur);
      assert current[i].endpoint == e;
    }
  }

  lemma {:induction false} NewEndpointsDistinct(current: seq<EndpointStats>, index: BaselineIndex)
    requires DistinctEndpoints(current)
    ensures Distinct(NewEndpoints(current, index))
    ensures forall e :: e in NewEndpoints(current, index) ==> e in EndpointSet(current)
  {
    hide View;
    if current != [] {
      var init, last := current[..|current| - 1], current[|current| - 1];
      NewEndpointsDistinct(init, index);
      assert NewEndpoints(current, index) == NewEndpoints(init, index) + NewEndpointOf(index)(last);
      assert last.endpoint !in EndpointSet(init);
    }
  }

  /** For distinct endpoints neither list repeats one. */
  lemma EndpointListsDistinct(current: seq<EndpointStats>, baseline: Option<seq<EndpointStats>>, pol: Policy, r: GateResult)
    requires Reports(current, baseline, pol, r) && DistinctEndpoints(current)
    ensures Distinct(r.newEndpoints) && Distinct(r.removedEndpoints)
  {
    hide AllFindings, NewEndpoints, Worst, Tally, NonPass;
    NewEndpointsDistinct(current, Indexed(baseline));
    DistinctPermuted(NewEndpoints(current, Indexed(baseline)), r.newEndpoints);
  }

  // ----- The treatment of unknowns -----

  lemma FindingsIgnoreTreatment(current: seq<EndpointStats>, index: BaselineIndex, pol: Policy, t: Status)
    ensures AllFindings(current, index, pol.(unknownTreatment := t)) == AllFindings(current, index, pol)
  {
    hide EndpointFindings;
    var pol' := pol.(unknownTreatment := t);
    forall e ensures EffectiveMetricPolicy(pol', e) == EffectiveMetricPolicy(pol, e) {}
    FlattenCongruent(FindingsOf(index, pol'), FindingsOf(index, pol), current);
  }

  /** Changing how UNKNOWN is weighed changes the overall status alone, never
      for the better when the weight grows, and not at all without unknowns. */
  lemma TreatmentOnlyWeighs(
      current: seq<EndpointStats>, baseline: Option<seq<EndpointStats>>, pol: Policy, t: Status, r: GateResult, r': GateResult)
    requires DistinctEndpoints(current)
    requires Reports(current, baseline, pol, r) && Reports(current, baseline, pol.(unknownTreatment := t), r')
    ensures r' == r.(status := r'.status)
    ensures Rank(pol.unknownTreatment) <= Rank(t) ==> Rank(r.status) <= Rank(r'.status)
    ensures r.summary.unknown == 0 ==> r == r'
  {
    hide AllFindings;
    var index := Indexed(baseline);
    var fs := AllFindings(current, index, pol);
    FindingsIgnoreTreatment(current, index, pol, t);
    ViolationsTieFree(current, index, pol, r.violations);
    SortedPermutationUnique(FindingLe, r.violations, r'.violations);
    SameEndpointLists(r, r');
    WorstIsLeastUpperBound(t, fs);
    if Rank(pol.unknownTreatment) <= Rank(t) {
      WorstBound(pol.unknownTreatment, fs, Rank(r'.status));
    }
    if r.summary.unknown == 0 { NoUnknowns(fs, pol.unknownTreatment, t); }
  }

  lemma {:induction false} NoUnknowns(fs: seq<Finding>, t: Status, t': Status)
    requires CountStatus(fs, Unknown) == 0
    ensures Worst(t, fs) == Worst(t', fs)
  {
    if fs != [] { NoUnknowns(fs[..|fs| - 1], t, t'); }
  }
}
