/** The gate view of the result viewer (frontend/app.js) and how far it agrees
    with the evaluation engine. */
module BrowserGate {
  import opened Sequences
  import opened Policy
  import opened Stats
  import opened Gate
  import opened GateFolds
  import opened GateJudgement
  import opened GateAccounting

  datatype Row = Row(endpoint: string, requestCount: int, errorCount: int, p95: real)

  datatype BrowserFinding = BrowserFinding(scope: string, metric: Metric, check: Check, status: Status)

  datatype Verdict = Verdict(status: Status, passed: int, unknown: int, failed: int, findings: seq<BrowserFinding>)

  function RowErrorRate(c: Row): real {
    if c.requestCount == 0 then 0.0 else c.errorCount as real / c.requestCount as real * 100.0
  }

  function IndexRows(rows: seq<Row>): map<string, Row> {
    if rows == [] then map[]
    else IndexRows(rows[..|rows| - 1])[rows[|rows| - 1].endpoint := rows[|rows| - 1]]
  }

  function RowFindings(index: map<string, Row>, maxRegressionPct: real, maxErrorRate: real): Row -> seq<BrowserFinding> {
    (c: Row) =>
      (if RowErrorRate(c) > maxErrorRate then [BrowserFinding(c.endpoint, ErrorRate, Budget, Fail)] else [])
      + (if c.endpoint !in index then [BrowserFinding(c.endpoint, P95, Regression, Unknown)]
         else if PercentChange(index[c.endpoint].p95, c.p95) > maxRegressionPct
         then [BrowserFinding(c.endpoint, P95, Regression, Fail)] else [])
  }

  function CountOf(fs: seq<BrowserFinding>, s: Status): int {
    if fs == [] then 0 else CountOf(fs[..|fs| - 1], s) + (if fs[|fs| - 1].status == s then 1 else 0)
  }

  function VerdictOf(findings: seq<BrowserFinding>, rows: int): Verdict {
    var failed, unknown := CountOf(findings, Fail), CountOf(findings, Unknown);
    Verdict(if failed > 0 then Fail else if unknown > 0 then Warn else Pass, rows - failed - unknown, unknown, failed, findings)
  }

  /** The body of the view's loop over the current endpoints. */
  method CheckRow(index: map<string, Row>, maxRegressionPct: real, maxErrorRate: real, c: Row) returns (found: seq<BrowserFinding>)
    ensures found == RowFindings(index, maxRegressionPct, maxErrorRate)(c)
  {
    found := [];
    var errorRate := if c.requestCount != 0 then c.errorCount as real / c.requestCount as real * 100.0 else 0.0;
    if errorRate > maxErrorRate {
      found := found + [BrowserFinding(c.endpoint, ErrorRate, Budget, Fail)];
    }
    if c.endpoint !in index {
      found := found + [BrowserFinding(c.endpoint, P95, Regression, Unknown)];
      return;
    }
    var b := index[c.endpoint];
    var changePct := if b.p95 != 0.0 then (c.p95 - b.p95) / b.p95 * 100.0 else 0.0;
    if changePct > maxRegressionPct {
      found := found + [BrowserFinding(c.endpoint, P95, Regression, Fail)];
    }
  }

  method GateView(baseline: seq<Row>, current: seq<Row>, maxRegressionPct: real, maxErrorRate: real) returns (v: Verdict)
    ensures v == VerdictOf(Flatten(RowFindings(IndexRows(baseline), maxRegressionPct, maxErrorRate), current), |current|)
  {
    hide RowFindings, CountOf;
    var index: map<string, Row> := map[];
    for i := 0 to |baseline|
      invariant index == IndexRows(baseline[..i])
    {
      assert baseline[..i + 1][..i] == baseline[..i];
      index := index[baseline[i].endpoint := baseline[i]];
    }
    assert baseline[..|baseline|] == baseline;

    var findings: seq<BrowserFinding> := [];
    ghost var perRow := RowFindings(index, maxRegressionPct, maxErrorRate);
    for i := 0 to |current|
      invariant findings == Flatten(perRow, current[..i])
    {
      assert current[..i + 1] == current[..i] + [current[i]];
      FlattenOne(perRow, current[..i], current[i]);
      var found := CheckRow(index, maxRegressionPct, maxErrorRate, current[i]);
      findings := findings + found;
    }
    assert current[..|current|] == current;

    v := Conclude(findings, |current|);
  }

  /** The counts over the collected findings and the status they give. */
  method Conclude(findings: seq<BrowserFinding>, rows: int) returns (v: Verdict)
    ensures v == VerdictOf(findings, rows)
  {
    var failed, unknown := 0, 0;
    for i := 0 to |findings|
      invariant failed == CountOf(findings[..i], Fail) && unknown == CountOf(findings[..i], Unknown)
    {
      assert findings[..i + 1][..i] == findings[..i];
      if findings[i].status == Fail { failed := failed + 1; }
      if findings[i].status == Unknown { unknown := unknown + 1; }
    }
    assert findings[..|findings|] == findings;
    var status := if failed > 0 then Fail else if unknown > 0 then Warn else Pass;
    v := Verdict(status, rows - failed - unknown, unknown, failed, findings);
  }

  // ----- The same question put to the engine -----

  /** The two settings of the view as a policy: every sample counts, unknowns warn. */
  function ViewPolicy(maxRegressionPct: real, maxErrorRate: real): Policy {
    Policy(1, Warn,
           MetricPolicy(Some(0), None,
                        Some(LatencyPolicy(None, None, Some(maxRegressionPct), None, None)), None,
                        Some(ErrorRatePolicy(Some(maxErrorRate), None, None, None))),
           map[])
  }

  function ToRow(s: EndpointStats): Row {
    Row(s.endpoint, s.requestCount, s.errorCount, s.p95)
  }

  function ToRows(s: seq<EndpointStats>): (rows: seq<Row>)
    ensures |rows| == |s|
  {
    seq(|s|, i requires 0 <= i < |s| => ToRow(s[i]))
  }

  /** Statistics as the analysis computes them. */
  ghost predicate Computed(s: EndpointStats) {
    s.requestCount >= 0 && s.errorRate == RowErrorRate(ToRow(s))
  }

  /** The one disagreement: the endpoint became faster, yet its relative change
      exceeds the allowance; the engine's noise floor of 0 ms lets that pass. It
      takes a negative allowance, of which the endpoint improved by less, or a
      negative baseline. */
  predicate TooLittleImproved(cur: EndpointStats, view: BaselineView, maxRegressionPct: real) {
    view.Present? && cur.p95 < view.stats.p95 && PercentChange(view.stats.p95, cur.p95) > maxRegressionPct
  }

  function Brief(f: Finding): BrowserFinding {
    BrowserFinding(f.scope, f.metric, f.check, f.status)
  }

  function Briefs(fs: seq<Finding>): (bs: seq<BrowserFinding>)
    ensures |bs| == |fs|
  {
    seq(|fs|, i requires 0 <= i < |fs| => Brief(fs[i]))
  }

  lemma {:induction false} IndexRowsOf(s: seq<EndpointStats>)
    ensures IndexRows(ToRows(s)).Keys == IndexByEndpoint(s).Keys
    ensures forall e :: e in IndexByEndpoint(s) ==> IndexRows(ToRows(s))[e] == ToRow(IndexByEndpoint(s)[e])
  {
    if s != [] {
      IndexRowsOf(s[..|s| - 1]);
      assert ToRows(s)[..|s| - 1] == ToRows(s[..|s| - 1]);
    }
  }

  lemma ViewPolicySlots(cur: EndpointStats, view: BaselineView, x: real, y: real)
    requires !view.NotRequested?
    ensures var mp := EffectiveMetricPolicy(ViewPolicy(x, y), cur.endpoint);
      EndpointFindings(cur, view, mp)
      == SlotFindings(cur, view, mp, Slot(P95, Regression)) + SlotFindings(cur, view, mp, Slot(ErrorRate, Budget))
  {}

  /** One endpoint: the same findings, plus one FAIL of the view in the case of
      disagreement. */
  lemma OneEndpoint(cur: EndpointStats, index: map<string, EndpointStats>, rows: map<string, Row>, x: real, y: real)
    requires Computed(cur)
    requires rows.Keys == index.Keys && forall e :: e in index ==> rows[e] == ToRow(index[e])
    requires cur.endpoint in index ==> index[cur.endpoint].requestCount >= 0
    ensures var view := View(Some(index), cur.endpoint);
      var fs, bs := FindingsAt(cur, Some(index), ViewPolicy(x, y)), RowFindings(rows, x, y)(ToRow(cur));
      var extra := if TooLittleImproved(cur, view, x) then 1 else 0;
      && |fs| == 2 && (forall f :: f in fs ==> !f.status.Other? && f.status != Warn)
      && CountOf(bs, Fail) == CountStatus(fs, Fail) + extra
      && CountOf(bs, Unknown) == CountStatus(fs, Unknown)
      && |bs| == |NonPass(fs)| + extra
      && (extra == 0 ==> multiset(bs) == multiset(Briefs(NonPass(fs))))
  {
    hide PercentChange, SlotFindings, EndpointFindings, Judge, Applies, NonPass, CountStatus, CountOf, Briefs, RowFindings, ViewPolicy,
         EffectiveMetricPolicy, RowErrorRate;
    var view, mp := View(Some(index), cur.endpoint), EffectiveMetricPolicy(ViewPolicy(x, y), cur.endpoint);
    ViewPolicySlots(cur, view, x, y);
    SlotJudged(cur, view, mp, Slot(P95, Regression));
    SlotJudged(cur, view, mp, Slot(ErrorRate, Budget));
    ViewPolicyJudgements(cur, view, x, y);
    var f, g := SlotFindings(cur, view, mp, Slot(P95, Regression))[0], SlotFindings(cur, view, mp, Slot(ErrorRate, Budget))[0];
    assert FindingsAt(cur, Some(index), ViewPolicy(x, y)) == [f, g];
    OneRow(cur, view, rows, x, y, f, g);
  }

  lemma ViewPolicyJudgements(cur: EndpointStats, view: BaselineView, x: real, y: real)
    requires !view.NotRequested? && cur.requestCount >= 0
    requires view.Present? ==> view.stats.requestCount >= 0
    ensures var mp := EffectiveMetricPolicy(ViewPolicy(x, y), cur.endpoint);
      && (forall slot :: Applies(view, mp, slot) <==> slot == Slot(P95, Regression) || slot == Slot(ErrorRate, Budget))
      && Judge(cur, view, mp, Slot(P95, Regression))
         == (if view.Missing? then Unknown
             else if PercentChange(view.stats.p95, cur.p95) > x && cur.p95 >= view.stats.p95 then Fail else Pass)
      && Judge(cur, view, mp, Slot(ErrorRate, Budget)) == if cur.errorRate > y then Fail else Pass
  {
    hide PercentChange;
  }

  lemma OneRow(cur: EndpointStats, view: BaselineView, rows: map<string, Row>, x: real, y: real, f: Finding, g: Finding)
    requires Computed(cur) && !view.NotRequested?
    requires cur.endpoint in rows <==> view.Present?
    requires view.Present? ==> rows[cur.endpoint] == ToRow(view.stats)
    requires KeyOf(f) == (cur.endpoint, Slot(P95, Regression)) && KeyOf(g) == (cur.endpoint, Slot(ErrorRate, Budget))
    requires f.status == if view.Missing? then Unknown
                         else if PercentChange(view.stats.p95, cur.p95) > x && cur.p95 >= view.stats.p95 then Fail else Pass
    requires g.status == if cur.errorRate > y then Fail else Pass
    ensures var bs := RowFindings(rows, x, y)(ToRow(cur));
      var extra := if TooLittleImproved(cur, view, x) then 1 else 0;
      && CountOf(bs, Fail) == CountStatus([f, g], Fail) + extra
      && CountOf(bs, Unknown) == CountStatus([f, g], Unknown)
      && |bs| == |NonPass([f, g])| + extra
      && (extra == 0 ==> multiset(bs) == multiset(Briefs(NonPass([f, g]))))
  {
    hide PercentChange, RowFindings, NonPass, CountStatus, CountOf, Briefs, TooLittleImproved;
    TwoFindings(f, g);
    var bf, bg := RegressionPart(cur, view, x, f), if g.status == Pass then [] else [Brief(g)];
    RowInParts(cur, view, rows, x, y, f, g);
    CountOfShort(bg, bf, Fail);
    CountOfShort(bg, bf, Unknown);
    BriefsShort(f, g);
  }

  /** What the view lists about p95, in terms of the engine's finding. */
  function RegressionPart(cur: EndpointStats, view: BaselineView, x: real, f: Finding): seq<BrowserFinding> {
    if f.status != Pass then [Brief(f)]
    else if TooLittleImproved(cur, view, x) then [Brief(f).(status := Fail)]
    else []
  }

  lemma RowInParts(cur: EndpointStats, view: BaselineView, rows: map<string, Row>, x: real, y: real, f: Finding, g: Finding)
    requires Computed(cur) && !view.NotRequested?
    requires cur.endpoint in rows <==> view.Present?
    requires view.Present? ==> rows[cur.endpoint] == ToRow(view.stats)
    requires KeyOf(f) == (cur.endpoint, Slot(P95, Regression)) && KeyOf(g) == (cur.endpoint, Slot(ErrorRate, Budget))
    requires f.status == if view.Missing? then Unknown
                         else if PercentChange(view.stats.p95, cur.p95) > x && cur.p95 >= view.stats.p95 then Fail else Pass
    requires g.status == if cur.errorRate > y then Fail else Pass
    ensures RowFindings(rows, x, y)(ToRow(cur)) == (if g.status == Pass then [] else [Brief(g)]) + RegressionPart(cur, view, x, f)
    ensures f.status != Pass ==> !TooLittleImproved(cur, view, x)
  {
    hide PercentChange, RowErrorRate;
  }

  lemma BriefsShort(f: Finding, g: Finding)
    ensures var fs := (if f.status == Pass then [] else [f]) + (if g.status == Pass then [] else [g]);
      Briefs(fs) == (if f.status == Pass then [] else [Brief(f)]) + (if g.status == Pass then [] else [Brief(g)])
  {}

  lemma CountOfShort(a: seq<BrowserFinding>, b: seq<BrowserFinding>, s: Status)
    requires |a| <= 1 && |b| <= 1
    ensures CountOf(a + b, s) == (if |a| == 1 && a[0].status == s then 1 else 0) + (if |b| == 1 && b[0].status == s then 1 else 0)
  {
    CountOfConcat(a, b, s);
  }

  lemma TwoFindings(f: Finding, g: Finding)
    ensures NonPass([f, g]) == (if f.status == Pass then [] else [f]) + (if g.status == Pass then [] else [g])
    ensures forall s :: CountStatus([f, g], s) == (if f.status == s then 1 else 0) + (if g.status == s then 1 else 0)
  {
    assert [f, g] == [f] + [g];
    FoldsConcat(Pass, [f], [g]);
    forall s ensures CountStatus([f, g], s) == (if f.status == s then 1 else 0) + (if g.status == s then 1 else 0) {
      CountConcat([f], [g], s);
    }
  }

  lemma {:induction false} CountOfConcat(a: seq<BrowserFinding>, b: seq<BrowserFinding>, s: Status)
    ensures CountOf(a + b, s) == CountOf(a, s) + CountOf(b, s)
  {
    if b == [] {
      assert a + b == a;
    } else {
      assert (a + b)[..|a + b| - 1] == a + b[..|b| - 1];
      CountOfConcat(a, b[..|b| - 1], s);
    }
  }

  /** How many endpoints the view and the engine disagree on. */
  function Disagreements(current: seq<EndpointStats>, index: BaselineIndex, x: real): nat {
    if current == [] then 0
    else
      var last := current[|current| - 1];
      Disagreements(current[..|current| - 1], index, x)
      + (if TooLittleImproved(last, View(index, last.endpoint), x) then 1 else 0)
  }

  lemma {:induction false} NoDisagreement(current: seq<EndpointStats>, index: BaselineIndex, x: real)
    ensures Disagreements(current, index, x) == 0
       <==> forall cur :: cur in current ==> !TooLittleImproved(cur, View(index, cur.endpoint), x)
  {
    hide TooLittleImproved, View;
    if current != [] {
      var init, last := current[..|current| - 1], current[|current| - 1];
      NoDisagreement(init, index, x);
      assert current == init + [last];
    }
  }

  lemma BriefsConcat(a: seq<Finding>, b: seq<Finding>)
    ensures Briefs(a + b) == Briefs(a) + Briefs(b)
  {}

  lemma {:induction false} AllEndpoints(current: seq<EndpointStats>, index: map<string, EndpointStats>, rows: map<string, Row>, x: real, y: real)
    requires forall s :: s in current ==> Computed(s)
    requires rows.Keys == index.Keys && forall e :: e in index ==> rows[e] == ToRow(index[e]) && index[e].requestCount >= 0
    ensures var fs, bs := AllFindings(current, Some(index), ViewPolicy(x, y)), Flatten(RowFindings(rows, x, y), ToRows(current));
      var extra := Disagreements(current, Some(index), x);
      && |fs| == 2 * |current| && (forall f :: f in fs ==> !f.status.Other? && f.status != Warn)
      && CountOf(bs, Fail) == CountStatus(fs, Fail) + extra
      && CountOf(bs, Unknown) == CountStatus(fs, Unknown)
      && |bs| == |NonPass(fs)| + extra
      && (extra == 0 ==> multiset(bs) == multiset(Briefs(NonPass(fs))))
  {
    hide FindingsAt, RowFindings, TooLittleImproved, Computed, View, ViewPolicy;
    if current != [] {
      var init, last := current[..|current| - 1], current[|current| - 1];
      AllEndpoints(init, index, rows, x, y);
      OneEndpoint(last, index, rows, x, y);
      assert ToRows(current)[..|current| - 1] == ToRows(init);
      var pol := ViewPolicy(x, y);
      var fs, f := AllFindings(init, Some(index), pol), FindingsAt(last, Some(index), pol);
      var bs, b := Flatten(RowFindings(rows, x, y), ToRows(init)), RowFindings(rows, x, y)(ToRow(last));
      assert AllFindings(current, Some(index), pol) == fs + f;
      assert Flatten(RowFindings(rows, x, y), ToRows(current)) == bs + b;
      FoldsConcat(Warn, fs, f);
      CountConcat(fs, f, Fail);
      CountConcat(fs, f, Unknown);
      CountOfConcat(bs, b, Fail);
      CountOfConcat(bs, b, Unknown);
      BriefsConcat(NonPass(fs), NonPass(f));
    }
  }

  lemma {:induction false} BriefsPermuted(a: seq<Finding>, b: seq<Finding>)
    requires multiset(a) == multiset(b)
    ensures multiset(Briefs(a)) == multiset(Briefs(b))
  {
    PermutationLength(a, b);
    if a != [] {
      var i := MatchHead(a, b);
      BriefsPermuted(a[1..], RemoveAt(b, i));
      assert Briefs(a) == [Brief(a[0])] + Briefs(a[1..]);
      assert Briefs(b) == Briefs(b[..i]) + [Brief(b[i])] + Briefs(b[i + 1..]);
      assert Briefs(RemoveAt(b, i)) == Briefs(b[..i]) + Briefs(b[i + 1..]);
    }
  }

  lemma {:induction false} VerdictFromCounts(fs: seq<Finding>)
    requires forall f :: f in fs ==> !f.status.Other? && f.status != Warn
    ensures Worst(Warn, fs) == if CountStatus(fs, Fail) > 0 then Fail else if CountStatus(fs, Unknown) > 0 then Warn else Pass
  {
    if fs != [] { VerdictFromCounts(fs[..|fs| - 1]); }
  }

  /** For every setting of the view, it lists exactly the engine's violations if
      and only if no endpoint became faster with a relative change beyond the
      allowance. Then the statuses and the failed and unknown counts agree too.
      The count of passed checks is too small by one per endpoint and one more
      per disagreement. */
  lemma ViewAgreesExactlyWhen(
      current: seq<EndpointStats>, baseline: seq<EndpointStats>, x: real, y: real, r: GateResult, v: Verdict)
    requires forall s :: s in current ==> Computed(s)
    requires forall s :: s in baseline ==> Computed(s)
    requires Reports(current, Some(baseline), ViewPolicy(x, y), r)
    requires v == VerdictOf(Flatten(RowFindings(IndexRows(ToRows(baseline)), x, y), ToRows(current)), |current|)
    ensures multiset(v.findings) == multiset(Briefs(r.violations))
       <==> forall cur :: cur in current ==> !TooLittleImproved(cur, View(Indexed(Some(baseline)), cur.endpoint), x)
    ensures multiset(v.findings) == multiset(Briefs(r.violations)) ==>
      v.status == r.status && v.failed == r.summary.failed && v.unknown == r.summary.unknown
    ensures v.passed == r.summary.passed - |current| - Disagreements(current, Indexed(Some(baseline)), x)
  {
    hide AllFindings, RowFindings, TooLittleImproved, View, ViewPolicy, CountOf, CountStatus, NonPass;
    var pol := ViewPolicy(x, y);
    assert pol.unknownTreatment == Warn by { ViewPolicyTreatment(x, y); }
    var index, rows := IndexByEndpoint(baseline), IndexRows(ToRows(baseline));
    IndexRowsOf(baseline);
    forall e | e in index ensures index[e].requestCount >= 0 {
      IndexKeys(baseline, e);
      assert Computed(index[e]);
    }
    AllEndpoints(current, index, rows, x, y);
    NoDisagreement(current, Some(index), x);
    var fs := AllFindings(current, Some(index), pol);
    BriefsPermuted(r.violations, NonPass(fs));
    VerdictFromCounts(fs);
    PermutationLength(Briefs(r.violations), Briefs(NonPass(fs)));
    if multiset(v.findings) == multiset(Briefs(r.violations)) {
      PermutationLength(v.findings, Briefs(r.violations));
    }
    CountsCoverFindings(rows, current, x, y);
    TallyComplete(fs);
  }

  lemma ViewPolicyTreatment(x: real, y: real)
    ensures ViewPolicy(x, y).unknownTreatment == Warn
  {}

  lemma {:induction false} CountsCoverFindings(rows: map<string, Row>, current: seq<EndpointStats>, x: real, y: real)
    ensures var bs := Flatten(RowFindings(rows, x, y), ToRows(current)); CountOf(bs, Fail) + CountOf(bs, Unknown) == |bs|
  {
    if current != [] {
      var init, last := current[..|current| - 1], current[|current| - 1];
      CountsCoverFindings(rows, init, x, y);
      assert ToRows(current)[..|current| - 1] == ToRows(init);
      var bs, b := Flatten(RowFindings(rows, x, y), ToRows(init)), RowFindings(rows, x, y)(ToRow(last));
      CountOfConcat(bs, b, Fail);
      CountOfConcat(bs, b, Unknown);
      CountsCoverRow(rows, ToRow(last), x, y);
    }
  }

  lemma CountsCoverRow(rows: map<string, Row>, c: Row, x: real, y: real)
    ensures var b := RowFindings(rows, x, y)(c); CountOf(b, Fail) + CountOf(b, Unknown) == |b|
  {
    hide PercentChange, RowErrorRate, CountOf;
    FailedOrUnknown(RowFindings(rows, x, y)(c));
  }

  lemma {:induction false} FailedOrUnknown(fs: seq<BrowserFinding>)
    requires forall i :: 0 <= i < |fs| ==> fs[i].status in {Fail, Unknown}
    ensures CountOf(fs, Fail) + CountOf(fs, Unknown) == |fs|
  {
    if fs != [] { FailedOrUnknown(fs[..|fs| - 1]); }
  }

  /** For allowances of at least 0% and non-negative baselines the view refines
      the engine; only its count of passed checks is too small, by one per
      endpoint, so that it turns negative when most checks fail. */
  lemma ViewRefinesEngine(
      current: seq<EndpointStats>, baseline: seq<EndpointStats>, x: real, y: real, r: GateResult, v: Verdict)
    requires forall s :: s in current ==> Computed(s)
    requires forall s :: s in baseline ==> Computed(s) && s.p95 >= 0.0
    requires x >= 0.0
    requires Reports(current, Some(baseline), ViewPolicy(x, y), r)
    requires v == VerdictOf(Flatten(RowFindings(IndexRows(ToRows(baseline)), x, y), ToRows(current)), |current|)
    ensures multiset(v.findings) == multiset(Briefs(r.violations))
    ensures v.status == r.status && v.failed == r.summary.failed && v.unknown == r.summary.unknown
    ensures v.passed == r.summary.passed - |current|
  {
    hide AllFindings, RowFindings, View, ViewPolicy, PercentChange, NonPass, CountOf, CountStatus;
    var index := IndexByEndpoint(baseline);
    forall cur | cur in current ensures !TooLittleImproved(cur, View(Some(index), cur.endpoint), x) {
      ImprovementPasses(baseline, cur, x);
    }
    ViewAgreesExactlyWhen(current, baseline, x, y, r, v);
    NoDisagreement(current, Some(index), x);
  }

  lemma ImprovementPasses(baseline: seq<EndpointStats>, cur: EndpointStats, x: real)
    requires x >= 0.0 && forall s :: s in baseline ==> s.p95 >= 0.0
    ensures !TooLittleImproved(cur, View(Some(IndexByEndpoint(baseline)), cur.endpoint), x)
  {}

  lemma DisagreementNeedsNegative(cur: EndpointStats, view: BaselineView, x: real)
    requires TooLittleImproved(cur, view, x)
    ensures x < 0.0 || view.stats.p95 < 0.0
  {}

  /** On one endpoint that disagrees and keeps its error rate, the view fails what
      the engine passes. */
  lemma DisagreementTurnsVerdict(cur: EndpointStats, base: EndpointStats, x: real, y: real, r: GateResult, v: Verdict)
    requires Computed(cur) && Computed(base) && base.endpoint == cur.endpoint
    requires TooLittleImproved(cur, Present(base), x) && cur.errorRate <= y
    requires Reports([cur], Some([base]), ViewPolicy(x, y), r)
    requires v == VerdictOf(Flatten(RowFindings(IndexRows(ToRows([base])), x, y), ToRows([cur])), 1)
    ensures r.status == Pass && v.status == Fail
  {
    hide AllFindings, RowFindings, ViewPolicy, CountOf, CountStatus, NonPass, PercentChange;
    assert ViewPolicy(x, y).unknownTreatment == Warn by { ViewPolicyTreatment(x, y); }
    var index, rows := IndexByEndpoint([base]), IndexRows(ToRows([base]));
    IndexRowsOf([base]);
    assert View(Some(index), cur.endpoint) == Present(base);
    AllEndpoints([cur], index, rows, x, y);
    var fs := AllFindings([cur], Some(index), ViewPolicy(x, y));
    VerdictFromCounts(fs);
    assert Disagreements([cur], Some(index), x) == 1;
    EnginePasses(cur, base, x, y);
    AllPass(fs);
  }

  lemma EnginePasses(cur: EndpointStats, base: EndpointStats, x: real, y: real)
    requires Computed(cur) && Computed(base) && base.endpoint == cur.endpoint
    requires TooLittleImproved(cur, Present(base), x) && cur.errorRate <= y
    ensures forall f :: f in AllFindings([cur], Some(IndexByEndpoint([base])), ViewPolicy(x, y)) ==> f.status == Pass
  {
    hide AllFindings, ViewPolicy, PercentChange, Applies, Judge, EffectiveMetricPolicy;
    var index := IndexByEndpoint([base]);
    ViewPolicyJudgements(cur, Present(base), x, y);
    forall f | f in AllFindings([cur], Some(index), ViewPolicy(x, y)) ensures f.status == Pass {
      var c := FindingJudged([cur], Some(index), ViewPolicy(x, y), f);
    }
  }

  lemma {:induction false} AllPass(fs: seq<Finding>)
    requires forall f :: f in fs ==> f.status == Pass
    ensures CountStatus(fs, Fail) == CountStatus(fs, Unknown) == 0
  {
    if fs != [] { AllPass(fs[..|fs| - 1]); }
  }

  /** Both kinds of disagreement: an allowance of -10% missed by half, and an
      allowance of +10% with a baseline below zero. */
  lemma ViewCanDisagree() returns (faster: EndpointStats, base: EndpointStats, below: EndpointStats, negative: EndpointStats)
    ensures Computed(faster) && Computed(base) && Computed(below) && Computed(negative)
    ensures base.p95 == 100.0 && faster.p95 == 95.0 && TooLittleImproved(faster, Present(base), -10.0)
    ensures negative.p95 == -1.0 && below.p95 == -3.0 && TooLittleImproved(below, Present(negative), 10.0)
  {
    base := EndpointStats("/", 50, 0, 0.0, 0.0, 0.0, 0.0, 100.0, 0.0, 0.0, TimingBreakdown(0.0, 0.0, 0.0, 0.0, 0.0), map[]);
    faster, below, negative := base.(p95 := 95.0), base.(p95 := -3.0), base.(p95 := -1.0);
    assert PercentChange(100.0, 95.0) == -5.0 && PercentChange(-1.0, -3.0) == 200.0;
  }

  /** A run of one endpoint that fails both checks is shown with minus one passed
      check. */
  lemma BothFailingCountsMinusOne(rows: map<string, Row>, c: Row, x: real, y: real)
    requires c.endpoint in rows
    requires RowErrorRate(c) > y && PercentChange(rows[c.endpoint].p95, c.p95) > x
    ensures var v := VerdictOf(Flatten(RowFindings(rows, x, y), [c]), 1);
      v.status == Fail && v.failed == 2 && v.unknown == 0 && v.passed == -1
  {
    hide PercentChange, RowErrorRate, CountOf, Flatten;
    var a, b := BrowserFinding(c.endpoint, ErrorRate, Budget, Fail), BrowserFinding(c.endpoint, P95, Regression, Fail);
    assert RowFindings(rows, x, y)(c) == [a] + [b];
    CountOfShort([a], [b], Fail);
    CountOfShort([a], [b], Unknown);
    FlattenSingle(RowFindings(rows, x, y), c);
  }

  lemma FlattenSingle<A, B>(f: A -> seq<B>, x: A)
    ensures Flatten(f, [x]) == f(x)
  {}
}
