/** The gate is a function of its three arguments: neither the order of the
    endpoints, nor map iteration, nor the arrangement of ties by the sort can
    be observed in a result. */
module GateOrder {
  import opened Sequences
  import opened Text
  import opened Policy
  import opened Stats
  import opened Gate
  import opened GateFolds
  import opened GateJudgement

  lemma {:induction false} SameMembersSorted(a: seq<string>, b: seq<string>)
    requires Distinct(a) && Distinct(b) && SortedBy(StringLe, a) && SortedBy(StringLe, b)
    requires forall e :: e in a <==> e in b
    ensures a == b
  {
    forall e ensures multiset(a)[e] == multiset(b)[e] {
      DistinctCounts(a, e);
      DistinctCounts(b, e);
      assert e in multiset(a) <==> e in a;
      assert e in multiset(b) <==> e in b;
    }
    StringLeTotalOrder();
    SortedPermutationUnique(StringLe, a, b);
  }

  lemma SameEndpointLists(a: GateResult, b: GateResult)
    requires multiset(a.newEndpoints) == multiset(b.newEndpoints)
    requires SortedBy(StringLe, a.newEndpoints) && SortedBy(StringLe, b.newEndpoints)
    requires Distinct(a.removedEndpoints) && Distinct(b.removedEndpoints)
    requires SortedBy(StringLe, a.removedEndpoints) && SortedBy(StringLe, b.removedEndpoints)
    requires forall e :: e in a.removedEndpoints <==> e in b.removedEndpoints
    ensures a.newEndpoints == b.newEndpoints && a.removedEndpoints == b.removedEndpoints
  {
    StringLeTotalOrder();
    SortedPermutationUnique(StringLe, a.newEndpoints, b.newEndpoints);
    SameMembersSorted(a.removedEndpoints, b.removedEndpoints);
  }

  lemma ViolationsTieFree(current: seq<EndpointStats>, index: BaselineIndex, pol: Policy, v: seq<Finding>)
    requires DistinctEndpoints(current)
    requires multiset(v) == multiset(NonPass(AllFindings(current, index, pol)))
    ensures TieFree(FindingLe, v)
  {
    var fs := AllFindings(current, index, pol);
    forall i, j | 0 <= i < |v| && 0 <= j < |v| && FindingLe(v[i], v[j]) && FindingLe(v[j], v[i])
      ensures v[i] == v[j]
    {
      FindingLessTotal(v[i], v[j]);
      NonPassMultiset(fs, v[i]);
      NonPassMultiset(fs, v[j]);
      assert v[i] in multiset(v) && v[j] in multiset(v);
      assert v[i] in multiset(fs) && v[j] in multiset(fs);
      KeysIdentifyFindings(current, index, pol, v[i], v[j]);
    }
  }

  lemma EndpointSetPermuted(a: seq<EndpointStats>, b: seq<EndpointStats>)
    requires multiset(a) == multiset(b)
    ensures EndpointSet(a) <= EndpointSet(b)
  {
    forall e | e in EndpointSet(a) ensures e in EndpointSet(b) {
      var i :| 0 <= i < |a| && a[i].endpoint == e;
      assert a[i] in multiset(b);
      var j := IndexOfMember(b, a[i]);
      assert b[j].endpoint == e;
    }
  }

  /** Whatever two runs of the engine return on two arrangements of the same
      endpoints is the same result, down to the exact order of the violations. */
  lemma OrderIndependence(
      current: seq<EndpointStats>, current': seq<EndpointStats>,
      baseline: Option<seq<EndpointStats>>, baseline': Option<seq<EndpointStats>>,
      pol: Policy, r: GateResult, r': GateResult)
    requires multiset(current) == multiset(current') && DistinctEndpoints(current)
    requires baseline.Some? <==> baseline'.Some?
    requires baseline.Some? ==> multiset(baseline.value) == multiset(baseline'.value) && DistinctEndpoints(baseline.value)
    requires Reports(current, baseline, pol, r) && Reports(current', baseline', pol, r')
    ensures r == r'
  {
    var index := Indexed(baseline);
    if baseline.Some? { IndexPermuted(baseline.value, baseline'.value); }
    assert index == Indexed(baseline');
    var fs, fs' := AllFindings(current, index, pol), AllFindings(current', index, pol);
    FlattenPermuted(FindingsOf(index, pol), current, current');
    FlattenPermuted(NewEndpointOf(index), current, current');
    SameVerdict(pol.unknownTreatment, fs, fs');
    NonPassPermuted(fs, fs');
    ViolationsTieFree(current, index, pol, r.violations);
    SortedPermutationUnique(FindingLe, r.violations, r'.violations);
    EndpointSetPermuted(current, current');
    EndpointSetPermuted(current', current);
    SameEndpointLists(r, r');
  }

  /** The order of a report in plain terms: both endpoint lists by characters, the
      violations by the characters of the scope, then error rate before p50, p95 and
      p99, then budget before regression. */
  lemma ReportOrdered(current: seq<EndpointStats>, baseline: Option<seq<EndpointStats>>, pol: Policy, r: GateResult, i: nat, j: nat)
    requires Reports(current, baseline, pol, r) && i < j
    ensures r.schemaVersion == 1
    ensures j < |r.newEndpoints| ==> CharacterOrder(r.newEndpoints[i], r.newEndpoints[j])
    ensures j < |r.removedEndpoints| ==> CharacterOrder(r.removedEndpoints[i], r.removedEndpoints[j])
    ensures j < |r.violations| ==>
      var f, g := r.violations[i], r.violations[j];
      if f.scope != g.scope then CharacterOrder(f.scope, g.scope)
      else if f.metric != g.metric then MetricPlace(f.metric) < MetricPlace(g.metric)
      else f.check == Budget || g.check == Regression
  {
    hide AllFindings, NewEndpoints, Worst, Tally, NonPass, FindingLe, CharacterOrder;
    if j < |r.newEndpoints| { StringLeMeans(r.newEndpoints[i], r.newEndpoints[j]); }
    if j < |r.removedEndpoints| { StringLeMeans(r.removedEndpoints[i], r.removedEndpoints[j]); }
    if j < |r.violations| {
      assert FindingLe(r.violations[i], r.violations[j]);
      FindingLeMeans(r.violations[i], r.violations[j]);
    }
  }

  function MetricPlace(m: Metric): nat {
    match m case ErrorRate => 0 case P50 => 1 case P95 => 2 case P99 => 3
  }

  lemma FindingLeMeans(f: Finding, g: Finding)
    requires FindingLe(f, g)
    ensures if f.scope != g.scope then CharacterOrder(f.scope, g.scope)
            else if f.metric != g.metric then MetricPlace(f.metric) < MetricPlace(g.metric)
            else f.check == Budget || g.check == Regression
  {
    hide CharacterOrder;
    StringLeMeans(f.scope, g.scope);
    if f.scope == g.scope && f.metric != g.metric { MetricNamesPlaced(f.metric, g.metric); }
    CheckNamesPlaced();
  }

  lemma MetricNamesPlaced(m: Metric, n: Metric)
    requires m != n && !StringLess(n.Name(), m.Name())
    ensures MetricPlace(m) < MetricPlace(n)
  {
    if MetricPlace(n) < MetricPlace(m) {
      var k := if n == ErrorRate then 0 else if n == P50 then 1 else 2;
      StringLessAt(n.Name(), m.Name(), k);
    }
  }

  lemma CheckNamesPlaced()
    ensures StringLess(Budget.Name(), Regression.Name())
  {}

  lemma SameVerdict(t: Status, a: seq<Finding>, b: seq<Finding>)
    requires multiset(a) == multiset(b)
    ensures Worst(t, a) == Worst(t, b) && Tally(a) == Tally(b)
  {
    forall f ensures f in a <==> f in b { assert f in multiset(a) <==> f in multiset(b); }
    WorstSameMembers(t, a, b);
    CountPermuted(a, b, Pass);
    CountPermuted(a, b, Warn);
    CountPermuted(a, b, Fail);
    CountPermuted(a, b, Unknown);
  }
}
