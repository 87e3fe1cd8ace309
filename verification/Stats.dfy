/** Per-endpoint statistics (analysis/endpoint.go) and the bottleneck evidence
    computed from two of them (analysis/bottleneck.go). */
module Stats {
  import opened Sequences

  datatype EndpointStats = EndpointStats(
    endpoint: string,
    requestCount: int,
    errorCount: int,
    errorRate: real,
    avgRtt: real,
    p50: real,
    p90: real,
    p95: real,
    p99: real,
    maxRtt: real,
    timing: TimingBreakdown,
    statusDistribution: map<string, int>)

  datatype TimingBreakdown = TimingBreakdown(dns: real, tcp: real, tls: real, ttfb: real, transfer: real)

  datatype TimingChange = TimingChange(phase: string, deltaMs: real)

  datatype BottleneckEvidence = BottleneckEvidence(
    endpoint: string,
    baseline: TimingBreakdown,
    current: TimingBreakdown,
    delta: TimingBreakdown,
    largest: TimingChange)

  // ----- Lookup by endpoint -----

  /** The map built by assigning every element in order: the last one wins. */
  function IndexByEndpoint(s: seq<EndpointStats>): (m: map<string, EndpointStats>)
    ensures forall e :: e in m ==> m[e].endpoint == e
  {
    if s == [] then map[]
    else IndexByEndpoint(s[..|s| - 1])[s[|s| - 1].endpoint := s[|s| - 1]]
  }

  ghost predicate DistinctEndpoints(s: seq<EndpointStats>) {
    forall i, j :: 0 <= i < j < |s| ==> s[i].endpoint != s[j].endpoint
  }

  lemma {:induction false} IndexKeys(s: seq<EndpointStats>, e: string)
    ensures e in IndexByEndpoint(s) <==> exists i :: 0 <= i < |s| && s[i].endpoint == e
    ensures e in IndexByEndpoint(s) ==> IndexByEndpoint(s)[e] in s
  {
    if s != [] {
      var init := s[..|s| - 1];
      IndexKeys(init, e);
      if exists i :: 0 <= i < |s| && s[i].endpoint == e {
        var i :| 0 <= i < |s| && s[i].endpoint == e;
        if i < |s| - 1 { assert init[i].endpoint == e; }
      }
    }
  }

  lemma {:induction false} IndexFinds(s: seq<EndpointStats>, x: EndpointStats)
    requires DistinctEndpoints(s) && x in s
    ensures x.endpoint in IndexByEndpoint(s) && IndexByEndpoint(s)[x.endpoint] == x
  {
    IndexKeys(s, x.endpoint);
    var y := IndexByEndpoint(s)[x.endpoint];
    var i := IndexOfMember(s, x);
    var j := IndexOfMember(s, y);
    assert s[i].endpoint == s[j].endpoint;
  }

  /** A later entry replaces an earlier one of the same name. */
  lemma {:induction false} LastEntryWins(s: seq<EndpointStats>, i: nat)
    requires i < |s| && forall j :: i < j < |s| ==> s[j].endpoint != s[i].endpoint
    ensures s[i].endpoint in IndexByEndpoint(s) && IndexByEndpoint(s)[s[i].endpoint] == s[i]
  {
    if i < |s| - 1 { LastEntryWins(s[..|s| - 1], i); }
  }

  lemma DistinctEndpointsPermuted(a: seq<EndpointStats>, b: seq<EndpointStats>)
    requires multiset(a) == multiset(b) && DistinctEndpoints(a)
    ensures DistinctEndpoints(b)
  {
    assert Distinct(a);
    DistinctPermuted(a, b);
    forall i, j | 0 <= i < j < |b| ensures b[i].endpoint != b[j].endpoint {
      assert b[i] in multiset(a) && b[j] in multiset(a);
      IndexFinds(a, b[i]);
      IndexFinds(a, b[j]);
    }
  }

  /** For distinct endpoints the lookup map does not depend on the order. */
  lemma IndexPermuted(a: seq<EndpointStats>, b: seq<EndpointStats>)
    requires multiset(a) == multiset(b) && DistinctEndpoints(a)
    ensures IndexByEndpoint(a) == IndexByEndpoint(b)
  {
    DistinctEndpointsPermuted(a, b);
    var m, n := IndexByEndpoint(a), IndexByEndpoint(b);
    forall e | e in m ensures e in n && n[e] == m[e] {
      IndexKeys(a, e);
      assert m[e] in multiset(b);
      IndexFinds(b, m[e]);
    }
    forall e | e in n ensures e in m {
      IndexKeys(b, e);
      assert n[e] in multiset(a);
      IndexFinds(a, n[e]);
    }
    assert m.Keys == n.Keys;
  }

  // ----- Bottleneck evidence -----

  function Abs(v: real): real {
    if v < 0.0 then -v else v
  }

  function Phases(d: TimingBreakdown): seq<TimingChange> {
    [TimingChange("dns", d.dns), TimingChange("tcp", d.tcp), TimingChange("tls", d.tls),
     TimingChange("ttfb", d.ttfb), TimingChange("transfer", d.transfer)]
  }

  /** `x` is no further from zero than `y`. */
  predicate NoLarger(x: real, y: real) {
    -y <= x <= y || y <= x <= -y
  }

  /** The first phase whose movement no other phase exceeds. */
  ghost predicate IsLargestPhase(d: TimingBreakdown, best: TimingChange) {
    var names, deltas := ["dns", "tcp", "tls", "ttfb", "transfer"], [d.dns, d.tcp, d.tls, d.ttfb, d.transfer];
    exists k :: 0 <= k < 5 && best.phase == names[k] && best.deltaMs == deltas[k]
      && (forall i :: 0 <= i < 5 ==> NoLarger(deltas[i], best.deltaMs))
      && (forall i :: 0 <= i < k ==> !NoLarger(best.deltaMs, deltas[i]))
  }

  function LargestFrom(best: TimingChange, rest: seq<TimingChange>): TimingChange
    decreases rest
  {
    if rest == [] then best
    else LargestFrom(if Abs(rest[0].deltaMs) > Abs(best.deltaMs) then rest[0] else best, rest[1..])
  }

  function LargestPhaseOf(d: TimingBreakdown): TimingChange {
    LargestFrom(Phases(d)[0], Phases(d)[1..])
  }

  lemma {:induction false} LargestFromFirst(seen: seq<TimingChange>, k: nat, rest: seq<TimingChange>) returns (j: nat)
    requires k < |seen|
    requires forall i :: 0 <= i < |seen| ==> Abs(seen[i].deltaMs) <= Abs(seen[k].deltaMs)
    requires forall i :: 0 <= i < k ==> Abs(seen[i].deltaMs) < Abs(seen[k].deltaMs)
    ensures var all, best := seen + rest, LargestFrom(seen[k], rest);
      && j < |all| && all[j] == best
      && (forall i :: 0 <= i < |all| ==> Abs(all[i].deltaMs) <= Abs(best.deltaMs))
      && (forall i :: 0 <= i < j ==> Abs(all[i].deltaMs) < Abs(best.deltaMs))
    decreases rest
  {
    if rest == [] {
      j := k;
    } else {
      assert seen + rest == (seen + [rest[0]]) + rest[1..];
      j := LargestFromFirst(seen + [rest[0]], if Abs(rest[0].deltaMs) > Abs(seen[k].deltaMs) then |seen| else k, rest[1..]);
    }
  }

  lemma LargestPhaseIsLargest(d: TimingBreakdown)
    ensures IsLargestPhase(d, LargestPhaseOf(d))
  {
    assert Phases(d) == [Phases(d)[0]] + Phases(d)[1..];
    var j := LargestFromFirst([Phases(d)[0]], 0, Phases(d)[1..]);
    PhasesInOrder(d, j, LargestPhaseOf(d));
  }

  lemma PhasesInOrder(d: TimingBreakdown, j: nat, best: TimingChange)
    requires j < 5 && Phases(d)[j] == best
    requires forall i :: 0 <= i < 5 ==> Abs(Phases(d)[i].deltaMs) <= Abs(best.deltaMs)
    requires forall i :: 0 <= i < j ==> Abs(Phases(d)[i].deltaMs) < Abs(best.deltaMs)
    ensures IsLargestPhase(d, best)
  {
    var names, deltas := ["dns", "tcp", "tls", "ttfb", "transfer"], [d.dns, d.tcp, d.tls, d.ttfb, d.transfer];
    forall i | 0 <= i < 5 ensures names[i] == Phases(d)[i].phase && deltas[i] == Phases(d)[i].deltaMs {}
  }

  method LargestPhase(d: TimingBreakdown) returns (best: TimingChange)
    ensures best == LargestPhaseOf(d)
    ensures IsLargestPhase(d, best)
  {
    var phases := Phases(d);
    best := phases[0];
    ghost var k := 0;
    for n := 1 to 5
      invariant 0 <= k < n && phases[k] == best
      invariant forall i :: 0 <= i < n ==> Abs(phases[i].deltaMs) <= Abs(best.deltaMs)
      invariant forall i :: 0 <= i < k ==> Abs(phases[i].deltaMs) < Abs(best.deltaMs)
      invariant LargestFrom(best, phases[n..]) == LargestPhaseOf(d)
    {
      assert phases[n..][0] == phases[n] && phases[n..][1..] == phases[n + 1..];
      if Abs(phases[n].deltaMs) > Abs(best.deltaMs) {
        best, k := phases[n], n;
      }
    }
    PhasesInOrder(d, k, best);
  }

  function TimingDelta(baseline: EndpointStats, current: EndpointStats): BottleneckEvidence {
    var b, c := baseline.timing, current.timing;
    var delta := TimingBreakdown(c.dns - b.dns, c.tcp - b.tcp, c.tls - b.tls, c.ttfb - b.ttfb, c.transfer - b.transfer);
    BottleneckEvidence(current.endpoint, b, c, delta, LargestPhaseOf(delta))
  }

  /** Both breakdowns, their differences phase by phase, and the largest of these. */
  lemma BottleneckFigures(baseline: EndpointStats, current: EndpointStats)
    ensures var e, b, c := TimingDelta(baseline, current), baseline.timing, current.timing;
      && e.endpoint == current.endpoint && e.baseline == b && e.current == c
      && e.delta.dns == c.dns - b.dns && e.delta.tcp == c.tcp - b.tcp && e.delta.tls == c.tls - b.tls
      && e.delta.ttfb == c.ttfb - b.ttfb && e.delta.transfer == c.transfer - b.transfer
      && IsLargestPhase(e.delta, e.largest)
  {
    hide LargestPhaseOf, IsLargestPhase;
    LargestPhaseIsLargest(TimingDelta(baseline, current).delta);
  }

  function PercentChange(baseline: real, current: real): real {
    if baseline == 0.0 then 0.0 else (current - baseline) / baseline * 100.0
  }

  /** `PercentChange` in the words of the policy documentation: by how many
      percent of the baseline the value moved. A negative baseline turns the
      comparison around, and from zero nothing ever changes. */
  lemma PercentChangeExceeds(baseline: real, current: real, percent: real)
    ensures PercentChange(baseline, current) > percent
       <==> if baseline > 0.0 then current - baseline > baseline * percent / 100.0
            else if baseline < 0.0 then current - baseline < baseline * percent / 100.0
            else 0.0 > percent
  {
    if baseline != 0.0 {
      var change, share := PercentChange(baseline, current), baseline * percent / 100.0;
      assert change * baseline / 100.0 == current - baseline;
      ScaledComparison(baseline / 100.0, change, percent);
    }
  }

  lemma ScaledComparison(scale: real, a: real, b: real)
    ensures scale > 0.0 ==> (a > b <==> scale * a > scale * b)
    ensures scale < 0.0 ==> (a > b <==> scale * a < scale * b)
  {}
}
