/** The catalog queries endpoint_summary and endpoint_status_distribution as
    specifications over the rows of the metrics table, and the code that merges
    their results (analysis/endpoint.go). */
module Aggregation {
  import opened Sequences
  import opened Text
  import opened Percentiles
  import opened Stats

  /** A row of the metrics table; None is NULL. */
  datatype Row = Row(
    ts: int,
    runId: string,
    podId: string,
    url: Option<string>,
    name: Option<string>,
    status: Option<int>,
    errorCode: Option<string>,
    rtt: real,
    timing: TimingBreakdown)

  /** COALESCE(NULLIF(name, ''), url) */
  function EndpointOf(r: Row): Option<string> {
    if r.name.Some? && r.name.value != "" then r.name else r.url
  }

  predicate IsErrorRow(r: Row) {
    (r.status.Some? && r.status.value >= 400) || (r.errorCode.Some? && r.errorCode.value != "")
  }

  function RunRows(rows: seq<Row>, runId: string): seq<Row> {
    if rows == [] then []
    else RunRows(rows[..|rows| - 1], runId) + (if rows[|rows| - 1].runId == runId then [rows[|rows| - 1]] else [])
  }

  function Group(rows: seq<Row>, e: Option<string>): seq<Row> {
    if rows == [] then []
    else Group(rows[..|rows| - 1], e) + (if EndpointOf(rows[|rows| - 1]) == e then [rows[|rows| - 1]] else [])
  }

  function CountErrors(rows: seq<Row>): (n: nat)
    ensures n <= |rows|
  {
    if rows == [] then 0 else CountErrors(rows[..|rows| - 1]) + (if IsErrorRow(rows[|rows| - 1]) then 1 else 0)
  }

  function Mean(s: seq<real>): real
    requires s != []
  {
    Sum(s) / |s| as real
  }

  function Max(s: seq<real>): real
    requires s != []
  {
    Sorted(s)[|s| - 1]
  }

  // ----- endpoint_summary -----

  datatype SummaryRow = SummaryRow(
    endpoint: Option<string>,
    requestCount: int,
    errorCount: int,
    avgRtt: real,
    p50: real,
    p90: real,
    p95: real,
    p99: real,
    maxRtt: real,
    timing: TimingBreakdown)

  function Rtt(): Row -> real { (r: Row) => r.rtt }

  function Summarize(e: Option<string>, group: seq<Row>): SummaryRow
    requires group != []
  {
    var rtts := Column(Rtt(), group);
    SummaryRow(e, |group|, CountErrors(group), Mean(rtts),
               PercentileCont(rtts, 0.50), PercentileCont(rtts, 0.90), PercentileCont(rtts, 0.95), PercentileCont(rtts, 0.99),
               Max(rtts),
               TimingBreakdown(Mean(Column((r: Row) => r.timing.dns, group)), Mean(Column((r: Row) => r.timing.tcp, group)),
                               Mean(Column((r: Row) => r.timing.tls, group)), Mean(Column((r: Row) => r.timing.ttfb, group)),
                               Mean(Column((r: Row) => r.timing.transfer, group))))
  }

  function SummaryKeys(s: seq<SummaryRow>): (ks: seq<Option<string>>)
    ensures |ks| == |s| && forall i :: 0 <= i < |s| ==> ks[i] == s[i].endpoint
  {
    seq(|s|, i requires 0 <= i < |s| => s[i].endpoint)
  }

  function RowEndpoint(): Row -> Option<string> { (r: Row) => EndpointOf(r) }

  /** One row per endpoint of the run, most requests first; the arrangement of
      endpoints with equally many requests is left open. */
  ghost predicate IsEndpointSummary(rows: seq<Row>, runId: string, s: seq<SummaryRow>) {
    var run := RunRows(rows, runId);
    && Distinct(SummaryKeys(s))
    && (forall e :: e in SummaryKeys(s) <==> e in Column(RowEndpoint(), run))
    && (forall i :: 0 <= i < |s| ==> Group(run, s[i].endpoint) != [] && s[i] == Summarize(s[i].endpoint, Group(run, s[i].endpoint)))
    && (forall i, j :: 0 <= i < j < |s| ==> s[i].requestCount >= s[j].requestCount)
  }

  // ----- endpoint_status_distribution -----

  datatype StatusRow = StatusRow(endpoint: Option<string>, status: Option<int>, count: int)

  type StatusKey = (Option<string>, Option<int>)

  function RowStatusKey(): Row -> StatusKey { (r: Row) => (EndpointOf(r), r.status) }

  function StatusKeys(d: seq<StatusRow>): (ks: seq<StatusKey>)
    ensures |ks| == |d| && forall i :: 0 <= i < |d| ==> ks[i] == (d[i].endpoint, d[i].status)
  {
    seq(|d|, i requires 0 <= i < |d| => (d[i].endpoint, d[i].status))
  }

  ghost predicate IsStatusDistribution(rows: seq<Row>, runId: string, d: seq<StatusRow>) {
    var keys := Column(RowStatusKey(), RunRows(rows, runId));
    && Distinct(StatusKeys(d))
    && (forall k :: k in StatusKeys(d) <==> k in keys)
    && (forall i :: 0 <= i < |d| ==> d[i].count == Occurrences((d[i].endpoint, d[i].status), keys))
  }

  // ----- Merging both results -----

  function FromSummary(s: SummaryRow): EndpointStats
    requires s.endpoint.Some?
  {
    EndpointStats(s.endpoint.value, s.requestCount, s.errorCount,
                  if s.requestCount > 0 then s.errorCount as real / s.requestCount as real * 100.0 else 0.0,
                  s.avgRtt, s.p50, s.p90, s.p95, s.p99, s.maxRtt, s.timing, map[])
  }

  /** The last summary row of each endpoint. */
  function ByEndpoint(s: seq<SummaryRow>): (m: map<string, EndpointStats>)
    requires forall x :: x in s ==> x.endpoint.Some?
    ensures forall x :: x in s ==> x.endpoint.value in m
    ensures forall e :: e in m ==> m[e].endpoint == e && m[e].statusDistribution == map[]
  {
    if s == [] then map[]
    else
      var last := s[|s| - 1];
      assert s == s[..|s| - 1] + [last];
      ByEndpoint(s[..|s| - 1])[last.endpoint.value := FromSummary(last)]
  }

  /** The counts of one endpoint, keyed by the rendered status code. */
  function DistributionOf(d: seq<StatusRow>, e: string): map<string, int>
    requires forall x :: x in d ==> x.endpoint.Some? && x.status.Some?
  {
    if d == [] then map[]
    else
      var last := d[|d| - 1];
      assert d == d[..|d| - 1] + [last];
      var m := DistributionOf(d[..|d| - 1], e);
      if last.endpoint.value == e then m[FormatInt(last.status.value) := last.count] else m
  }

  function Attach(d: seq<StatusRow>, s: EndpointStats): EndpointStats
    requires forall x :: x in d ==> x.endpoint.Some? && x.status.Some?
  {
    s.(statusDistribution := DistributionOf(d, s.endpoint))
  }

  ghost predicate Scannable(s: seq<SummaryRow>, d: seq<StatusRow>) {
    (forall x :: x in s ==> x.endpoint.Some?) && (forall x :: x in d ==> x.endpoint.Some? && x.status.Some?)
  }

  /** What the merge delivers for two query results. */
  ghost predicate Merges(s: seq<SummaryRow>, d: seq<StatusRow>, r: Result<seq<EndpointStats>>) {
    if Scannable(s, d) then
      && r.Ok? && |r.value| == |s|
      && forall i :: 0 <= i < |s| ==> s[i] in s && r.value[i] == Attach(d, ByEndpoint(s)[s[i].endpoint.value])
    else
      r.Err?
  }

  /** The first loop: the summaries by endpoint and the order they came in.
      Reading a NULL endpoint into a Go string fails. */
  method ScanSummary(s: seq<SummaryRow>) returns (ok: bool, byEndpoint: map<string, EndpointStats>, order: seq<string>)
    ensures ok <==> forall x :: x in s ==> x.endpoint.Some?
    ensures ok ==> byEndpoint == ByEndpoint(s)
    ensures ok ==> |order| == |s| && forall k :: 0 <= k < |s| ==> s[k] in s && order[k] == s[k].endpoint.value
  {
    byEndpoint, order := map[], [];
    for i := 0 to |s|
      invariant forall x :: x in s[..i] ==> x.endpoint.Some?
      invariant byEndpoint == ByEndpoint(s[..i])
      invariant |order| == i && forall k :: 0 <= k < i ==> s[k].endpoint.Some? && order[k] == s[k].endpoint.value
    {
      if s[i].endpoint.None? {
        assert s[i] in s;
        ok := false;
        return;
      }
      assert s[..i + 1] == s[..i] + [s[i]];
      byEndpoint := byEndpoint[s[i].endpoint.value := FromSummary(s[i])];
      order := order + [s[i].endpoint.value];
    }
    assert s[..|s|] == s;
    ok := true;
  }

  /** The second loop: counts are attached to the endpoints already known. */
  method ScanDistribution(d: seq<StatusRow>, summaries: map<string, EndpointStats>)
      returns (ok: bool, byEndpoint: map<string, EndpointStats>)
    requires forall e :: e in summaries ==> summaries[e].endpoint == e && summaries[e].statusDistribution == map[]
    ensures ok <==> forall x :: x in d ==> x.endpoint.Some? && x.status.Some?
    ensures ok ==> byEndpoint.Keys == summaries.Keys
    ensures ok ==> forall e :: e in summaries ==> byEndpoint[e] == Attach(d, summaries[e])
  {
    hide FormatInt;
    byEndpoint := summaries;
    for i := 0 to |d|
      invariant forall x :: x in d[..i] ==> x.endpoint.Some? && x.status.Some?
      invariant byEndpoint.Keys == summaries.Keys
      invariant forall e :: e in summaries ==> byEndpoint[e] == Attach(d[..i], summaries[e])
    {
      if d[i].endpoint.None? || d[i].status.None? {
        assert d[i] in d;
        ok := false;
        return;
      }
      assert d[..i + 1] == d[..i] + [d[i]] && d[..i + 1][..i] == d[..i];
      var endpoint := d[i].endpoint.value;
      if endpoint in byEndpoint {
        var stats := byEndpoint[endpoint];
        var counts := stats.statusDistribution[FormatInt(d[i].status.value) := d[i].count];
        byEndpoint := byEndpoint[endpoint := stats.(statusDistribution := counts)];
      }
    }
    assert d[..|d|] == d;
    ok := true;
  }

  method GetEndpointStats(s: seq<SummaryRow>, d: seq<StatusRow>) returns (r: Result<seq<EndpointStats>>)
    ensures Merges(s, d, r)
  {
    hide ByEndpoint, DistributionOf;
    var scanned, summaries, order := ScanSummary(s);
    if !scanned { return Err("endpoint analysis: scan failed"); }
    var attached, byEndpoint := ScanDistribution(d, summaries);
    if !attached { return Err("endpoint analysis: scan status distribution failed"); }
    var out: seq<EndpointStats> := [];
    for i := 0 to |order|
      invariant |out| == i && forall k :: 0 <= k < i ==> out[k] == byEndpoint[order[k]]
    {
      assert s[i] in s;
      out := out + [byEndpoint[order[i]]];
    }
    r := Ok(out);
  }
}
