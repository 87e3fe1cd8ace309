/** What the figures of an analysis say about the rows of the metrics table, in
    numbers. */
module Figures {
  import opened Sequences
  import opened Percentiles
  import opened Stats
  import opened Aggregation
  import opened EndToEnd

  /** The row is accounted to endpoint `e`: by its name, or by its URL if it has no
      name or an empty one. */
  predicate ServedAs(r: Row, e: string) {
    if r.name.None? || r.name.value == "" then r.url == Some(e) else r.name.value == e
  }

  lemma {:induction false} RunRowsCounted(rows: seq<Row>, runId: string, r: Row)
    ensures multiset(RunRows(rows, runId))[r] == if r.runId == runId then multiset(rows)[r] else 0
  {
    if rows != [] {
      RunRowsCounted(rows[..|rows| - 1], runId, r);
      assert rows == rows[..|rows| - 1] + [rows[|rows| - 1]];
    }
  }

  lemma {:induction false} GroupCounted(rows: seq<Row>, e: Option<string>, r: Row)
    ensures multiset(Group(rows, e))[r] == if EndpointOf(r) == e then multiset(rows)[r] else 0
  {
    hide EndpointOf;
    if rows != [] {
      GroupCounted(rows[..|rows| - 1], e, r);
      assert rows == rows[..|rows| - 1] + [rows[|rows| - 1]];
    }
  }

  /** The rows of an endpoint in a run are all the run's rows accounted to it. */
  lemma EndpointRows(rows: seq<Row>, runId: string, e: string, r: Row)
    ensures multiset(Group(RunRows(rows, runId), Some(e)))[r]
         == if r.runId == runId && ServedAs(r, e) then multiset(rows)[r] else 0
  {
    hide Group, RunRows;
    RunRowsCounted(rows, runId, r);
    GroupCounted(RunRows(rows, runId), Some(e), r);
  }

  /** The errors among rows: a status from 400 on, or an error code. */
  lemma ErrorsCounted(rows: seq<Row>)
    ensures CountErrors(rows)
         == |set i | 0 <= i < |rows| && ((rows[i].status.Some? && rows[i].status.value >= 400)
                                         || (rows[i].errorCode.Some? && rows[i].errorCode.value != ""))|
  {
    hide CountErrors, Occurrences;
    ErrorFlags(rows);
    var ps := OccurrencesPositions(true, Column(Flag(), rows));
    assert ps == set i | 0 <= i < |rows| && ((rows[i].status.Some? && rows[i].status.value >= 400)
                                             || (rows[i].errorCode.Some? && rows[i].errorCode.value != ""));
  }

  function Flag(): Row -> bool { (r: Row) => IsErrorRow(r) }

  lemma {:induction false} ErrorFlags(rows: seq<Row>)
    ensures CountErrors(rows) == Occurrences(true, Column(Flag(), rows))
  {
    if rows != [] {
      ErrorFlags(rows[..|rows| - 1]);
      assert Column(Flag(), rows)[..|rows| - 1] == Column(Flag(), rows[..|rows| - 1]);
    }
  }

  ghost predicate CountFigures(x: EndpointStats, mine: seq<Row>) {
    && x.requestCount == |mine| > 0 && x.errorCount == CountErrors(mine)
    && x.errorRate * x.requestCount as real == 100.0 * x.errorCount as real
  }

  ghost predicate LatencyFigures(x: EndpointStats, rtts: seq<real>) {
    && rtts != []
    && x.p50 == PercentileCont(rtts, 0.50) && x.p90 == PercentileCont(rtts, 0.90)
    && x.p95 == PercentileCont(rtts, 0.95) && x.p99 == PercentileCont(rtts, 0.99)
    && x.avgRtt * |rtts| as real == Sum(rtts) && x.maxRtt in rtts && forall v :: v in rtts ==> v <= x.maxRtt
  }

  /** Averages, each times the number of rows. */
  ghost predicate TimingFigures(t: TimingBreakdown, mine: seq<Row>) {
    var n := |mine| as real;
    && t.dns * n == Sum(Column((r: Row) => r.timing.dns, mine))
    && t.tcp * n == Sum(Column((r: Row) => r.timing.tcp, mine))
    && t.tls * n == Sum(Column((r: Row) => r.timing.tls, mine))
    && t.ttfb * n == Sum(Column((r: Row) => r.timing.ttfb, mine))
    && t.transfer * n == Sum(Column((r: Row) => r.timing.transfer, mine))
  }

  /** Every figure of an analysed endpoint is that figure of its rows. */
  lemma AnalysisFigures(rows: seq<Row>, runId: string, out: seq<EndpointStats>, x: EndpointStats)
    requires Analyzed(rows, runId, out) && x in out
    ensures var mine := Group(RunRows(rows, runId), Some(x.endpoint));
      CountFigures(x, mine) && LatencyFigures(x, Column((r: Row) => r.rtt, mine)) && TimingFigures(x.timing, mine)
  {
    hide IsEndpointSummary, IsStatusDistribution, Merges, Summarize, FromSummary, DistributionOf, Group, PercentileCont, Sum, CountErrors;
    var s: seq<SummaryRow>, d: seq<StatusRow> :| IsEndpointSummary(rows, runId, s) && IsStatusDistribution(rows, runId, d) && Merges(s, d, Ok(out));
    var i := IndexOfMember(out, x);
    EntryOfRows(rows, runId, s, d, out, i);
    var mine := Group(RunRows(rows, runId), Some(x.endpoint));
    SummaryCounts(x.endpoint, mine);
    SummaryLatencies(x.endpoint, mine);
    SummaryTimings(x.endpoint, mine);
  }

  lemma SummaryCounts(e: string, mine: seq<Row>)
    requires mine != []
    ensures Summarize(Some(e), mine).endpoint == Some(e)
    ensures CountFigures(FromSummary(Summarize(Some(e), mine)), mine)
  {
    hide PercentileCont, CountErrors, Mean, Max;
    RateTimesCount(CountErrors(mine) as real, |mine| as real);
  }

  lemma SummaryLatencies(e: string, mine: seq<Row>)
    requires mine != []
    ensures Summarize(Some(e), mine).endpoint == Some(e)
    ensures LatencyFigures(FromSummary(Summarize(Some(e), mine)), Column((r: Row) => r.rtt, mine))
  {
    hide PercentileCont, CountErrors, Mean, Max, Sum;
    var rtts := Column((r: Row) => r.rtt, mine);
    assert rtts == Column(Rtt(), mine);
    MaxIsGreatest(rtts);
    MeanTimesCount(rtts);
  }

  lemma SummaryTimings(e: string, mine: seq<Row>)
    requires mine != []
    ensures Summarize(Some(e), mine).endpoint == Some(e)
    ensures TimingFigures(FromSummary(Summarize(Some(e), mine)).timing, mine)
  {
    hide PercentileCont, CountErrors, Mean, Max, Sum;
    MeanTimesCount(Column((r: Row) => r.timing.dns, mine));
    MeanTimesCount(Column((r: Row) => r.timing.tcp, mine));
    MeanTimesCount(Column((r: Row) => r.timing.tls, mine));
    MeanTimesCount(Column((r: Row) => r.timing.ttfb, mine));
    MeanTimesCount(Column((r: Row) => r.timing.transfer, mine));
  }

  lemma MeanTimesCount(s: seq<real>)
    requires s != []
    ensures Mean(s) * |s| as real == Sum(s)
  {}

  lemma RateTimesCount(errors: real, n: real)
    requires n > 0.0
    ensures errors / n * 100.0 * n == 100.0 * errors
  {}

  lemma MaxIsGreatest(s: seq<real>)
    requires s != []
    ensures Max(s) in s && forall v :: v in s ==> v <= Max(s)
  {
    SortedIsSorted(s);
    var x := Sorted(s);
    SortedMembers(s, Max(s));
    assert x[|x| - 1] in x;
    forall v | v in s ensures v <= Max(s) {
      SortedMembers(s, v);
      var i := IndexOfMember(x, v);
      assert i == |x| - 1 || RealLe(x[i], x[|x| - 1]);
    }
  }

  /** Endpoints with more requests come first. */
  lemma AnalysisOrdered(rows: seq<Row>, runId: string, out: seq<EndpointStats>, i: nat, j: nat)
    requires Analyzed(rows, runId, out) && i < j < |out|
    ensures out[i].requestCount >= out[j].requestCount
  {
    hide IsStatusDistribution, Summarize, FromSummary, DistributionOf, Group, RunRows;
    var s: seq<SummaryRow>, d: seq<StatusRow> :| IsEndpointSummary(rows, runId, s) && IsStatusDistribution(rows, runId, d) && Merges(s, d, Ok(out));
    SameLength(s, d, out);
    assert s[i].requestCount >= s[j].requestCount;
    CountOfEntry(rows, runId, s, d, out, i);
    CountOfEntry(rows, runId, s, d, out, j);
  }

  lemma CountOfEntry(rows: seq<Row>, runId: string, s: seq<SummaryRow>, d: seq<StatusRow>, out: seq<EndpointStats>, i: nat)
    requires IsEndpointSummary(rows, runId, s) && Merges(s, d, Ok(out)) && i < |out|
    ensures |s| == |out| && s[i].requestCount == out[i].requestCount
  {
    hide Group, DistributionOf, ByEndpoint, PercentileCont, Mean, Max, CountErrors;
    EntryOfRows(rows, runId, s, d, out, i);
  }
}
