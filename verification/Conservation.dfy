/** Aggregation neither loses nor duplicates requests on the way from the
    metrics rows to the per-endpoint statistics. */
module Conservation {
  import opened Sequences
  import opened Text
  import opened Percentiles
  import opened Stats
  import opened Aggregation

  // ----- Groups -----

  lemma ColumnLast<T>(f: Row -> T, rows: seq<Row>)
    requires rows != []
    ensures Column(f, rows)[..|rows| - 1] == Column(f, rows[..|rows| - 1])
    ensures Column(f, rows)[|rows| - 1] == f(rows[|rows| - 1])
  {}

  lemma {:induction false} GroupSize(rows: seq<Row>, e: Option<string>)
    ensures |Group(rows, e)| == Occurrences(e, Column(RowEndpoint(), rows))
    ensures forall r :: r in Group(rows, e) <==> r in rows && EndpointOf(r) == e
  {
    if rows != [] {
      GroupSize(rows[..|rows| - 1], e);
      ColumnLast(RowEndpoint(), rows);
      assert rows == rows[..|rows| - 1] + [rows[|rows| - 1]];
    }
  }

  function RowStatus(): Row -> Option<int> { (r: Row) => r.status }

  lemma {:induction false} GroupStatuses(rows: seq<Row>, e: Option<string>, s: Option<int>)
    ensures Occurrences((e, s), Column(RowStatusKey(), rows)) == Occurrences(s, Column(RowStatus(), Group(rows, e)))
  {
    hide EndpointOf, Column, Group, Occurrences;
    if rows == [] {
      EmptyColumns(e, s);
    } else {
      var init, last := rows[..|rows| - 1], rows[|rows| - 1];
      GroupStatuses(init, e, s);
      assert rows == init + [last];
      GroupAppend(init, last, e);
      CountAppend(RowStatusKey(), init, last, (e, s));
      CountAppend(RowStatus(), Group(init, e), last, s);
    }
  }

  lemma EmptyColumns(e: Option<string>, s: Option<int>)
    ensures Occurrences((e, s), Column(RowStatusKey(), [])) == Occurrences(s, Column(RowStatus(), Group([], e))) == 0
  {}

  lemma GroupAppend(rows: seq<Row>, r: Row, e: Option<string>)
    ensures Group(rows + [r], e) == if EndpointOf(r) == e then Group(rows, e) + [r] else Group(rows, e)
  {}

  lemma CountAppend<K>(f: Row -> K, rows: seq<Row>, r: Row, k: K)
    ensures Occurrences(k, Column(f, rows + [r])) == Occurrences(k, Column(f, rows)) + (if f(r) == k then 1 else 0)
  {
    assert Column(f, rows + [r]) == Column(f, rows) + [f(r)];
    var c := Column(f, rows);
    assert (c + [f(r)])[..|c|] == c;
  }

  // ----- Summaries -----

  lemma {:induction false} ByEndpointFinds(s: seq<SummaryRow>, i: nat)
    requires forall x :: x in s ==> x.endpoint.Some?
    requires i < |s| && Distinct(SummaryKeys(s))
    ensures s[i] in s && ByEndpoint(s)[s[i].endpoint.value] == FromSummary(s[i])
  {
    assert s[i] in s;
    if i < |s| - 1 {
      var init := s[..|s| - 1];
      assert SummaryKeys(init) == SummaryKeys(s)[..|s| - 1];
      ByEndpointFinds(init, i);
      assert SummaryKeys(s)[i] != SummaryKeys(s)[|s| - 1];
      assert s == init + [s[|s| - 1]];
    }
  }

  function TotalOf(count: EndpointStats -> int, out: seq<EndpointStats>): int {
    if out == [] then 0 else TotalOf(count, out[..|out| - 1]) + count(out[|out| - 1])
  }

  function Requests(): EndpointStats -> int { (s: EndpointStats) => s.requestCount }
  function Errors(): EndpointStats -> int { (s: EndpointStats) => s.errorCount }

  lemma {:induction false} TotalIsGrouping(count: EndpointStats -> int, out: seq<EndpointStats>, keys: seq<Option<string>>, column: seq<Option<string>>)
    requires |out| == |keys| && forall i :: 0 <= i < |out| ==> count(out[i]) == Occurrences(keys[i], column)
    ensures TotalOf(count, out) == OccurrencesOfAll(keys, column)
  {
    if out != [] { TotalIsGrouping(count, out[..|out| - 1], keys[..|keys| - 1], column); }
  }

  function ErrorRows(rows: seq<Row>): seq<Row> {
    if rows == [] then []
    else ErrorRows(rows[..|rows| - 1]) + (if IsErrorRow(rows[|rows| - 1]) then [rows[|rows| - 1]] else [])
  }

  lemma {:induction false} ErrorsGrouped(rows: seq<Row>, e: Option<string>)
    ensures CountErrors(Group(rows, e)) == Occurrences(e, Column(RowEndpoint(), ErrorRows(rows)))
    ensures |ErrorRows(rows)| == CountErrors(rows)
    ensures forall r :: r in ErrorRows(rows) ==> r in rows
  {
    hide EndpointOf, IsErrorRow, Column;
    if rows == [] {
      assert Column(RowEndpoint(), []) == [];
    } else {
      var init, last := rows[..|rows| - 1], rows[|rows| - 1];
      ErrorsGrouped(init, e);
      assert rows == init + [last];
      CountAppend(RowEndpoint(), ErrorRows(init), last, e);
      var group := Group(init, e);
      assert (group + [last])[..|group|] == group;
      assert group + [] == group && ErrorRows(init) + [] == ErrorRows(init);
    }
  }

  // ----- Status distributions -----

  /** The statuses one endpoint has in a distribution result. */
  function StatusesFor(d: seq<StatusRow>, e: string): seq<Option<int>> {
    if d == [] then []
    else
      var last := d[|d| - 1];
      StatusesFor(d[..|d| - 1], e) + (if last.endpoint == Some(e) then [last.status] else [])
  }

  lemma {:induction false} StatusesListed(d: seq<StatusRow>, e: string, s: Option<int>)
    ensures s in StatusesFor(d, e) <==> (Some(e), s) in StatusKeys(d)
  {
    if d != [] {
      StatusesListed(d[..|d| - 1], e, s);
      assert StatusKeys(d) == StatusKeys(d[..|d| - 1]) + [(d[|d| - 1].endpoint, d[|d| - 1].status)];
    }
  }

  lemma {:induction false} StatusesDistinct(d: seq<StatusRow>, e: string)
    requires Distinct(StatusKeys(d))
    ensures Distinct(StatusesFor(d, e))
  {
    if d != [] {
      var init := d[..|d| - 1];
      assert StatusKeys(init) == StatusKeys(d)[..|d| - 1];
      StatusesDistinct(init, e);
      StatusesListed(init, e, d[|d| - 1].status);
    }
  }

  /** The map built for one endpoint holds, under the rendering of each of its
      status codes, exactly the counted requests; the counts add up. */
  lemma {:induction false} DistributionCounts(d: seq<StatusRow>, e: string, column: seq<Option<int>>)
    requires forall x :: x in d ==> x.endpoint.Some? && x.status.Some?
    requires Distinct(StatusKeys(d))
    requires forall x :: x in d && x.endpoint == Some(e) ==> x.count == Occurrences(x.status, column)
    ensures MapSum(DistributionOf(d, e)) == OccurrencesOfAll(StatusesFor(d, e), column)
    ensures forall code :: FormatInt(code) in DistributionOf(d, e) <==> Some(code) in StatusesFor(d, e)
    ensures forall code :: FormatInt(code) in DistributionOf(d, e) ==>
      DistributionOf(d, e)[FormatInt(code)] == Occurrences(Some(code), column)
  {
    hide FormatInt;
    if d != [] {
      var init, last := d[..|d| - 1], d[|d| - 1];
      assert d == init + [last];
      assert StatusKeys(init) == StatusKeys(d)[..|d| - 1];
      DistributionCounts(init, e, column);
      if last.endpoint == Some(e) {
        var m, code := DistributionOf(init, e), last.status.value;
        forall c | FormatInt(c) == FormatInt(code) ensures c == code { FormatIntInjective(c, code); }
        StatusesListed(init, e, last.status);
        assert FormatInt(code) !in m;
        MapSumInsert(m, FormatInt(code), last.count);
        assert DistributionOf(d, e) == m[FormatInt(code) := last.count];
        assert last in d;
        var all := StatusesFor(d, e);
        assert all[..|all| - 1] == StatusesFor(init, e) && all[|all| - 1] == last.status;
      } else {
        assert StatusesFor(d, e) == StatusesFor(init, e);
      }
    }
  }

  // ----- The main results -----

  /** The merge succeeds exactly if the run has no NULL endpoint or status. */
  lemma MergeSucceedsExactlyWhen(rows: seq<Row>, runId: string, s: seq<SummaryRow>, d: seq<StatusRow>, r: Result<seq<EndpointStats>>)
    requires IsEndpointSummary(rows, runId, s) && IsStatusDistribution(rows, runId, d) && Merges(s, d, r)
    ensures r.Ok? <==> forall x :: x in RunRows(rows, runId) ==> EndpointOf(x).Some? && x.status.Some?
  {
    hide Summarize, Group;
    var run := RunRows(rows, runId);
    var endpoints, keys := Column(RowEndpoint(), run), Column(RowStatusKey(), run);
    forall x | x in run ensures EndpointOf(x) in SummaryKeys(s) && (EndpointOf(x), x.status) in StatusKeys(d) {
      var i := IndexOfMember(run, x);
      assert endpoints[i] == EndpointOf(x) && keys[i] == (EndpointOf(x), x.status);
    }
    forall x | x in s ensures exists y :: y in run && EndpointOf(y) == x.endpoint {
      var i := IndexOfMember(s, x);
      assert SummaryKeys(s)[i] in endpoints;
      var j := IndexOfMember(endpoints, x.endpoint);
      assert run[j] in run;
    }
    forall x | x in d ensures exists y :: y in run && EndpointOf(y) == x.endpoint && y.status == x.status {
      var i := IndexOfMember(d, x);
      assert StatusKeys(d)[i] in keys;
      var j := IndexOfMember(keys, (x.endpoint, x.status));
      assert run[j] in run;
    }
  }

  /** The entry of each endpoint is its summary with its status counts attached. */
  lemma MergedEntries(rows: seq<Row>, runId: string, s: seq<SummaryRow>, d: seq<StatusRow>, out: seq<EndpointStats>)
    requires IsEndpointSummary(rows, runId, s) && Merges(s, d, Ok(out))
    ensures |out| == |s| && Scannable(s, d) && Distinct(SummaryKeys(s))
    ensures forall i :: 0 <= i < |s| ==>
      && s[i].endpoint == Some(out[i].endpoint) && out[i].statusDistribution == DistributionOf(d, out[i].endpoint)
      && out[i].requestCount == |Group(RunRows(rows, runId), s[i].endpoint)| && 0.0 <= out[i].errorRate <= 100.0
      && out[i].errorCount == CountErrors(Group(RunRows(rows, runId), s[i].endpoint))
  {
    hide Summarize, Group, DistributionOf, ByEndpoint, FromSummary;
    forall i | 0 <= i < |s| ensures
      && s[i].endpoint == Some(out[i].endpoint) && out[i].statusDistribution == DistributionOf(d, out[i].endpoint)
      && out[i].requestCount == |Group(RunRows(rows, runId), s[i].endpoint)| && 0.0 <= out[i].errorRate <= 100.0
      && out[i].errorCount == CountErrors(Group(RunRows(rows, runId), s[i].endpoint))
    {
      ByEndpointFinds(s, i);
      SummaryFigures(s[i], Group(RunRows(rows, runId), s[i].endpoint));
    }
  }

  /** The statistics of one endpoint against its rows: the status counts add up
      to the requests, every status code is reported with exactly the requests
      that had it, and the error rate is a percentage. */
  ghost predicate CountsAgree(group: seq<Row>, x: EndpointStats) {
    && MapSum(x.statusDistribution) == x.requestCount == |group|
    && 0.0 <= x.errorRate <= 100.0
    && forall code :: FormatInt(code) in x.statusDistribution ==>
         x.statusDistribution[FormatInt(code)] == Occurrences(Some(code), Column(RowStatus(), group))
  }

  /** Endpoints are distinct, their request counts add up to the run's rows and
      their error counts to its errors, and the counts of each endpoint agree with
      its rows. */
  lemma AggregationConserves(rows: seq<Row>, runId: string, s: seq<SummaryRow>, d: seq<StatusRow>, out: seq<EndpointStats>)
    requires IsEndpointSummary(rows, runId, s) && IsStatusDistribution(rows, runId, d) && Merges(s, d, Ok(out))
    ensures DistinctEndpoints(out)
    ensures TotalOf(Requests(), out) == |RunRows(rows, runId)|
    ensures TotalOf(Errors(), out) == CountErrors(RunRows(rows, runId))
    ensures forall i :: 0 <= i < |out| ==> CountsAgree(Group(RunRows(rows, runId), Some(out[i].endpoint)), out[i])
  {
    hide Group, DistributionOf, IsStatusDistribution, Merges, CountsAgree, Occurrences, Summarize, CountErrors, TotalOf, EndpointOf;
    var run := RunRows(rows, runId);
    MergedEntries(rows, runId, s, d, out);
    assert forall i, j :: 0 <= i < j < |s| ==> SummaryKeys(s)[i] != SummaryKeys(s)[j];
    var column := Column(RowEndpoint(), run);
    forall i | 0 <= i < |out| ensures out[i].requestCount == Occurrences(SummaryKeys(s)[i], column) {
      GroupSize(run, s[i].endpoint);
    }
    TotalIsGrouping(Requests(), out, SummaryKeys(s), column);
    GroupsPartition(SummaryKeys(s), column);
    ErrorsAddUp(run, out, SummaryKeys(s));
    forall i | 0 <= i < |out| ensures CountsAgree(Group(run, Some(out[i].endpoint)), out[i]) {
      EntryAgrees(rows, runId, d, out[i]);
    }
  }

  lemma ErrorsAddUp(run: seq<Row>, out: seq<EndpointStats>, keys: seq<Option<string>>)
    requires |out| == |keys| && Distinct(keys)
    requires forall k :: k in Column(RowEndpoint(), run) ==> k in keys
    requires forall i :: 0 <= i < |out| ==> out[i].errorCount == CountErrors(Group(run, keys[i]))
    ensures TotalOf(Errors(), out) == CountErrors(run)
  {
    hide Group, CountErrors, TotalOf;
    var column := Column(RowEndpoint(), ErrorRows(run));
    forall i | 0 <= i < |out| ensures Errors()(out[i]) == Occurrences(keys[i], column) { ErrorsGrouped(run, keys[i]); }
    ErrorsGrouped(run, None);
    forall k | k in column ensures k in keys {
      var i := IndexOfMember(column, k);
      var j := IndexOfMember(run, ErrorRows(run)[i]);
      assert Column(RowEndpoint(), run)[j] == k;
    }
    TotalIsGrouping(Errors(), out, keys, column);
    GroupsPartition(keys, column);
  }

  lemma EntryAgrees(rows: seq<Row>, runId: string, d: seq<StatusRow>, x: EndpointStats)
    requires IsStatusDistribution(rows, runId, d) && forall y :: y in d ==> y.endpoint.Some? && y.status.Some?
    requires x.statusDistribution == DistributionOf(d, x.endpoint)
    requires x.requestCount == |Group(RunRows(rows, runId), Some(x.endpoint))| && 0.0 <= x.errorRate <= 100.0
    ensures CountsAgree(Group(RunRows(rows, runId), Some(x.endpoint)), x)
  {
    hide Group, DistributionOf, FormatInt, IsStatusDistribution, Occurrences, MapSum;
    EndpointDistribution(rows, runId, d, x.endpoint);
  }

  lemma SummaryFigures(s: SummaryRow, group: seq<Row>)
    requires group != [] && s.endpoint.Some? && s == Summarize(s.endpoint, group)
    ensures FromSummary(s).endpoint == s.endpoint.value && FromSummary(s).requestCount == |group|
    ensures 0.0 <= FromSummary(s).errorRate <= 100.0 && FromSummary(s).errorCount == CountErrors(group)
  {
    hide PercentileCont, Mean, Max, CountErrors;
    assert s.requestCount == |group| && s.errorCount == CountErrors(group);
    RateInRange(CountErrors(group), |group|);
  }

  lemma RateInRange(errors: nat, requests: nat)
    requires errors <= requests && requests > 0
    ensures 0.0 <= errors as real / requests as real * 100.0 <= 100.0
  {}

  lemma EndpointDistribution(rows: seq<Row>, runId: string, d: seq<StatusRow>, e: string)
    requires IsStatusDistribution(rows, runId, d)
    requires forall x :: x in d ==> x.endpoint.Some? && x.status.Some?
    ensures var group := Group(RunRows(rows, runId), Some(e));
      && MapSum(DistributionOf(d, e)) == |group|
      && forall code :: FormatInt(code) in DistributionOf(d, e) ==>
           DistributionOf(d, e)[FormatInt(code)] == Occurrences(Some(code), Column(RowStatus(), group))
  {
    hide Group, FormatInt, DistributionOf;
    var run := RunRows(rows, runId);
    var group := Group(run, Some(e));
    var keys, column := Column(RowStatusKey(), run), Column(RowStatus(), group);
    forall x | x in d && x.endpoint == Some(e) ensures x.count == Occurrences(x.status, column) {
      var i := IndexOfMember(d, x);
      GroupStatuses(run, Some(e), x.status);
    }
    DistributionCounts(d, e, column);
    StatusesDistinct(d, e);
    GroupSize(run, Some(e));
    forall s | s in column ensures s in StatusesFor(d, e) {
      var i := IndexOfMember(column, s);
      var j := IndexOfMember(run, group[i]);
      assert keys[j] == (Some(e), s);
      StatusesListed(d, e, s);
    }
    GroupsPartition(StatusesFor(d, e), column);
  }
}
