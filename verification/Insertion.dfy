/** Events as rows of the metrics table: the analysis of inserted events agrees with
    what the ingest path and the live statistics say about them. */
module Insertion {
  import opened Sequences
  import opened Models
  import opened Stats
  import opened Aggregation
  import opened Conservation
  import opened EndToEnd
  import Flush = FlushProtocol
  import Ingest

  /** Rows as inserted by prepared statement: no column is NULL. */
  function InsertedRow(e: Event): Row {
    Row(e.ts, e.runId, e.podId, Some(e.url), Some(e.name), Some(e.status), Some(e.errorCode), e.rtt,
        TimingBreakdown(e.dnsLookup, e.tcpConnect, e.tlsHandshake, e.ttfb, e.contentTransfer))
  }

  function Inserted(es: seq<Event>): (rows: seq<Row>)
    ensures |rows| == |es| && forall i :: 0 <= i < |es| ==> rows[i] == InsertedRow(es[i])
  {
    seq(|es|, i requires 0 <= i < |es| => InsertedRow(es[i]))
  }

  /** The query and the hub mean the same by an error. */
  lemma ErrorsAgree(e: Event)
    ensures IsErrorRow(InsertedRow(e)) <==> e.IsError()
    ensures e.IsError() <==> e.status >= 400 || e.errorCode != ""
  {}

  /** An event is accounted to its name, or to its URL if the name is empty. */
  lemma ServedEndpoint(e: Event)
    ensures EndpointOf(InsertedRow(e)) == Some(if e.name != "" then e.name else e.url)
  {}

  function EventsOf(es: seq<Event>, runId: string): seq<Event> {
    if es == [] then []
    else EventsOf(es[..|es| - 1], runId) + (if es[|es| - 1].runId == runId then [es[|es| - 1]] else [])
  }

  lemma {:induction false} RunOfInserted(es: seq<Event>, runId: string)
    ensures RunRows(Inserted(es), runId) == Inserted(EventsOf(es, runId))
  {
    hide InsertedRow;
    if es != [] {
      var init, last := es[..|es| - 1], es[|es| - 1];
      RunOfInserted(init, runId);
      assert Inserted(es)[..|es| - 1] == Inserted(init);
      SameRun(last);
      assert last.runId == runId ==> Inserted(EventsOf(init, runId) + [last]) == Inserted(EventsOf(init, runId)) + [InsertedRow(last)];
    }
  }

  lemma SameRun(e: Event)
    ensures InsertedRow(e).runId == e.runId
  {}

  lemma {:induction false} ErrorsOfInserted(es: seq<Event>)
    ensures CountErrors(Inserted(es)) == Ingest.ErrorCount(es)
  {
    hide InsertedRow, IsErrorRow;
    if es != [] {
      ErrorsOfInserted(es[..|es| - 1]);
      assert Inserted(es)[..|es| - 1] == Inserted(es[..|es| - 1]);
      ErrorsAgree(es[|es| - 1]);
    }
  }

  /** The analysis of a run counts its events, and as errors exactly those with a
      status from 400 on or an error code. */
  lemma AnalysedCounts(es: seq<Event>, runId: string, out: seq<EndpointStats>)
    requires Analyzed(Inserted(es), runId, out)
    ensures var mine := EventsOf(es, runId);
      && TotalOf(Requests(), out) == |mine|
      && TotalOf(Errors(), out) == Ingest.ErrorCount(mine)
         == |set i | 0 <= i < |mine| && (mine[i].status >= 400 || mine[i].errorCode != "")|
  {
    hide IsEndpointSummary, IsStatusDistribution, Merges, TotalOf, CountErrors, Inserted;
    var rows, mine := Inserted(es), EventsOf(es, runId);
    var s: seq<SummaryRow>, d: seq<StatusRow> :| IsEndpointSummary(rows, runId, s) && IsStatusDistribution(rows, runId, d) && Merges(s, d, Ok(out));
    AggregationConserves(rows, runId, s, d, out);
    RunOfInserted(es, runId);
    ErrorsOfInserted(mine);
    Ingest.ErrorsCounted(mine);
  }

  lemma {:induction false} SingleRun(es: seq<Event>, runId: string)
    requires forall e :: e in es ==> e.runId == runId
    ensures EventsOf(es, runId) == es
  {
    if es != [] {
      assert es == es[..|es| - 1] + [es[|es| - 1]];
      SingleRun(es[..|es| - 1], runId);
    }
  }

  /** Once everything of a single run is in the table and recorded, the totals of the
      live statistics are those of the analysis of the table. */
  lemma LiveTotalsMatchAnalysis(actions: seq<Ingest.Action>, runId: string, out: seq<EndpointStats>)
    requires Ingest.Run(actions).Some? && Ingest.Run(actions).value.pending == []
    requires var store := Ingest.Run(actions).value.storage;
      && store.inflight == [] && store.buffer == [] && (forall e :: e in store.table ==> e.runId == runId)
      && Analyzed(Inserted(store.table), runId, out)
    ensures var s := Ingest.Run(actions).value; s.total == TotalOf(Requests(), out) && s.errors == TotalOf(Errors(), out)
  {
    hide Ingest.Run, Analyzed, TotalOf, Inserted;
    Ingest.TwoPathsAgree(actions);
    var store := Ingest.Run(actions).value.storage;
    Flush.EmptyFlatten(store.inflight);
    assert Flush.Stored(store) == store.table;
    SingleRun(store.table, runId);
    AnalysedCounts(store.table, runId, out);
  }

  lemma {:induction false} RunRowsAll(rows: seq<Row>, runId: string)
    requires forall i :: 0 <= i < |rows| ==> rows[i].runId == runId
    ensures RunRows(rows, runId) == rows
  {
    if rows != [] {
      RunRowsAll(rows[..|rows| - 1], runId);
      assert rows == rows[..|rows| - 1] + [rows[|rows| - 1]];
    }
  }
}
