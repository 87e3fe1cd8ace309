/** Run-level statistics and the baseline averaged from several runs
    (analysis/comparator.go). */
module Comparator {
  import opened Sequences
  import opened Percentiles
  import opened Aggregation
  import Figures

  datatype RunStats = RunStats(
    runId: string,
    totalRequests: int,
    errorCount: int,
    errorRate: real,
    avgRtt: real,
    p50: real,
    p95: real,
    p99: real,
    minRtt: real,
    maxRtt: real,
    rps: real,
    durationSeconds: real)

  function Rate(errors: int, requests: int): real {
    if requests > 0 then errors as real / requests as real * 100.0 else 0.0
  }

  function MinTs(rows: seq<Row>): int
    requires rows != []
  {
    if |rows| == 1 then rows[0].ts
    else
      var m := MinTs(rows[..|rows| - 1]);
      if rows[|rows| - 1].ts < m then rows[|rows| - 1].ts else m
  }

  function MaxTs(rows: seq<Row>): int
    requires rows != []
  {
    if |rows| == 1 then rows[0].ts
    else
      var m := MaxTs(rows[..|rows| - 1]);
      if rows[|rows| - 1].ts > m then rows[|rows| - 1].ts else m
  }

  /** None when the run has no rows: its averages are NULL and cannot be read. */
  function GetRunStats(rows: seq<Row>, runId: string): Option<RunStats> {
    var run := RunRows(rows, runId);
    if run == [] then None
    else
      var rtts := Column(Rtt(), run);
      var duration := (MaxTs(run) - MinTs(run)) as real / 1000.0;
      Some(RunStats(runId, |run|, CountErrors(run), Rate(CountErrors(run), |run|), Mean(rtts),
                    PercentileCont(rtts, 0.50), PercentileCont(rtts, 0.95), PercentileCont(rtts, 0.99),
                    Sorted(rtts)[0], Max(rtts),
                    if duration > 0.0 then |run| as real / duration else 0.0, duration))
  }

  /** What the statistics of an existing run satisfy. */
  predicate ValidRun(s: RunStats) {
    && 0 <= s.errorCount <= s.totalRequests
    && s.errorRate == Rate(s.errorCount, s.totalRequests)
    && s.p50 <= s.p95 <= s.p99
  }

  lemma RunStatsValid(rows: seq<Row>, runId: string)
    ensures var s := GetRunStats(rows, runId); s.Some? ==> ValidRun(s.value) && s.value.totalRequests > 0
  {
    var run := RunRows(rows, runId);
    if run != [] {
      hide PercentileCont, Mean, Max, MinTs, MaxTs;
      PercentilesOrdered(Column(Rtt(), run), 0.50, 0.95);
      PercentilesOrdered(Column(Rtt(), run), 0.95, 0.99);
    }
  }

  /** The figures of a run in terms of its rows. */
  ghost predicate FiguresOfRun(s: RunStats, run: seq<Row>) {
    var rtts := Column((r: Row) => r.rtt, run);
    && run != [] && s.totalRequests == |run| && s.errorCount == CountErrors(run)
    && s.errorRate * |run| as real == 100.0 * s.errorCount as real
    && s.avgRtt * |run| as real == Sum(rtts)
    && s.p50 == PercentileCont(rtts, 0.50) && s.p95 == PercentileCont(rtts, 0.95) && s.p99 == PercentileCont(rtts, 0.99)
    && s.minRtt in rtts && s.maxRtt in rtts && (forall v :: v in rtts ==> s.minRtt <= v <= s.maxRtt)
  }

  /** The duration spans the run's time stamps, in seconds, and the throughput is the
      number of requests per second of it. */
  ghost predicate SpanOfRun(s: RunStats, run: seq<Row>) {
    && (exists i, j :: 0 <= i < |run| && 0 <= j < |run| && s.durationSeconds * 1000.0 == (run[j].ts - run[i].ts) as real)
    && (forall i, j :: 0 <= i < |run| && 0 <= j < |run| ==> (run[j].ts - run[i].ts) as real <= s.durationSeconds * 1000.0)
    && (if s.durationSeconds > 0.0 then s.rps * s.durationSeconds == s.totalRequests as real else s.rps == 0.0)
  }

  lemma RunFigures(rows: seq<Row>, runId: string)
    ensures GetRunStats(rows, runId).Some? <==> exists r :: r in rows && r.runId == runId
    ensures var s := GetRunStats(rows, runId);
      s.Some? ==> s.value.runId == runId && FiguresOfRun(s.value, RunRows(rows, runId)) && SpanOfRun(s.value, RunRows(rows, runId))
  {
    hide PercentileCont, Sum, CountErrors, MinTs, MaxTs, Sorted, RunRows, Mean, Max;
    var run := RunRows(rows, runId);
    RunNonEmpty(rows, runId);
    if run != [] {
      var rtts := Column((r: Row) => r.rtt, run);
      assert rtts == Column(Rtt(), run);
      Figures.MeanTimesCount(rtts);
      Figures.MaxIsGreatest(rtts);
      LeastFirst(rtts);
      Figures.RateTimesCount(CountErrors(run) as real, |run| as real);
      TimesSpanned(run);
    }
  }

  lemma RunNonEmpty(rows: seq<Row>, runId: string)
    ensures RunRows(rows, runId) != [] <==> exists r :: r in rows && r.runId == runId
  {
    hide RunRows;
    var run := RunRows(rows, runId);
    forall r ensures r in run <==> r in rows && r.runId == runId {
      Figures.RunRowsCounted(rows, runId, r);
      assert r in run <==> r in multiset(run);
      assert r in rows <==> r in multiset(rows);
    }
    assert run != [] ==> run[0] in run;
  }

  lemma LeastFirst(s: seq<real>)
    requires s != []
    ensures Sorted(s)[0] in s && forall v :: v in s ==> Sorted(s)[0] <= v
  {
    SortedIsSorted(s);
    var x := Sorted(s);
    SortedMembers(s, x[0]);
    forall v | v in s ensures x[0] <= v {
      SortedMembers(s, v);
      var i := IndexOfMember(x, v);
      assert i == 0 || RealLe(x[0], x[i]);
    }
  }

  lemma {:induction false} TimesSpanned(run: seq<Row>)
    requires run != []
    ensures exists i :: 0 <= i < |run| && run[i].ts == MinTs(run)
    ensures exists i :: 0 <= i < |run| && run[i].ts == MaxTs(run)
    ensures forall i :: 0 <= i < |run| ==> MinTs(run) <= run[i].ts <= MaxTs(run)
  {
    if |run| > 1 {
      var init := run[..|run| - 1];
      TimesSpanned(init);
      var i :| 0 <= i < |init| && init[i].ts == MinTs(init);
      var j :| 0 <= j < |init| && init[j].ts == MaxTs(init);
      assert run[i].ts == MinTs(init) && run[j].ts == MaxTs(init);
      assert MinTs(run) == run[i].ts || MinTs(run) == run[|run| - 1].ts;
      assert MaxTs(run) == run[j].ts || MaxTs(run) == run[|run| - 1].ts;
    } else {
      assert MinTs(run) == run[0].ts == MaxTs(run);
    }
  }

  // ----- CalculateBaseline -----

  function KeepValid(): Option<RunStats> -> seq<RunStats> {
    (r: Option<RunStats>) => if r.Some? then [r.value] else []
  }

  /** Runs whose statistics could be read. */
  function Valid(results: seq<Option<RunStats>>): seq<RunStats> {
    Flatten(KeepValid(), results)
  }

  /** Every readable run counts, as often as it was named. */
  lemma {:induction false} ReadableRuns(results: seq<Option<RunStats>>, x: RunStats)
    ensures multiset(Valid(results))[x] == multiset(results)[Some(x)]
  {
    if results != [] {
      ReadableRuns(results[..|results| - 1], x);
      assert results == results[..|results| - 1] + [results[|results| - 1]];
    }
  }

  function Total(f: RunStats -> real, s: seq<RunStats>): real {
    Sum(Column(f, s))
  }

  function Requests(s: seq<RunStats>): int {
    if s == [] then 0 else Requests(s[..|s| - 1]) + s[|s| - 1].totalRequests
  }

  function Errors(s: seq<RunStats>): int {
    if s == [] then 0 else Errors(s[..|s| - 1]) + s[|s| - 1].errorCount
  }

  function Avg(): RunStats -> real { (s: RunStats) => s.avgRtt }
  function P50(): RunStats -> real { (s: RunStats) => s.p50 }
  function P95(): RunStats -> real { (s: RunStats) => s.p95 }
  function P99(): RunStats -> real { (s: RunStats) => s.p99 }
  function Rps(): RunStats -> real { (s: RunStats) => s.rps }

  /** Unweighted means of the latencies and throughputs, pooled error rate. */
  function Baseline(s: seq<RunStats>): RunStats
    requires s != []
  {
    var n := |s| as real;
    RunStats("baseline", Requests(s), Errors(s), Rate(Errors(s), Requests(s)),
             Total(Avg(), s) / n, Total(P50(), s) / n, Total(P95(), s) / n, Total(P99(), s) / n, 0.0, 0.0, Total(Rps(), s) / n, 0.0)
  }

  lemma TotalAppend(f: RunStats -> real, s: seq<RunStats>, x: RunStats)
    ensures Total(f, s + [x]) == Total(f, s) + f(x)
  {
    assert Column(f, s + [x]) == Column(f, s) + [f(x)];
    SumAppend(Column(f, s), f(x));
  }

  lemma CountsAppend(s: seq<RunStats>, x: RunStats)
    ensures Requests(s + [x]) == Requests(s) + x.totalRequests && Errors(s + [x]) == Errors(s) + x.errorCount
  {}

  method ReadRuns(results: seq<Option<RunStats>>) returns (all: seq<RunStats>)
    ensures all == Valid(results)
  {
    all := [];
    for i := 0 to |results|
      invariant all == Valid(results[..i])
    {
      assert results[..i + 1] == results[..i] + [results[i]];
      FlattenOne(KeepValid(), results[..i], results[i]);
      if results[i].None? { continue; }
      all := all + [results[i].value];
    }
    assert results[..|results|] == results;
  }

  /** The sums of all runs, before dividing. */
  function Sums(s: seq<RunStats>): RunStats {
    RunStats("baseline", Requests(s), Errors(s), 0.0, Total(Avg(), s), Total(P50(), s), Total(P95(), s), Total(P99(), s),
             0.0, 0.0, Total(Rps(), s), 0.0)
  }

  method AddRuns(all: seq<RunStats>) returns (baseline: RunStats)
    ensures baseline == Sums(all)
  {
    hide Total, Requests, Errors;
    baseline := RunStats("baseline", 0, 0, 0.0, 0.0, 0.0, 0.0, 0.0, 0.0, 0.0, 0.0, 0.0);
    assert baseline == Sums(all[..0]) by { SumsEmpty(); }
    for i := 0 to |all|
      invariant baseline == Sums(all[..i])
    {
      var s := all[i];
      assert all[..i + 1] == all[..i] + [s];
      CountsAppend(all[..i], s);
      TotalAppend(Avg(), all[..i], s);
      TotalAppend(P50(), all[..i], s);
      TotalAppend(P95(), all[..i], s);
      TotalAppend(P99(), all[..i], s);
      TotalAppend(Rps(), all[..i], s);
      baseline := baseline.(
        totalRequests := baseline.totalRequests + s.totalRequests, errorCount := baseline.errorCount + s.errorCount,
        avgRtt := baseline.avgRtt + s.avgRtt, p50 := baseline.p50 + s.p50, p95 := baseline.p95 + s.p95,
        p99 := baseline.p99 + s.p99, rps := baseline.rps + s.rps);
    }
    assert all[..|all|] == all;
  }

  lemma SumsEmpty()
    ensures Sums([]) == RunStats("baseline", 0, 0, 0.0, 0.0, 0.0, 0.0, 0.0, 0.0, 0.0, 0.0, 0.0)
  {}

  method CalculateBaseline(results: seq<Option<RunStats>>) returns (r: Result<RunStats>)
    ensures r.Ok? <==> Valid(results) != []
    ensures r.Ok? ==> r.value == Baseline(Valid(results))
  {
    hide Total, Requests, Errors;
    if |results| == 0 { return Err("no run IDs provided"); }
    var all := ReadRuns(results);
    if |all| == 0 { return Err("no valid runs found"); }
    var baseline := AddRuns(all);
    var n := |all| as real;
    baseline := baseline.(avgRtt := baseline.avgRtt / n, p50 := baseline.p50 / n, p95 := baseline.p95 / n,
                          p99 := baseline.p99 / n, rps := baseline.rps / n);
    if baseline.totalRequests > 0 {
      baseline := baseline.(errorRate := baseline.errorCount as real / baseline.totalRequests as real * 100.0);
    }
    r := Ok(baseline);
  }

  // ----- Properties of the averaged baseline -----

  lemma {:induction false} TotalPermuted(f: RunStats -> real, a: seq<RunStats>, b: seq<RunStats>)
    requires multiset(a) == multiset(b)
    ensures Total(f, a) == Total(f, b)
  {
    var g := (s: RunStats) => [f(s)];
    ColumnFlatten(f, g, a);
    ColumnFlatten(f, g, b);
    FlattenPermuted(g, a, b);
    SumPermutation(Column(f, a), Column(f, b));
  }

  lemma {:induction false} ColumnFlatten(f: RunStats -> real, g: RunStats -> seq<real>, s: seq<RunStats>)
    requires forall x :: g(x) == [f(x)]
    ensures Flatten(g, s) == Column(f, s)
  {
    if s != [] {
      ColumnFlatten(f, g, s[..|s| - 1]);
      assert Column(f, s) == Column(f, s[..|s| - 1]) + [f(s[|s| - 1])];
    }
  }

  lemma {:induction false} CountsPermuted(a: seq<RunStats>, b: seq<RunStats>)
    requires multiset(a) == multiset(b)
    ensures Requests(a) == Requests(b) && Errors(a) == Errors(b)
  {
    PermutationLength(a, b);
    if a != [] {
      var i := MatchHead(a, b);
      CountsPermuted(a[1..], RemoveAt(b, i));
      assert a == [a[0]] + a[1..] && b == b[..i] + ([b[i]] + b[i + 1..]);
      CountsConcat([a[0]], a[1..]);
      CountsConcat(b[..i], [b[i]] + b[i + 1..]);
      CountsConcat([b[i]], b[i + 1..]);
      CountsConcat(b[..i], b[i + 1..]);
    }
  }

  lemma {:induction false} CountsConcat(a: seq<RunStats>, b: seq<RunStats>)
    ensures Requests(a + b) == Requests(a) + Requests(b) && Errors(a + b) == Errors(a) + Errors(b)
  {
    if b == [] {
      assert a + b == a;
    } else {
      assert (a + b)[..|a + b| - 1] == a + b[..|b| - 1];
      CountsConcat(a, b[..|b| - 1]);
    }
  }

  /** The baseline does not depend on the order in which the runs are named. */
  lemma BaselineOrderIndependent(a: seq<Option<RunStats>>, b: seq<Option<RunStats>>)
    requires multiset(a) == multiset(b) && Valid(a) != []
    ensures Valid(b) != [] && Baseline(Valid(a)) == Baseline(Valid(b))
  {
    FlattenPermuted(KeepValid(), a, b);
    var s, t := Valid(a), Valid(b);
    PermutationLength(s, t);
    CountsPermuted(s, t);
    TotalPermuted(Avg(), s, t);
    TotalPermuted(P50(), s, t);
    TotalPermuted(P95(), s, t);
    TotalPermuted(P99(), s, t);
    TotalPermuted(Rps(), s, t);
  }

  lemma {:induction false} TotalMonotone(f: RunStats -> real, g: RunStats -> real, s: seq<RunStats>)
    requires forall x :: x in s ==> f(x) <= g(x)
    ensures Total(f, s) <= Total(g, s)
  {
    if s != [] {
      var init, last := s[..|s| - 1], s[|s| - 1];
      assert s == init + [last];
      TotalMonotone(f, g, init);
      TotalAppend(f, init, last);
      TotalAppend(g, init, last);
    }
  }

  /** Every run rates above `bound`, so the pooled counts do. */
  lemma {:induction false} PooledAbove(s: seq<RunStats>, bound: real)
    requires forall x :: x in s ==> ValidRun(x) && (x.totalRequests > 0 ==> x.errorRate > bound)
    ensures 0 <= Errors(s) <= Requests(s)
    ensures Requests(s) > 0 ==> Rate(Errors(s), Requests(s)) > bound
  {
    hide Rate;
    if s != [] {
      var init, last := s[..|s| - 1], s[|s| - 1];
      assert last in s && forall x :: x in init ==> x in s;
      PooledAbove(init, bound);
      if Requests(s) > 0 {
        PoolTwo(Errors(init), Requests(init), last.errorCount, last.totalRequests, bound);
      }
    }
  }

  lemma {:induction false} PooledBelow(s: seq<RunStats>, bound: real)
    requires forall x :: x in s ==> ValidRun(x) && (x.totalRequests > 0 ==> x.errorRate < bound)
    ensures 0 <= Errors(s) <= Requests(s)
    ensures Requests(s) > 0 ==> Rate(Errors(s), Requests(s)) < bound
  {
    hide Rate;
    if s != [] {
      var init, last := s[..|s| - 1], s[|s| - 1];
      assert last in s && forall x :: x in init ==> x in s;
      PooledBelow(init, bound);
      if Requests(s) > 0 {
        PoolTwo(Errors(init), Requests(init), last.errorCount, last.totalRequests, bound);
      }
    }
  }

  /** Pooling two groups on the same side of a bound stays on that side. */
  lemma PoolTwo(e: int, r: int, f: int, q: int, bound: real)
    requires 0 <= e <= r && 0 <= f <= q && r + q > 0
    ensures (r > 0 ==> Rate(e, r) > bound) && (q > 0 ==> Rate(f, q) > bound) ==> Rate(e + f, r + q) > bound
    ensures (r > 0 ==> Rate(e, r) < bound) && (q > 0 ==> Rate(f, q) < bound) ==> Rate(e + f, r + q) < bound
  {}

  /** Each averaged figure lies between any bounds its own figure keeps in all runs. */
  lemma MeanWithin(f: RunStats -> real, s: seq<RunStats>, lo: real, hi: real)
    requires s != [] && forall x :: x in s ==> lo <= f(x) <= hi
    ensures lo <= Total(f, s) / |s| as real <= hi
  {
    var c, n := Column(f, s), |s| as real;
    forall i | 0 <= i < |c| ensures lo <= c[i] <= hi { assert s[i] in s; }
    SumBounds(c, lo, hi);
    DivideMonotone(n * lo, Sum(c), n);
    DivideMonotone(Sum(c), n * hi, n);
    CancelFactor(n, lo);
    CancelFactor(n, hi);
  }

  lemma CancelFactor(n: real, x: real)
    requires n > 0.0
    ensures n * x / n == x
  {}

  /** The baseline's figures in terms of the runs': sums of the counts, means of the
      latencies and throughputs, and the error rate of the pooled counts. */
  lemma BaselineFigures(s: seq<RunStats>)
    requires s != []
    ensures var b, n := Baseline(s), |s| as real;
      && b.totalRequests as real == Sum(Column((x: RunStats) => x.totalRequests as real, s))
      && b.errorCount as real == Sum(Column((x: RunStats) => x.errorCount as real, s))
      && (b.totalRequests > 0 ==> b.errorRate * b.totalRequests as real == 100.0 * b.errorCount as real)
      && (b.totalRequests <= 0 ==> b.errorRate == 0.0)
      && b.avgRtt * n == Sum(Column((x: RunStats) => x.avgRtt, s))
      && b.p50 * n == Sum(Column((x: RunStats) => x.p50, s))
      && b.p95 * n == Sum(Column((x: RunStats) => x.p95, s))
      && b.p99 * n == Sum(Column((x: RunStats) => x.p99, s))
      && b.rps * n == Sum(Column((x: RunStats) => x.rps, s))
      && b.runId == "baseline" && b.minRtt == b.maxRtt == b.durationSeconds == 0.0
  {
    hide Sum, Requests, Errors;
    CountsAreSums(s);
    if Requests(s) > 0 { Figures.RateTimesCount(Errors(s) as real, Requests(s) as real); }
    assert Column((x: RunStats) => x.avgRtt, s) == Column(Avg(), s);
    assert Column((x: RunStats) => x.p50, s) == Column(P50(), s);
    assert Column((x: RunStats) => x.p95, s) == Column(P95(), s);
    assert Column((x: RunStats) => x.p99, s) == Column(P99(), s);
    assert Column((x: RunStats) => x.rps, s) == Column(Rps(), s);
    CancelQuotient(Sum(Column(Avg(), s)), |s| as real);
    CancelQuotient(Sum(Column(P50(), s)), |s| as real);
    CancelQuotient(Sum(Column(P95(), s)), |s| as real);
    CancelQuotient(Sum(Column(P99(), s)), |s| as real);
    CancelQuotient(Sum(Column(Rps(), s)), |s| as real);
  }

  lemma CancelQuotient(x: real, n: real)
    requires n > 0.0
    ensures x / n * n == x
  {}

  lemma {:induction false} CountsAreSums(s: seq<RunStats>)
    ensures Requests(s) as real == Sum(Column((x: RunStats) => x.totalRequests as real, s))
    ensures Errors(s) as real == Sum(Column((x: RunStats) => x.errorCount as real, s))
  {
    if s != [] {
      var n := |s| - 1;
      CountsAreSums(s[..n]);
      assert Column((x: RunStats) => x.totalRequests as real, s)[..n] == Column((x: RunStats) => x.totalRequests as real, s[..n]);
      assert Column((x: RunStats) => x.errorCount as real, s)[..n] == Column((x: RunStats) => x.errorCount as real, s[..n]);
    }
  }

  /** The baseline's figures are means of the runs' figures of the same kind. */
  lemma BaselineFiguresWithin(s: seq<RunStats>, lo: RunStats, hi: RunStats)
    requires s != []
    requires forall x :: x in s ==>
      lo.avgRtt <= x.avgRtt <= hi.avgRtt && lo.p50 <= x.p50 <= hi.p50 && lo.p95 <= x.p95 <= hi.p95
      && lo.p99 <= x.p99 <= hi.p99 && lo.rps <= x.rps <= hi.rps
    ensures var b := Baseline(s);
      lo.avgRtt <= b.avgRtt <= hi.avgRtt && lo.p50 <= b.p50 <= hi.p50 && lo.p95 <= b.p95 <= hi.p95
      && lo.p99 <= b.p99 <= hi.p99 && lo.rps <= b.rps <= hi.rps
  {
    hide Total, Requests, Errors, Rate;
    MeanWithin(Avg(), s, lo.avgRtt, hi.avgRtt);
    MeanWithin(P50(), s, lo.p50, hi.p50);
    MeanWithin(P95(), s, lo.p95, hi.p95);
    MeanWithin(P99(), s, lo.p99, hi.p99);
    MeanWithin(Rps(), s, lo.rps, hi.rps);
  }

  lemma MeansOrdered(s: seq<RunStats>)
    requires s != [] && forall x :: x in s ==> ValidRun(x)
    ensures Total(P50(), s) / |s| as real <= Total(P95(), s) / |s| as real <= Total(P99(), s) / |s| as real
  {
    hide Total;
    TotalMonotone(P50(), P95(), s);
    TotalMonotone(P95(), P99(), s);
    DivideMonotone(Total(P50(), s), Total(P95(), s), |s| as real);
    DivideMonotone(Total(P95(), s), Total(P99(), s), |s| as real);
  }

  /** Averaging keeps the percentiles in order, and the pooled error rate lies
      between the smallest and the largest rate of a run with requests. */
  lemma BaselineWithinRuns(s: seq<RunStats>)
    requires s != [] && forall x :: x in s ==> ValidRun(x)
    ensures ValidRun(Baseline(s))
    ensures Baseline(s).totalRequests > 0 ==>
      exists lo, hi :: lo in s && hi in s && lo.totalRequests > 0 && hi.totalRequests > 0
        && lo.errorRate <= Baseline(s).errorRate <= hi.errorRate
  {
    hide Total, Requests, Errors, Rate;
    MeansOrdered(s);
    CountsValid(s);
    if Requests(s) > 0 {
      var pooled := Rate(Errors(s), Requests(s));
      if forall x :: x in s && x.totalRequests > 0 ==> x.errorRate > pooled { PooledAbove(s, pooled); }
      if forall x :: x in s && x.totalRequests > 0 ==> x.errorRate < pooled { PooledBelow(s, pooled); }
      var lo :| lo in s && lo.totalRequests > 0 && lo.errorRate <= pooled;
      var hi :| hi in s && hi.totalRequests > 0 && hi.errorRate >= pooled;
    }
  }

  lemma {:induction false} CountsValid(s: seq<RunStats>)
    requires forall x :: x in s ==> ValidRun(x)
    ensures 0 <= Errors(s) <= Requests(s)
  {
    if s != [] {
      var init, last := s[..|s| - 1], s[|s| - 1];
      assert last in s && forall x :: x in init ==> x in s;
      CountsValid(init);
    }
  }

  lemma DivideMonotone(a: real, b: real, n: real)
    requires a <= b && n > 0.0
    ensures a / n <= b / n
  {}
}
