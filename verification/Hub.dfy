/** The realtime hub's live statistics (realtime/hub.go). */
module Hub {
  import opened Sequences
  import opened Percentiles
  import opened Models

  const WINDOW_SIZE := 1000

  /** The wall clock, read once in seconds and once in milliseconds per event. */
  datatype Clock = Clock(second: int, millis: int)

  datatype Observation = Observation(rtt: real, isError: bool, at: Clock)

  /** The counters and the sliding window. */
  datatype Live = Live(
    total: int, errors: int, perSecond: int, lastSecond: int, reqCount: int, lastEventTime: int, window: seq<real>)

  const EMPTY := Live(0, 0, 0, 0, 0, 0, [])

  function Record(h: Live, o: Observation): Live {
    var window := h.window + [o.rtt];
    Live(h.total + 1,
         h.errors + (if o.isError then 1 else 0),
         if o.at.second != h.lastSecond then h.reqCount else h.perSecond,
         o.at.second,
         if o.at.second != h.lastSecond then 1 else h.reqCount + 1,
         o.at.millis,
         if |window| > WINDOW_SIZE then window[1..] else window)
  }

  function After(history: seq<Observation>): Live {
    if history == [] then EMPTY else Record(After(history[..|history| - 1]), history[|history| - 1])
  }

  // ----- What the counters mean -----

  function Rtts(history: seq<Observation>): (s: seq<real>)
    ensures |s| == |history| && forall i :: 0 <= i < |s| ==> s[i] == history[i].rtt
  {
    seq(|history|, i requires 0 <= i < |history| => history[i].rtt)
  }

  function ErrorsIn(history: seq<Observation>): int {
    if history == [] then 0
    else ErrorsIn(history[..|history| - 1]) + (if history[|history| - 1].isError then 1 else 0)
  }

  /** Where the last stretch of observations within one second begins. */
  function StretchStart(history: seq<Observation>): (k: nat)
    ensures k <= |history|
    ensures history != [] ==> k < |history|
    ensures forall i :: k <= i < |history| ==> history[i].at.second == history[|history| - 1].at.second
    ensures 0 < k ==> history[k - 1].at.second != history[k].at.second
  {
    var n := |history|;
    if n <= 1 then 0
    else if history[n - 1].at.second != history[n - 2].at.second then n - 1
    else
      var k := StretchStart(history[..n - 1]);
      assert history[..n - 1][n - 2] == history[n - 2];
      k
  }

  /** The last 1000 latencies of a history, or all if there are fewer. */
  function Recent(history: seq<Observation>): seq<real> {
    Rtts(history)[if |history| > 1000 then |history| - 1000 else 0..]
  }

  lemma {:induction false} WindowIsRecent(history: seq<Observation>)
    ensures After(history).window == Recent(history)
  {
    var n := |history|;
    if n > 0 {
      WindowIsRecent(history[..n - 1]);
      assert Rtts(history) == Rtts(history[..n - 1]) + [history[n - 1].rtt];
    }
  }

  lemma {:induction false} CountersMean(history: seq<Observation>)
    ensures var h, n, k := After(history), |history|, StretchStart(history);
      && h.total == n && h.errors == ErrorsIn(history)
      && (n > 0 ==> h.lastSecond == history[n - 1].at.second && h.lastEventTime == history[n - 1].at.millis)
      && h.reqCount == n - k
      && h.perSecond == k - StretchStart(history[..k])
  {
    hide StretchStart;
    var n := |history|;
    if n > 0 {
      CountersMean(history[..n - 1]);
      NextStretch(history);
    } else {
      NoStretch();
    }
  }

  /** After any history the window holds the last 1000 latencies, the totals count
      all events, `reqCount` the events since the clock last changed, the reported
      rate those of the stretch before, and the last event dates itself. */
  lemma LiveStatistics(history: seq<Observation>)
    ensures var h, n, k := After(history), |history|, StretchStart(history);
      && h.window == Recent(history)
      && h.total == n && h.errors == ErrorsIn(history)
      && h.reqCount == n - k && h.perSecond == k - StretchStart(history[..k])
      && (n > 0 ==> h.lastEventTime == history[n - 1].at.millis)
  {
    hide StretchStart, Recent, Record, ErrorsIn;
    WindowIsRecent(history);
    CountersMean(history);
  }

  lemma NoStretch()
    ensures StretchStart([]) == 0 && StretchStart([][..0]) == 0
  {}

  /** An observation in the same second extends the stretch, one in another
      second starts a new stretch right behind the old one. */
  lemma NextStretch(history: seq<Observation>)
    requires history != []
    ensures var n := |history|;
      var init, k, l := history[..n - 1], StretchStart(history), StretchStart(history[..n - 1]);
      && history[..k] == (if n > 1 && history[n - 2].at.second != history[n - 1].at.second then init else init[..l])
      && k == (if n > 1 && history[n - 2].at.second != history[n - 1].at.second then n - 1 else l)
      && (n == 1 ==> k == l == 0)
  {}

  // ----- Sorting in place -----

  /** Moves `values[i]` down into the sorted prefix before it. */
  method InsertAt(values: array<real>, i: nat)
    requires 1 <= i < values.Length && SortedBy(RealLe, values[..i])
    modifies values
    ensures multiset(values[..]) == multiset(old(values[..]))
    ensures SortedBy(RealLe, values[..i + 1])
  {
    var key := values[i];
    var j := i - 1;
    ghost var was := values[..];
    while j >= 0 && values[j] > key
      invariant -1 <= j < i
      invariant forall k :: 0 <= k <= j ==> values[k] == was[k]
      invariant forall k :: j + 2 <= k <= i ==> values[k] == was[k - 1]
      invariant forall k :: i < k < values.Length ==> values[k] == was[k]
      invariant forall k :: j < k < i ==> was[k] > key
    {
      values[j + 1] := values[j];
      j := j - 1;
    }
    values[j + 1] := key;
    ghost var p := j + 1;
    forall k | 0 <= k < p ensures was[k] <= key { assert k == j || RealLe(was[..i][k], was[..i][j]); }
    assert was[..i] == old(values[..i]);
    Shifted(was, values[..], p, i);
  }

  /** The shift described element by element: a sorted prefix one longer, made of
      the same elements. */
  lemma Shifted(was: seq<real>, now: seq<real>, p: nat, i: nat)
    requires p <= i < |was| == |now| && SortedBy(RealLe, was[..i])
    requires forall k :: 0 <= k < p ==> now[k] == was[k] && was[k] <= was[i]
    requires now[p] == was[i]
    requires forall k :: p < k <= i ==> now[k] == was[k - 1] && was[k - 1] > was[i]
    requires forall k :: i < k < |was| ==> now[k] == was[k]
    ensures multiset(now) == multiset(was)
    ensures SortedBy(RealLe, now[..i + 1])
  {
    ShiftedPermutes(was, now, p, i);
    forall k, l | 0 <= k < l < i ensures was[k] <= was[l] { assert RealLe(was[..i][k], was[..i][l]); }
  }

  lemma ShiftedPermutes(was: seq<real>, now: seq<real>, p: nat, i: nat)
    requires p <= i < |was| == |now| && now[p] == was[i]
    requires forall k :: 0 <= k < p ==> now[k] == was[k]
    requires forall k :: p < k <= i ==> now[k] == was[k - 1]
    requires forall k :: i < k < |was| ==> now[k] == was[k]
    ensures multiset(now) == multiset(was)
  {
    var a, b := RemoveAt(now, p), RemoveAt(was, i);
    forall k | 0 <= k < |a| ensures a[k] == b[k] {}
    assert a == b;
    RemoveAtMultiset(now, p);
    RemoveAtMultiset(was, i);
  }

  method SortFloat64s(values: array<real>)
    modifies values
    ensures values[..] == Sorted(old(values[..]))
  {
    ghost var was := values[..];
    var i := 1;
    while i < values.Length
      invariant 1 <= i && (i <= values.Length || values.Length == 0)
      invariant multiset(values[..]) == multiset(was)
      invariant i <= values.Length ==> SortedBy(RealLe, values[..i])
    {
      InsertAt(values, i);
      i := i + 1;
    }
    assert values.Length > 0 ==> values[..i] == values[..];
    SortedUnique(was, values[..]);
  }

  method Copy(s: seq<real>) returns (values: array<real>)
    ensures fresh(values) && values[..] == s
  {
    values := new real[|s|](i requires 0 <= i < |s| => s[i]);
  }

  method Average(values: array<real>) returns (avg: real)
    ensures avg == if values.Length == 0 then 0.0 else Sum(values[..]) / values.Length as real
  {
    if values.Length == 0 { return 0.0; }
    var sum := 0.0;
    for i := 0 to values.Length
      invariant sum == Sum(values[..i])
    {
      assert values[..i + 1] == values[..i] + [values[i]];
      SumAppend(values[..i], values[i]);
      sum := sum + values[i];
    }
    assert values[..values.Length] == values[..];
    avg := sum / values.Length as real;
  }

  method Percentile(sortedValues: array<real>, p: real) returns (v: real)
    requires 0.0 <= p <= 1.0
    ensures v == HubPercentile(sortedValues[..], p)
  {
    if sortedValues.Length == 0 { return 0.0; }
    IndexInBounds(sortedValues.Length, p);
    var index := (p * (sortedValues.Length as real - 1.0)).Floor;
    v := sortedValues[index];
  }

  // ----- The hub -----

  class Statistics {
    var totalRequests: int
    var errorCount: int
    var requestsPerSec: int
    var lastSecond: int
    var reqCount: int
    var rttBuffer: seq<real>
    var avgRtt: real
    var p50Rtt: real
    var p95Rtt: real
    var p99Rtt: real
    var bufferSize: int
    var lastEventTime: int
    /** The events handed to the hub's broadcast channel. */
    var broadcast: seq<Event>

    constructor ()
      ensures State() == EMPTY && broadcast == []
    {
      totalRequests, errorCount, requestsPerSec, lastSecond, reqCount, rttBuffer := 0, 0, 0, 0, 0, [];
      avgRtt, p50Rtt, p95Rtt, p99Rtt, bufferSize, lastEventTime, broadcast := 0.0, 0.0, 0.0, 0.0, 0, 0, [];
    }

    ghost function State(): Live
      reads this
    {
      Live(totalRequests, errorCount, requestsPerSec, lastSecond, reqCount, lastEventTime, rttBuffer)
    }

    method RecordEvent(rtt: real, isError: bool, now: Clock)
      modifies this`totalRequests, this`errorCount, this`requestsPerSec, this`lastSecond, this`reqCount,
               this`lastEventTime, this`rttBuffer
      ensures State() == Record(old(State()), Observation(rtt, isError, now))
    {
      totalRequests := totalRequests + 1;
      if isError { errorCount := errorCount + 1; }
      lastEventTime := now.millis;
      if now.second != lastSecond {
        requestsPerSec := reqCount;
        reqCount := 1;
        lastSecond := now.second;
      } else {
        reqCount := reqCount + 1;
      }
      rttBuffer := rttBuffer + [rtt];
      if |rttBuffer| > WINDOW_SIZE { rttBuffer := rttBuffer[1..]; }
    }

    method UpdateBufferSize(size: int)
      modifies this`bufferSize
      ensures bufferSize == size
    {
      bufferSize := size;
    }

    method BroadcastEvent(event: Event)
      modifies this`broadcast
      ensures broadcast == old(broadcast) + [event]
    {
      broadcast := broadcast + [event];
    }

    /** Refreshes the latency figures from the window; without any value they
        stay as they are. */
    method CalculatePercentiles()
      modifies this`avgRtt, this`p50Rtt, this`p95Rtt, this`p99Rtt
      ensures rttBuffer == [] ==> unchanged(this)
      ensures rttBuffer != [] ==>
        && avgRtt == Sum(rttBuffer) / |rttBuffer| as real
        && p50Rtt == HubPercentile(Sorted(rttBuffer), 0.50)
        && p95Rtt == HubPercentile(Sorted(rttBuffer), 0.95)
        && p99Rtt == HubPercentile(Sorted(rttBuffer), 0.99)
    {
      hide HubPercentile, Sum;
      if |rttBuffer| == 0 { return; }
      var values := Copy(rttBuffer);
      SortFloat64s(values);
      SumPermutation(values[..], rttBuffer);
      avgRtt := Average(values);
      p50Rtt := Percentile(values, 0.50);
      p95Rtt := Percentile(values, 0.95);
      p99Rtt := Percentile(values, 0.99);
    }
  }

  /** The live percentiles of any non-empty history against the database's on the
      same latencies: ordered, never above it, and the nearest recorded value
      below it. */
  lemma LiveAgainstDatabase(history: seq<Observation>, p: real, q: real)
    requires history != [] && 0.0 <= p <= q <= 1.0
    ensures var recent := Recent(history);
      var window := After(history).window;
      && window == recent != []
      && HubPercentile(Sorted(window), p) <= HubPercentile(Sorted(window), q)
      && HubPercentile(Sorted(window), p) <= PercentileCont(recent, p)
      && forall v :: v in recent ==> v <= HubPercentile(Sorted(window), p) || PercentileCont(recent, p) <= v
  {
    hide HubPercentile, PercentileCont;
    WindowIsRecent(history);
    var window := After(history).window;
    SortedIsSorted(window);
    HubPercentilesOrdered(Sorted(window), p, q);
    HubBelowDatabase(window, p);
  }
}
