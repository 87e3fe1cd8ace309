/** The deterministic fixture generator (analysis/fixtures). */
module Fixtures {
  import opened Models

  const TWO_TO_64: nat := 0x1_0000_0000_0000_0000
  const TWO_TO_53: real := 9007199254740992.0
  const MULTIPLIER: nat := 6364136223846793005
  const INCREMENT: nat := 1442695040888963407

  function NextState(s: nat): nat {
    (s * MULTIPLIER + INCREMENT) % TWO_TO_64
  }

  function Draw(s: nat): real {
    (s / 2048) as real / TWO_TO_53
  }

  /** The linear congruential generator on 64-bit wrap-around arithmetic. */
  class Lcg {
    var state: nat

    constructor (seed: nat)
      ensures state == seed
    {
      state := seed;
    }

    method Next() returns (x: real)
      modifies this
      ensures state == (old(state) * 6364136223846793005 + 1442695040888963407) % 0x1_0000_0000_0000_0000
      ensures state == NextState(old(state)) && x == Draw(state)
      ensures 0.0 <= x < 1.0
    {
      state := (state * MULTIPLIER + INCREMENT) % TWO_TO_64;
      DrawInUnit(state);
      x := (state / 2048) as real / TWO_TO_53;
    }
  }

  /** The 53 leading bits of the state make a fraction below one. */
  lemma DrawInUnit(s: nat)
    requires s < TWO_TO_64
    ensures 0.0 <= Draw(s) < 1.0
    ensures Draw(s) == 0.0 <==> s < 2048
    ensures s as real - 2048.0 < Draw(s) * 18446744073709551616.0 <= s as real
  {}

  /** Two steps of the recurrence, carried out without reduction. */
  const MULTIPLIER_2: nat := 40502229875678917802724098623316930025
  const INCREMENT_2: nat := 9181507769685582209825849996637531442

  /** A state below 2^11 is not followed by another one two steps later: 843563855
      times the difference would have to be a multiple of 2^64, but lies between
      two of them. */
  lemma TwoStepsFromSmall(s: nat, u: nat, j: int)
    requires s < 2048 && u == s * MULTIPLIER_2 + INCREMENT_2 - j * TWO_TO_64
    ensures u >= 2048
  {
    var z := 1852154344067571622344126218 * s + 419867487615168162825354678 - 843563855 * j;
    assert 843563855 * u + 1435621913 * s - 5251488029349169262 == TWO_TO_64 * z;
  }

  lemma NoTwoZeroDraws(s: nat)
    requires s < 2048
    ensures NextState(NextState(s)) >= 2048
  {
    var t := NextState(s);
    var k := (s * MULTIPLIER + INCREMENT) / TWO_TO_64;
    var l := (t * MULTIPLIER + INCREMENT) / TWO_TO_64;
    assert t == s * MULTIPLIER + INCREMENT - k * TWO_TO_64;
    TwoStepsFromSmall(s, NextState(t), k * MULTIPLIER + l);
  }

  // ----- Events -----

  datatype Profile = Profile(dns: real, tcp: real, tls: real, ttfb: real, transfer: real) {
    function Scaled(m: Profile, jitter: real): Profile {
      Profile(dns * m.dns * jitter, tcp * m.tcp * jitter, tls * m.tls * jitter, ttfb * m.ttfb * jitter, transfer * m.transfer * jitter)
    }

    function Rtt(): real {
      dns + tcp + tls + ttfb + transfer
    }
  }

  const IDENTITY := Profile(1.0, 1.0, 1.0, 1.0, 1.0)
  const PODS := ["pod-0", "pod-1", "pod-2"]
  const REQUESTS_PER_ENDPOINT := 60

  datatype GenOptions = GenOptions(
    runId: string, endpoint: string, base: Profile, errorRate: real, seed: nat,
    podMultiplier: map<string, Profile>, n: int)

  function Count(opt: GenOptions): nat {
    if opt.n <= 0 then REQUESTS_PER_ENDPOINT else opt.n
  }

  function StateAfter(seed: nat, draws: nat): nat {
    if draws == 0 then seed else NextState(StateAfter(seed, draws - 1))
  }

  lemma StateInRange(seed: nat, k: nat)
    requires k > 0
    ensures StateAfter(seed, k) < TWO_TO_64
  {}

  function Jitter(x: real): real {
    1.0 + (x - 0.5) * 0.2
  }

  /** The i-th event, made from one draw for its jitter and one for its outcome. */
  function EventAt(opt: GenOptions, i: nat, jitterDraw: real, errorDraw: real): Event {
    var pod := PODS[i % 3];
    var mult := if pod in opt.podMultiplier then opt.podMultiplier[pod] else IDENTITY;
    var comp := opt.base.Scaled(mult, Jitter(jitterDraw));
    var failed := errorDraw < opt.errorRate;
    Event(opt.runId, 1_700_000_000_000 + i * 100, pod, i % 10, i, "GET", opt.endpoint, opt.endpoint,
          if failed then 500 else 200, 512, comp.Rtt(), comp.dns, comp.tcp, comp.tls, comp.ttfb, comp.transfer,
          256, 768, if failed then "SERVER_ERROR" else "", "", map[])
  }

  function Events(opt: GenOptions, k: nat): (es: seq<Event>)
    ensures |es| == k
    ensures forall i :: 0 <= i < k ==>
      es[i] == EventAt(opt, i, Draw(StateAfter(opt.seed, 2 * i + 1)), Draw(StateAfter(opt.seed, 2 * i + 2)))
  {
    seq(k, i requires 0 <= i < k => EventAt(opt, i, Draw(StateAfter(opt.seed, 2 * i + 1)), Draw(StateAfter(opt.seed, 2 * i + 2))))
  }

  method Generate(opt: GenOptions) returns (events: seq<Event>)
    ensures events == Events(opt, Count(opt)) && |events| == if opt.n <= 0 then 60 else opt.n
  {
    hide Draw, NextState, Events, StateAfter;
    var n := opt.n;
    if n <= 0 { n := REQUESTS_PER_ENDPOINT; }
    var rng := new Lcg(opt.seed);
    events := [];
    assert rng.state == StateAfter(opt.seed, 0) && Events(opt, 0) == [] by { NoDraws(opt); }
    for i := 0 to n
      invariant rng.state == StateAfter(opt.seed, 2 * i)
      invariant events == Events(opt, i)
    {
      TwoDraws(opt, i);
      var pod := PODS[i % 3];
      var mult := IDENTITY;
      if pod in opt.podMultiplier { mult := opt.podMultiplier[pod]; }
      var jitterDraw := rng.Next();
      var jitter := 1.0 + (jitterDraw - 0.5) * 0.2;
      var comp := opt.base.Scaled(mult, jitter);
      var status, errCode := 200, "";
      var errorDraw := rng.Next();
      if errorDraw < opt.errorRate { status, errCode := 500, "SERVER_ERROR"; }
      var event := Event(opt.runId, 1_700_000_000_000 + i * 100, pod, i % 10, i, "GET", opt.endpoint, opt.endpoint,
                         status, 512, comp.Rtt(), comp.dns, comp.tcp, comp.tls, comp.ttfb, comp.transfer,
                         256, 768, errCode, "", map[]);
      assert event == EventAt(opt, i, jitterDraw, errorDraw);
      events := events + [event];
    }
  }

  /** An event of a run is an error exactly if its second draw lies below the error
      rate; then it carries status 500 and an error code, otherwise status 200 and
      none. */
  lemma ErrorsByDraw(opt: GenOptions, k: nat, i: nat)
    requires i < k
    ensures var e := Events(opt, k)[i];
      && (e.IsError() <==> Draw(StateAfter(opt.seed, 2 * i + 2)) < opt.errorRate)
      && (e.status, e.errorCode) == if e.IsError() then (500, "SERVER_ERROR") else (200, "")
  {
    hide Draw, StateAfter;
  }

  /** No errors at an error rate of 0, nothing but errors from 1 on, for every seed. */
  lemma CertainOutcomes(opt: GenOptions, k: nat, i: nat)
    requires i < k
    ensures opt.errorRate <= 0.0 ==> !Events(opt, k)[i].IsError()
    ensures opt.errorRate >= 1.0 ==> Events(opt, k)[i].IsError()
  {
    hide Draw, Events;
    ErrorsByDraw(opt, k, i);
    DrawInUnit(StateAfter(opt.seed, 2 * i + 2));
  }

  /** The other fields of an event: a tenth of a second apart, dealt to three pods and
      ten users in turn, named after the endpoint, with a latency that is the sum of
      its phases, each jittered by the same factor of less than ten percent. */
  predicate ShapedBy(opt: GenOptions, i: nat, draw: real, e: Event) {
    && e.runId == opt.runId && e.ts == 1_700_000_000_000 + 100 * i && e.vu == i % 10 && e.iter == i
    && e.podId == ["pod-0", "pod-1", "pod-2"][i % 3]
    && e.httpMethod == "GET" && e.url == e.name == opt.endpoint
    && e.bodyLen == 512 && e.requestSize == 256 && e.responseSize == 768 && e.errorMsg == "" && e.tags == map[]
    && e.rtt == e.dnsLookup + e.tcpConnect + e.tlsHandshake + e.ttfb + e.contentTransfer
    && var jitter := 0.9 + draw / 5.0;
       var m := if e.podId in opt.podMultiplier then opt.podMultiplier[e.podId] else Profile(1.0, 1.0, 1.0, 1.0, 1.0);
       && 0.9 <= jitter < 1.1
       && e.dnsLookup == opt.base.dns * m.dns * jitter && e.tcpConnect == opt.base.tcp * m.tcp * jitter
       && e.tlsHandshake == opt.base.tls * m.tls * jitter && e.ttfb == opt.base.ttfb * m.ttfb * jitter
       && e.contentTransfer == opt.base.transfer * m.transfer * jitter
  }

  lemma EventShape(opt: GenOptions, k: nat, i: nat)
    requires i < k
    ensures ShapedBy(opt, i, Draw(StateAfter(opt.seed, 2 * i + 1)), Events(opt, k)[i])
  {
    hide Draw, StateAfter, ShapedBy, Jitter;
    StateInRange(opt.seed, 2 * i + 1);
    DrawInUnit(StateAfter(opt.seed, 2 * i + 1));
    DrawnShape(opt, i, Draw(StateAfter(opt.seed, 2 * i + 1)), Draw(StateAfter(opt.seed, 2 * i + 2)));
  }

  lemma DrawnShape(opt: GenOptions, i: nat, x: real, y: real)
    requires 0.0 <= x < 1.0
    ensures ShapedBy(opt, i, x, EventAt(opt, i, x, y))
  {
    hide Jitter;
    JitterOfDraw(x);
  }

  lemma JitterOfDraw(x: real)
    ensures Jitter(x) == 0.9 + x / 5.0
  {}

  lemma NoDraws(opt: GenOptions)
    ensures StateAfter(opt.seed, 0) == opt.seed && Events(opt, 0) == []
  {}

  lemma TwoDraws(opt: GenOptions, i: nat)
    ensures StateAfter(opt.seed, 2 * i + 1) == NextState(StateAfter(opt.seed, 2 * i))
    ensures StateAfter(opt.seed, 2 * i + 2) == NextState(StateAfter(opt.seed, 2 * i + 1))
    ensures Events(opt, i + 1)
         == Events(opt, i) + [EventAt(opt, i, Draw(StateAfter(opt.seed, 2 * i + 1)), Draw(StateAfter(opt.seed, 2 * i + 2)))]
  {
    hide Draw, EventAt, NextState;
  }
}
