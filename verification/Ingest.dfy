/** The ingest handlers (handlers/handlers.go): every event goes to the storage
    buffer first and is recorded at the realtime hub afterwards, while other
    handlers and flushers run in between. */
module Ingest {
  import opened Sequences
  import opened Models
  import Flush = FlushProtocol
  import Storage
  import Hub

  // ----- The handlers, one request at a time -----

  datatype Response = Accepted(count: int) | BadRequest

  class Handlers {
    const storage: Storage.DuckDBStorage
    const hub: Hub.Statistics?

    constructor (storage: Storage.DuckDBStorage, hub: Hub.Statistics?)
      ensures this.storage == storage && this.hub == hub
    {
      this.storage := storage;
      this.hub := hub;
    }

    /** The protocol state seen by this pair of storage and hub, while no flush is in
        flight and other handlers still have `pending` events to record. */
    ghost function Abstract(returned: seq<int>, pending: seq<seq<Event>>): State
      requires hub != null
      reads storage, hub
    {
      State(storage.AtRest(returned), hub.totalRequests, hub.errorCount, pending)
    }

    /** `decoded` is None for a body that is not an event. */
    method HandleIngest(decoded: Option<Event>, now: Hub.Clock) returns (r: Response)
      modifies storage, hub
      ensures decoded.None? ==> r == BadRequest && unchanged(storage) && (hub != null ==> unchanged(hub))
      ensures decoded.Some? ==>
        r == Accepted(1) && storage.buffer == old(storage.buffer) + [decoded.value] && storage.table == old(storage.table)
      ensures decoded.Some? && hub != null ==>
        && hub.State() == Hub.Record(old(hub.State()), Hub.Observation(decoded.value.rtt, decoded.value.IsError(), now))
        && hub.broadcast == old(hub.broadcast) + [decoded.value]
      ensures decoded.Some? && hub != null ==>
        forall returned, pending :: Abstract(returned, pending) == Handled(old(Abstract(returned, pending)), [decoded.value])
    {
      if decoded.None? { return BadRequest; }
      var ev := decoded.value;
      storage.AddEvent(ev);
      if hub != null {
        var isError := ev.status >= 400 || ev.errorCode != "";
        hub.RecordEvent(ev.rtt, isError, now);
        hub.BroadcastEvent(ev);
        OneError(ev);
      }
      r := Accepted(1);
    }

    /** `clock` gives the reading of the clock for each event of the batch. */
    method HandleIngestBatch(decoded: Option<seq<Event>>, clock: nat -> Hub.Clock) returns (r: Response)
      modifies storage, hub
      ensures decoded.None? || decoded.value == [] ==>
        r == BadRequest && unchanged(storage) && (hub != null ==> unchanged(hub))
      ensures decoded.Some? && decoded.value != [] ==>
        && r == Accepted(|decoded.value|)
        && storage.buffer == old(storage.buffer) + decoded.value && storage.table == old(storage.table)
      ensures decoded.Some? && decoded.value != [] && hub != null ==>
        && hub.State() == RecordAll(old(hub.State()), decoded.value, clock)
        && hub.bufferSize == |storage.buffer| && hub.broadcast == old(hub.broadcast)
      ensures decoded.Some? && decoded.value != [] && hub != null ==>
        forall returned, pending :: Abstract(returned, pending) == Handled(old(Abstract(returned, pending)), decoded.value)
    {
      if decoded.None? { return BadRequest; }
      var events := decoded.value;
      if |events| == 0 { return BadRequest; }
      storage.AddEvents(events);
      if hub != null {
        hide RecordAll, ErrorCount;
        NothingRecorded(hub.State(), events, clock);
        for i := 0 to |events|
          invariant hub.State() == RecordAll(old(hub.State()), events[..i], clock)
          invariant hub.errorCount == old(hub.errorCount) + ErrorCount(events[..i]) && hub.totalRequests == old(hub.totalRequests) + i
          invariant hub.broadcast == old(hub.broadcast)
          invariant storage.buffer == old(storage.buffer) + events && storage.table == old(storage.table)
        {
          OneMoreRecorded(old(hub.State()), events, i, clock);
          var isError := events[i].status >= 400 || events[i].errorCode != "";
          hub.RecordEvent(events[i].rtt, isError, clock(i));
        }
        assert events[..|events|] == events;
        var size := storage.BufferSize();
        hub.UpdateBufferSize(size);
      }
      r := Accepted(|events|);
    }
  }

  function RecordAll(h: Hub.Live, events: seq<Event>, clock: nat -> Hub.Clock): Hub.Live {
    if events == [] then h
    else
      var k := |events| - 1;
      Hub.Record(RecordAll(h, events[..k], clock), Hub.Observation(events[k].rtt, events[k].IsError(), clock(k)))
  }

  lemma NothingRecorded(h: Hub.Live, events: seq<Event>, clock: nat -> Hub.Clock)
    ensures RecordAll(h, events[..0], clock) == h && ErrorCount(events[..0]) == 0
  {}

  lemma OneMoreRecorded(h: Hub.Live, events: seq<Event>, i: nat, clock: nat -> Hub.Clock)
    requires i < |events|
    ensures RecordAll(h, events[..i + 1], clock)
         == Hub.Record(RecordAll(h, events[..i], clock), Hub.Observation(events[i].rtt, events[i].IsError(), clock(i)))
    ensures ErrorCount(events[..i + 1]) == ErrorCount(events[..i]) + if events[i].IsError() then 1 else 0
  {
    assert events[..i + 1][..i] == events[..i];
  }

  // ----- Interleaved handlers and flushers -----

  /** The storage, the hub's two counters, and for every handler in the middle
      of its request the events it still has to record. */
  datatype State = State(storage: Flush.State, total: int, errors: int, pending: seq<seq<Event>>)

  datatype Action =
    | Receive(events: seq<Event>)
    | RecordNext(handler: nat)
    | Storage(action: Flush.Action)

  const INIT := State(Flush.INIT, 0, 0, [])

  predicate Enabled(s: State, a: Action) {
    match a
    case Receive(events) => events != []
    case RecordNext(i) => i < |s.pending| && s.pending[i] != []
    case Storage(f) => !f.Add? && Flush.Enabled(s.storage, f)
  }

  /** A handler with nothing left to record has finished. */
  function Finish(pending: seq<seq<Event>>, i: nat): seq<seq<Event>>
    requires i < |pending| && pending[i] != []
  {
    if |pending[i]| == 1 then RemoveAt(pending, i) else pending[i := pending[i][1..]]
  }

  function Step(s: State, a: Action): State
    requires Enabled(s, a)
  {
    match a
    case Receive(events) => s.(storage := Flush.Step(s.storage, Flush.Add(events)), pending := s.pending + [events])
    case RecordNext(i) =>
      var e := s.pending[i][0];
      s.(total := s.total + 1,
         errors := s.errors + (if e.status >= 400 || e.errorCode != "" then 1 else 0),
         pending := Finish(s.pending, i))
    case Storage(f) => s.(storage := Flush.Step(s.storage, f))
  }

  function Run(actions: seq<Action>): Option<State> {
    if actions == [] then Some(INIT)
    else
      var s := Run(actions[..|actions| - 1]);
      if s.Some? && Enabled(s.value, actions[|actions| - 1]) then Some(Step(s.value, actions[|actions| - 1])) else None
  }

  /** One request handled without interruption: everything stored and recorded. */
  function Handled(s: State, events: seq<Event>): State {
    s.(storage := Flush.Step(s.storage, Flush.Add(events)), total := s.total + |events|, errors := s.errors + ErrorCount(events))
  }

  /** The steps of one such request: received, then recorded event by event. */
  function Request(handler: nat, events: seq<Event>): seq<Action> {
    [Receive(events)] + seq(|events|, i requires 0 <= i < |events| => RecordNext(handler))
  }

  function RunFrom(s: State, actions: seq<Action>): Option<State>
    decreases |actions|
  {
    if actions == [] then Some(s)
    else if Enabled(s, actions[0]) then RunFrom(Step(s, actions[0]), actions[1..])
    else None
  }

  lemma {:induction false} RecordsDrain(s: State, handler: nat, actions: seq<Action>)
    requires handler < |s.pending| && s.pending[handler] != []
    requires |actions| == |s.pending[handler]| && forall a :: a in actions ==> a == RecordNext(handler)
    ensures RunFrom(s, actions)
         == Some(s.(total := s.total + |actions|, errors := s.errors + ErrorCount(s.pending[handler]),
                    pending := RemoveAt(s.pending, handler)))
    decreases |actions|
  {
    var events := s.pending[handler];
    var next := Step(s, RecordNext(handler));
    assert actions[0] in actions;
    assert events == [events[0]] + events[1..];
    ErrorCountConcat([events[0]], events[1..]);
    OneError(events[0]);
    if |events| > 1 {
      var rest := actions[1..];
      forall a | a in rest ensures a == RecordNext(handler) { assert a in actions; }
      RecordsDrain(next, handler, rest);
      assert RemoveAt(next.pending, handler) == RemoveAt(s.pending, handler);
    }
  }

  /** Handling a request alone is the protocol's run of its steps. */
  lemma RequestHandled(s: State, events: seq<Event>)
    requires events != []
    ensures RunFrom(s, Request(|s.pending|, events)) == Some(Handled(s, events))
  {
    hide RunFrom, Flush.Step, ErrorCount, Finish;
    var received, actions := Step(s, Receive(events)), Request(|s.pending|, events);
    var records := seq(|events|, i requires 0 <= i < |events| => RecordNext(|s.pending|));
    assert actions == [Receive(events)] + records;
    assert actions[0] == Receive(events) && actions[1..] == records;
    assert received.pending == s.pending + [events];
    RecordsDrain(received, |s.pending|, records);
    assert RemoveAt(received.pending, |s.pending|) == s.pending;
    RunFromFirst(s, actions);
  }

  lemma RunFromFirst(s: State, actions: seq<Action>)
    requires actions != [] && Enabled(s, actions[0])
    ensures RunFrom(s, actions) == RunFrom(Step(s, actions[0]), actions[1..])
  {
    hide Step;
  }

  // ----- Counting -----

  function ErrorCount(events: seq<Event>): nat {
    if events == [] then 0
    else ErrorCount(events[..|events| - 1]) + (if events[|events| - 1].IsError() then 1 else 0)
  }

  lemma {:induction false} ErrorCountConcat(a: seq<Event>, b: seq<Event>)
    ensures ErrorCount(a + b) == ErrorCount(a) + ErrorCount(b)
  {
    if b == [] {
      assert a + b == a;
    } else {
      assert (a + b)[..|a + b| - 1] == a + b[..|b| - 1];
      ErrorCountConcat(a, b[..|b| - 1]);
    }
  }

  /** The erroneous events: a status from 400 on, or an error code. */
  lemma ErrorsCounted(events: seq<Event>)
    ensures ErrorCount(events) == |set i | 0 <= i < |events| && (events[i].status >= 400 || events[i].errorCode != "")|
  {
    hide ErrorCount, Occurrences;
    ErrorFlags(events);
    var ps := OccurrencesPositions(true, Column(Flag(), events));
    assert ps == set i | 0 <= i < |events| && (events[i].status >= 400 || events[i].errorCode != "");
  }

  function Flag(): Event -> bool { (e: Event) => e.IsError() }

  lemma {:induction false} ErrorFlags(events: seq<Event>)
    ensures ErrorCount(events) == Occurrences(true, Column(Flag(), events))
  {
    if events != [] {
      ErrorFlags(events[..|events| - 1]);
      assert Column(Flag(), events)[..|events| - 1] == Column(Flag(), events[..|events| - 1]);
    }
  }

  lemma {:induction false} ErrorCountPermuted(a: seq<Event>, b: seq<Event>)
    requires multiset(a) == multiset(b)
    ensures ErrorCount(a) == ErrorCount(b)
  {
    PermutationLength(a, b);
    if a != [] {
      var i := MatchHead(a, b);
      ErrorCountPermuted(a[1..], RemoveAt(b, i));
      assert a == [a[0]] + a[1..] && b == b[..i] + ([b[i]] + b[i + 1..]);
      ErrorCountConcat([a[0]], a[1..]);
      ErrorCountConcat(b[..i], [b[i]] + b[i + 1..]);
      ErrorCountConcat([b[i]], b[i + 1..]);
      ErrorCountConcat(b[..i], b[i + 1..]);
    }
  }

  function Pending(s: State): seq<Event> {
    Flatten(Flush.Batch(), s.pending)
  }

  lemma FinishOne(pending: seq<seq<Event>>, i: nat)
    requires i < |pending| && pending[i] != []
    ensures multiset(Flatten(Flush.Batch(), pending))
         == multiset(Flatten(Flush.Batch(), Finish(pending, i))) + multiset{pending[i][0]}
  {
    Flush.TakeOut(pending, i);
    HeadMultiset(pending[i]);
    if |pending[i]| > 1 {
      var next := pending[i := pending[i][1..]];
      Flush.TakeOut(next, i);
      assert RemoveAt(next, i) == RemoveAt(pending, i);
    }
  }

  /** The counters and the events still to be recorded together account for
      exactly what the storage holds. */
  ghost predicate Accounted(s: State) {
    && s.total + |Pending(s)| == |Flush.Stored(s.storage)|
    && s.errors + ErrorCount(Pending(s)) == ErrorCount(Flush.Stored(s.storage))
  }

  lemma StepAccounts(s: State, a: Action)
    requires Enabled(s, a) && Accounted(s)
    ensures Accounted(Step(s, a))
  {
    hide Flush.Step, Flush.InFlight, ErrorCount, Finish;
    var s' := Step(s, a);
    match a {
      case Receive(events) =>
        Flush.StepConserves(s.storage, Flush.Add(events));
        SameAccount(Flush.Stored(s'.storage), Flush.Stored(s.storage) + events);
        FlattenOne(Flush.Batch(), s.pending, events);
        ErrorCountConcat(Pending(s), events);
        ErrorCountConcat(Flush.Stored(s.storage), events);
      case RecordNext(i) =>
        var e := s.pending[i][0];
        FinishOne(s.pending, i);
        SameAccount(Pending(s), Pending(s') + [e]);
        ErrorCountConcat(Pending(s'), [e]);
        OneError(e);
      case Storage(f) =>
        Flush.StepConserves(s.storage, f);
        SameAccount(Flush.Stored(s'.storage), Flush.Stored(s.storage));
    }
  }

  lemma OneError(e: Event)
    ensures ErrorCount([e]) == if e.status >= 400 || e.errorCode != "" then 1 else 0
  {}

  lemma SameAccount(a: seq<Event>, b: seq<Event>)
    requires multiset(a) == multiset(b)
    ensures |a| == |b| && ErrorCount(a) == ErrorCount(b)
  {
    PermutationLength(a, b);
    ErrorCountPermuted(a, b);
  }

  lemma {:induction false} RunAccounts(actions: seq<Action>)
    requires Run(actions).Some?
    ensures Accounted(Run(actions).value)
  {
    hide Step, Accounted, Enabled;
    if actions == [] {
      InitAccounted();
    } else {
      RunAccounts(actions[..|actions| - 1]);
      StepAccounts(Run(actions[..|actions| - 1]).value, actions[|actions| - 1]);
    }
  }

  lemma InitAccounted()
    ensures Accounted(INIT)
  {}

  /** Whenever no handler is in the middle of a request, the live counters agree
      with the storage: the total with the number of events in table, flight and
      buffer, the error count with the erroneous ones among them. */
  lemma TwoPathsAgree(actions: seq<Action>)
    requires Run(actions).Some? && Run(actions).value.pending == []
    ensures var s := Run(actions).value;
      s.total == |Flush.Stored(s.storage)| && s.errors == ErrorCount(Flush.Stored(s.storage))
  {
    RunAccounts(actions);
  }
}
