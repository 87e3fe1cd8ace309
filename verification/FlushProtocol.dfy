/** The buffered flush of the metrics storage (storage/duckdb.go) as a protocol
    of atomic steps: writers append, flushers take the whole buffer, write it
    outside the lock, and put it back in front when the write fails. */
module FlushProtocol {
  import opened Sequences
  import opened Models

  /** `inflight` holds the batches taken and not yet written, oldest first;
      `returned` the counts that finished flushes reported. */
  datatype State = State(table: seq<Event>, inflight: seq<seq<Event>>, buffer: seq<Event>, returned: seq<int>)

  /** The flusher is named by the position of its batch among those in flight.
      `Write` succeeds or fails as one step. */
  datatype Action = Add(events: seq<Event>) | Take | Write(flusher: nat, succeeds: bool)

  const INIT := State([], [], [], [])

  predicate Enabled(s: State, a: Action) {
    a.Write? ==> a.flusher < |s.inflight|
  }

  function Step(s: State, a: Action): State
    requires Enabled(s, a)
  {
    match a
    case Add(events) => s.(buffer := s.buffer + events)
    case Take =>
      if s.buffer == [] then s.(returned := s.returned + [0])
      else s.(inflight := s.inflight + [s.buffer], buffer := [])
    case Write(i, succeeds) =>
      var batch, rest := s.inflight[i], RemoveAt(s.inflight, i);
      if succeeds then s.(table := s.table + batch, inflight := rest, returned := s.returned + [|batch|])
      else s.(inflight := rest, buffer := batch + s.buffer, returned := s.returned + [0])
  }

  /** The state after a run from the empty storage, None if some action of it
      could not happen. */
  function Run(actions: seq<Action>): Option<State> {
    if actions == [] then Some(INIT)
    else
      var s := Run(actions[..|actions| - 1]);
      if s.Some? && Enabled(s.value, actions[|actions| - 1]) then Some(Step(s.value, actions[|actions| - 1])) else None
  }

  predicate Possible(actions: seq<Action>) {
    Run(actions).Some?
  }

  function After(actions: seq<Action>): State
    requires Possible(actions)
  {
    Run(actions).value
  }

  lemma Extend(actions: seq<Action>, a: Action)
    requires Possible(actions) && Enabled(After(actions), a)
    ensures Possible(actions + [a]) && After(actions + [a]) == Step(After(actions), a)
    ensures Ingested(actions + [a]) == Ingested(actions) + Added(a)
  {}

  /** Everything the run was given, in the order of arrival. */
  function Ingested(actions: seq<Action>): seq<Event> {
    if actions == [] then []
    else
      var last := actions[|actions| - 1];
      Ingested(actions[..|actions| - 1]) + Added(last)
  }

  function Added(a: Action): seq<Event> {
    if a.Add? then a.events else []
  }

  function Batch(): seq<Event> -> seq<Event> { (b: seq<Event>) => b }

  function InFlight(s: State): seq<Event> {
    Flatten(Batch(), s.inflight)
  }

  /** All events the storage holds: written, in flight or buffered. */
  function Stored(s: State): seq<Event> {
    s.table + InFlight(s) + s.buffer
  }

  function SumOf(counts: seq<int>): int {
    if counts == [] then 0 else SumOf(counts[..|counts| - 1]) + counts[|counts| - 1]
  }

  // ----- Any number of flushers -----

  lemma TakeOut(batches: seq<seq<Event>>, i: nat)
    requires i < |batches|
    ensures multiset(Flatten(Batch(), batches)) == multiset(Flatten(Batch(), RemoveAt(batches, i))) + multiset(batches[i])
  {
    SplitFlight(batches, i);
  }

  /** Whatever flushers interleave and whichever writes fail, no event is lost or
      duplicated, and the reported counts add up to the size of the table. */
  lemma {:induction false} NothingLost(actions: seq<Action>)
    requires Possible(actions)
    ensures var s := After(actions);
      && multiset(Stored(s)) == multiset(Ingested(actions))
      && SumOf(s.returned) == |s.table|
  {
    if actions != [] {
      var init, a := actions[..|actions| - 1], actions[|actions| - 1];
      var s := After(init);
      NothingLost(init);
      StepConserves(s, a);
    }
  }

  lemma StepConserves(s: State, a: Action)
    requires Enabled(s, a)
    ensures var s' := Step(s, a);
      && multiset(Stored(s')) == multiset(Stored(s)) + multiset(Added(a))
      && SumOf(s'.returned) - |s'.table| == SumOf(s.returned) - |s.table|
  {
    hide Stored, SumOf, InFlight;
    match a {
      case Add(events) =>
        StoredParts(s);
        StoredParts(Step(s, a));
      case Take =>
        TakeKeepsOrder(s);
        SumOfAppend(s.returned, 0);
      case Write(i, succeeds) => WriteConserves(s, i, succeeds);
    }
  }

  lemma WriteConserves(s: State, i: nat, succeeds: bool)
    requires i < |s.inflight|
    ensures var s' := Step(s, Write(i, succeeds));
      multiset(Stored(s')) == multiset(Stored(s)) && SumOf(s'.returned) - |s'.table| == SumOf(s.returned) - |s.table|
  {
    hide Stored, SumOf, InFlight, Flatten;
    StoredParts(s);
    StoredParts(Step(s, Write(i, succeeds)));
    TakeOut(s.inflight, i);
    SumOfAppend(s.returned, if succeeds then |s.inflight[i]| else 0);
  }

  lemma StoredParts(s: State)
    ensures multiset(Stored(s)) == multiset(s.table) + multiset(Flatten(Batch(), s.inflight)) + multiset(s.buffer)
  {}

  lemma SumOfAppend(counts: seq<int>, n: int)
    ensures SumOf(counts + [n]) == SumOf(counts) + n
  {}

  // ----- The order of arrival -----

  /** Table, batches in flight and buffer together are what was ingested, in the
      order of arrival. */
  predicate Ordered(actions: seq<Action>)
    requires Possible(actions)
  {
    Stored(After(actions)) == Ingested(actions)
  }

  predicate AlwaysOrdered(actions: seq<Action>)
    requires Possible(actions)
  {
    Ordered(actions) && (actions == [] || AlwaysOrdered(actions[..|actions| - 1]))
  }

  /** The oldest batch in flight is the one that reaches the table, the youngest
      the one that is put back. */
  predicate InTurn(s: State, a: Action) {
    a.Write? ==> a.flusher == if a.succeeds then 0 else |s.inflight| - 1
  }

  predicate WritesInTurn(actions: seq<Action>)
    requires Possible(actions)
  {
    actions == [] ||
    (WritesInTurn(actions[..|actions| - 1]) && InTurn(After(actions[..|actions| - 1]), actions[|actions| - 1]))
  }

  /** Any number of flushes in flight keep the order of arrival at every moment
      if batches are written oldest first and put back youngest first. */
  lemma {:induction false} OrderKept(actions: seq<Action>)
    requires Possible(actions) && WritesInTurn(actions)
    ensures AlwaysOrdered(actions)
  {
    hide Step, InFlight, InTurn;
    if actions == [] {
      assert InFlight(INIT) == [] by { NothingInFlight(); }
    } else {
      var init, a := actions[..|actions| - 1], actions[|actions| - 1];
      OrderKept(init);
      StepKeepsOrder(After(init), a);
    }
  }

  lemma NothingInFlight()
    ensures InFlight(INIT) == []
  {}

  /** The batch at a position among those in flight, with what is in front of it
      and what is behind. */
  lemma SplitFlight(batches: seq<seq<Event>>, i: nat)
    requires i < |batches|
    ensures var front, back := Flatten(Batch(), batches[..i]), Flatten(Batch(), batches[i + 1..]);
      && Flatten(Batch(), batches) == front + batches[i] + back
      && Flatten(Batch(), RemoveAt(batches, i)) == front + back
  {
    assert batches == batches[..i] + [batches[i]] + batches[i + 1..];
    FlattenConcat(Batch(), batches[..i] + [batches[i]], batches[i + 1..]);
    FlattenOne(Batch(), batches[..i], batches[i]);
    FlattenConcat(Batch(), batches[..i], batches[i + 1..]);
  }

  lemma EmptyFlatten(batches: seq<seq<Event>>)
    ensures batches == [] ==> Flatten(Batch(), batches) == []
  {}

  lemma StepKeepsOrder(s: State, a: Action)
    requires Enabled(s, a) && InTurn(s, a)
    ensures Stored(Step(s, a)) == Stored(s) + Added(a)
  {
    match a {
      case Add(_) =>
      case Take => TakeKeepsOrder(s);
      case Write(i, succeeds) => WriteKeepsOrder(s, i, succeeds);
    }
  }

  lemma TakeKeepsOrder(s: State)
    ensures Stored(Step(s, Take)) == Stored(s)
  {
    hide Flatten;
    if s.buffer != [] {
      FlattenOne(Batch(), s.inflight, s.buffer);
      var flight := InFlight(s);
      assert s.table + (flight + s.buffer) + [] == s.table + flight + s.buffer;
    }
  }

  lemma WriteKeepsOrder(s: State, i: nat, succeeds: bool)
    requires i < |s.inflight| && i == if succeeds then 0 else |s.inflight| - 1
    ensures Stored(Step(s, Write(i, succeeds))) == Stored(s)
  {
    hide Flatten;
    SplitFlight(s.inflight, i);
    EmptyFlatten(s.inflight[..i]);
    EmptyFlatten(s.inflight[i + 1..]);
    var front, batch, back := Flatten(Batch(), s.inflight[..i]), s.inflight[i], Flatten(Batch(), s.inflight[i + 1..]);
    if succeeds {
      assert front == [];
      assert s.table + ([] + batch + back) + s.buffer == (s.table + batch) + ([] + back) + s.buffer;
    } else {
      assert back == [];
      assert s.table + (front + batch + []) + s.buffer == s.table + (front + []) + (batch + s.buffer);
    }
  }

  /** Nothing empty is ever taken. */
  lemma {:induction false} BatchesNonEmpty(actions: seq<Action>)
    requires Possible(actions)
    ensures forall b :: b in After(actions).inflight ==> b != []
  {
    if actions != [] { BatchesNonEmpty(actions[..|actions| - 1]); }
  }

  /** A write out of turn moves some event past another one. */
  lemma OutOfTurnReorders(s: State, a: Action)
    requires Enabled(s, a) && !InTurn(s, a)
    requires Distinct(Stored(s)) && forall b :: b in s.inflight ==> b != []
    ensures Stored(Step(s, a)) != Stored(s)
  {
    hide Flatten;
    var i, succeeds, all, now := a.flusher, a.succeeds, Stored(s), Stored(Step(s, a));
    var front, back := Flatten(Batch(), s.inflight[..i]), Flatten(Batch(), s.inflight[i + 1..]);
    var batch, n := s.inflight[i], |s.table|;
    assert batch in s.inflight;
    SplitFlight(s.inflight, i);
    assert all == s.table + front + batch + back + s.buffer;
    if succeeds {
      assert now == s.table + batch + front + back + s.buffer;
      var earlier := s.inflight[..i];
      forall b | b in earlier ensures b != [] { assert b in s.inflight; }
      FlattenNonEmpty(earlier);
      assert now[n] == batch[0] == all[n + |front|];
    } else {
      assert now == s.table + front + back + batch + s.buffer;
      var later := s.inflight[i + 1..];
      forall b | b in later ensures b != [] { assert b in s.inflight; }
      FlattenNonEmpty(later);
      assert now[n + |front|] == back[0] == all[n + |front| + |batch|];
    }
  }

  lemma FlattenNonEmpty(batches: seq<seq<Event>>)
    requires batches != [] && forall b :: b in batches ==> b != []
    ensures Flatten(Batch(), batches) != []
  {
    assert batches[|batches| - 1] in batches;
  }

  /** For events that can be told apart the condition is exact: the order of
      arrival is kept at every moment if and only if batches are written oldest
      first and put back youngest first. */
  lemma {:induction false} OrderKeptExactlyWhen(actions: seq<Action>)
    requires Possible(actions) && Distinct(Ingested(actions))
    ensures AlwaysOrdered(actions) <==> WritesInTurn(actions)
  {
    hide Step, InFlight, InTurn;
    if WritesInTurn(actions) {
      OrderKept(actions);
    } else {
      var init, a := actions[..|actions| - 1], actions[|actions| - 1];
      assert Ingested(init) == Ingested(actions)[..|Ingested(init)|];
      OrderKeptExactlyWhen(init);
      if AlwaysOrdered(actions) {
        BatchesNonEmpty(init);
        assert Stored(After(init)) == Ingested(init);
        assert a.Write? by { WritesOnly(After(init), a); }
        OutOfTurnReorders(After(init), a);
      }
    }
  }

  lemma WritesOnly(s: State, a: Action)
    requires !InTurn(s, a)
    ensures a.Write?
  {}

  // ----- One flush at a time -----

  /** No flush starts while another batch is in flight. */
  predicate OneAtATime(actions: seq<Action>)
    requires Possible(actions)
  {
    actions == [] ||
    (OneAtATime(actions[..|actions| - 1])
     && (actions[|actions| - 1].Take? ==> After(actions[..|actions| - 1]).inflight == []))
  }

  /** A single batch in flight is the oldest and the youngest at once. */
  lemma {:induction false} OneAtATimeInTurn(actions: seq<Action>)
    requires Possible(actions) && OneAtATime(actions)
    ensures |After(actions).inflight| <= 1 && WritesInTurn(actions)
  {
    if actions != [] { OneAtATimeInTurn(actions[..|actions| - 1]); }
  }

  /** When nothing is buffered or in flight, the table is the ingested sequence:
      after flushes one at a time as well as after overlapping ones in turn. */
  lemma DrainedTable(actions: seq<Action>)
    requires Possible(actions) && (OneAtATime(actions) || WritesInTurn(actions))
    requires After(actions).inflight == [] && After(actions).buffer == []
    ensures After(actions).table == Ingested(actions)
  {
    if OneAtATime(actions) { OneAtATimeInTurn(actions); }
    OrderKept(actions);
    EmptyFlatten(After(actions).inflight);
  }

  /** Two batches of one event each, taken one after the other. */
  lemma TwoInFlight(a: Event, b: Event)
    ensures var run := [Add([a]), Take] + [Add([b]), Take];
      Possible(run) && After(run) == State([], [[a], [b]], [], []) && Ingested(run) == [a, b]
  {
    hide Run, Ingested, InFlight;
    EmptyRun();
    Extend([], Add([a]));
    assert [] + [Add([a])] == [Add([a])];
    assert After([Add([a])]) == State([], [], [a], []);
    Extend([Add([a])], Take);
    assert [Add([a])] + [Take] == [Add([a]), Take];
    assert After([Add([a]), Take]) == State([], [[a]], [], []);
    Extend([Add([a]), Take], Add([b]));
    assert After([Add([a]), Take] + [Add([b])]) == State([], [[a]], [b], []);
    Extend([Add([a]), Take] + [Add([b])], Take);
    assert [Add([a]), Take] + [Add([b])] + [Take] == [Add([a]), Take] + [Add([b]), Take];
  }

  /** Out of turn without any failure: the younger of two batches is written
      first, and the table ends up in another order. */
  lemma TwoFlushersReorder(a: Event, b: Event)
    requires a != b
    ensures var run := [Add([a]), Take] + [Add([b]), Take] + [Write(1, true)] + [Write(0, true)];
      && Possible(run) && After(run).inflight == [] && After(run).buffer == []
      && After(run).table == [b, a] && Ingested(run) == [a, b]
  {
    hide Run, Ingested;
    TwoInFlight(a, b);
    var run := [Add([a]), Take] + [Add([b]), Take];
    Extend(run, Write(1, true));
    assert RemoveAt([[a], [b]], 1) == [[a]];
    assert After(run + [Write(1, true)]) == State([b], [[a]], [], [1]);
    Extend(run + [Write(1, true)], Write(0, true));
    assert RemoveAt([[a]], 0) == [];
  }

  lemma EmptyRun()
    ensures Possible([]) && After([]) == INIT && Ingested([]) == []
  {}
}
