/** The controller's fan-out of flushes to all registered pods
    (orchestrator/controller.go): one goroutine per pod, interleaved freely with
    each other and with whatever else happens at the pods' storages. */
module Orchestrator {
  import opened Sequences
  import opened Models
  import Flush = FlushProtocol

  datatype PodStatus = UnknownStatus | Healthy | Unhealthy | FlushingStatus

  /** A pod as the controller lists it. Several names may share one address. */
  datatype Pod = Pod(status: PodStatus, address: string)

  /** `failed` stands for a non-empty error text. */
  datatype FlushResult = FlushResult(pod: string, flushed: int, failed: bool)

  /** How far the goroutine of a pod has come; while the batch taken for it is
      being written, its request is pending. */
  datatype Phase =
    | Starting
    | Requesting
    | Writing(batch: seq<Event>)
    | Answered(result: FlushResult)
    | Recorded(result: FlushResult)
    | Done(result: FlushResult)

  /** The storages of the pods by address. */
  type Stores = map<string, Flush.State>

  datatype State = State(pods: map<string, Pod>, stores: Stores, phases: map<string, Phase>, results: seq<FlushResult>)

  /** `Miss`: the request never arrives. `answered` is false when the pod did its
      work, but the upload, the transport or the decoding of the answer fails.
      `Elsewhere`: an ingest or another flush at some storage. */
  datatype Action =
    | MarkFlushing(pod: string)
    | Miss(pod: string)
    | Take(pod: string, answered: bool)
    | Write(pod: string, flusher: nat, succeeds: bool, answered: bool)
    | Append(pod: string)
    | SetStatus(pod: string)
    | Elsewhere(address: string, action: Flush.Action)

  /** The goroutines of the pods registered when the fan-out begins. */
  function Begin(pods: map<string, Pod>, stores: Stores): State {
    State(pods, stores, map p | p in pods :: Starting, [])
  }

  predicate Enabled(s: State, a: Action) {
    if a.Elsewhere? then a.address in s.stores && Flush.Enabled(s.stores[a.address], a.action)
    else
      && a.pod in s.phases && a.pod in s.pods && s.pods[a.pod].address in s.stores
      && match a
         case MarkFlushing(p) => s.phases[p].Starting?
         case Miss(p) => s.phases[p].Requesting?
         case Take(p, _) => s.phases[p].Requesting?
         case Write(p, i, _, _) =>
           var store := s.stores[s.pods[p].address];
           s.phases[p].Writing? && i < |store.inflight| && store.inflight[i] == s.phases[p].batch
         case Append(p) => s.phases[p].Answered?
         case SetStatus(p) => s.phases[p].Recorded?
  }

  /** The step of the flush protocol an action takes, and at which storage. */
  function Touches(s: State, a: Action): Option<(string, Flush.Action)>
    requires Enabled(s, a)
  {
    match a
    case Take(p, _) => Some((s.pods[p].address, Flush.Take))
    case Write(p, i, succeeds, _) => Some((s.pods[p].address, Flush.Write(i, succeeds)))
    case Elsewhere(at, f) => Some((at, f))
    case _ => None
  }

  function NextStores(s: State, a: Action): Stores
    requires Enabled(s, a)
  {
    match Touches(s, a)
    case None => s.stores
    case Some((at, f)) => s.stores[at := Flush.Step(s.stores[at], f)]
  }

  function Reply(pod: string, flushed: int, answered: bool): FlushResult {
    if answered then FlushResult(pod, flushed, false) else FlushResult(pod, 0, true)
  }

  function NextPhase(s: State, a: Action): Phase
    requires Enabled(s, a) && !a.Elsewhere?
  {
    match a
    case MarkFlushing(p) => Requesting
    case Miss(p) => Answered(Reply(p, 0, false))
    case Take(p, answered) =>
      var buffer := s.stores[s.pods[p].address].buffer;
      if buffer == [] then Answered(Reply(p, 0, answered)) else Writing(buffer)
    case Write(p, _, succeeds, answered) => Answered(Reply(p, |s.phases[p].batch|, succeeds && answered))
    case Append(p) => Recorded(s.phases[p].result)
    case SetStatus(p) => Done(s.phases[p].result)
  }

  function NextStatus(s: State, a: Action): PodStatus
    requires Enabled(s, a) && !a.Elsewhere?
  {
    match a
    case MarkFlushing(p) => FlushingStatus
    case SetStatus(p) => if s.phases[p].result.failed then Unhealthy else Healthy
    case _ => s.pods[a.pod].status
  }

  function Step(s: State, a: Action): State
    requires Enabled(s, a)
  {
    if a.Elsewhere? then s.(stores := NextStores(s, a))
    else
      State(s.pods[a.pod := s.pods[a.pod].(status := NextStatus(s, a))], NextStores(s, a),
            s.phases[a.pod := NextPhase(s, a)],
            if a.Append? then s.results + [s.phases[a.pod].result] else s.results)
  }

  function Run(pods: map<string, Pod>, stores: Stores, actions: seq<Action>): Option<State> {
    if actions == [] then Some(Begin(pods, stores))
    else
      var s := Run(pods, stores, actions[..|actions| - 1]);
      if s.Some? && Enabled(s.value, actions[|actions| - 1]) then Some(Step(s.value, actions[|actions| - 1])) else None
  }

  /** The wait group is released once every goroutine has finished. */
  predicate Finished(s: State) {
    forall p :: p in s.phases ==> s.phases[p].Done?
  }

  // ----- Results and statuses -----

  function Names(results: seq<FlushResult>): (names: seq<string>)
    ensures |names| == |results| && forall i :: 0 <= i < |results| ==> names[i] == results[i].pod
  {
    seq(|results|, i requires 0 <= i < |results| => results[i].pod)
  }

  predicate HasResult(phase: Phase) {
    phase.Answered? || phase.Recorded? || phase.Done?
  }

  predicate PodInvariant(name: string, pod: Pod, phase: Phase, results: seq<FlushResult>) {
    && (HasResult(phase) ==> phase.result.pod == name)
    && (phase.Recorded? || phase.Done? ==> phase.result in results)
    && (!phase.Recorded? && !phase.Done? ==> name !in Names(results))
    && (!phase.Starting? && !phase.Done? ==> pod.status == FlushingStatus)
    && (phase.Done? ==> pod.status == if phase.result.failed then Unhealthy else Healthy)
  }

  ghost predicate Invariant(pods: map<string, Pod>, s: State) {
    && s.pods.Keys == s.phases.Keys == pods.Keys
    && (forall p :: p in pods ==> s.pods[p].address == pods[p].address)
    && Distinct(Names(s.results))
    && (forall r :: r in s.results ==> r.pod in pods)
    && forall p :: p in pods ==> PodInvariant(p, s.pods[p], s.phases[p], s.results)
  }

  lemma StepKeepsPod(name: string, s: State, a: Action)
    requires Enabled(s, a) && name in s.pods && name in s.phases
    requires PodInvariant(name, s.pods[name], s.phases[name], s.results)
    requires !a.Elsewhere? && HasResult(s.phases[a.pod]) ==> s.phases[a.pod].result.pod == a.pod
    ensures var s' := Step(s, a); PodInvariant(name, s'.pods[name], s'.phases[name], s'.results)
  {
    hide NextStores;
  }

  lemma StepKeeps(pods: map<string, Pod>, s: State, a: Action)
    requires Enabled(s, a) && Invariant(pods, s)
    ensures Invariant(pods, Step(s, a))
  {
    hide NextStores, NextPhase, NextStatus, PodInvariant;
    if !a.Elsewhere? {
      var s' := Step(s, a);
      AppendedOnce(s, a);
      forall p | p in pods ensures PodInvariant(p, s'.pods[p], s'.phases[p], s'.results) { StepKeepsPod(p, s, a); }
      assert s'.pods.Keys == s'.phases.Keys == pods.Keys;
    }
  }

  /** A result is named after its pod and appended when no other is. */
  lemma AppendedOnce(s: State, a: Action)
    requires Enabled(s, a) && !a.Elsewhere?
    requires Distinct(Names(s.results)) && PodInvariant(a.pod, s.pods[a.pod], s.phases[a.pod], s.results)
    ensures HasResult(s.phases[a.pod]) ==> s.phases[a.pod].result.pod == a.pod
    ensures Distinct(Names(Step(s, a).results))
  {
    hide NextStores, NextPhase, NextStatus;
    if a.Append? { assert Names(Step(s, a).results) == Names(s.results) + [a.pod]; }
  }

  lemma {:induction false} RunKeeps(pods: map<string, Pod>, stores: Stores, actions: seq<Action>)
    requires Run(pods, stores, actions).Some?
    ensures Invariant(pods, Run(pods, stores, actions).value)
  {
    hide Invariant, Step, Enabled;
    if actions == [] {
      BeginHolds(pods, stores);
    } else {
      RunKeeps(pods, stores, actions[..|actions| - 1]);
      StepKeeps(pods, Run(pods, stores, actions[..|actions| - 1]).value, actions[|actions| - 1]);
    }
  }

  lemma BeginHolds(pods: map<string, Pod>, stores: Stores)
    ensures Invariant(pods, Begin(pods, stores))
  {}

  // ----- Events -----

  /** What was ingested at a storage during the fan-out. */
  function Arrived(actions: seq<Action>, at: string): seq<Event> {
    if actions == [] then []
    else Arrived(actions[..|actions| - 1], at) + ArrivedBy(actions[|actions| - 1], at)
  }

  function ArrivedBy(a: Action, at: string): seq<Event> {
    if a.Elsewhere? && a.address == at then Flush.Added(a.action) else []
  }

  lemma StoreConserves(s: State, a: Action, at: string)
    requires Enabled(s, a) && at in s.stores
    ensures Step(s, a).stores.Keys == s.stores.Keys
    ensures multiset(Flush.Stored(Step(s, a).stores[at])) == multiset(Flush.Stored(s.stores[at])) + multiset(ArrivedBy(a, at))
  {
    hide Flush.Stored, Flush.Step, NextPhase, NextStatus;
    if Touches(s, a).Some? { Flush.StepConserves(s.stores[Touches(s, a).value.0], Touches(s, a).value.1); }
  }

  lemma {:induction false} EventsConserved(pods: map<string, Pod>, stores: Stores, actions: seq<Action>, at: string)
    requires Run(pods, stores, actions).Some? && at in stores
    ensures var s := Run(pods, stores, actions).value;
      && s.stores.Keys == stores.Keys
      && multiset(Flush.Stored(s.stores[at])) == multiset(Flush.Stored(stores[at])) + multiset(Arrived(actions, at))
  {
    hide Flush.Stored, Step, Enabled;
    if actions != [] {
      EventsConserved(pods, stores, actions[..|actions| - 1], at);
      StoreConserves(Run(pods, stores, actions[..|actions| - 1]).value, actions[|actions| - 1], at);
    }
  }

  lemma {:induction false} StoresStay(pods: map<string, Pod>, stores: Stores, actions: seq<Action>)
    requires Run(pods, stores, actions).Some?
    ensures Run(pods, stores, actions).value.stores.Keys == stores.Keys
  {
    hide NextPhase, NextStatus, Flush.Step;
    if actions != [] { StoresStay(pods, stores, actions[..|actions| - 1]); }
  }

  /** Nothing went wrong: every request arrived, every write succeeded, and every
      answer came back. */
  predicate Faultless(actions: seq<Action>) {
    forall a :: a in actions ==>
      !a.Miss? && (a.Take? ==> a.answered) && (a.Write? ==> a.succeeds && a.answered)
  }

  /** Then no result carries an error. */
  lemma {:induction false} FaultlessIsClean(pods: map<string, Pod>, stores: Stores, actions: seq<Action>)
    requires Run(pods, stores, actions).Some? && Faultless(actions)
    ensures var s := Run(pods, stores, actions).value; Clean(s) && forall r :: r in s.results ==> !r.failed
  {
    hide NextStores, NextStatus;
    if actions != [] {
      var init, a := actions[..|actions| - 1], actions[|actions| - 1];
      assert a in actions;
      FaultlessIsClean(pods, stores, init);
      var s := Run(pods, stores, init).value;
      if !a.Elsewhere? { assert !Failed(s.phases[a.pod]); }
    }
  }

  /** Whatever the interleaving and the outcomes: one result per pod, a pod ends
      healthy exactly if its result carries no error, and no event is lost. */
  lemma OneResultPerPod(pods: map<string, Pod>, stores: Stores, actions: seq<Action>)
    requires Run(pods, stores, actions).Some? && Finished(Run(pods, stores, actions).value)
    ensures var s := Run(pods, stores, actions).value;
      && Distinct(Names(s.results)) && |s.results| == |pods|
      && s.pods.Keys == pods.Keys
      && (forall p :: p in pods <==> p in Names(s.results))
      && (forall r :: r in s.results ==> r.pod in s.pods && s.pods[r.pod].status == if r.failed then Unhealthy else Healthy)
      && s.stores.Keys == stores.Keys
      && forall at :: at in stores ==>
           multiset(Flush.Stored(s.stores[at])) == multiset(Flush.Stored(stores[at])) + multiset(Arrived(actions, at))
  {
    hide Run, Flush.Stored, Arrived;
    RunKeeps(pods, stores, actions);
    var s := Run(pods, stores, actions).value;
    var names := Names(s.results);
    forall p | p in pods ensures p in names && s.phases[p].result in s.results && s.phases[p].result.pod == p {
      assert PodInvariant(p, s.pods[p], s.phases[p], s.results);
      var i := IndexOfMember(s.results, s.phases[p].result);
      assert names[i] == p;
    }
    forall r | r in s.results ensures s.pods[r.pod].status == if r.failed then Unhealthy else Healthy {
      ResultIsUnique(s.results, r, s.phases[r.pod].result);
      assert PodInvariant(r.pod, s.pods[r.pod], s.phases[r.pod], s.results);
    }
    forall p | p in names ensures p in pods {
      var i := IndexOfMember(names, p);
      assert s.results[i] in s.results;
    }
    DistinctCoverSize(names, pods.Keys);
    assert |pods.Keys| == |pods|;
    StoresStay(pods, stores, actions);
    forall at | at in stores
      ensures multiset(Flush.Stored(s.stores[at])) == multiset(Flush.Stored(stores[at])) + multiset(Arrived(actions, at))
    {
      EventsConserved(pods, stores, actions, at);
    }
  }

  lemma ResultIsUnique(results: seq<FlushResult>, r: FlushResult, q: FlushResult)
    requires Distinct(Names(results)) && r in results && q in results && r.pod == q.pod
    ensures r == q
  {}

  // ----- The clean fan-out -----

  predicate Failed(phase: Phase) {
    HasResult(phase) && phase.result.failed
  }

  predicate Clean(s: State) {
    forall p :: p in s.phases ==> !Failed(s.phases[p])
  }

  predicate Undisturbed(actions: seq<Action>) {
    forall a :: a in actions ==> !a.Elsewhere?
  }

  function WritingAt(s: State, at: string): set<string> {
    set p | p in s.phases && p in s.pods && s.phases[p].Writing? && s.pods[p].address == at
  }

  function FlushedBy(phase: Phase): int {
    if HasResult(phase) then phase.result.flushed else 0
  }

  function Flushed(phases: map<string, Phase>): map<string, int> {
    map p | p in phases :: FlushedBy(phases[p])
  }

  function TableSizes(stores: Stores): map<string, int> {
    map at | at in stores :: |stores[at].table|
  }

  function BufferSizes(stores: Stores): map<string, int> {
    map at | at in stores :: |stores[at].buffer|
  }

  /** One storage during a fan-out without failures: as many batches in flight as
      goroutines writing there, at most one, and then nothing is buffered. */
  predicate StoreClean(was: Flush.State, now: Flush.State, writers: set<string>) {
    && |now.inflight| == |writers| <= 1
    && (now.inflight != [] ==> now.buffer == [])
    && Flush.Stored(now) == Flush.Stored(was)
  }

  ghost predicate CleanInvariant(pods: map<string, Pod>, stores: Stores, s: State) {
    && s.stores.Keys == stores.Keys && s.pods.Keys == s.phases.Keys == pods.Keys
    && (forall p :: p in pods ==> s.pods[p].address in stores)
    && (forall p :: p in pods && (s.phases[p].Writing? || HasResult(s.phases[p])) ==> s.stores[s.pods[p].address].buffer == [])
    && (forall at :: at in stores ==> StoreClean(stores[at], s.stores[at], WritingAt(s, at)))
    && MapSum(Flushed(s.phases)) == MapSum(TableSizes(s.stores)) - MapSum(TableSizes(stores))
  }

  lemma CleanBefore(s: State, a: Action)
    requires Enabled(s, a) && Clean(Step(s, a))
    ensures Clean(s)
    ensures a.Write? ==> a.succeeds && a.answered
    ensures a.Take? && s.stores[s.pods[a.pod].address].buffer == [] ==> a.answered
    ensures !a.Miss?
  {
    hide NextStores, NextStatus;
    if !a.Elsewhere? {
      var s' := Step(s, a);
      assert !Failed(s'.phases[a.pod]);
      forall p | p in s.phases ensures !Failed(s.phases[p]) { assert p in s'.phases && !Failed(s'.phases[p]); }
    }
  }

  /** What a step does to the goroutines writing at a storage. */
  lemma WritersStep(s: State, a: Action, at: string)
    requires Enabled(s, a) && !a.Elsewhere?
    ensures var home := s.pods[a.pod].address;
      WritingAt(Step(s, a), at)
      == if a.Take? && home == at && s.stores[home].buffer != [] then WritingAt(s, at) + {a.pod}
         else if a.Write? && home == at then WritingAt(s, at) - {a.pod}
         else WritingAt(s, at)
    ensures a.Take? ==> a.pod !in WritingAt(s, at)
    ensures a.Write? && s.pods[a.pod].address == at ==> a.pod in WritingAt(s, at)
  {
    hide NextStores, NextStatus;
  }

  lemma StoreStep(was: Flush.State, now: Flush.State, f: Flush.Action, writers: set<string>, p: string)
    requires StoreClean(was, now, writers) && Flush.Enabled(now, f)
    requires (f == Flush.Take && p !in writers) || (f == Flush.Write(0, true) && p in writers)
    ensures var next := Flush.Step(now, f);
      && StoreClean(was, next, if f.Write? then writers - {p} else if now.buffer != [] then writers + {p} else writers)
      && next.buffer == []
      && |next.table| == |now.table| + if f.Write? then |now.inflight[0]| else 0
  {
    hide Flush.Stored;
    Flush.StepKeepsOrder(now, f);
    if f.Write? { OnlyMember(writers, p); }
  }

  lemma OnlyMember(s: set<string>, x: string)
    requires x in s && |s| <= 1
    ensures s - {x} == {} && |s| == 1
  {
    assert |s - {x}| == |s| - 1;
  }

  lemma FlushedStep(s: State, a: Action)
    requires Enabled(s, a) && !a.Elsewhere?
    requires s.phases.Keys == s.pods.Keys
    ensures MapSum(Flushed(Step(s, a).phases))
         == MapSum(Flushed(s.phases)) - FlushedBy(s.phases[a.pod]) + FlushedBy(NextPhase(s, a))
  {
    hide NextStores, NextStatus, NextPhase, FlushedBy;
    MapSumUpdate(Flushed(s.phases), a.pod, FlushedBy(NextPhase(s, a)));
    assert Flushed(Step(s, a).phases) == Flushed(s.phases)[a.pod := FlushedBy(NextPhase(s, a))];
  }

  lemma TablesStep(s: State, a: Action)
    requires Enabled(s, a) && Touches(s, a).Some?
    ensures var (at, f) := Touches(s, a).value;
      MapSum(TableSizes(NextStores(s, a)))
      == MapSum(TableSizes(s.stores)) - |s.stores[at].table| + |Flush.Step(s.stores[at], f).table|
  {
    hide Flush.Step;
    var (at, f) := Touches(s, a).value;
    MapSumUpdate(TableSizes(s.stores), at, |Flush.Step(s.stores[at], f).table|);
    assert TableSizes(NextStores(s, a)) == TableSizes(s.stores)[at := |Flush.Step(s.stores[at], f).table|];
  }

  lemma CleanStep(pods: map<string, Pod>, stores: Stores, s: State, a: Action)
    requires Enabled(s, a) && !a.Elsewhere? && CleanInvariant(pods, stores, s) && Clean(Step(s, a))
    ensures CleanInvariant(pods, stores, Step(s, a))
  {
    hide Flush.Step, MapSum, StoreClean, WritingAt, NextStatus, NextPhase, TableSizes, Flushed, Clean;
    var s' := Step(s, a);
    forall at | at in stores ensures StoreClean(stores[at], s'.stores[at], WritingAt(s', at)) { StoreCleanStep(stores, s, a, at); }
    StartedPodsStep(stores, s, a);
    CountsStep(stores, s, a);
  }

  /** Once a goroutine has taken the buffer of its pod, it stays empty. */
  lemma StartedPodsStep(stores: Stores, s: State, a: Action)
    requires Enabled(s, a) && !a.Elsewhere? && Clean(Step(s, a))
    requires s.stores.Keys == stores.Keys && s.pods.Keys == s.phases.Keys && forall p :: p in s.pods ==> s.pods[p].address in stores
    requires forall at :: at in stores ==> StoreClean(stores[at], s.stores[at], WritingAt(s, at))
    requires forall p :: p in s.pods && (s.phases[p].Writing? || HasResult(s.phases[p])) ==> s.stores[s.pods[p].address].buffer == []
    ensures var s' := Step(s, a);
      forall p :: p in s'.pods && (s'.phases[p].Writing? || HasResult(s'.phases[p])) ==> s'.stores[s'.pods[p].address].buffer == []
  {
    hide Flush.Step, StoreClean, WritingAt, NextStatus, Clean;
    CleanBefore(s, a);
    StoreCleanStep(stores, s, a, s.pods[a.pod].address);
  }

  lemma CountsStep(stores: Stores, s: State, a: Action)
    requires Enabled(s, a) && !a.Elsewhere? && Clean(Step(s, a)) && s.phases.Keys == s.pods.Keys
    requires s.pods[a.pod].address in stores
    requires var at := s.pods[a.pod].address; StoreClean(stores[at], s.stores[at], WritingAt(s, at))
    ensures MapSum(Flushed(Step(s, a).phases)) - MapSum(TableSizes(Step(s, a).stores))
         == MapSum(Flushed(s.phases)) - MapSum(TableSizes(s.stores))
  {
    hide Flush.Step, MapSum, StoreClean, WritingAt, NextStatus, TableSizes, Flushed, Clean;
    CleanBefore(s, a);
    FlushedStep(s, a);
    if a.Take? || a.Write? {
      StoreCleanStep(stores, s, a, s.pods[a.pod].address);
      TablesStep(s, a);
    }
  }

  lemma StoreCleanStep(stores: Stores, s: State, a: Action, at: string)
    requires Enabled(s, a) && !a.Elsewhere? && Clean(Step(s, a))
    requires at in stores && at in s.stores && StoreClean(stores[at], s.stores[at], WritingAt(s, at))
    ensures StoreClean(stores[at], NextStores(s, a)[at], WritingAt(Step(s, a), at))
    ensures at == s.pods[a.pod].address && (a.Take? || a.Write?) ==>
      && NextStores(s, a)[at].buffer == []
      && |NextStores(s, a)[at].table| == |s.stores[at].table| + if a.Write? then |s.phases[a.pod].batch| else 0
  {
    hide Flush.Step, Flush.Stored, StoreClean, WritingAt, NextPhase, NextStatus;
    CleanBefore(s, a);
    WritersStep(s, a, at);
    OnlyFlight(stores[at], s.stores[at], WritingAt(s, at));
    if at == s.pods[a.pod].address && (a.Take? || a.Write?) {
      StoreStep(stores[at], s.stores[at], Touches(s, a).value.1, WritingAt(s, at), a.pod);
    }
  }

  lemma OnlyFlight(was: Flush.State, now: Flush.State, writers: set<string>)
    requires StoreClean(was, now, writers)
    ensures |now.inflight| <= 1
  {}

  lemma {:induction false} RunClean(pods: map<string, Pod>, stores: Stores, actions: seq<Action>)
    requires Run(pods, stores, actions).Some? && Undisturbed(actions) && Clean(Run(pods, stores, actions).value)
    requires forall at :: at in stores ==> stores[at].inflight == []
    requires forall p :: p in pods ==> pods[p].address in stores
    ensures CleanInvariant(pods, stores, Run(pods, stores, actions).value)
  {
    hide CleanInvariant, Step, Enabled, Clean;
    if actions == [] {
      CleanBegin(pods, stores);
    } else {
      var init, a := actions[..|actions| - 1], actions[|actions| - 1];
      assert a in actions;
      CleanBefore(Run(pods, stores, init).value, a);
      RunClean(pods, stores, init);
      CleanStep(pods, stores, Run(pods, stores, init).value, a);
    }
  }

  lemma CleanBegin(pods: map<string, Pod>, stores: Stores)
    requires forall at :: at in stores ==> stores[at].inflight == []
    requires forall p :: p in pods ==> pods[p].address in stores
    ensures CleanInvariant(pods, stores, Begin(pods, stores))
  {
    hide MapSum;
    var s := Begin(pods, stores);
    forall at ensures WritingAt(s, at) == {} {}
    ZeroSum(Flushed(s.phases));
  }

  lemma {:induction false} ZeroSum(m: map<string, int>)
    requires forall k :: k in m ==> m[k] == 0
    ensures MapSum(m) == 0
    decreases |m|
  {
    if m != map[] {
      var k :| k in m;
      MapSumRemove(m, k);
      ZeroSum(m - {k});
    }
  }

  function TotalFlushed(results: seq<FlushResult>): int {
    if results == [] then 0 else TotalFlushed(results[..|results| - 1]) + results[|results| - 1].flushed
  }

  /** If nothing else happened at the storages and no pod reported an error, every
      buffer has been emptied into its table and the flushed counts add up to the
      former buffer sizes, also where pods share a storage. */
  lemma CleanFanOut(pods: map<string, Pod>, stores: Stores, actions: seq<Action>)
    requires Run(pods, stores, actions).Some? && Finished(Run(pods, stores, actions).value)
    requires Undisturbed(actions) && forall at :: at in stores ==> stores[at].inflight == []
    requires forall at :: at in stores <==> exists p :: p in pods && pods[p].address == at
    requires forall r :: r in Run(pods, stores, actions).value.results ==> !r.failed
    ensures var s := Run(pods, stores, actions).value;
      && (forall at :: at in stores ==>
            at in s.stores && s.stores[at].buffer == [] && s.stores[at].inflight == []
            && s.stores[at].table == stores[at].table + stores[at].buffer)
      && (forall p :: p in pods ==> p in s.pods && s.pods[p].status == Healthy)
      && TotalFlushed(s.results) == MapSum(BufferSizes(stores))
  {
    hide Run, Invariant, CleanInvariant, MapSum, Clean, Finished, Flushed, TableSizes, BufferSizes;
    var s := Run(pods, stores, actions).value;
    RunKeeps(pods, stores, actions);
    FinishedPods(pods, s);
    RunClean(pods, stores, actions);
    FinishedStores(pods, stores, s);
    CountsAddUp(s.results, Flushed(s.phases));
    SizesAddUp(stores, s.stores);
  }

  lemma FinishedStores(pods: map<string, Pod>, stores: Stores, s: State)
    requires Invariant(pods, s) && CleanInvariant(pods, stores, s) && Finished(s)
    requires forall at :: at in stores ==> stores[at].inflight == []
    requires forall at :: at in stores <==> exists p :: p in pods && pods[p].address == at
    ensures s.stores.Keys == stores.Keys && s.pods.Keys == pods.Keys
    ensures forall at :: at in stores ==>
      s.stores[at].buffer == [] && s.stores[at].inflight == [] && s.stores[at].table == stores[at].table + stores[at].buffer
    ensures MapSum(Flushed(s.phases)) == MapSum(TableSizes(s.stores)) - MapSum(TableSizes(stores))
  {
    hide PodInvariant, MapSum, Flush.Stored, Flushed, TableSizes;
    forall at | at in stores ensures
      s.stores[at].buffer == [] && s.stores[at].inflight == [] && s.stores[at].table == stores[at].table + stores[at].buffer
    {
      var p :| p in pods && pods[p].address == at;
      assert WritingAt(s, at) == {};
      AtRest(s.stores[at]);
      AtRest(stores[at]);
    }
  }

  lemma AtRest(s: Flush.State)
    requires s.inflight == []
    ensures Flush.Stored(s) == s.table + s.buffer
  {}

  lemma FinishedPods(pods: map<string, Pod>, s: State)
    requires Invariant(pods, s) && Finished(s) && forall r :: r in s.results ==> !r.failed
    ensures Clean(s) && Distinct(Names(s.results)) && forall p :: p in pods ==> s.pods[p].status == Healthy
    ensures forall p :: p in Names(s.results) <==> p in Flushed(s.phases)
    ensures forall r :: r in s.results ==> r.pod in pods && r.flushed == Flushed(s.phases)[r.pod]
  {
    forall p | p in pods
      ensures p in Names(s.results) && !s.phases[p].result.failed && s.pods[p].status == Healthy && s.phases[p].result in s.results
      ensures s.phases[p].result.pod == p
    {
      assert PodInvariant(p, s.pods[p], s.phases[p], s.results);
      var i := IndexOfMember(s.results, s.phases[p].result);
      assert Names(s.results)[i] == p;
    }
    forall r | r in s.results ensures r.pod in pods && r.flushed == Flushed(s.phases)[r.pod] {
      ResultIsUnique(s.results, r, s.phases[r.pod].result);
    }
    forall p | p in Names(s.results) ensures p in pods {
      var i := IndexOfMember(Names(s.results), p);
      assert s.results[i] in s.results;
    }
  }

  lemma {:induction false} SizesAddUp(was: Stores, now: Stores)
    requires was.Keys == now.Keys
    requires forall at :: at in was ==> now[at].table == was[at].table + was[at].buffer
    ensures MapSum(TableSizes(now)) - MapSum(TableSizes(was)) == MapSum(BufferSizes(was))
    decreases |was|
  {
    hide MapSum, TableSizes, BufferSizes;
    if was == map[] {
      NoSizes(was);
      NoSizes(now);
    } else {
      var at :| at in was;
      SizesAddUp(was - {at}, now - {at});
      SizesWithout(was, at);
      SizesWithout(now, at);
    }
  }

  lemma NoSizes(stores: Stores)
    requires stores == map[]
    ensures MapSum(TableSizes(stores)) == MapSum(BufferSizes(stores)) == 0
  {
    assert TableSizes(stores) == BufferSizes(stores) == map[];
  }

  lemma SizesWithout(stores: Stores, at: string)
    requires at in stores
    ensures MapSum(TableSizes(stores)) == |stores[at].table| + MapSum(TableSizes(stores - {at}))
    ensures MapSum(BufferSizes(stores)) == |stores[at].buffer| + MapSum(BufferSizes(stores - {at}))
  {
    hide MapSum;
    MapSumRemove(TableSizes(stores), at);
    MapSumRemove(BufferSizes(stores), at);
    assert TableSizes(stores) - {at} == TableSizes(stores - {at});
    assert BufferSizes(stores) - {at} == BufferSizes(stores - {at});
  }

  lemma {:induction false} CountsAddUp(results: seq<FlushResult>, sizes: map<string, int>)
    requires Distinct(Names(results)) && forall p :: p in Names(results) <==> p in sizes
    requires forall r :: r in results ==> r.pod in sizes && r.flushed == sizes[r.pod]
    ensures TotalFlushed(results) == MapSum(sizes)
  {
    hide MapSum;
    if results == [] {
      assert forall p :: p in sizes ==> p in Names(results);
      assert sizes == map[];
      EmptySum();
    } else {
      var init, last := results[..|results| - 1], results[|results| - 1];
      assert last in results;
      WithoutLast(results, sizes);
      CountsAddUp(init, sizes - {last.pod});
      MapSumRemove(sizes, last.pod);
    }
  }

  lemma EmptySum()
    ensures MapSum<string>(map[]) == 0
  {}

  lemma WithoutLast(results: seq<FlushResult>, sizes: map<string, int>)
    requires results != [] && Distinct(Names(results)) && forall p :: p in Names(results) <==> p in sizes
    requires forall r :: r in results ==> r.pod in sizes && r.flushed == sizes[r.pod]
    ensures var init, rest := results[..|results| - 1], sizes - {results[|results| - 1].pod};
      && Distinct(Names(init)) && (forall p :: p in Names(init) <==> p in rest)
      && forall r :: r in init ==> r.pod in rest && r.flushed == rest[r.pod]
  {}
}
