/** The hub's event loop over its WebSocket clients (realtime/hub.go, client.go):
    registration, removal, broadcast with dropping, and the closing of queues. */
module HubClients {
  import opened Sequences

  type ClientId = nat
  type Message = seq<int>

  const QUEUE_CAPACITY := 256

  /** The send channel of a client: what is queued, what was ever queued, and
      whether the hub closed it. */
  datatype Channel = Channel(queue: seq<Message>, sent: seq<Message>, closed: bool)

  const FRESH := Channel([], [], false)

  /** `requests` are the unregister requests not yet received, from the exiting
      read pump of a client or from the hub itself. `panicked` records a send on
      a closed channel or a second close, which end a Go program. */
  datatype State = State(
    clients: set<ClientId>,
    channels: map<ClientId, Channel>,
    requests: multiset<ClientId>,
    panicked: bool)

  datatype Action =
    | Register(client: ClientId)
    | RequestUnregister(client: ClientId)
    | ReceiveUnregister(client: ClientId)
    | Broadcast(message: Message)
    | Deliver(client: ClientId)

  const INIT := State({}, map[], multiset{}, false)

  function ChannelOf(s: State, c: ClientId): Channel {
    if c in s.channels then s.channels[c] else FRESH
  }

  predicate Full(ch: Channel) {
    |ch.queue| >= QUEUE_CAPACITY
  }

  /** Sending without blocking: queued if there is room. */
  function Offer(ch: Channel, m: Message): Channel {
    if Full(ch) then ch else ch.(queue := ch.queue + [m], sent := ch.sent + [m])
  }

  /** Requests can be made for any client at any time. */
  predicate Enabled(s: State, a: Action) {
    match a
    case ReceiveUnregister(c) => c in s.requests
    case Deliver(c) => ChannelOf(s, c).queue != []
    case _ => true
  }

  function Offers(s: State, targets: set<ClientId>, m: Message): map<ClientId, Channel> {
    map c | c in targets :: Offer(ChannelOf(s, c), m)
  }

  function Skipped(s: State, targets: set<ClientId>): set<ClientId> {
    set c | c in targets && Full(ChannelOf(s, c))
  }

  predicate AnyClosed(s: State, targets: set<ClientId>) {
    exists c :: c in targets && ChannelOf(s, c).closed
  }

  /** A message offered to some clients: queued where there is room, an unregister
      request elsewhere. */
  function OfferedTo(s: State, targets: set<ClientId>, m: Message): State {
    s.(channels := s.channels + Offers(s, targets, m),
       requests := s.requests + multiset(Skipped(s, targets)),
       panicked := s.panicked || AnyClosed(s, targets))
  }

  function Step(s: State, a: Action): State
    requires Enabled(s, a)
  {
    match a
    case Register(c) => s.(clients := s.clients + {c})
    case RequestUnregister(c) => s.(requests := s.requests + multiset{c})
    case ReceiveUnregister(c) =>
      var s' := s.(requests := s.requests - multiset{c});
      if c in s.clients then
        s'.(clients := s.clients - {c},
            channels := s.channels[c := ChannelOf(s, c).(closed := true)],
            panicked := s.panicked || ChannelOf(s, c).closed)
      else s'
    case Broadcast(m) => OfferedTo(s, s.clients, m)
    case Deliver(c) =>
      s.(channels := s.channels[c := ChannelOf(s, c).(queue := ChannelOf(s, c).queue[1..])])
  }

  function Run(actions: seq<Action>): Option<State> {
    if actions == [] then Some(INIT)
    else
      var s := Run(actions[..|actions| - 1]);
      if s.Some? && Enabled(s.value, actions[|actions| - 1]) then Some(Step(s.value, actions[|actions| - 1])) else None
  }

  function After(actions: seq<Action>): State
    requires Run(actions).Some?
  {
    Run(actions).value
  }

  // ----- What a run says about one client -----

  function Registrations(actions: seq<Action>, c: ClientId): nat {
    if actions == [] then 0
    else Registrations(actions[..|actions| - 1], c) + (if actions[|actions| - 1] == Register(c) then 1 else 0)
  }

  /** Each connection creates its own client and registers it once. */
  ghost predicate RegisteredOnce(actions: seq<Action>) {
    forall c :: Registrations(actions, c) <= 1
  }

  /** The client has been registered and no unregister request for it has been
      received since. */
  predicate Listening(actions: seq<Action>, c: ClientId) {
    if actions == [] then false
    else if actions[|actions| - 1] == Register(c) then true
    else if actions[|actions| - 1] == ReceiveUnregister(c) then false
    else Listening(actions[..|actions| - 1], c)
  }

  /** The messages broadcast while the client was registered, in order. */
  function Heard(actions: seq<Action>, c: ClientId): seq<Message> {
    if actions == [] then []
    else
      var init, last := actions[..|actions| - 1], actions[|actions| - 1];
      Heard(init, c) + (if last.Broadcast? && Listening(init, c) then [last.message] else [])
  }

  /** Unregister requests made for the client from outside the hub, and those
      already received. */
  function Requested(actions: seq<Action>, c: ClientId): nat {
    if actions == [] then 0
    else Requested(actions[..|actions| - 1], c) + (if actions[|actions| - 1] == RequestUnregister(c) then 1 else 0)
  }

  function Received(actions: seq<Action>, c: ClientId): nat {
    if actions == [] then 0
    else Received(actions[..|actions| - 1], c) + (if actions[|actions| - 1] == ReceiveUnregister(c) then 1 else 0)
  }

  function Delivered(actions: seq<Action>, c: ClientId): nat {
    if actions == [] then 0
    else Delivered(actions[..|actions| - 1], c) + (if actions[|actions| - 1] == Deliver(c) then 1 else 0)
  }

  /** The client was registered and removed at least once. */
  predicate Removed(actions: seq<Action>, c: ClientId) {
    actions != [] &&
    (Removed(actions[..|actions| - 1], c)
     || (actions[|actions| - 1] == ReceiveUnregister(c) && Listening(actions[..|actions| - 1], c)))
  }

  /** The hub is asked to serve a client that is registered although it has
      already been removed once: by a broadcast, or by removing it again. */
  ghost predicate ServesRemoved(actions: seq<Action>) {
    actions != [] &&
    var init, last := actions[..|actions| - 1], actions[|actions| - 1];
    || ServesRemoved(init)
    || (last.Broadcast? && exists c :: Listening(init, c) && Removed(init, c))
    || (last.ReceiveUnregister? && Listening(init, last.client) && Removed(init, last.client))
  }

  // ----- Safety -----

  /** The queue of a client is closed exactly once the client has been removed. */
  lemma {:induction false} ClosedExactlyWhenRemoved(actions: seq<Action>, c: ClientId)
    requires Run(actions).Some?
    ensures ChannelOf(After(actions), c).closed <==> Removed(actions, c)
  {
    hide Step, ChannelOf, Enabled;
    if actions == [] {
      assert !ChannelOf(INIT, c).closed by { NothingQueued(c); }
    } else {
      var init, a := actions[..|actions| - 1], actions[|actions| - 1];
      ClosedExactlyWhenRemoved(init, c);
      ListeningIsRegistered(init, c);
      ClosingStep(After(init), a, c);
    }
  }

  lemma ClosingStep(s: State, a: Action, c: ClientId)
    requires Enabled(s, a)
    ensures ChannelOf(Step(s, a), c).closed <==> ChannelOf(s, c).closed || (a == ReceiveUnregister(c) && c in s.clients)
  {}

  lemma PanickingStep(s: State, a: Action)
    requires Enabled(s, a)
    ensures Step(s, a).panicked <==>
      || s.panicked
      || (a.Broadcast? && exists c :: c in s.clients && ChannelOf(s, c).closed)
      || (a.ReceiveUnregister? && a.client in s.clients && ChannelOf(s, a.client).closed)
  {}

  /** A run of the hub sends on a closed queue or closes one twice if and only if
      it serves a removed client. */
  lemma {:induction false} PanicsExactlyWhen(actions: seq<Action>)
    requires Run(actions).Some?
    ensures After(actions).panicked <==> ServesRemoved(actions)
  {
    hide Step, ChannelOf, Enabled, Listening, Removed;
    if actions != [] {
      var init, a := actions[..|actions| - 1], actions[|actions| - 1];
      PanicsExactlyWhen(init);
      PanickingStep(After(init), a);
      forall c ensures c in After(init).clients <==> Listening(init, c)
               ensures ChannelOf(After(init), c).closed <==> Removed(init, c) {
        ListeningIsRegistered(init, c);
        ClosedExactlyWhenRemoved(init, c);
      }
    }
  }

  /** Being registered after a removal takes two registrations. */
  lemma {:induction false} RegistrationsNeeded(actions: seq<Action>, c: ClientId)
    ensures Registrations(actions, c) >= (if Listening(actions, c) then 1 else 0) + (if Removed(actions, c) then 1 else 0)
    ensures Registrations(actions, c) > 0 ==> Listening(actions, c) || Removed(actions, c)
  {
    if actions != [] { RegistrationsNeeded(actions[..|actions| - 1], c); }
  }

  ghost predicate Safe(s: State) {
    && !s.panicked
    && forall c :: c in s.clients ==> !ChannelOf(s, c).closed
  }

  /** With every client registered at most once, no run of the hub sends on a
      closed queue or closes one twice, however often clients are unregistered. */
  lemma NeverPanics(actions: seq<Action>)
    requires Run(actions).Some? && RegisteredOnce(actions)
    ensures Safe(After(actions))
  {
    hide Run, ChannelOf;
    PanicsExactlyWhen(actions);
    NoRemovedServed(actions);
    forall c | c in After(actions).clients ensures !ChannelOf(After(actions), c).closed {
      ListeningIsRegistered(actions, c);
      ClosedExactlyWhenRemoved(actions, c);
      RegistrationsNeeded(actions, c);
    }
  }

  lemma {:induction false} NoRemovedServed(actions: seq<Action>)
    requires RegisteredOnce(actions)
    ensures !ServesRemoved(actions)
  {
    hide Listening, Removed;
    if actions != [] {
      var init := actions[..|actions| - 1];
      forall c ensures Registrations(init, c) <= 1 { assert Registrations(actions, c) <= 1; }
      NoRemovedServed(init);
      forall c ensures !(Listening(init, c) && Removed(init, c)) { RegistrationsNeeded(init, c); }
    }
  }

  /** The queue of a client registered once is closed exactly once it has been
      registered and an unregister request for it has been received after that. */
  lemma ClosedExactlyAfterRemoval(actions: seq<Action>, c: ClientId)
    requires Run(actions).Some? && RegisteredOnce(actions)
    ensures ChannelOf(After(actions), c).closed <==> Registrations(actions, c) > 0 && !Listening(actions, c)
  {
    hide Run, ChannelOf;
    assert Registrations(actions, c) <= 1;
    ClosedExactlyWhenRemoved(actions, c);
    RegistrationsNeeded(actions, c);
  }

  /** The shortest such run: a client is registered again after its removal, which
      no connection does, and the next broadcast is fatal. */
  lemma RegisteringTwicePanics(c: ClientId, m: Message)
    ensures var run := [Register(c), RequestUnregister(c), ReceiveUnregister(c), Register(c), Broadcast(m)];
      Run(run).Some? && After(run).panicked && Registrations(run, c) == 2
  {
    hide Run, Registrations;
    var run: seq<Action> := [];
    assert Run(run) == Some(INIT) && Registrations(run, c) == 0 by { EmptyRun(c); }
    Extend(run, Register(c), c);
    run := run + [Register(c)];
    assert c in After(run).clients;
    Extend(run, RequestUnregister(c), c);
    run := run + [RequestUnregister(c)];
    Extend(run, ReceiveUnregister(c), c);
    run := run + [ReceiveUnregister(c)];
    assert ChannelOf(After(run), c).closed;
    Extend(run, Register(c), c);
    run := run + [Register(c)];
    assert c in After(run).clients && ChannelOf(After(run), c).closed;
    Extend(run, Broadcast(m), c);
    run := run + [Broadcast(m)];
    assert run == [Register(c), RequestUnregister(c), ReceiveUnregister(c), Register(c), Broadcast(m)];
  }

  lemma EmptyRun(c: ClientId)
    ensures Run([]) == Some(INIT) && Registrations([], c) == 0
  {}

  lemma Extend(actions: seq<Action>, a: Action, c: ClientId)
    requires Run(actions).Some? && Enabled(After(actions), a)
    ensures Run(actions + [a]) == Some(Step(After(actions), a))
    ensures Registrations(actions + [a], c) == Registrations(actions, c) + (if a == Register(c) then 1 else 0)
  {}

  // ----- What a client gets -----

  lemma {:induction false} ListeningIsRegistered(actions: seq<Action>, c: ClientId)
    requires Run(actions).Some?
    ensures Listening(actions, c) <==> c in After(actions).clients
  {
    if actions != [] { ListeningIsRegistered(actions[..|actions| - 1], c); }
  }

  /** The history of one client in figures: what it heard, was sent and still has
      queued, what was delivered, and its unregister requests from outside,
      pending and received. */
  ghost predicate Consistent(heard: seq<Message>, ch: Channel, delivered: nat, requested: nat, pending: nat, received: nat) {
    && Subsequence(ch.sent, heard)
    && delivered + |ch.queue| == |ch.sent| && ch.queue == ch.sent[delivered..]
    && |ch.queue| <= 256
    && |heard| - |ch.sent| + requested == pending + received
  }

  /** What was ever queued to a client is a subsequence, in order, of what was
      broadcast while it was registered; its queue is the part not delivered
      yet and never exceeds its capacity; and every skipped message has left an
      unregister request behind. */
  lemma {:induction false} QueuedInOrder(actions: seq<Action>, c: ClientId)
    requires Run(actions).Some?
    ensures Consistent(Heard(actions, c), ChannelOf(After(actions), c), Delivered(actions, c),
                       Requested(actions, c), After(actions).requests[c], Received(actions, c))
  {
    hide Consistent, Step, ChannelOf, Enabled;
    if actions == [] {
      NothingQueued(c);
    } else {
      var init, a := actions[..|actions| - 1], actions[|actions| - 1];
      QueuedInOrder(init, c);
      ListeningIsRegistered(init, c);
      ConsistentStep(After(init), a, c, Heard(init, c), Delivered(init, c), Requested(init, c), Received(init, c));
      assert Heard(init, c) + [] == Heard(init, c);
    }
  }

  lemma NothingQueued(c: ClientId)
    ensures Consistent([], ChannelOf(INIT, c), 0, 0, INIT.requests[c], 0) && !ChannelOf(INIT, c).closed
  {}

  lemma ConsistentStep(s: State, a: Action, c: ClientId, heard: seq<Message>, delivered: nat, requested: nat, received: nat)
    requires Enabled(s, a) && Consistent(heard, ChannelOf(s, c), delivered, requested, s.requests[c], received)
    ensures Consistent(if a.Broadcast? && c in s.clients then heard + [a.message] else heard,
                       ChannelOf(Step(s, a), c),
                       delivered + (if a == Deliver(c) then 1 else 0),
                       requested + (if a == RequestUnregister(c) then 1 else 0),
                       Step(s, a).requests[c],
                       received + (if a == ReceiveUnregister(c) then 1 else 0))
  {
    hide Step, Subsequence, ChannelOf, Enabled;
    ClientStep(s, a, c);
    var ch := ChannelOf(s, c);
    if a.Broadcast? && c in s.clients {
      SubsequenceKeep(ch.sent, heard, a.message);
      SubsequenceSkip(ch.sent, heard, a.message);
      SentTail(ch.sent, delivered, a.message);
    } else if a == Deliver(c) {
      assert ch.sent[delivered..][1..] == ch.sent[delivered + 1..];
    }
  }

  lemma SentTail(sent: seq<Message>, delivered: nat, m: Message)
    requires delivered <= |sent|
    ensures (sent + [m])[delivered..] == sent[delivered..] + [m]
  {}

  /** What one step means for one client. */
  lemma ClientStep(s: State, a: Action, c: ClientId)
    requires Enabled(s, a)
    ensures var s', ch, ch' := Step(s, a), ChannelOf(s, c), ChannelOf(Step(s, a), c);
      && ch'.sent == (if a.Broadcast? && c in s.clients && !Full(ch) then ch.sent + [a.message] else ch.sent)
      && ch'.queue == (if a.Broadcast? && c in s.clients && !Full(ch) then ch.queue + [a.message]
                       else if a == Deliver(c) then ch.queue[1..] else ch.queue)
      && s'.requests[c] == s.requests[c]
         + (if a == RequestUnregister(c) || (a.Broadcast? && c in s.clients && Full(ch)) then 1 else 0)
         - (if a == ReceiveUnregister(c) then 1 else 0)
      && (a == Deliver(c) ==> ch.queue != [])
  {}

  /** A broadcast reaches a registered client exactly if fewer than 256 messages are
      waiting in its queue; otherwise an unregister request is made instead. */
  lemma QueuedExactlyWhenRoom(actions: seq<Action>, m: Message, c: ClientId)
    requires Run(actions).Some? && Listening(actions, c)
    ensures Run(actions + [Broadcast(m)]).Some?
    ensures var ch, next := ChannelOf(After(actions), c), ChannelOf(After(actions + [Broadcast(m)]), c);
      var room := |ch.queue| < 256;
      && next.sent == (if room then ch.sent + [m] else ch.sent)
      && next.queue == (if room then ch.queue + [m] else ch.queue)
      && After(actions + [Broadcast(m)]).requests[c] == After(actions).requests[c] + if room then 0 else 1
  {
    hide Step, ChannelOf, Listening;
    Extend(actions, Broadcast(m), c);
    ListeningIsRegistered(actions, c);
    ClientStep(After(actions), Broadcast(m), c);
  }

  // ----- The loop itself -----

  /** The hub's fields as its event loop updates them. */
  class Loop {
    var clients: set<ClientId>
    var channels: map<ClientId, Channel>
    var requests: multiset<ClientId>
    var panicked: bool

    constructor ()
      ensures Abstract() == INIT
    {
      clients, channels, requests, panicked := {}, map[], multiset{}, false;
    }

    ghost function Abstract(): State
      reads this
    {
      State(clients, channels, requests, panicked)
    }

    method OnRegister(client: ClientId)
      modifies this`clients
      ensures Abstract() == Step(old(Abstract()), Register(client))
    {
      clients := clients + {client};
    }

    method OnUnregister(client: ClientId)
      requires client in requests
      modifies this
      ensures Abstract() == Step(old(Abstract()), ReceiveUnregister(client))
    {
      requests := requests - multiset{client};
      if client in clients {
        clients := clients - {client};
        var ch := if client in channels then channels[client] else FRESH;
        if ch.closed { panicked := true; }
        channels := channels[client := ch.(closed := true)];
      }
    }

    /** Visits the clients in whatever order the map yields them; a full queue
        spawns an unregister request instead of waiting. */
    method OnBroadcast(message: Message)
      modifies this`channels, this`requests, this`panicked
      ensures Abstract() == Step(old(Abstract()), Broadcast(message))
    {
      hide OfferedTo, Offer;
      var rest := clients;
      ghost var was := Abstract();
      OfferedToNone(was, message);
      while rest != {}
        invariant rest <= clients && clients == was.clients
        invariant Abstract() == OfferedTo(was, clients - rest, message)
      {
        var c :| c in rest;
        OfferedToOneMore(was, clients - rest, c, message);
        var ch := if c in channels then channels[c] else FRESH;
        if ch.closed { panicked := true; }
        if Full(ch) {
          requests := requests + multiset{c};
        } else {
          ch := ch.(queue := ch.queue + [message], sent := ch.sent + [message]);
        }
        channels := channels[c := ch];
        assert clients - (rest - {c}) == clients - rest + {c};
        rest := rest - {c};
      }
      assert clients - rest == clients;
    }
  }

  lemma OfferedToNone(s: State, m: Message)
    ensures forall none :: none == {} ==> OfferedTo(s, none, m) == s
  {}

  lemma OfferedToOneMore(s: State, done: set<ClientId>, c: ClientId, m: Message)
    requires c !in done
    ensures ChannelOf(OfferedTo(s, done, m), c) == ChannelOf(s, c)
    ensures var t, ch := OfferedTo(s, done, m), ChannelOf(s, c);
      OfferedTo(s, done + {c}, m)
      == t.(channels := t.channels[c := if Full(ch) then ch else ch.(queue := ch.queue + [m], sent := ch.sent + [m])],
            requests := if Full(ch) then t.requests + multiset{c} else t.requests,
            panicked := t.panicked || ch.closed)
  {
    hide OfferedTo, Full;
    UntouchedChannel(s, done, c, m);
    OneMoreOffer(s, done, c, m);
    OneMoreSkip(s, done, c);
    ExpandOffer(s, done, m);
    ExpandOffer(s, done + {c}, m);
  }

  lemma ExpandOffer(s: State, targets: set<ClientId>, m: Message)
    ensures OfferedTo(s, targets, m)
         == State(s.clients, s.channels + Offers(s, targets, m), s.requests + multiset(Skipped(s, targets)), s.panicked || AnyClosed(s, targets))
  {}

  lemma OneMoreOffer(s: State, done: set<ClientId>, c: ClientId, m: Message)
    requires c !in done
    ensures s.channels + Offers(s, done + {c}, m) == (s.channels + Offers(s, done, m))[c := Offer(ChannelOf(s, c), m)]
    ensures AnyClosed(s, done + {c}) <==> AnyClosed(s, done) || ChannelOf(s, c).closed
  {}

  lemma OneMoreSkip(s: State, done: set<ClientId>, c: ClientId)
    requires c !in done
    ensures multiset(Skipped(s, done + {c}))
         == if Full(ChannelOf(s, c)) then multiset(Skipped(s, done)) + multiset{c} else multiset(Skipped(s, done))
  {}

  lemma UntouchedChannel(s: State, done: set<ClientId>, c: ClientId, m: Message)
    requires c !in done
    ensures ChannelOf(OfferedTo(s, done, m), c) == ChannelOf(s, c)
  {}
}
