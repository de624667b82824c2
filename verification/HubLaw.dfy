/**
 The WebSocket hub as a state machine over connections: two indexes that must agree, and
 send channels that may be closed once and never written to after that
 (internal/handler/websocket.go).
 */
module HubLaw {
  import opened Common

  /** What a connection says about itself when it authenticates. */
  datatype Link = Link(app: string, machine: string, session: string)

  /** A connection object: its identity, and the attributes it keeps for life. */
  datatype Handle = Handle(id: nat, link: Link)

  /**
   `clients`, by (app, machine), and `sessions` are the hub's indexes; `closed` and `queues` the state of
   the send channels of all connections registered so far. `panicked` records a close of a closed
   channel or a send on one.
   */
  datatype State = State(
    clients: map<(string, string), Handle>,
    sessions: map<string, Handle>,
    registered: set<Handle>,
    closed: set<Handle>,
    queues: map<Handle, seq<string>>,
    panicked: bool)

  /** The hub's nested maps (app, then machine) hold the same connections as one map by place. */
  ghost predicate SameClients(nested: map<string, map<string, Handle>>, flat: map<(string, string), Handle>) {
    && (forall app, m :: app in nested && m in nested[app] ==> (app, m) in flat && flat[(app, m)] == nested[app][m])
    && (forall p :: p in flat ==> p.0 in nested && p.1 in nested[p.0])
  }

  function Put(nested: map<string, map<string, Handle>>, app: string, machine: string, h: Handle): map<string, map<string, Handle>> {
    nested[app := (if app in nested then nested[app] else map[])[machine := h]]
  }

  lemma SameClientsPut(nested: map<string, map<string, Handle>>, flat: map<(string, string), Handle>,
                       app: string, machine: string, h: Handle)
    requires SameClients(nested, flat)
    ensures SameClients(Put(nested, app, machine, h), flat[(app, machine) := h])
  {
  }

  /** Capacity of a send channel. */
  const CAPACITY := 256

  function Lookup(s: State, app: string, machine: string): Option<Handle> {
    if (app, machine) in s.clients then Some(s.clients[(app, machine)]) else None
  }

  function Close(s: State, k: Handle): State {
    s.(panicked := s.panicked || k in s.closed, closed := s.closed + {k})
  }

  function Register(s: State, k: Handle): State {
    var l := k.link;
    var prev := Lookup(s, l.app, l.machine);
    var t := if prev.Some? then Close(s, prev.value).(sessions := s.sessions - {prev.value.link.session}) else s;
    t.(clients := t.clients[(l.app, l.machine) := k],
       sessions := t.sessions[l.session := k],
       registered := t.registered + {k},
       queues := t.queues[k := []])
  }

  function Unregister(s: State, k: Handle): State {
    var l := k.link;
    var c := Lookup(s, l.app, l.machine);
    if c.Some? && c.value.link.session == l.session then
      Close(s, k).(clients := s.clients - {(l.app, l.machine)}, sessions := s.sessions - {l.session})
    else s
  }

  predicate Full(s: State, k: Handle) {
    k in s.queues && |s.queues[k]| >= CAPACITY
  }

  /** A non-blocking send on one channel. */
  function Push(s: State, k: Handle, message: string): State {
    if k !in s.queues || Full(s, k) then s.(panicked := s.panicked || k in s.closed)
    else s.(panicked := s.panicked || k in s.closed, queues := s.queues[k := s.queues[k] + [message]])
  }

  function SendToDevice(s: State, app: string, machine: string, message: string): (State, bool) {
    var c := Lookup(s, app, machine);
    if c.Some? then (Push(s, c.value, message), !Full(s, c.value)) else (s, false)
  }

  /** The connections a broadcast to the app goes to. */
  function Audience(s: State, app: string): set<Handle> {
    set p | p in s.clients && p.0 == app :: s.clients[p]
  }

  /** Push to every member once; the order does not matter. */
  function PushAll(s: State, members: set<Handle>, message: string): State {
    s.(panicked := s.panicked || members * s.closed != {},
       queues := map k | k in s.queues :: if k in members && !Full(s, k) then s.queues[k] + [message] else s.queues[k])
  }

  function Reached(s: State, members: set<Handle>): set<Handle> {
    set k | k in members && k in s.queues && !Full(s, k)
  }

  function BroadcastToApp(s: State, app: string, message: string): (State, nat) {
    (PushAll(s, Audience(s, app), message), |Reached(s, Audience(s, app))|)
  }

  // ---------- runs ----------

  datatype Event =
    | RegisterEvent(client: Handle)
    | UnregisterEvent(client: Handle)
    | SendEvent(app: string, machine: string, message: string)
    | BroadcastEvent(app: string, message: string)
    | ReceiveEvent(client: Handle)

  /** The write pump takes the oldest message off the channel. */
  function Receive(s: State, k: Handle): State {
    if k in s.queues && s.queues[k] != [] then s.(queues := s.queues[k := s.queues[k][1..]]) else s
  }

  function Apply(s: State, e: Event): State {
    match e
    case RegisterEvent(k) => Register(s, k)
    case UnregisterEvent(k) => Unregister(s, k)
    case SendEvent(app, machine, message) => SendToDevice(s, app, machine, message).0
    case BroadcastEvent(app, message) => BroadcastToApp(s, app, message).0
    case ReceiveEvent(k) => Receive(s, k)
  }

  /** A connection registers once, under a session id no other connection has; only registered ones unregister. */
  predicate Enabled(s: State, e: Event) {
    match e
    case RegisterEvent(k) => k !in s.registered && forall r :: r in s.registered ==> r.link.session != k.link.session
    case UnregisterEvent(k) => k in s.registered
    case _ => true
  }

  function Run(s: State, events: seq<Event>): State {
    if events == [] then s else Apply(Run(s, events[..|events| - 1]), events[|events| - 1])
  }

  predicate RunEnabled(s: State, events: seq<Event>) {
    events == [] ||
    (RunEnabled(s, events[..|events| - 1]) && Enabled(Run(s, events[..|events| - 1]), events[|events| - 1]))
  }

  lemma RunSnoc(s: State, events: seq<Event>, e: Event)
    ensures Run(s, events + [e]) == Apply(Run(s, events), e)
    ensures RunEnabled(s, events + [e]) <==> RunEnabled(s, events) && Enabled(Run(s, events), e)
  {
    assert (events + [e])[..|events|] == events;
  }

  const EMPTY := State(map[], map[], {}, {}, map[], false)

  // ---------- the invariant ----------

  predicate Online(s: State, k: Handle) {
    Lookup(s, k.link.app, k.link.machine) == Some(k)
  }

  /** `clients` holds registered connections, each at its own place. */
  ghost predicate ClientsOk(s: State) {
    forall p :: p in s.clients ==> s.clients[p] in s.registered && Place(s.clients[p]) == p
  }

  function Place(k: Handle): (string, string) {
    (k.link.app, k.link.machine)
  }

  /** `sessions` is exactly the inverse image of `clients`. */
  ghost predicate SessionsOk(s: State) {
    && (forall sid :: sid in s.sessions ==>
          s.sessions[sid] in s.registered && s.sessions[sid].link.session == sid && Online(s, s.sessions[sid]))
    && (forall k :: k in s.registered && Online(s, k) ==>
          k.link.session in s.sessions && s.sessions[k.link.session] == k)
  }

  /** A channel is closed exactly when its connection is registered and no longer mapped. */
  ghost predicate ChannelsOk(s: State) {
    && s.closed <= s.registered && s.queues.Keys == s.registered
    && forall k :: k in s.registered ==> (k in s.closed <==> !Online(s, k))
  }

  ghost predicate UniqueSessions(s: State) {
    forall a, b :: a in s.registered && b in s.registered && a.link.session == b.link.session ==> a == b
  }

  ghost predicate Inv(s: State) {
    !s.panicked && ClientsOk(s) && SessionsOk(s) && ChannelsOk(s) && UniqueSessions(s)
  }

  lemma EmptyInv()
    ensures Inv(EMPTY)
  {
  }

  lemma RegisterOnline(s: State, k: Handle)
    requires Inv(s) && Enabled(s, RegisterEvent(k))
    ensures var s', prev := Register(s, k), Lookup(s, k.link.app, k.link.machine);
      && Online(s', k)
      && (prev.Some? ==> prev.value in s.registered && Online(s, prev.value) && prev.value !in s.closed)
      && forall r :: r in s.registered ==> (Online(s', r) <==> Online(s, r) && Some(r) != prev)
  {
  }

  lemma RegisterSessions(s: State, k: Handle)
    requires Inv(s) && Enabled(s, RegisterEvent(k))
    ensures SessionsOk(Register(s, k))
  {
    RegisterOnline(s, k);
    var s' := Register(s, k);
    forall sid | sid in s'.sessions
      ensures s'.sessions[sid] in s'.registered && s'.sessions[sid].link.session == sid && Online(s', s'.sessions[sid])
    {
      if sid != k.link.session {
        assert sid in s.sessions && s'.sessions[sid] == s.sessions[sid];
      }
    }
  }

  lemma RegisterKeepsInv(s: State, k: Handle)
    requires Inv(s) && Enabled(s, RegisterEvent(k))
    ensures Inv(Register(s, k))
  {
    RegisterCalm(s, k);
    RegisterSessions(s, k);
    RegisterChannels(s, k);
  }

  lemma RegisterCalm(s: State, k: Handle)
    requires Inv(s) && Enabled(s, RegisterEvent(k))
    ensures !Register(s, k).panicked && UniqueSessions(Register(s, k))
  {
    RegisterOnline(s, k);
  }

  lemma RegisterChannels(s: State, k: Handle)
    requires Inv(s) && Enabled(s, RegisterEvent(k))
    ensures ChannelsOk(Register(s, k)) && ClientsOk(Register(s, k))
  {
    RegisterOnline(s, k);
  }

  lemma UnregisterOnline(s: State, k: Handle)
    requires Inv(s) && k in s.registered
    ensures var s' := Unregister(s, k);
      && (if Online(s, k) then s' == Close(s, k).(clients := s.clients - {Place(k)}, sessions := s.sessions - {k.link.session})
          else s' == s)
      && forall r :: r in s.registered ==> (Online(s', r) <==> Online(s, r) && r != k)
  {
    var c := Lookup(s, k.link.app, k.link.machine);
    if c.Some? {
      assert Place(c.value) in s.clients && Online(s, c.value);
    }
  }

  lemma UnregisterSessions(s: State, k: Handle)
    requires Inv(s) && k in s.registered && Online(s, k)
    ensures SessionsOk(Unregister(s, k))
  {
    UnregisterOnline(s, k);
    var s' := Unregister(s, k);
    forall sid | sid in s'.sessions
      ensures s'.sessions[sid] in s'.registered && s'.sessions[sid].link.session == sid && Online(s', s'.sessions[sid])
    {
      assert sid in s.sessions && s.sessions[sid] != k;
    }
  }

  lemma UnregisterKeepsInv(s: State, k: Handle)
    requires Inv(s) && k in s.registered
    ensures Inv(Unregister(s, k))
    ensures if Online(s, k) then k in Unregister(s, k).closed else Unregister(s, k) == s
  {
    UnregisterOnline(s, k);
    if Online(s, k) {
      UnregisterSessions(s, k);
    }
  }

  lemma AudienceIsOpen(s: State, app: string)
    requires Inv(s)
    ensures Audience(s, app) <= s.registered && Audience(s, app) * s.closed == {}
    ensures forall k :: k in s.registered ==> (k in Audience(s, app) <==> Online(s, k) && k.link.app == app)
  {
    forall k | k in s.registered ensures k in Audience(s, app) <==> Online(s, k) && k.link.app == app {
      if Online(s, k) && k.link.app == app {
        assert Place(k) in s.clients && s.clients[Place(k)] == k;
      }
    }
  }

  lemma StepKeepsInv(s: State, e: Event)
    requires Inv(s) && Enabled(s, e)
    ensures Inv(Apply(s, e))
  {
    match e
    case RegisterEvent(k) => RegisterKeepsInv(s, k);
    case UnregisterEvent(k) => UnregisterKeepsInv(s, k);
    case BroadcastEvent(app, message) => BroadcastKeepsInv(s, app, message);
    case SendEvent(app, m, message) => SendKeepsInv(s, app, m, message);
    case ReceiveEvent(k) => ReceiveKeepsInv(s, k);
  }

  lemma BroadcastKeepsInv(s: State, app: string, message: string)
    requires Inv(s)
    ensures Inv(BroadcastToApp(s, app, message).0)
  {
    AudienceIsOpen(s, app);
    SameIndexesKeepInv(s, BroadcastToApp(s, app, message).0);
  }

  lemma ReceiveKeepsInv(s: State, k: Handle)
    requires Inv(s)
    ensures Inv(Receive(s, k))
  {
    SameIndexesKeepInv(s, Receive(s, k));
  }

  lemma SendKeepsInv(s: State, app: string, machine: string, message: string)
    requires Inv(s)
    ensures Inv(SendToDevice(s, app, machine, message).0)
  {
    var c := Lookup(s, app, machine);
    if c.Some? {
      assert Online(s, c.value) && c.value in s.registered;
    }
    SameIndexesKeepInv(s, SendToDevice(s, app, machine, message).0);
  }

  lemma SameIndexesKeepInv(s: State, s': State)
    requires Inv(s)
    requires s'.clients == s.clients && s'.sessions == s.sessions && s'.registered == s.registered && s'.closed == s.closed
    requires s'.queues.Keys == s.queues.Keys && !s'.panicked
    ensures Inv(s')
  {
    assert forall k :: k in s.registered ==> Online(s', k) == Online(s, k);
  }

  // ---------- main results ----------

  /**
   Over every run: no channel is closed twice or written to once closed, `sessions` is exactly the
   inverse of `clients`, and a registered connection's channel is closed exactly when it is unmapped.
   */
  lemma {:induction false} HubIsSafe(events: seq<Event>)
    requires RunEnabled(EMPTY, events)
    ensures Inv(Run(EMPTY, events))
  {
    if events == [] {
      EmptyInv();
    } else {
      HubIsSafe(events[..|events| - 1]);
      StepKeepsInv(Run(EMPTY, events[..|events| - 1]), events[|events| - 1]);
    }
  }

  /** What a handler relies on: whatever is mapped is registered, at its own place, and open. */
  lemma MappedIsOpen(events: seq<Event>, app: string, machine: string)
    requires RunEnabled(EMPTY, events)
    ensures var s := Run(EMPTY, events);
      var c := Lookup(s, app, machine);
      && s.queues.Keys == s.registered
      && (c.Some? ==> c.value in s.registered && c.value !in s.closed && Place(c.value) == (app, machine))
  {
    HubIsSafe(events);
    var s := Run(EMPTY, events);
    if Lookup(s, app, machine).Some? {
      assert Online(s, Lookup(s, app, machine).value);
    }
  }

  lemma BroadcastFacts(events: seq<Event>, app: string)
    requires RunEnabled(EMPTY, events)
    ensures var s := Run(EMPTY, events);
      && !s.panicked && s.queues.Keys == s.registered && Audience(s, app) <= s.registered && Audience(s, app) * s.closed == {}
      && (forall k :: k in Audience(s, app) ==> k.link.app == app && Lookup(s, app, k.link.machine) == Some(k))
      && (forall m :: Lookup(s, app, m).Some? ==>
            Lookup(s, app, m).value in Audience(s, app) && Lookup(s, app, m).value.link.machine == m)
  {
    HubIsSafe(events);
    AudienceIsOpen(Run(EMPTY, events), app);
  }

  /** A stale unregister, of a connection that has been replaced, changes nothing at all. */
  lemma StaleUnregisterIsHarmless(events: seq<Event>, stale: Handle, replacement: Handle)
    requires RunEnabled(EMPTY, events)
    requires var s := Run(EMPTY, events);
      && Online(s, replacement) && stale != replacement && stale in s.registered
      && stale.link.app == replacement.link.app && stale.link.machine == replacement.link.machine
    ensures var s := Run(EMPTY, events);
      Unregister(s, stale) == s && stale in s.closed
  {
    HubIsSafe(events);
    UnregisterKeepsInv(Run(EMPTY, events), stale);
  }

  /** Once closed, a connection never comes back: neither index ever names it again, and its queue only drains. */
  lemma {:induction false} ClosedForever(s: State, events: seq<Event>, k: Handle)
    requires Inv(s) && RunEnabled(s, events) && k in s.closed
    ensures var t := Run(s, events);
      Inv(t) && k in t.closed && !Online(t, k) && k !in t.sessions.Values && |t.queues[k]| <= |s.queues[k]|
  {
    if events != [] {
      var mid, e := Run(s, events[..|events| - 1]), events[|events| - 1];
      ClosedForever(s, events[..|events| - 1], k);
      StepKeepsInv(mid, e);
      ClosedStays(mid, e, k);
    }
    ClosedIsUnnamed(Run(s, events), k);
  }

  lemma ClosedIsUnnamed(s: State, k: Handle)
    requires Inv(s) && k in s.closed
    ensures !Online(s, k) && k !in s.sessions.Values
  {
  }

  lemma ClosedStays(s: State, e: Event, k: Handle)
    requires Inv(s) && Enabled(s, e) && k in s.closed
    ensures var t := Apply(s, e);
      k in t.closed && k in t.queues && |t.queues[k]| <= |s.queues[k]|
  {
    match e
    case RegisterEvent(_) =>
    case UnregisterEvent(c) => UnregisterOnline(s, c);
    case SendEvent(app, m, _) =>
      var c := Lookup(s, app, m);
      if c.Some? {
        assert Online(s, c.value);
      }
    case BroadcastEvent(app, _) => AudienceIsOpen(s, app);
    case ReceiveEvent(_) =>
  }

  /**
   `clients` is the online map a caller has in mind: a registration puts the connection at its place, an
   unregister takes it away if it is still the one there, and nothing else moves anything.
   */
  lemma ClientsIsOnlineMap(s: State, e: Event)
    requires Inv(s) && Enabled(s, e)
    ensures var online, online' := s.clients, Apply(s, e).clients;
      match e
      case RegisterEvent(k) => online' == online[Place(k) := k]
      case UnregisterEvent(k) =>
        online' == if Place(k) in online && online[Place(k)] == k then online - {Place(k)} else online
      case _ => online' == online
  {
    match e
    case RegisterEvent(k) =>
    case UnregisterEvent(k) => UnregisterUnmaps(s, k);
    case _ => assert Apply(s, e).clients == s.clients;
  }

  /** Session ids are unique, so comparing them is comparing connections. */
  lemma UnregisterUnmaps(s: State, k: Handle)
    requires Inv(s) && Enabled(s, UnregisterEvent(k))
    ensures Unregister(s, k).clients
         == if Place(k) in s.clients && s.clients[Place(k)] == k then s.clients - {Place(k)} else s.clients
  {
    UnregisterKeepsInv(s, k);
  }

  /** A send reaches the device online at the place, if its queue has room, and reports exactly that. */
  lemma SendReachesDevice(s: State, app: string, machine: string, message: string)
    requires Inv(s)
    ensures var r, place := SendToDevice(s, app, machine, message), (app, machine);
      && !r.0.panicked
      && (place in s.clients ==> s.clients[place] in s.queues)
      && (r.1 <==> place in s.clients && |s.queues[s.clients[place]]| < CAPACITY)
      && r.0.queues == (if r.1 then s.queues[s.clients[place] := s.queues[s.clients[place]] + [message]] else s.queues)
  {
  }

  /** The connections whose queue changed between two states. */
  function Grown(before: State, after: State): set<Handle> {
    set k | k in before.queues && k in after.queues && after.queues[k] != before.queues[k]
  }

  /** The count a broadcast returns is the number of queues that grew, each by the message, once, on an online member. */
  lemma BroadcastCountsQueues(s: State, app: string, message: string)
    requires Inv(s)
    ensures var r := BroadcastToApp(s, app, message);
      && r.1 == |Grown(s, r.0)|
      && (forall k :: k in Grown(s, r.0) ==>
            Online(s, k) && k.link.app == app && r.0.queues[k] == s.queues[k] + [message])
      && (forall k :: k in s.registered && Online(s, k) && k.link.app == app && |s.queues[k]| < CAPACITY ==>
            k in Grown(s, r.0))
  {
    AudienceIsOpen(s, app);
    var s' := BroadcastToApp(s, app, message).0;
    forall k | k in Reached(s, Audience(s, app)) ensures k in Grown(s, s') {
      assert |s'.queues[k]| == |s.queues[k]| + 1;
    }
    assert Grown(s, s') == Reached(s, Audience(s, app));
  }

  /** What counts as a panic: closing a closed channel, and sending on one, whether there is room or not. */
  lemma PanicsIff(s: State, k: Handle, message: string)
    ensures Close(s, k).panicked <==> s.panicked || k in s.closed
    ensures Push(s, k, message).panicked <==> s.panicked || k in s.closed
    ensures k in Close(s, k).closed
  {
  }

  /** The protocol is needed: a connection registered twice closes its own channel and stays mapped. */
  lemma DoubleRegisterPanics(k: Handle, message: string)
    ensures var s := Register(Register(EMPTY, k), k);
      && k in s.closed && Online(s, k)
      && SendToDevice(s, k.link.app, k.link.machine, message).0.panicked
  {
  }
}
