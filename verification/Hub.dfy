/** The hub object: nested connection maps, the session index, and the send channel of each connection. */
module Hub {
  import opened Common
  import opened HubLaw

  /** A buffered Go channel of at most `CAPACITY` messages. */
  datatype Channel = Channel(queue: seq<string>, closed: bool)

  /** `trace` records the events handled, so what `HubLaw` proves of every run holds of a `Valid()` hub. */
  class WebSocketHub {
    var clients: map<string, map<string, Handle>>
    var sessions: map<string, Handle>
    var channels: map<Handle, Channel>
    var panicked: bool
    ghost var online: map<(string, string), Handle>
    ghost var trace: seq<Event>

    constructor ()
      ensures Valid() && S() == EMPTY
    {
      clients, sessions, channels, panicked, online, trace := map[], map[], map[], false, map[], [];
    }

    ghost function S(): State
      reads this
    {
      State(online, sessions, channels.Keys, ClosedIn(channels), QueuesIn(channels), panicked)
    }

    ghost predicate Valid()
      reads this
    {
      SameClients(clients, online) && RunEnabled(EMPTY, trace) && S() == Run(EMPTY, trace)
    }

    ghost method Record(e: Event, before: State)
      requires RunEnabled(EMPTY, trace) && before == Run(EMPTY, trace)
      requires Enabled(before, e) && S() == Apply(before, e) && SameClients(clients, online)
      modifies `trace
      ensures Valid() && trace == old(trace) + [e]
    {
      RunSnoc(EMPTY, trace, e);
      trace := trace + [e];
    }

    // ---------- channel operations ----------

    /** `close(client.send)`; closing a closed channel panics. */
    method CloseChannel(client: Handle)
      requires client in channels
      modifies `channels, `panicked
      ensures channels.Keys == old(channels.Keys) && QueuesIn(channels) == old(QueuesIn(channels))
      ensures ClosedIn(channels) == old(ClosedIn(channels)) + {client}
      ensures panicked == (old(panicked) || client in old(ClosedIn(channels)))
    {
      if channels[client].closed {
        panicked := true;
      }
      channels := channels[client := channels[client].(closed := true)];
    }

    /** `select { case client.send <- m: default: }`; sending on a closed channel panics. */
    method TrySend(client: Handle, message: string) returns (sent: bool)
      requires client in channels
      modifies `channels, `panicked
      ensures S() == Push(old(S()), client, message)
      ensures sent <==> !Full(old(S()), client)
      ensures channels.Keys == old(channels.Keys)
      ensures channels == old(channels)[client := old(channels[client]).(
                queue := if sent then old(channels[client]).queue + [message] else old(channels[client]).queue)]
      ensures panicked == (old(panicked) || old(channels[client]).closed)
    {
      var c := channels[client];
      if c.closed {
        panicked := true;
      }
      sent := |c.queue| < CAPACITY;
      if sent {
        channels := channels[client := c.(queue := c.queue + [message])];
        assert QueuesIn(channels) == old(QueuesIn(channels))[client := c.queue + [message]];
        assert ClosedIn(channels) == old(ClosedIn(channels));
      } else {
        assert channels == channels[client := c];
      }
    }

    // ---------- the cases of `Run` and the senders ----------

    method RegisterClient(client: Handle)
      requires Valid() && Enabled(S(), RegisterEvent(client))
      modifies this
      ensures Valid() && !panicked && trace == old(trace) + [RegisterEvent(client)] && S() == Register(old(S()), client)
    {
      ghost var before := S();
      MappedIsOpen(trace, client.link.app, client.link.machine);
      RegisterSafe(trace, client);
      Replace(client);
      Record(RegisterEvent(client), before);
    }

    /** Close the connection already at the place, if any, and put the new one there. */
    method Replace(client: Handle)
      requires SameClients(clients, online) && client !in channels
      requires var c := Lookup(S(), client.link.app, client.link.machine); c.Some? ==> c.value in channels
      modifies `clients, `online, `sessions, `channels, `panicked
      ensures SameClients(clients, online) && S() == Register(old(S()), client)
    {
      var app, machine := client.link.app, client.link.machine;
      if app in clients && machine in clients[app] {
        Evict(clients[app][machine]);
      }
      PutClient(client);
      sessions := sessions[client.link.session := client];
      OpenChannel(client);
    }

    /** `close(old.send)` and forget its session. */
    method Evict(stale: Handle)
      requires stale in channels
      modifies `sessions, `channels, `panicked
      ensures S() == Close(old(S()), stale).(sessions := old(sessions) - {stale.link.session})
      ensures channels.Keys == old(channels.Keys)
    {
      CloseChannel(stale);
      sessions := sessions - {stale.link.session};
    }

    /** Both levels of `clients`. */
    method PutClient(client: Handle)
      requires SameClients(clients, online)
      modifies `clients, `online
      ensures SameClients(clients, online) && online == old(online)[(client.link.app, client.link.machine) := client]
    {
      var app, machine := client.link.app, client.link.machine;
      SameClientsPut(clients, online, app, machine, client);
      ghost var placed := Put(clients, app, machine, client);
      if app !in clients {
        clients := clients[app := map[]];
      }
      clients := clients[app := clients[app][machine := client]];
      assert clients == placed;
      online := online[(app, machine) := client];
    }

    method OpenChannel(client: Handle)
      requires client !in channels
      modifies `channels
      ensures channels.Keys == old(channels.Keys) + {client} && ClosedIn(channels) == old(ClosedIn(channels))
      ensures QueuesIn(channels) == old(QueuesIn(channels))[client := []]
    {
      channels := channels[client := Channel([], false)];
    }

    method UnregisterClient(client: Handle)
      requires Valid() && client in channels
      modifies this
      ensures Valid() && !panicked && trace == old(trace) + [UnregisterEvent(client)] && S() == Unregister(old(S()), client)
    {
      ghost var before := S();
      UnregisterSafe(trace, client);
      Drop(client);
      Record(UnregisterEvent(client), before);
    }

    /** Remove and close the connection, if it is still the one at its place. */
    method Drop(client: Handle)
      requires SameClients(clients, online) && client in channels
      modifies `clients, `online, `sessions, `channels, `panicked
      ensures SameClients(clients, online) && S() == Unregister(old(S()), client)
    {
      var app, machine := client.link.app, client.link.machine;
      if app in clients {
        if machine in clients[app] && clients[app][machine].link.session == client.link.session {
          RemoveClient(app, machine);
          sessions := sessions - {client.link.session};
          CloseChannel(client);
        }
      }
    }

    method RemoveClient(app: string, machine: string)
      requires SameClients(clients, online) && app in clients && machine in clients[app]
      modifies `clients, `online
      ensures SameClients(clients, online) && online == old(online) - {(app, machine)}
      ensures (app, machine) in old(online) && old(online)[(app, machine)] == old(clients)[app][machine]
    {
      assert online[(app, machine)] == clients[app][machine];
      clients := clients[app := clients[app] - {machine}];
      online := online - {(app, machine)};
    }

    method SendToDevice(app: string, machine: string, message: string) returns (sent: bool)
      requires Valid()
      modifies this
      ensures Valid() && !panicked && trace == old(trace) + [SendEvent(app, machine, message)]
      ensures (S(), sent) == HubLaw.SendToDevice(old(S()), app, machine, message)
    {
      ghost var before := S();
      MappedIsOpen(trace, app, machine);
      SendSafe(trace, app, machine, message);
      sent := false;
      if app in clients {
        if machine in clients[app] {
          var client := clients[app][machine];
          assert Lookup(before, app, machine) == Some(client);
          sent := TrySend(client, message);
        }
      }
      Record(SendEvent(app, machine, message), before);
    }

    method BroadcastToApp(app: string, message: string) returns (count: nat)
      requires Valid()
      modifies this
      ensures Valid() && !panicked && trace == old(trace) + [BroadcastEvent(app, message)]
      ensures (S(), count) == HubLaw.BroadcastToApp(old(S()), app, message)
    {
      ghost var before := S();
      BroadcastFacts(trace, app);
      count := PushToApp(app, message);
      Record(BroadcastEvent(app, message), before);
    }

    method PushToApp(app: string, message: string) returns (count: nat)
      requires SameClients(clients, online)
      requires var s := S();
        && !panicked && Audience(s, app) <= s.registered && Audience(s, app) * s.closed == {}
        && (forall m :: Lookup(s, app, m).Some? ==> Lookup(s, app, m).value.link.machine == m)
      modifies `channels, `panicked
      ensures (S(), count) == HubLaw.BroadcastToApp(old(S()), app, message)
    {
      ghost var before, was := S(), channels;
      count := 0;
      if app in clients {
        AudienceOf(clients[app], online, app, clients);
        forall m | m in clients[app]
          ensures var k := clients[app][m]; k.link.machine == m && k in channels && !channels[k].closed
        {
          assert Lookup(before, app, m).Some?;
          assert clients[app][m] in Audience(before, app) && clients[app][m] !in Audience(before, app) * before.closed;
        }
        count := PushToEach(clients[app], message);
      } else {
        assert Audience(before, app) == {};
      }
      PushedIsPushAll(before, was, channels, Audience(before, app), message);
    }

    /** The loop over one app's connections, in whatever order the map yields them. */
    method PushToEach(appClients: map<string, Handle>, message: string) returns (count: nat)
      requires !panicked
      requires forall m :: m in appClients ==>
                 appClients[m] in channels && !channels[appClients[m]].closed && appClients[m].link.machine == m
      modifies `channels, `panicked
      ensures !panicked && Pushed(old(channels), channels, Members(appClients, appClients.Keys), message)
      ensures count == |Roomy(old(channels), Members(appClients, appClients.Keys))|
    {
      ghost var was, all := channels, Members(appClients, appClients.Keys);
      count := 0;
      var rest := appClients.Keys;
      while rest != {}
        invariant rest <= appClients.Keys && !panicked
        invariant Pushed(was, channels, all - Members(appClients, rest), message)
        invariant count == |Roomy(was, all - Members(appClients, rest))|
        decreases |rest|
      {
        var machine :| machine in rest;
        var client := appClients[machine];
        ghost var todo := Members(appClients, rest);
        MembersSplit(appClients, rest, machine);
        PushedOne(was, channels, all, todo, client, message);
        rest := rest - {machine};
        var sent := TrySend(client, message);
        if sent {
          count := count + 1;
        }
      }
      assert all - Members(appClients, {}) == all;
    }

    /** The write pump of one connection. */
    method Pump(client: Handle)
      requires Valid() && client in channels
      modifies this
      ensures Valid() && trace == old(trace) + [ReceiveEvent(client)] && S() == Receive(old(S()), client)
    {
      ghost var before := S();
      var c := channels[client];
      if c.queue != [] {
        channels := channels[client := c.(queue := c.queue[1..])];
        assert QueuesIn(channels) == before.queues[client := c.queue[1..]];
        assert ClosedIn(channels) == before.closed;
      }
      Record(ReceiveEvent(client), before);
    }

    method GetOnlineDevices(app: string) returns (devices: seq<string>)
      requires Valid()
      ensures forall m :: m in devices <==> (app, m) in online
      ensures Distinct(devices)
    {
      devices := [];
      if app in clients {
        var rest := clients[app].Keys;
        while rest != {}
          invariant rest <= clients[app].Keys
          invariant forall m :: m in devices <==> m in clients[app] && m !in rest
          invariant Distinct(devices)
          decreases |rest|
        {
          var machine :| machine in rest;
          rest := rest - {machine};
          devices := devices + [machine];
        }
      }
    }

    method IsDeviceOnline(app: string, machine: string) returns (yes: bool)
      requires Valid()
      ensures yes <==> (app, machine) in online
    {
      if app in clients {
        return machine in clients[app];
      }
      return false;
    }
  }

  ghost function ClosedIn(channels: map<Handle, Channel>): set<Handle> {
    set k | k in channels && channels[k].closed
  }

  ghost function QueuesIn(channels: map<Handle, Channel>): map<Handle, seq<string>> {
    map k | k in channels :: channels[k].queue
  }

  lemma RegisterSafe(events: seq<Event>, client: Handle)
    requires RunEnabled(EMPTY, events) && Enabled(Run(EMPTY, events), RegisterEvent(client))
    ensures !Register(Run(EMPTY, events), client).panicked
  {
    HubIsSafe(events);
    RegisterKeepsInv(Run(EMPTY, events), client);
  }

  lemma UnregisterSafe(events: seq<Event>, client: Handle)
    requires RunEnabled(EMPTY, events) && client in Run(EMPTY, events).registered
    ensures !Unregister(Run(EMPTY, events), client).panicked
  {
    HubIsSafe(events);
    UnregisterKeepsInv(Run(EMPTY, events), client);
  }

  lemma SendSafe(events: seq<Event>, app: string, machine: string, message: string)
    requires RunEnabled(EMPTY, events)
    ensures !HubLaw.SendToDevice(Run(EMPTY, events), app, machine, message).0.panicked
  {
    HubIsSafe(events);
    SendKeepsInv(Run(EMPTY, events), app, machine, message);
  }

  ghost function Roomy(channels: map<Handle, Channel>, members: set<Handle>): set<Handle> {
    set k | k in members && k in channels && |channels[k].queue| < CAPACITY
  }

  /** Every member with room got the message, and nothing else changed. */
  ghost predicate Pushed(was: map<Handle, Channel>, now: map<Handle, Channel>, members: set<Handle>, message: string) {
    && now.Keys == was.Keys
    && forall k :: k in was ==>
         now[k] == if k in Roomy(was, members) then was[k].(queue := was[k].queue + [message]) else was[k]
  }

  lemma PushedOne(was: map<Handle, Channel>, now: map<Handle, Channel>, audience: set<Handle>, todo: set<Handle>,
                  client: Handle, message: string)
    requires Pushed(was, now, audience - todo, message) && client in todo && todo <= audience && client in was
    ensures now[client] == was[client]
    ensures var c := was[client];
      var next := now[client := c.(queue := if |c.queue| < CAPACITY then c.queue + [message] else c.queue)];
      && Pushed(was, next, audience - (todo - {client}), message)
      && |Roomy(was, audience - (todo - {client}))|
         == |Roomy(was, audience - todo)| + if |c.queue| < CAPACITY then 1 else 0
  {
    assert Roomy(was, audience - (todo - {client}))
        == Roomy(was, audience - todo) + if |was[client].queue| < CAPACITY then {client} else {};
  }

  lemma PushedIsPushAll(s: State, was: map<Handle, Channel>, now: map<Handle, Channel>, members: set<Handle>, message: string)
    requires s.queues == QueuesIn(was) && s.closed == ClosedIn(was) && members <= was.Keys
    requires Pushed(was, now, members, message)
    ensures QueuesIn(now) == PushAll(s, members, message).queues && ClosedIn(now) == s.closed
    ensures |Roomy(was, members)| == |Reached(s, members)|
  {
    assert Roomy(was, members) == Reached(s, members);
  }

  ghost function Members(appClients: map<string, Handle>, machines: set<string>): set<Handle>
    requires machines <= appClients.Keys
  {
    set m | m in machines :: appClients[m]
  }

  lemma MembersSplit(appClients: map<string, Handle>, rest: set<string>, machine: string)
    requires rest <= appClients.Keys && machine in rest
    requires forall m :: m in appClients ==> appClients[m].link.machine == m
    ensures Members(appClients, rest - {machine}) == Members(appClients, rest) - {appClients[machine]}
    ensures appClients[machine] in Members(appClients, rest)
    ensures Members(appClients, rest) <= Members(appClients, appClients.Keys)
  {
  }

  lemma AudienceOf(inner: map<string, Handle>, online: map<(string, string), Handle>, app: string,
                   nested: map<string, map<string, Handle>>)
    requires SameClients(nested, online) && app in nested && nested[app] == inner
    ensures (set p | p in online && p.0 == app :: online[p]) == Members(inner, inner.Keys)
  {
    var l, r := set p | p in online && p.0 == app :: online[p], Members(inner, inner.Keys);
    forall k | k in l ensures k in r {
      var p :| p in online && p.0 == app && online[p] == k;
      assert p == (app, p.1) && inner[p.1] == k;
    }
    forall k | k in r ensures k in l {
      var m :| m in inner && inner[m] == k;
      assert online[(app, m)] == k;
    }
  }
}
