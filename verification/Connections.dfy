/** The connection manager of one process: which connection is on which channel, and fan-out of
    one message to the union of some channels' connections. */
module Connections {
  import opened Events

  /** A WebSocket connection, known by its identity. */
  type Conn = nat

  datatype Message = Activity(event: Event) | Heartbeat

  const GLOBAL_CHANNEL: string := "global"

  type Channels = map<string, set<Conn>>

  /** The manager's own map, and what each client has been sent so far. */
  datatype Hub = Hub(connections: Channels, inboxes: map<Conn, seq<Message>>)

  function Members(connections: Channels, channel: string): set<Conn> {
    if channel in connections then connections[channel] else {}
  }

  function Inbox(inboxes: map<Conn, seq<Message>>, c: Conn): seq<Message> {
    if c in inboxes then inboxes[c] else []
  }

  // ---------- What each operation should do ----------

  ghost predicate NoEmptyChannel(connections: Channels) {
    forall channel :: channel in connections ==> connections[channel] != {}
  }

  function Added(connections: Channels, c: Conn, channel: string): Channels {
    connections[channel := Members(connections, channel) + {c}]
  }

  /** Some connections gone from some channels; a channel left without any is dropped. */
  function Pruned(connections: Channels, channels: set<string>, dead: set<Conn>): Channels {
    map channel | channel in connections && !(channel in channels && connections[channel] <= dead) ::
      if channel in channels then connections[channel] - dead else connections[channel]
  }

  /** Every connection on one of the channels or on the global one, once. */
  ghost function Targets(connections: Channels, channels: set<string>): set<Conn> {
    set channel, c | channel in connections && channel in Widened(channels) && c in connections[channel] :: c
  }

  function Widened(channels: set<string>): set<string> {
    channels + {GLOBAL_CHANNEL}
  }

  /** One more message for each of the receivers. */
  function Sent(inboxes: map<Conn, seq<Message>>, receivers: set<Conn>, message: Message): map<Conn, seq<Message>> {
    map c | c in inboxes.Keys + receivers :: Inbox(inboxes, c) + (if c in receivers then [message] else [])
  }

  /** A broadcast run to completion when exactly the sends to `failing` raise. */
  ghost function Broadcasted(hub: Hub, message: Message, channels: set<string>, failing: set<Conn>): Hub {
    var targets := Targets(hub.connections, channels);
    Hub(Pruned(hub.connections, Widened(channels), targets * failing),
        Sent(hub.inboxes, targets - failing, message))
  }

  ghost function Elements(connections: seq<Conn>): set<Conn> {
    set c | c in connections
  }

  // ---------- In terms of membership ----------

  lemma TargetsAre(connections: Channels, channels: set<string>, c: Conn)
    ensures c in Targets(connections, channels)
            <==> exists channel :: channel in Widened(channels) && c in Members(connections, channel)
  {
    if channel :| channel in Widened(channels) && c in Members(connections, channel) {
      assert channel in connections;
    }
  }

  /** Without empty channels the map is determined by who is on which channel. */
  lemma SameMembers(a: Channels, b: Channels)
    requires NoEmptyChannel(a) && NoEmptyChannel(b)
    requires forall channel :: Members(a, channel) == Members(b, channel)
    ensures a == b
  {
    forall channel
      ensures channel in a <==> channel in b
      ensures channel in a ==> a[channel] == b[channel]
    {
      assert Members(a, channel) == Members(b, channel);
    }
  }

  /** Adding and removing change one membership, and no channel is left empty. */
  lemma MembershipExact(connections: Channels, c: Conn, channel: string, other: string)
    requires NoEmptyChannel(connections)
    ensures NoEmptyChannel(Added(connections, c, channel))
    ensures NoEmptyChannel(Pruned(connections, {channel}, {c}))
    ensures Members(Added(connections, c, channel), other)
            == Members(connections, other) + (if other == channel then {c} else {})
    ensures Members(Pruned(connections, {channel}, {c}), other)
            == Members(connections, other) - (if other == channel then {c} else {})
  {
    PrunedMembers(connections, {channel}, {c}, other);
  }

  lemma PrunedMembers(connections: Channels, channels: set<string>, dead: set<Conn>, channel: string)
    ensures NoEmptyChannel(connections) ==> NoEmptyChannel(Pruned(connections, channels, dead))
    ensures Members(Pruned(connections, channels, dead), channel)
            == if channel in channels then Members(connections, channel) - dead else Members(connections, channel)
  {
    var pruned := Pruned(connections, channels, dead);
    if channel in connections && channel in channels && connections[channel] <= dead {
      assert channel !in pruned && Members(connections, channel) - dead == {};
    }
    forall ch | NoEmptyChannel(connections) && ch in pruned
      ensures pruned[ch] != {}
    {
      if ch in channels {
        var c :| c in connections[ch] && c !in dead;
        assert c in pruned[ch];
      }
    }
  }

  // How the loops of a broadcast get there, one step at a time.

  lemma SentNone(inboxes: map<Conn, seq<Message>>, message: Message)
    ensures Sent(inboxes, {}, message) == inboxes
  {
    forall c | c in inboxes
      ensures Inbox(inboxes, c) + [] == inboxes[c]
    {
    }
    assert Sent(inboxes, {}, message).Keys == inboxes.Keys;
  }

  lemma SentOneMore(inboxes: map<Conn, seq<Message>>, reached: set<Conn>, c: Conn, message: Message)
    requires c !in reached
    ensures Sent(inboxes, reached + {c}, message)
            == var sent := Sent(inboxes, reached, message); sent[c := Inbox(sent, c) + [message]]
  {
    var sent := Sent(inboxes, reached, message);
    assert Inbox(sent, c) == Inbox(inboxes, c) by {
      assert c in sent ==> sent[c] == Inbox(inboxes, c) + [];
    }
    assert Sent(inboxes, reached + {c}, message).Keys == sent.Keys + {c};
  }

  lemma PrunedNone(connections: Channels, channels: set<string>, dead: set<Conn>)
    requires NoEmptyChannel(connections) && (channels == {} || dead == {})
    ensures Pruned(connections, channels, dead) == connections
  {
    forall channel
      ensures Members(Pruned(connections, channels, dead), channel) == Members(connections, channel)
    {
      PrunedMembers(connections, channels, dead, channel);
    }
    PrunedMembers(connections, channels, dead, "");
    SameMembers(Pruned(connections, channels, dead), connections);
  }

  lemma PrunedChannels(connections: Channels, channels: set<string>, channel: string, dead: set<Conn>)
    requires NoEmptyChannel(connections)
    ensures Pruned(Pruned(connections, channels, dead), {channel}, dead)
            == Pruned(connections, channels + {channel}, dead)
  {
    hide Pruned, Members;
    var pruned := Pruned(connections, channels, dead);
    PrunedMembers(connections, channels, dead, channel);
    forall other
      ensures Members(Pruned(pruned, {channel}, dead), other)
              == Members(Pruned(connections, channels + {channel}, dead), other)
    {
      PrunedMembers(connections, channels, dead, other);
      PrunedMembers(pruned, {channel}, dead, other);
      PrunedMembers(connections, channels + {channel}, dead, other);
    }
    PrunedMembers(pruned, {channel}, dead, channel);
    PrunedMembers(connections, channels + {channel}, dead, channel);
    SameMembers(Pruned(pruned, {channel}, dead), Pruned(connections, channels + {channel}, dead));
  }

  lemma PrunedTwice(connections: Channels, channels: set<string>, dead: set<Conn>, more: set<Conn>)
    requires NoEmptyChannel(connections)
    ensures Pruned(Pruned(connections, channels, dead), channels, more)
            == Pruned(connections, channels, dead + more)
  {
    hide Pruned, Members;
    var pruned := Pruned(connections, channels, dead);
    forall other
      ensures Members(Pruned(pruned, channels, more), other)
              == Members(Pruned(connections, channels, dead + more), other)
    {
      PrunedMembers(connections, channels, dead, other);
      PrunedMembers(pruned, channels, more, other);
      PrunedMembers(connections, channels, dead + more, other);
    }
    PrunedMembers(connections, channels, dead, "");
    PrunedMembers(pruned, channels, more, "");
    PrunedMembers(connections, channels, dead + more, "");
    SameMembers(Pruned(pruned, channels, more), Pruned(connections, channels, dead + more));
  }

  /** A connection that joins and leaves a channel it was not on leaves no trace. */
  lemma DisconnectUndoesConnect(connections: Channels, c: Conn, channel: string)
    requires NoEmptyChannel(connections) && c !in Members(connections, channel)
    ensures Pruned(Added(connections, c, channel), {channel}, {c}) == connections
  {
    var added := Added(connections, c, channel);
    forall other
      ensures NoEmptyChannel(Pruned(added, {channel}, {c}))
      ensures Members(Pruned(added, {channel}, {c}), other) == Members(connections, other)
    {
      MembershipExact(connections, c, channel, other);
      PrunedMembers(added, {channel}, {c}, other);
    }
    MembershipExact(connections, c, channel, channel);
    PrunedMembers(added, {channel}, {c}, channel);
    SameMembers(Pruned(added, {channel}, {c}), connections);
  }

  /** A broadcast reaches every working connection on a target channel once and no other, drops
      exactly the failing ones from those channels, and leaves every other membership alone. */
  lemma BroadcastExact(hub: Hub, message: Message, channels: set<string>, failing: set<Conn>, c: Conn, channel: string)
    requires NoEmptyChannel(hub.connections)
    ensures var after := Broadcasted(hub, message, channels, failing);
      && NoEmptyChannel(after.connections)
      && Inbox(after.inboxes, c) == Inbox(hub.inboxes, c)
           + (if c !in failing && exists ch :: ch in Widened(channels) && c in Members(hub.connections, ch)
              then [message] else [])
      && (c in Members(after.connections, channel) <==>
            c in Members(hub.connections, channel) && !(channel in Widened(channels) && c in failing))
  {
    TargetsAre(hub.connections, channels, c);
    PrunedMembers(hub.connections, Widened(channels), Targets(hub.connections, channels) * failing, channel);
  }

  // ---------- The manager itself ----------

  class ConnectionManager {
    var connections: Channels
    var inboxes: map<Conn, seq<Message>>

    ghost predicate Valid()
      reads this
    {
      NoEmptyChannel(connections)
    }

    function View(): Hub
      reads this
    {
      Hub(connections, inboxes)
    }

    constructor ()
      ensures Valid() && View() == Hub(map[], map[])
    {
      connections := map[];
      inboxes := map[];
    }

    method Connect(websocket: Conn, channel: string)
      requires Valid()
      modifies this
      ensures Valid() && View() == Hub(Added(old(connections), websocket, channel), old(inboxes))
    {
      if channel !in connections {
        connections := connections[channel := {}];
      }
      connections := connections[channel := connections[channel] + {websocket}];
    }

    /** Harmless when the connection, or the channel, is already gone. */
    method Disconnect(websocket: Conn, channel: string)
      requires Valid()
      modifies this`connections
      ensures Valid() && connections == Pruned(old(connections), {channel}, {websocket})
    {
      ghost var was := connections;
      PrunedMembers(connections, {channel}, {websocket}, channel);
      if channel in connections {
        var remaining := connections[channel] - {websocket};
        connections := connections[channel := remaining];
        if remaining == {} {
          connections := connections - {channel};
        }
      }
      forall other
        ensures Members(connections, other) == Members(Pruned(was, {channel}, {websocket}), other)
      {
        PrunedMembers(was, {channel}, {websocket}, other);
      }
      SameMembers(connections, Pruned(was, {channel}, {websocket}));
    }

    /** The union of the channels' connections. */
    method Recipients(channels: set<string>) returns (targets: set<Conn>)
      ensures targets == Targets(connections, channels)
    {
      targets := {};
      var remaining := Widened(channels);
      while remaining != {}
        invariant remaining <= Widened(channels)
        invariant forall c :: c in targets <==>
                    exists channel :: channel in Widened(channels) - remaining && c in Members(connections, channel)
        decreases |remaining|
      {
        var channel :| channel in remaining;
        targets := targets + Members(connections, channel);
        remaining := remaining - {channel};
      }
      forall c
        ensures c in targets <==> c in Targets(connections, channels)
      {
        TargetsAre(connections, channels, c);
      }
    }

    /** Sends to every target; returns those whose send raised. */
    method SendAll(message: Message, targets: set<Conn>, failing: set<Conn>) returns (stale: seq<Conn>)
      modifies this`inboxes
      ensures forall c :: c in stale <==> c in targets && c in failing
      ensures inboxes == Sent(old(inboxes), targets - failing, message)
    {
      hide Sent;
      stale := [];
      var remaining := targets;
      ghost var reached: set<Conn> := {};
      SentNone(inboxes, message);
      while remaining != {}
        invariant remaining <= targets && reached == (targets - remaining) - failing
        invariant forall c :: c in stale <==> c in targets - remaining && c in failing
        invariant inboxes == Sent(old(inboxes), reached, message)
        decreases |remaining|
      {
        var connection :| connection in remaining;
        if connection in failing {
          stale := stale + [connection];
        } else {
          SentOneMore(old(inboxes), reached, connection, message);
          inboxes := inboxes[connection := Inbox(inboxes, connection) + [message]];
          reached := reached + {connection};
        }
        remaining := remaining - {connection};
      }
      assert reached == targets - failing;
    }

    /** Drops each stale connection from every one of the channels. */
    method Prune(channels: set<string>, stale: seq<Conn>)
      requires Valid()
      modifies this`connections
      ensures Valid() && connections == Pruned(old(connections), channels, Elements(stale))
    {
      hide Pruned;
      ghost var dead: set<Conn> := {};
      PrunedNone(connections, channels, {});
      for i := 0 to |stale|
        invariant Valid() && dead == Elements(stale[..i])
        invariant connections == Pruned(old(connections), channels, dead)
      {
        var remaining := channels;
        ghost var before, done: set<string> := connections, {};
        PrunedNone(connections, {}, {stale[i]});
        while remaining != {}
          invariant Valid() && remaining <= channels && done == channels - remaining
          invariant connections == Pruned(before, done, {stale[i]})
          decreases |remaining|
        {
          var channel :| channel in remaining;
          Disconnect(stale[i], channel);
          PrunedChannels(before, done, channel, {stale[i]});
          done := done + {channel};
          remaining := remaining - {channel};
        }
        assert done == channels;
        PrunedTwice(old(connections), channels, dead, {stale[i]});
        dead := dead + {stale[i]};
        assert stale[..i + 1] == stale[..i] + [stale[i]];
      }
      assert stale[..|stale|] == stale;
    }

    method Broadcast(message: Message, channels: set<string>, failing: set<Conn>)
      requires Valid()
      modifies this
      ensures Valid() && View() == Broadcasted(old(View()), message, channels, failing)
    {
      var targets := Recipients(channels);
      var stale := SendAll(message, targets, failing);
      assert Elements(stale) == targets * failing;
      Prune(Widened(channels), stale);
    }
  }
}
