/** The relay loop of one process: broadcast messages from Redis become local broadcasts. */
module Relay {
  import opened Uuids
  import opened Events
  import opened Publisher
  import opened Connections

  /** What was published on the broadcast channel; some of it may not decode. */
  datatype Payload = Malformed | Decoded(envelope: Envelope)

  /** What the subscription yields: its own notices, and everything published. */
  datatype Raw = Notice | Data(payload: Payload)

  predicate Hears(channel: string, channels: set<string>) {
    channel in Widened(channels)
  }

  // ---------- The reference: what a client should get ----------

  /** What one payload means to one channel: its event, or nothing. */
  function Heard(payload: Payload, channel: string): seq<Event> {
    if payload.Decoded? && Hears(channel, payload.envelope.channels) then [payload.envelope.message] else []
  }

  /** The published events for one channel, in order. */
  function Relevant(log: seq<Payload>, channel: string): seq<Event> {
    if log == [] then [] else Relevant(log[..|log| - 1], channel) + Heard(log[|log| - 1], channel)
  }

  /** What a client got, heartbeats left out. */
  function Activities(inbox: seq<Message>): seq<Event> {
    if inbox == [] then [] else
    var message := inbox[|inbox| - 1];
    Activities(inbox[..|inbox| - 1]) + (if message.Activity? then [message.event] else [])
  }

  lemma ActivitiesSnoc(inbox: seq<Message>, message: Message)
    ensures Activities(inbox + [message])
            == Activities(inbox) + (if message.Activity? then [message.event] else [])
  {
    assert (inbox + [message])[..|inbox|] == inbox;
  }

  lemma RelevantSnoc(log: seq<Payload>, payload: Payload, channel: string)
    ensures Relevant(log + [payload], channel) == Relevant(log, channel) + Heard(payload, channel)
  {
    assert (log + [payload])[..|log|] == log;
  }

  function Payloads(raws: seq<Raw>): seq<Payload> {
    if raws == [] then [] else
    var raw := raws[|raws| - 1];
    Payloads(raws[..|raws| - 1]) + (if raw.Data? then [raw.payload] else [])
  }

  // ---------- The loop ----------

  ghost function RelayNext(hub: Hub, raw: Raw, failing: set<Conn>): Hub {
    if raw.Notice? || raw.payload.Malformed? then hub
    else Broadcasted(hub, Activity(raw.payload.envelope.message), raw.payload.envelope.channels, failing)
  }

  ghost function RelayAll(hub: Hub, raws: seq<Raw>, failing: seq<set<Conn>>): Hub
    requires |failing| == |raws|
  {
    if raws == [] then hub else
    var n := |raws| - 1;
    RelayNext(RelayAll(hub, raws[..n], failing[..n]), raws[n], failing[n])
  }

  /** Relays everything the subscription yields until it ends; `failing[i]` are the connections
      whose sends raise while message i is broadcast. */
  method RelayToLocalClients(manager: ConnectionManager, raws: seq<Raw>, failing: seq<set<Conn>>)
    requires manager.Valid() && |failing| == |raws|
    modifies manager
    ensures manager.Valid() && manager.View() == RelayAll(old(manager.View()), raws, failing)
  {
    for i := 0 to |raws|
      invariant manager.Valid()
      invariant manager.View() == RelayAll(old(manager.View()), raws[..i], failing[..i])
    {
      assert raws[..i + 1][..i] == raws[..i] && failing[..i + 1][..i] == failing[..i];
      match raws[i]
      case Notice =>
      case Data(payload) =>
        match payload
        case Malformed =>
        case Decoded(envelope) =>
          manager.Broadcast(Activity(envelope.message), envelope.channels, failing[i]);
    }
    assert raws[..|raws|] == raws && failing[..|raws|] == failing;
  }

  /** The connection is on this channel and on no other. */
  ghost predicate OnlyOn(connections: Channels, c: Conn, channel: string) {
    forall other :: c in Members(connections, other) <==> other == channel
  }

  /** Whatever else is in the stream and whoever else fails, a connection that never fails stays
      on its channel and gets exactly the messages for that channel, once each, in order. */
  lemma {:induction false} RelayDelivers(hub: Hub, raws: seq<Raw>, failing: seq<set<Conn>>, c: Conn, channel: string)
    requires NoEmptyChannel(hub.connections) && OnlyOn(hub.connections, c, channel)
    requires |failing| == |raws| && forall i :: 0 <= i < |raws| ==> c !in failing[i]
    ensures var after := RelayAll(hub, raws, failing);
      && NoEmptyChannel(after.connections) && OnlyOn(after.connections, c, channel)
      && Activities(Inbox(after.inboxes, c))
         == Activities(Inbox(hub.inboxes, c)) + Relevant(Payloads(raws), channel)
  {
    hide Broadcasted, Activities, Relevant, NoEmptyChannel, OnlyOn, Inbox, RelayNext;
    if raws == [] {
      NothingRelevant(channel);
    } else {
      var n := |raws| - 1;
      assert forall i | 0 <= i < n :: failing[..n][i] == failing[i];
      RelayDelivers(hub, raws[..n], failing[..n], c, channel);
      RelayNextDelivers(RelayAll(hub, raws[..n], failing[..n]), raws[n], failing[n], c, channel);
      var a, r := Activities(Inbox(hub.inboxes, c)), Relevant(Payloads(raws[..n]), channel);
      if raws[n].Data? {
        assert Payloads(raws) == Payloads(raws[..n]) + [raws[n].payload];
        RelevantSnoc(Payloads(raws[..n]), raws[n].payload, channel);
        assert a + r + Heard(raws[n].payload, channel) == a + (r + Heard(raws[n].payload, channel));
      } else {
        assert Payloads(raws) == Payloads(raws[..n]);
        assert a + r + [] == a + r;
      }
    }
  }

  lemma RelayNextDelivers(hub: Hub, raw: Raw, failing: set<Conn>, c: Conn, channel: string)
    requires NoEmptyChannel(hub.connections) && OnlyOn(hub.connections, c, channel) && c !in failing
    ensures var after := RelayNext(hub, raw, failing);
      && NoEmptyChannel(after.connections) && OnlyOn(after.connections, c, channel)
      && Activities(Inbox(after.inboxes, c))
         == Activities(Inbox(hub.inboxes, c)) + (if raw.Data? then Heard(raw.payload, channel) else [])
  {
    hide Broadcasted, Activities, NoEmptyChannel, OnlyOn, Inbox;
    if raw.Data? && raw.payload.Decoded? {
      var e := raw.payload.envelope;
      OneDelivery(hub, Activity(e.message), e.channels, failing, c, channel);
    }
  }

  lemma NothingRelevant(channel: string)
    ensures Relevant([], channel) == []
  {
  }

  lemma OneDelivery(hub: Hub, message: Message, channels: set<string>, failing: set<Conn>, c: Conn, channel: string)
    requires NoEmptyChannel(hub.connections) && OnlyOn(hub.connections, c, channel) && c !in failing
    ensures var after := Broadcasted(hub, message, channels, failing);
      && NoEmptyChannel(after.connections) && OnlyOn(after.connections, c, channel)
      && Activities(Inbox(after.inboxes, c)) == Activities(Inbox(hub.inboxes, c))
           + (if message.Activity? && Hears(channel, channels) then [message.event] else [])
  {
    hide Broadcasted, Activities;
    forall other
      ensures c in Members(Broadcasted(hub, message, channels, failing).connections, other)
              <==> c in Members(hub.connections, other)
    {
      BroadcastExact(hub, message, channels, failing, c, other);
    }
    BroadcastExact(hub, message, channels, failing, c, channel);
    ActivitiesSnoc(Inbox(hub.inboxes, c), message);
    assert Inbox(hub.inboxes, c) + [] == Inbox(hub.inboxes, c);
  }

  // ---------- From domain events to clients ----------

  function AsPayloads(envelopes: seq<Envelope>): (log: seq<Payload>)
    ensures |log| == |envelopes|
    ensures forall i :: 0 <= i < |log| ==> log[i] == Decoded(envelopes[i])
  {
    seq(|envelopes|, i requires 0 <= i < |envelopes| => Decoded(envelopes[i]))
  }

  /** n copies of each event that concerns the channel. */
  function Concerning(events: seq<Event>, n: nat, channel: string): seq<Event> {
    if events == [] then [] else
    var e := events[|events| - 1];
    Concerning(events[..|events| - 1], n, channel)
    + (if Hears(channel, ChannelsFor(e)) then Copies(e, n) else [])
  }

  lemma {:induction false} RelevantCopies(log: seq<Payload>, e: Event, n: nat, channel: string)
    ensures Relevant(log + AsPayloads(Copies(EnvelopeFor(e), n)), channel)
            == Relevant(log, channel) + (if Hears(channel, ChannelsFor(e)) then Copies(e, n) else [])
  {
    hide Relevant, Hears, ChannelsFor;
    if n == 0 {
      assert log + AsPayloads(Copies(EnvelopeFor(e), 0)) == log;
    } else {
      RelevantCopies(log, e, n - 1, channel);
      var copies := AsPayloads(Copies(EnvelopeFor(e), n - 1));
      RelevantSnoc(log + copies, Decoded(EnvelopeFor(e)), channel);
      assert AsPayloads(Copies(EnvelopeFor(e), n)) == copies + [Decoded(EnvelopeFor(e))];
      assert log + (copies + [Decoded(EnvelopeFor(e))]) == log + copies + [Decoded(EnvelopeFor(e))];
      assert Copies(e, n) == Copies(e, n - 1) + [e];
    }
  }

  /** With the listener registered n times, a client is sent each event of its channel n times,
      so twice in the API process. */
  lemma {:induction false} EventsReachChannel(events: seq<Event>, n: nat, channel: string)
    ensures Relevant(AsPayloads(Forwarded(events, n)), channel) == Concerning(events, n, channel)
  {
    if events == [] {
      assert AsPayloads([]) == [];
    } else {
      var before, e := events[..|events| - 1], events[|events| - 1];
      EventsReachChannel(before, n, channel);
      RelevantCopies(AsPayloads(Forwarded(before, n)), e, n, channel);
      assert AsPayloads(Forwarded(events, n))
          == AsPayloads(Forwarded(before, n)) + AsPayloads(Copies(EnvelopeFor(e), n));
    }
  }

  /** Who hears an event: everyone on the global channel, and those on a warehouse it names. */
  lemma HearsWarehouse(e: Event, w: Uuid)
    ensures Hears("global", ChannelsFor(e))
    ensures Hears(Text(w), ChannelsFor(e)) <==> w in Warehouses(e)
  {
    hide Text;
    ChannelIsWarehouse(e, w);
    NotGlobal(w);
  }

  lemma NotGlobal(w: Uuid)
    ensures Text(w) != GLOBAL_CHANNEL
  {
  }
}
