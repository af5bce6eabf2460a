/** Fan-out over many processes, step by step. Each process relays one Redis message at a time;
    while it awaits a send, clients come and go and its heartbeat broadcasts too. */
module FanOut {
  import opened Wrappers
  import opened Events
  import opened Publisher
  import opened Connections
  import opened Relay

  type Pid = nat

  /** The two callers of a broadcast in a process. */
  datatype Job = Relaying | Beating

  /** A broadcast under way: its targets are fixed at its start, sent to one by one, and the
      connections that failed are dropped at its end. */
  datatype Broadcast = Broadcast(message: Message, channels: set<string>, pending: set<Conn>, stale: set<Conn>)

  datatype Process = Process(
    hub: Hub,
    cursor: nat,                      // messages taken from the subscription
    relay: Option<Broadcast>,
    heartbeat: Option<Broadcast>)

  /** A client's process and channel, and how many messages its process had taken when it came. */
  datatype Client = Client(process: Pid, channel: string, joined: nat)

  datatype Net = Net(
    log: seq<Payload>,                // everything published, in Redis's order
    processes: map<Pid, Process>,
    clients: map<Conn, Client>,
    gone: set<Conn>)                  // clients that disconnected or failed a send

  datatype Action =
    | Publish(payload: Payload)
    | StartUp(pid: Pid)
    | Connect(pid: Pid, conn: Conn, channel: string)
    | Disconnect(conn: Conn)
    | Receive(pid: Pid)
    | Beat(pid: Pid)
    | Send(pid: Pid, job: Job, conn: Conn, ok: bool)
    | Finish(pid: Pid, job: Job)

  function Running(process: Process, job: Job): Option<Broadcast> {
    if job.Relaying? then process.relay else process.heartbeat
  }

  function WithRunning(process: Process, job: Job, broadcast: Option<Broadcast>): Process {
    if job.Relaying? then process.(relay := broadcast) else process.(heartbeat := broadcast)
  }

  ghost function Begin(hub: Hub, message: Message, channels: set<string>): Broadcast {
    Broadcast(message, Widened(channels), Targets(hub.connections, channels), {})
  }

  /** The relay takes the next message; one that does not decode is dropped. */
  ghost function Received(process: Process, payload: Payload): Process {
    var next := process.(cursor := process.cursor + 1);
    match payload
    case Malformed => next
    case Decoded(e) => next.(relay := Some(Begin(process.hub, Activity(e.message), e.channels)))
  }

  function Attempted(process: Process, job: Job, b: Broadcast, c: Conn, ok: bool): Process {
    var b' := b.(pending := b.pending - {c}, stale := if ok then b.stale else b.stale + {c});
    var inboxes := if ok then Sent(process.hub.inboxes, {c}, b.message) else process.hub.inboxes;
    WithRunning(process.(hub := process.hub.(inboxes := inboxes)), job, Some(b'))
  }

  function Finished(process: Process, job: Job, b: Broadcast): Process {
    var connections := Pruned(process.hub.connections, b.channels, b.stale);
    WithRunning(process.(hub := process.hub.(connections := connections)), job, None)
  }

  ghost predicate Allowed(net: Net, action: Action) {
    match action
    case Publish(_) => true
    case StartUp(pid) => pid !in net.processes
    case Connect(pid, c, _) => pid in net.processes && c !in net.clients
    case Disconnect(c) => c in net.clients && net.clients[c].process in net.processes
    case Receive(pid) =>
      pid in net.processes && net.processes[pid].relay.None? && net.processes[pid].cursor < |net.log|
    case Beat(pid) => pid in net.processes && net.processes[pid].heartbeat.None?
    case Send(pid, job, c, _) =>
      && pid in net.processes && Running(net.processes[pid], job).Some?
      && c in Running(net.processes[pid], job).value.pending
    case Finish(pid, job) =>
      && pid in net.processes && Running(net.processes[pid], job).Some?
      && Running(net.processes[pid], job).value.pending == {}
  }

  ghost function NextProcess(net: Net, action: Action): (Pid, Process)
    requires Allowed(net, action) && !action.Publish?
  {
    match action
    case StartUp(pid) => (pid, Process(Hub(map[], map[]), |net.log|, None, None))
    case Connect(pid, c, channel) =>
      var process := net.processes[pid];
      (pid, process.(hub := process.hub.(connections := Added(process.hub.connections, c, channel))))
    case Disconnect(c) =>
      var client := net.clients[c];
      var process := net.processes[client.process];
      (client.process,
       process.(hub := process.hub.(connections := Pruned(process.hub.connections, {client.channel}, {c}))))
    case Receive(pid) => (pid, Received(net.processes[pid], net.log[net.processes[pid].cursor]))
    case Beat(pid) =>
      (pid, net.processes[pid].(heartbeat := Some(Begin(net.processes[pid].hub, Heartbeat, {GLOBAL_CHANNEL}))))
    case Send(pid, job, c, ok) =>
      (pid, Attempted(net.processes[pid], job, Running(net.processes[pid], job).value, c, ok))
    case Finish(pid, job) =>
      (pid, Finished(net.processes[pid], job, Running(net.processes[pid], job).value))
  }

  function NextClients(net: Net, action: Action): map<Conn, Client> {
    if action.Connect? && action.pid in net.processes && action.conn !in net.clients
    then net.clients[action.conn := Client(action.pid, action.channel, net.processes[action.pid].cursor)]
    else net.clients
  }

  function NextGone(net: Net, action: Action): set<Conn> {
    if action.Disconnect? || (action.Send? && !action.ok) then net.gone + {action.conn} else net.gone
  }

  /** One step; an action that is not possible does nothing. */
  ghost function Do(net: Net, action: Action): Net {
    if !Allowed(net, action) then net
    else if action.Publish? then net.(log := net.log + [action.payload])
    else
      var (pid, process) := NextProcess(net, action);
      Net(net.log, net.processes[pid := process], NextClients(net, action), NextGone(net, action))
  }

  ghost function Exec(net: Net, run: seq<Action>): Net {
    if run == [] then net else Do(Exec(net, run[..|run| - 1]), run[|run| - 1])
  }

  const START: Net := Net([], map[], map[], {})

  // ---------- The invariant ----------

  /** How much of the log the client has been served: all its process took, but for a message
      under way that has not come to it yet. */
  function Seen(process: Process, c: Conn): int {
    process.cursor - (if process.relay.Some? && c in process.relay.value.pending then 1 else 0)
  }

  ghost predicate Owns(net: Net, pid: Pid, c: Conn, channel: string) {
    c in net.clients && net.clients[c].process == pid && net.clients[c].channel == channel
  }

  /** A broadcast sends to, and drops, only clients of its process and of its channels. */
  ghost predicate TargetOk(net: Net, pid: Pid, b: Broadcast, c: Conn) {
    && (c in b.pending || c in b.stale ==>
          c in net.clients && net.clients[c].process == pid && net.clients[c].channel in b.channels)
    && (c in b.stale ==> c in net.gone)
  }

  ghost predicate InStale(process: Process, c: Conn) {
    || (process.relay.Some? && c in process.relay.value.stale)
    || (process.heartbeat.Some? && c in process.heartbeat.value.stale)
  }

  /** A process and its own client: one that failed is registered only until it is dropped, and
      one that did not has got exactly its part of what the process took since it came. */
  ghost predicate ClientOk(net: Net, process: Process, c: Conn, client: Client) {
    && client.joined <= process.cursor
    && (c in net.gone && c in Members(process.hub.connections, client.channel) ==> InStale(process, c))
    && (c !in net.gone ==> ServedOk(net.log, process, c, client))
  }

  ghost predicate ServedOk(log: seq<Payload>, process: Process, c: Conn, client: Client) {
    && c in Members(process.hub.connections, client.channel)
    && client.joined <= Seen(process, c) <= |log|
    && Activities(Inbox(process.hub.inboxes, c))
       == Relevant(log[client.joined..Seen(process, c)], client.channel)
  }

  ghost predicate ConnOk(net: Net, pid: Pid, process: Process, c: Conn) {
    && (forall channel :: c in Members(process.hub.connections, channel) ==> Owns(net, pid, c, channel))
    && (c in process.hub.inboxes ==> c in net.clients)
    && (process.relay.Some? ==> TargetOk(net, pid, process.relay.value, c))
    && (process.heartbeat.Some? ==> TargetOk(net, pid, process.heartbeat.value, c))
    && (process.relay.Some? && c in process.relay.value.pending && c in net.clients ==>
          net.clients[c].joined < process.cursor)
    && (c in net.clients && net.clients[c].process == pid ==> ClientOk(net, process, c, net.clients[c]))
  }

  /** The relay's broadcast is of the last message taken. */
  ghost predicate ProcessOk(net: Net, process: Process) {
    && process.cursor <= |net.log| && NoEmptyChannel(process.hub.connections)
    && (process.relay.Some? ==>
          && 0 < process.cursor && net.log[process.cursor - 1].Decoded?
          && process.relay.value.message == Activity(net.log[process.cursor - 1].envelope.message)
          && process.relay.value.channels == Widened(net.log[process.cursor - 1].envelope.channels))
    && (process.heartbeat.Some? ==> process.heartbeat.value.message == Heartbeat)
  }

  ghost predicate Inv(net: Net) {
    && (forall pid :: pid in net.processes ==> ProcessOk(net, net.processes[pid]))
    && (forall pid, c: Conn :: pid in net.processes ==> ConnOk(net, pid, net.processes[pid], c))
    && (forall c :: c in net.clients ==> net.clients[c].process in net.processes)
    && net.gone <= net.clients.Keys
  }

  // ---------- Every step keeps it ----------

  /** What a step may do to the rest of the net. */
  ghost predicate Extends(net: Net, net': Net) {
    && net.log <= net'.log && net.gone <= net'.gone
    && forall c :: c in net.clients ==> c in net'.clients && net'.clients[c] == net.clients[c]
  }

  /** A process the step is not about is as it was to every connection. */
  lemma OtherKeeps(net: Net, net': Net, pid: Pid, process: Process, c: Conn)
    requires Extends(net, net') && ProcessOk(net, process) && ConnOk(net, pid, process, c)
    requires c in net'.clients && net'.clients[c].process == pid ==>
               c in net.clients && (c in net'.gone ==> c in net.gone)
    ensures ProcessOk(net', process) && ConnOk(net', pid, process, c)
  {
    hide NoEmptyChannel, Members, Activities, Relevant, Inbox, Widened;
    if c in net.clients && net.clients[c].process == pid && c !in net.gone {
      var client := net.clients[c];
      assert ServedOk(net.log, process, c, client);
      assert net'.log[client.joined..Seen(process, c)] == net.log[client.joined..Seen(process, c)];
    }
  }

  lemma NothingYet(log: seq<Payload>, cursor: nat, channel: string)
    requires cursor <= |log|
    ensures Relevant(log[cursor..cursor], channel) == [] == Activities([])
  {
  }

  lemma StartUpKeeps(net: Net, pid: Pid, c: Conn)
    requires Inv(net) && Allowed(net, StartUp(pid))
    ensures var net', (_, process) := Do(net, StartUp(pid)), NextProcess(net, StartUp(pid));
      ProcessOk(net', process) && ConnOk(net', pid, process, c)
  {
  }

  lemma ConnectKeeps(net: Net, pid: Pid, d: Conn, channel: string, c: Conn)
    requires Inv(net) && Allowed(net, Connect(pid, d, channel))
    ensures var net', (_, process) := Do(net, Connect(pid, d, channel)), NextProcess(net, Connect(pid, d, channel));
      ProcessOk(net', process) && ConnOk(net', pid, process, c)
  {
    hide NoEmptyChannel, Members, Activities, Relevant, Widened, Added;
    var process := net.processes[pid];
    var net' := Do(net, Connect(pid, d, channel));
    var (_, process') := NextProcess(net, Connect(pid, d, channel));
    forall other
      ensures NoEmptyChannel(process'.hub.connections)
      ensures Members(process'.hub.connections, other)
              == Members(process.hub.connections, other) + (if other == channel then {d} else {})
    {
      MembershipExact(process.hub.connections, d, channel, other);
    }
    MembershipExact(process.hub.connections, d, channel, channel);
    assert ConnOk(net, pid, process, c);
    if c == d {
      NothingYet(net.log, process.cursor, channel);
      assert ServedOk(net'.log, process', c, net'.clients[c]);
    }
  }

  lemma DisconnectKeeps(net: Net, d: Conn, c: Conn)
    requires Inv(net) && Allowed(net, Disconnect(d))
    ensures var (pid, process) := NextProcess(net, Disconnect(d));
      ProcessOk(Do(net, Disconnect(d)), process) && ConnOk(Do(net, Disconnect(d)), pid, process, c)
  {
    hide NoEmptyChannel, Members, Activities, Relevant, Widened, Pruned;
    var net' := Do(net, Disconnect(d));
    var (pid, process') := NextProcess(net, Disconnect(d));
    var process, channel := net.processes[pid], net.clients[d].channel;
    forall other
      ensures NoEmptyChannel(process'.hub.connections)
      ensures Members(process'.hub.connections, other)
              == Members(process.hub.connections, other) - (if other == channel then {d} else {})
    {
      MembershipExact(process.hub.connections, d, channel, other);
    }
    MembershipExact(process.hub.connections, d, channel, channel);
    assert ConnOk(net, pid, process, c);
  }

  /** A broadcast's targets are the clients on its channels, each exactly once. */
  lemma TargetsBelong(net: Net, pid: Pid, process: Process, message: Message, channels: set<string>, c: Conn)
    requires ConnOk(net, pid, process, c)
    ensures var b := Begin(process.hub, message, channels);
      && TargetOk(net, pid, b, c)
      && (c in b.pending ==> c in net.clients && net.clients[c].process == pid)
      && (c in net.clients && c in Members(process.hub.connections, net.clients[c].channel) ==>
            (c in b.pending <==> Hears(net.clients[c].channel, channels)))
  {
    hide Widened, Members;
    var b := Begin(process.hub, message, channels);
    TargetsAre(process.hub.connections, channels, c);
    if channel :| channel in Widened(channels) && c in Members(process.hub.connections, channel) {
      assert Owns(net, pid, c, channel);
    }
  }

  lemma BeatKeeps(net: Net, pid: Pid, c: Conn)
    requires Inv(net) && Allowed(net, Beat(pid))
    ensures var net', (_, process) := Do(net, Beat(pid)), NextProcess(net, Beat(pid));
      ProcessOk(net', process) && ConnOk(net', pid, process, c)
  {
    hide NoEmptyChannel, Members, Activities, Relevant, Widened, Targets;
    var process := net.processes[pid];
    TargetsBelong(net, pid, process, Heartbeat, {GLOBAL_CHANNEL}, c);
    assert ConnOk(net, pid, process, c);
  }

  /** Taking a message leaves every client as served as it was: one it is for now awaits it. */
  lemma ReceiveServes(net: Net, pid: Pid, process: Process, c: Conn)
    requires ConnOk(net, pid, process, c) && c in net.clients && net.clients[c].process == pid
    requires ServedOk(net.log, process, c, net.clients[c])
    requires process.relay.None? && process.cursor < |net.log|
    ensures ServedOk(net.log, Received(process, net.log[process.cursor]), c, net.clients[c])
  {
    hide Members, Activities, Relevant, Targets, Widened;
    var payload, client := net.log[process.cursor], net.clients[c];
    if payload.Decoded? {
      TargetsBelong(net, pid, process, Activity(payload.envelope.message), payload.envelope.channels, c);
    }
    var served := net.log[client.joined..process.cursor];
    RelevantSnoc(served, payload, client.channel);
    assert net.log[client.joined..process.cursor + 1] == served + [payload];
    assert Relevant(served, client.channel) + [] == Relevant(served, client.channel);
  }

  lemma ReceiveKeeps(net: Net, pid: Pid, c: Conn)
    requires Inv(net) && Allowed(net, Receive(pid))
    ensures var net', (_, process) := Do(net, Receive(pid)), NextProcess(net, Receive(pid));
      ProcessOk(net', process) && ConnOk(net', pid, process, c)
  {
    hide NoEmptyChannel, Members, Targets, Widened, ServedOk;
    var process, payload := net.processes[pid], net.log[net.processes[pid].cursor];
    assert ConnOk(net, pid, process, c);
    if payload.Decoded? {
      TargetsBelong(net, pid, process, Activity(payload.envelope.message), payload.envelope.channels, c);
    }
    if c in net.clients && net.clients[c].process == pid && c !in net.gone {
      ReceiveServes(net, pid, process, c);
    }
  }

  lemma SentTo(inboxes: map<Conn, seq<Message>>, d: Conn, message: Message, c: Conn)
    ensures var sent := Sent(inboxes, {d}, message);
      && (c in sent <==> c in inboxes || c == d)
      && Activities(Inbox(sent, c)) == Activities(Inbox(inboxes, c))
           + (if c == d && message.Activity? then [message.event] else [])
  {
    hide Activities;
    ActivitiesSnoc(Inbox(inboxes, c), message);
    assert Inbox(inboxes, c) + [] == Inbox(inboxes, c);
  }

  /** A send that succeeds serves its client one message more, and the others as before. */
  lemma AttemptServes(log: seq<Payload>, process: Process, job: Job, b: Broadcast, d: Conn, ok: bool,
                      c: Conn, client: Client)
    requires ServedOk(log, process, c, client) && Running(process, job) == Some(b) && d in b.pending
    requires c == d ==> ok && client.channel in b.channels
    requires job.Beating? ==> b.message == Heartbeat
    requires job.Relaying? ==>
               && (c == d ==> client.joined < process.cursor) && 0 < process.cursor <= |log|
               && log[process.cursor - 1].Decoded?
               && b.message == Activity(log[process.cursor - 1].envelope.message)
               && b.channels == Widened(log[process.cursor - 1].envelope.channels)
    ensures ServedOk(log, Attempted(process, job, b, d, ok), c, client)
  {
    hide Members, Activities, Relevant, Sent, Inbox;
    SentTo(process.hub.inboxes, d, b.message, c);
    assert Activities(Inbox(process.hub.inboxes, c)) + [] == Activities(Inbox(process.hub.inboxes, c));
    if job.Relaying? && c == d {
      var served := log[client.joined..process.cursor - 1];
      RelevantSnoc(served, log[process.cursor - 1], client.channel);
      assert log[client.joined..process.cursor] == served + [log[process.cursor - 1]];
    }
  }

  lemma SendKeeps(net: Net, pid: Pid, job: Job, d: Conn, ok: bool, c: Conn)
    requires Inv(net) && Allowed(net, Send(pid, job, d, ok))
    ensures var net', (_, process) := Do(net, Send(pid, job, d, ok)), NextProcess(net, Send(pid, job, d, ok));
      ProcessOk(net', process) && ConnOk(net', pid, process, c)
  {
    hide NoEmptyChannel, Members, Activities, Relevant, Sent, Inbox, ServedOk;
    var process, b := net.processes[pid], Running(net.processes[pid], job).value;
    assert ConnOk(net, pid, process, c) && ConnOk(net, pid, process, d) && ProcessOk(net, process);
    SentTo(process.hub.inboxes, d, b.message, c);
    if c in net.clients && net.clients[c].process == pid && c !in net.gone && (c == d ==> ok) {
      AttemptServes(net.log, process, job, b, d, ok, c, net.clients[c]);
    }
  }

  lemma FinishKeeps(net: Net, pid: Pid, job: Job, c: Conn)
    requires Inv(net) && Allowed(net, Finish(pid, job))
    ensures var net', (_, process) := Do(net, Finish(pid, job)), NextProcess(net, Finish(pid, job));
      ProcessOk(net', process) && ConnOk(net', pid, process, c)
  {
    hide NoEmptyChannel, Members, Activities, Relevant, Widened, Pruned;
    var process, b := net.processes[pid], Running(net.processes[pid], job).value;
    forall channel
      ensures NoEmptyChannel(Finished(process, job, b).hub.connections)
      ensures Members(Finished(process, job, b).hub.connections, channel)
              == if channel in b.channels then Members(process.hub.connections, channel) - b.stale
                 else Members(process.hub.connections, channel)
    {
      PrunedMembers(process.hub.connections, b.channels, b.stale, channel);
    }
    PrunedMembers(process.hub.connections, b.channels, b.stale, "");
    assert ConnOk(net, pid, process, c);
  }

  /** The process a step is about, afterwards. */
  lemma ActingKeeps(net: Net, action: Action, c: Conn)
    requires Inv(net) && Allowed(net, action) && !action.Publish?
    ensures var (pid, process) := NextProcess(net, action);
      ProcessOk(Do(net, action), process) && ConnOk(Do(net, action), pid, process, c)
  {
    hide ProcessOk, ConnOk, Inv;
    match action
    case StartUp(pid) => StartUpKeeps(net, pid, c);
    case Connect(pid, d, channel) => ConnectKeeps(net, pid, d, channel, c);
    case Disconnect(d) => DisconnectKeeps(net, d, c);
    case Receive(pid) => ReceiveKeeps(net, pid, c);
    case Beat(pid) => BeatKeeps(net, pid, c);
    case Send(pid, job, d, ok) => SendKeeps(net, pid, job, d, ok, c);
    case Finish(pid, job) => FinishKeeps(net, pid, job, c);
  }

  lemma DoKeeps(net: Net, action: Action)
    requires Inv(net)
    ensures Inv(Do(net, action)) && Extends(net, Do(net, action))
  {
    hide ProcessOk, ConnOk, NextProcess, Running;
    var net' := Do(net, action);
    if Allowed(net, action) {
      DoExtends(net, action);
      forall pid, c: Conn | pid in net'.processes
        ensures ProcessOk(net', net'.processes[pid]) && ConnOk(net', pid, net'.processes[pid], c)
      {
        if !action.Publish? {
          ActingKeeps(net, action, c);
        }
        if action.Publish? || pid != NextProcess(net, action).0 {
          assert ProcessOk(net, net.processes[pid]) && ConnOk(net, pid, net.processes[pid], c);
          OtherKeeps(net, net', pid, net.processes[pid], c);
        }
      }
      assert forall pid :: pid in net'.processes ==> ConnOk(net', pid, net'.processes[pid], 0);
    }
  }

  lemma DoExtends(net: Net, action: Action)
    requires Inv(net) && Allowed(net, action)
    ensures var net' := Do(net, action);
      && Extends(net, net')
      && net'.gone <= net'.clients.Keys
      && (forall c :: c in net'.clients ==> net'.clients[c].process in net'.processes)
      && (forall c :: c in net'.clients && (c !in net.clients || (c in net'.gone && c !in net.gone)) ==>
            !action.Publish? && net'.clients[c].process == NextProcess(net, action).0)
  {
    hide ProcessOk;
    if action.Send? {
      assert ConnOk(net, action.pid, net.processes[action.pid], action.conn);
    }
  }

  lemma {:induction false} ExecKeeps(run: seq<Action>)
    ensures Inv(Exec(START, run))
  {
    hide Inv, Do;
    if run == [] {
      StartOk();
    } else {
      ExecKeeps(run[..|run| - 1]);
      DoKeeps(Exec(START, run[..|run| - 1]), run[|run| - 1]);
    }
  }

  lemma StartOk()
    ensures Inv(START)
  {
  }

  // ---------- Delivery ----------

  /** In every run of any number of processes, however broadcasts, heartbeats, connects and
      disconnects interleave: a client that has neither left nor failed is still registered and
      has got exactly the messages for its channel among those its process took since the client
      came, once each and in publish order, except one still on its way to it. */
  lemma Delivery(run: seq<Action>, c: Conn)
    ensures var net := Exec(START, run);
      c in net.clients && c !in net.gone ==>
        var client := net.clients[c];
        && client.process in net.processes
        && var process := net.processes[client.process];
        && c in Members(process.hub.connections, client.channel)
        && client.joined <= Seen(process, c) <= |net.log|
        && Activities(Inbox(process.hub.inboxes, c))
           == Relevant(net.log[client.joined..Seen(process, c)], client.channel)
  {
    hide Exec;
    ExecKeeps(run);
    var net := Exec(START, run);
    if c in net.clients {
      assert ConnOk(net, net.clients[c].process, net.processes[net.clients[c].process], c);
    }
  }

  /** A client that has neither left nor failed, on a process that has relayed everything. */
  ghost predicate CaughtUp(net: Net, c: Conn) {
    && c in net.clients && c !in net.gone && net.clients[c].process in net.processes
    && var process := net.processes[net.clients[c].process];
    process.cursor == |net.log| && process.relay.None?
  }

  function InboxOf(net: Net, c: Conn): seq<Message>
    requires c in net.clients && net.clients[c].process in net.processes
  {
    Inbox(net.processes[net.clients[c].process].hub.inboxes, c)
  }

  /** Once its process has relayed everything, the client has got everything published for its
      channel since it came; on the global channel that is every message that decodes. */
  lemma DeliveryComplete(run: seq<Action>, c: Conn)
    requires CaughtUp(Exec(START, run), c)
    ensures var net := Exec(START, run);
      && net.clients[c].joined <= |net.log|
      && Activities(InboxOf(net, c)) == Relevant(net.log[net.clients[c].joined..], net.clients[c].channel)
  {
    hide Exec, Activities, Relevant;
    Delivery(run, c);
    var net := Exec(START, run);
    assert net.log[net.clients[c].joined..|net.log|] == net.log[net.clients[c].joined..];
  }

  /** Whichever processes two clients of one channel are on, what one got since the other, later
      one came is exactly what that one got. */
  lemma SameOnEveryProcess(run: seq<Action>, c: Conn, d: Conn)
    requires CaughtUp(Exec(START, run), c) && CaughtUp(Exec(START, run), d)
    requires Exec(START, run).clients[c].channel == Exec(START, run).clients[d].channel
    requires Exec(START, run).clients[c].joined <= Exec(START, run).clients[d].joined
    ensures var net := Exec(START, run);
            var a, b := net.clients[c], net.clients[d];
      && b.joined <= |net.log|
      && Activities(InboxOf(net, c))
         == Relevant(net.log[a.joined..b.joined], a.channel) + Activities(InboxOf(net, d))
  {
    hide Exec, Activities, Relevant;
    DeliveryComplete(run, c);
    DeliveryComplete(run, d);
    var net := Exec(START, run);
    var a, b := net.clients[c], net.clients[d];
    RelevantConcat(net.log[a.joined..b.joined], net.log[b.joined..], a.channel);
    assert net.log[a.joined..] == net.log[a.joined..b.joined] + net.log[b.joined..];
  }

  /** From domain events to a client: when the listener is registered n times and what was
      published since the client came are the copies it sent, the client has got n copies of each
      event that concerns its channel and nothing else. The API process registers it twice. */
  lemma EventsDelivered(run: seq<Action>, c: Conn, events: seq<Event>, n: nat)
    requires CaughtUp(Exec(START, run), c)
    requires var net := Exec(START, run);
      net.clients[c].joined <= |net.log| && net.log[net.clients[c].joined..] == AsPayloads(Forwarded(events, n))
    ensures var net := Exec(START, run);
      Activities(InboxOf(net, c)) == Concerning(events, n, net.clients[c].channel)
  {
    hide Exec, Activities, Relevant, Concerning, Forwarded;
    DeliveryComplete(run, c);
    EventsReachChannel(events, n, Exec(START, run).clients[c].channel);
  }

  lemma {:induction false} RelevantConcat(log: seq<Payload>, more: seq<Payload>, channel: string)
    ensures Relevant(log + more, channel) == Relevant(log, channel) + Relevant(more, channel)
  {
    hide Relevant, Heard;
    if more == [] {
      NothingRelevant(channel);
      assert log + more == log;
    } else {
      var n := |more| - 1;
      RelevantConcat(log, more[..n], channel);
      RelevantSnoc(log + more[..n], more[n], channel);
      RelevantSnoc(more[..n], more[n], channel);
      assert log + more == log + more[..n] + [more[n]];
      assert more == more[..n] + [more[n]];
    }
  }

  // ---------- From when on ----------

  /** What was published in a run, in order. */
  function Published(run: seq<Action>): seq<Payload> {
    if run == [] then [] else
    var action := run[|run| - 1];
    Published(run[..|run| - 1]) + (if action.Publish? then [action.payload] else [])
  }

  /** The log is what was published, whatever processes and clients do. */
  lemma {:induction false} LogIsPublished(run: seq<Action>)
    ensures Exec(START, run).log == Published(run)
  {
    hide NextProcess, NextClients, NextGone;
    if run != [] {
      LogIsPublished(run[..|run| - 1]);
    }
  }

  ghost predicate Since(net: Net, pid: Pid, start: nat) {
    && pid in net.processes && net.processes[pid].cursor >= start
    && forall c :: c in net.clients && net.clients[c].process == pid ==> net.clients[c].joined >= start
  }

  lemma StepKeepsSince(net: Net, action: Action, pid: Pid, start: nat)
    requires Since(net, pid, start)
    ensures Since(Do(net, action), pid, start)
  {
    hide Begin;
  }

  lemma {:induction false} RunKeepsSince(before: seq<Action>, pid: Pid, after: seq<Action>)
    requires pid !in Exec(START, before).processes
    ensures Since(Exec(START, before + ([StartUp(pid)] + after)), pid, |Exec(START, before).log|)
  {
    hide Do, Since, Exec;
    var start := |Exec(START, before).log|;
    if after == [] {
      assert before + ([StartUp(pid)] + []) == before + [StartUp(pid)];
      ExecSnoc(START, before, StartUp(pid));
      ExecKeeps(before);
      StartsSince(Exec(START, before), pid);
    } else {
      var n := |after| - 1;
      RunKeepsSince(before, pid, after[..n]);
      var run := before + ([StartUp(pid)] + after[..n]);
      ExecSnoc(START, run, after[n]);
      assert before + ([StartUp(pid)] + after) == run + [after[n]];
      StepKeepsSince(Exec(START, run), after[n], pid, start);
    }
  }

  lemma StartsSince(net: Net, pid: Pid)
    requires Inv(net) && pid !in net.processes
    ensures Since(Do(net, StartUp(pid)), pid, |net.log|)
  {
  }

  /** A process and its clients get nothing that was published before the process subscribed: its
      reading starts there, and each client's part of it no earlier. */
  lemma OnlySinceSubscribed(before: seq<Action>, pid: Pid, after: seq<Action>)
    requires pid !in Exec(START, before).processes
    ensures var net, start := Exec(START, before + ([StartUp(pid)] + after)), |Published(before)|;
      && pid in net.processes && net.processes[pid].cursor >= start
      && forall c :: c in net.clients && net.clients[c].process == pid ==> net.clients[c].joined >= start
  {
    hide Exec;
    RunKeepsSince(before, pid, after);
    LogIsPublished(before);
  }

  /** And it misses nothing: it starts exactly there. */
  lemma StartsAtSubscription(before: seq<Action>, pid: Pid)
    requires pid !in Exec(START, before).processes
    ensures var net := Exec(START, before + [StartUp(pid)]);
      pid in net.processes && net.processes[pid] == Process(Hub(map[], map[]), |Published(before)|, None, None)
  {
    ExecSnoc(START, before, StartUp(pid));
    LogIsPublished(before);
  }

  /** A new connection to a running process is registered at once, on its channel, with nothing
      received yet, and is served from the next message its process takes. */
  lemma ConnectRegisters(run: seq<Action>, pid: Pid, c: Conn, channel: string)
    requires pid in Exec(START, run).processes && c !in Exec(START, run).clients
    ensures var net := Exec(START, run + [Connect(pid, c, channel)]);
      && pid in net.processes && c in net.clients && c !in net.gone
      && net.clients[c] == Client(pid, channel, Exec(START, run).processes[pid].cursor)
      && c in Members(net.processes[pid].hub.connections, channel) && InboxOf(net, c) == []
  {
    hide Exec;
    ExecSnoc(START, run, Connect(pid, c, channel));
    ExecKeeps(run);
    var net := Exec(START, run);
    assert ConnOk(net, pid, net.processes[pid], c);
    MembershipExact(net.processes[pid].hub.connections, c, channel, channel);
  }

  /** A client may leave at any time, also while broadcasts are under way or after failing: it is off
      its channel, and every other membership is as it was. */
  lemma DisconnectExact(run: seq<Action>, c: Conn, pid: Pid, channel: string)
    requires c in Exec(START, run).clients && pid in Exec(START, run).processes
    ensures var net, net' := Exec(START, run), Exec(START, run + [Disconnect(c)]);
      && pid in net'.processes && c in net'.gone
      && Members(net'.processes[pid].hub.connections, channel)
         == Members(net.processes[pid].hub.connections, channel) - {c}
  {
    hide Exec, Pruned, Members;
    ExecSnoc(START, run, Disconnect(c));
    ExecKeeps(run);
    var net := Exec(START, run);
    assert ConnOk(net, pid, net.processes[pid], c);
    var client := net.clients[c];
    MembershipExact(net.processes[client.process].hub.connections, c, client.channel, channel);
    assert ProcessOk(net, net.processes[client.process]);
  }

  /** A heartbeat is for the connections on the global channel and no others. */
  lemma HeartbeatTargets(net: Net, pid: Pid)
    requires pid in net.processes && net.processes[pid].heartbeat == None
    ensures var heartbeat := Do(net, Beat(pid)).processes[pid].heartbeat;
      heartbeat.Some? && heartbeat.value.message == Heartbeat
      && heartbeat.value.pending == Members(net.processes[pid].hub.connections, "global")
  {
    forall c
      ensures c in Targets(net.processes[pid].hub.connections, {GLOBAL_CHANNEL})
              <==> c in Members(net.processes[pid].hub.connections, "global")
    {
      TargetsAre(net.processes[pid].hub.connections, {GLOBAL_CHANNEL}, c);
    }
  }

  // ---------- The relay gets there ----------

  /** The next step of a process's relay, when its sends succeed. */
  ghost function RelayStep(process: Process, pid: Pid): Action {
    if process.relay.None? then Receive(pid)
    else if c :| c in process.relay.value.pending then Send(pid, Relaying, c, true)
    else Finish(pid, Relaying)
  }

  predicate OfRelay(a: Action, pid: Pid) {
    a == Receive(pid) || a == Finish(pid, Relaying) || (a.Send? && a == Send(pid, Relaying, a.conn, true))
  }

  ghost predicate Idle(net: Net, pid: Pid)
    requires pid in net.processes
  {
    net.processes[pid].relay.None? && net.processes[pid].cursor >= |net.log|
  }

  lemma RelayStepAdvances(net: Net, pid: Pid)
    requires pid in net.processes && !Idle(net, pid) && net.processes[pid].cursor <= |net.log|
    ensures var action := RelayStep(net.processes[pid], pid);
            var net' := Do(net, action);
      && OfRelay(action, pid) && Allowed(net, action) && pid in net'.processes
      && net'.log == net.log && net'.clients == net.clients && net'.gone == net.gone
      && (net'.processes[pid].cursor > net.processes[pid].cursor
          || (net'.processes[pid].cursor == net.processes[pid].cursor
              && Outstanding(net'.processes[pid]) < Outstanding(net.processes[pid])))
      && net'.processes[pid].cursor <= |net.log|
  {
  }

  function Outstanding(process: Process): nat {
    if process.relay.Some? then 1 + |process.relay.value.pending| else 0
  }

  /** From any state of any run a process can relay all that is published by steps of its own
      relay, whatever its clients and other processes do or do not do. */
  lemma {:induction false} RelayCatchesUp(net: Net, pid: Pid) returns (run: seq<Action>)
    requires pid in net.processes && net.processes[pid].cursor <= |net.log|
    ensures forall a :: a in run ==> OfRelay(a, pid)
    ensures var net' := Exec(net, run);
      && pid in net'.processes && net'.processes[pid].relay.None? && net'.processes[pid].cursor == |net.log|
      && net'.log == net.log && net'.clients == net.clients && net'.gone == net.gone
    decreases |net.log| - net.processes[pid].cursor, Outstanding(net.processes[pid])
  {
    hide Do, Allowed;
    if Idle(net, pid) {
      run := [];
    } else {
      var action := RelayStep(net.processes[pid], pid);
      RelayStepAdvances(net, pid);
      var rest := RelayCatchesUp(Do(net, action), pid);
      run := [action] + rest;
      ExecCons(net, action, rest);
    }
  }

  lemma {:induction false} ExecCons(net: Net, action: Action, run: seq<Action>)
    ensures Exec(net, [action] + run) == Exec(Do(net, action), run)
  {
    hide Do;
    if run == [] {
      assert [action] + run == [action] && [action][..0] == [];
      assert Exec(net, [action]) == Do(Exec(net, []), action);
    } else {
      var n := |run| - 1;
      assert ([action] + run)[..n + 1] == [action] + run[..n];
      ExecCons(net, action, run[..n]);
    }
  }

  lemma {:induction false} ExecConcat(net: Net, run: seq<Action>, more: seq<Action>)
    ensures Exec(net, run + more) == Exec(Exec(net, run), more)
  {
    hide Do;
    if more == [] {
      assert run + more == run;
    } else {
      var n := |more| - 1;
      assert (run + more)[..|run| + n] == run + more[..n];
      ExecConcat(net, run, more[..n]);
    }
  }

  /** So every client that has neither left nor failed can still get all of its messages. */
  lemma DeliveryPossible(run: seq<Action>, c: Conn) returns (more: seq<Action>)
    requires c in Exec(START, run).clients && c !in Exec(START, run).gone
    ensures forall a :: a in more ==> OfRelay(a, Exec(START, run).clients[c].process)
    ensures var net := Exec(START, run + more);
      && CaughtUp(net, c) && net.log == Published(run)
      && net.clients[c].joined <= |net.log|
      && Activities(InboxOf(net, c)) == Relevant(net.log[net.clients[c].joined..], net.clients[c].channel)
  {
    hide Exec, Activities, Relevant;
    Delivery(run, c);
    ExecKeeps(run);
    LogIsPublished(run);
    var net := Exec(START, run);
    var pid := net.clients[c].process;
    assert ProcessOk(net, net.processes[pid]);
    more := RelayCatchesUp(net, pid);
    ExecConcat(START, run, more);
    DeliveryComplete(run + more, c);
  }

  // ---------- Bookkeeping ----------

  /** No channel is ever left empty; who is registered is a client of that process and channel;
      and with no broadcast under way exactly those clients are registered that have neither
      left nor failed. */
  lemma Bookkeeping(run: seq<Action>, pid: Pid, channel: string, c: Conn)
    ensures var net := Exec(START, run);
      pid in net.processes ==>
        var process := net.processes[pid];
        && NoEmptyChannel(process.hub.connections)
        && (c in Members(process.hub.connections, channel) ==> Owns(net, pid, c, channel))
        && (process.relay.None? && process.heartbeat.None? ==>
              (c in Members(process.hub.connections, channel) <==> Owns(net, pid, c, channel) && c !in net.gone))
  {
    hide Exec, NoEmptyChannel, Members, Activities, Relevant;
    ExecKeeps(run);
    var net := Exec(START, run);
    if pid in net.processes {
      assert ProcessOk(net, net.processes[pid]);
      assert ConnOk(net, pid, net.processes[pid], c);
    }
  }

  // ---------- An uninterrupted broadcast ----------

  /** The sends of one broadcast, in some order; those to `failing` raise. */
  function Sends(pid: Pid, order: seq<Conn>, failing: set<Conn>): (actions: seq<Action>)
    ensures |actions| == |order|
  {
    seq(|order|, i requires 0 <= i < |order| => Send(pid, Relaying, order[i], order[i] !in failing))
  }

  ghost predicate Distinct(order: seq<Conn>) {
    forall i, j :: 0 <= i < j < |order| ==> order[i] != order[j]
  }

  /** The process once a broadcast of e has sent to those in `reached`. */
  ghost function PartWay(process: Process, e: Envelope, reached: set<Conn>, failing: set<Conn>): Process {
    var b := Begin(process.hub, Activity(e.message), e.channels);
    Process(
      process.hub.(inboxes := Sent(process.hub.inboxes, reached - failing, b.message)),
      process.cursor + 1,
      Some(b.(pending := b.pending - reached, stale := reached * failing)),
      process.heartbeat)
  }

  lemma PartWayStep(process: Process, e: Envelope, reached: set<Conn>, failing: set<Conn>, c: Conn)
    requires c !in reached && c in Targets(process.hub.connections, e.channels)
    ensures var before, after := PartWay(process, e, reached, failing), PartWay(process, e, reached + {c}, failing);
      && before.relay.Some? && c in before.relay.value.pending
      && Attempted(before, Relaying, before.relay.value, c, c !in failing) == after
  {
    hide Sent, Inbox;
    var message := Activity(e.message);
    var before, after := PartWay(process, e, reached, failing), PartWay(process, e, reached + {c}, failing);
    assert before.relay.value.pending - {c} == after.relay.value.pending;
    if c in failing {
      assert (reached + {c}) - failing == reached - failing;
      assert reached * failing + {c} == (reached + {c}) * failing;
    } else {
      assert (reached + {c}) - failing == (reached - failing) + {c};
      assert reached * failing == (reached + {c}) * failing;
      SentOneMore(process.hub.inboxes, reached - failing, c, message);
      SentOneMore(before.hub.inboxes, {}, c, message);
      SentNone(before.hub.inboxes, message);
      assert {} + {c} == {c};
    }
  }

  lemma PartWayStart(process: Process, e: Envelope, failing: set<Conn>)
    requires process.relay.None?
    ensures Received(process, Decoded(e)) == PartWay(process, e, {}, failing)
  {
    var b := Begin(process.hub, Activity(e.message), e.channels);
    var none: set<Conn> := {};
    assert b.pending - none == b.pending && none - failing == none && none * failing == none;
    SentNone(process.hub.inboxes, b.message);
  }

  lemma ExecSnoc(net: Net, run: seq<Action>, action: Action)
    ensures Exec(net, run + [action]) == Do(Exec(net, run), action)
  {
    assert (run + [action])[..|run|] == run;
  }

  lemma {:induction false} AfterSends(net: Net, pid: Pid, order: seq<Conn>, failing: set<Conn>)
    requires Allowed(net, Receive(pid)) && net.log[net.processes[pid].cursor].Decoded?
    requires var process := net.processes[pid];
      Elements(order) <= Targets(process.hub.connections, net.log[process.cursor].envelope.channels)
    requires Distinct(order)
    ensures var after := Exec(net, [Receive(pid)] + Sends(pid, order, failing));
            var process := net.processes[pid];
      && pid in after.processes
      && after.processes[pid] == PartWay(process, net.log[process.cursor].envelope, Elements(order), failing)
  {
    hide Exec, PartWay, Targets, Received, Attempted;
    var process, e := net.processes[pid], net.log[net.processes[pid].cursor].envelope;
    if order == [] {
      ExecNone(net);
      ExecSnoc(net, [], Receive(pid));
      assert [] + [Receive(pid)] == [Receive(pid)] + Sends(pid, order, failing);
      assert Elements(order) == {};
      PartWayStart(process, e, failing);
    } else {
      var n := |order| - 1;
      var before, c := order[..n], order[n];
      assert c in Elements(order) && Elements(order) == Elements(before) + {c};
      AfterSends(net, pid, before, failing);
      ExecSnoc(net, [Receive(pid)] + Sends(pid, before, failing), Send(pid, Relaying, c, c !in failing));
      assert [Receive(pid)] + Sends(pid, order, failing)
          == [Receive(pid)] + Sends(pid, before, failing) + [Send(pid, Relaying, c, c !in failing)];
      PartWayStep(process, e, Elements(before), failing, c);
    }
  }

  lemma ExecNone(net: Net)
    ensures Exec(net, []) == net
  {
  }

  /** With nothing in between, the steps of a broadcast come to what the manager does in one
      call, in whatever order the targets are sent to. */
  lemma BroadcastAlone(net: Net, pid: Pid, order: seq<Conn>, failing: set<Conn>)
    requires Allowed(net, Receive(pid)) && net.log[net.processes[pid].cursor].Decoded?
    requires var process := net.processes[pid];
      Elements(order) == Targets(process.hub.connections, net.log[process.cursor].envelope.channels)
    requires Distinct(order)
    ensures var after := Exec(net, [Receive(pid)] + Sends(pid, order, failing) + [Finish(pid, Relaying)]);
            var process := net.processes[pid];
      && pid in after.processes
      && after.processes[pid].hub == RelayNext(process.hub, Data(net.log[process.cursor]), failing)
      && after.processes[pid].cursor == process.cursor + 1 && after.processes[pid].relay == None
  {
    hide Exec, Sent, Pruned;
    AfterSends(net, pid, order, failing);
    ExecSnoc(net, [Receive(pid)] + Sends(pid, order, failing), Finish(pid, Relaying));
    assert Elements(order) - Elements(order) == {};
  }
}
