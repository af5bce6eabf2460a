/** The in-process event publisher and the listener that forwards events to Redis. */
module Publisher {
  import opened Uuids
  import opened Schema
  import opened Ledger
  import opened Events

  /** A broadcast on its way to every process. The message stands for the serialized event. */
  datatype Envelope = Envelope(message: Event, channels: set<string>)

  function EventType(e: Event): string {
    match e
    case StockReceived(_, _, _, _) => "inventory.stock_received"
    case StockRemoved(_, _, _, _) => "inventory.stock_removed"
    case StockTransferred(_, _, _, _) => "inventory.stock_transferred"
    case LowStockDetected(_, _, _, _) => "inventory.low_stock_detected"
    case OutOfStockDetected(_, _) => "inventory.out_of_stock_detected"
  }

  const BROADCAST_EVENT_TYPES: seq<string> := [
    "inventory.stock_received",
    "inventory.stock_removed",
    "inventory.stock_transferred",
    "inventory.low_stock_detected",
    "inventory.out_of_stock_detected"
  ]

  /** The warehouse channels an event concerns: two for a transfer, one for any other. */
  function ChannelsFor(e: Event): set<string> {
    match e
    case StockTransferred(_, source, destination, _) => {Text(source), Text(destination)}
    case StockReceived(_, warehouse, _, _) => {Text(warehouse)}
    case StockRemoved(_, warehouse, _, _) => {Text(warehouse)}
    case LowStockDetected(_, warehouse, _, _) => {Text(warehouse)}
    case OutOfStockDetected(_, warehouse) => {Text(warehouse)}
  }

  function EnvelopeFor(e: Event): Envelope {
    Envelope(e, ChannelsFor(e))
  }

  function Warehouses(e: Event): set<Uuid> {
    if e.StockTransferred? then {e.source, e.destination} else {e.warehouse}
  }

  /** A client on a warehouse's channel is concerned by exactly that warehouse's events. */
  lemma ChannelIsWarehouse(e: Event, w: Uuid)
    ensures Text(w) in ChannelsFor(e) <==> w in Warehouses(e)
  {
    if Text(w) in ChannelsFor(e) {
      var v :| v in Warehouses(e) && Text(v) == Text(w);
      TextInjective(v, w);
    }
  }

  /** A movement's event reaches the channels of exactly the warehouses it touches. */
  lemma MovementChannels(m: Movement, quantities: seq<int>, w: Uuid)
    requires |quantities| == |Legs(m)|
    ensures Text(w) in ChannelsFor(MovementEvent(m, quantities))
            <==> exists k :: k in Touched(m) && k.warehouse == w
  {
    hide Text, ChannelsFor;
    ChannelIsWarehouse(MovementEvent(m, quantities), w);
    if !m.In? && w == m.source {
      assert SourceKey(m) in Touched(m);
    }
    if !m.Out? && w == m.destination {
      assert DestinationKey(m) in Touched(m);
    }
  }

  function Copies<T>(x: T, n: nat): (xs: seq<T>)
    ensures |xs| == n && forall i :: 0 <= i < n ==> xs[i] == x
  {
    seq(n, _ => x)
  }

  /** What n registrations of the listener send for a series of events: n copies of each, in order. */
  function Forwarded(events: seq<Event>, n: nat): seq<Envelope> {
    if events == [] then []
    else Forwarded(events[..|events| - 1], n) + Copies(EnvelopeFor(events[|events| - 1]), n)
  }

  function Envelopes(events: seq<Event>): (envelopes: seq<Envelope>)
    ensures |envelopes| == |events|
    ensures forall i :: 0 <= i < |events| ==> envelopes[i] == EnvelopeFor(events[i])
  {
    seq(|events|, i requires 0 <= i < |events| => EnvelopeFor(events[i]))
  }

  lemma {:induction false} ForwardedLength(events: seq<Event>, n: nat)
    ensures |Forwarded(events, n)| == n * |events|
  {
    if events != [] {
      var before := events[..|events| - 1];
      ForwardedLength(before, n);
      assert n * |events| == n * |before| + n;
    }
  }

  lemma {:induction false} ForwardedSingly(events: seq<Event>)
    ensures Forwarded(events, 1) == Envelopes(events)
  {
    if events != [] {
      var before := events[..|events| - 1];
      ForwardedSingly(before);
      assert Copies(EnvelopeFor(events[|before|]), 1) == [EnvelopeFor(events[|before|])];
      assert Envelopes(events) == Envelopes(before) + [EnvelopeFor(events[|before|])];
    }
  }

  lemma OneFactor(n: nat, m: nat)
    requires m > 0 && n * m == m
    ensures n == 1
  {
    if n > 1 {
      MulGrows(n - 1, m);
    }
  }

  lemma MulGrows(a: nat, m: nat)
    requires a > 0
    ensures a * m >= m
  {
  }

  /** Each event is sent once exactly when the listener is registered once. */
  lemma {:induction false} SentOnceIffRegisteredOnce(events: seq<Event>, n: nat)
    requires events != []
    ensures Forwarded(events, n) == Envelopes(events) <==> n == 1
  {
    ForwardedSingly(events);
    ForwardedLength(events, n);
    if n * |events| == |events| {
      OneFactor(n, |events|);
    }
  }

  class RedisBroadcaster {
    /** Everything published on the broadcast channel, in Redis's order. */
    var log: seq<Envelope>

    constructor ()
      ensures log == []
    {
      log := [];
    }

    method Publish(message: Event, channels: set<string>)
      modifies this
      ensures log == old(log) + [Envelope(message, channels)]
    {
      log := log + [Envelope(message, channels)];
    }
  }

  /** The one kind of handler there is: the listener forwarding events to the broadcaster. */
  datatype Handler = BroadcastEvent

  class InProcessEventPublisher {
    var handlers: map<string, seq<Handler>>
    const broadcaster: RedisBroadcaster
    ghost var published: seq<Event>

    constructor (broadcaster: RedisBroadcaster)
      ensures this.broadcaster == broadcaster && handlers == map[] && published == []
    {
      this.broadcaster := broadcaster;
      handlers := map[];
      published := [];
    }

    function HandlersOf(eventType: string): seq<Handler>
      reads this
    {
      if eventType in handlers then handlers[eventType] else []
    }

    /** The listener is registered n times for every event type. */
    ghost predicate Registered(n: nat)
      reads this
    {
      forall i :: 0 <= i < |BROADCAST_EVENT_TYPES| ==> |HandlersOf(BROADCAST_EVENT_TYPES[i])| == n
    }

    /** The log holds n copies of every event published, in order, and nothing else. */
    ghost predicate InStep(n: nat)
      reads this, broadcaster
    {
      Registered(n) && broadcaster.log == Forwarded(published, n)
    }

    method Subscribe(eventType: string, handler: Handler)
      modifies this`handlers
      ensures HandlersOf(eventType) == old(HandlersOf(eventType)) + [handler]
      ensures forall other :: other != eventType ==> HandlersOf(other) == old(HandlersOf(other))
    {
      handlers := handlers[eventType := HandlersOf(eventType) + [handler]];
    }

    /** Every handler of the event's type runs; each one sends its own copy. */
    method Publish(e: Event)
      modifies this`published, broadcaster
      ensures published == old(published) + [e]
      ensures broadcaster.log == old(broadcaster.log) + Copies(EnvelopeFor(e), |HandlersOf(EventType(e))|)
      ensures forall n: nat :: old(InStep(n)) ==> InStep(n)
    {
      EventTypeRegistered(e);
      published := published + [e];
      var handlers := HandlersOf(EventType(e));
      for i := 0 to |handlers|
        invariant published == old(published) + [e]
        invariant broadcaster.log == old(broadcaster.log) + Copies(EnvelopeFor(e), i)
      {
        broadcaster.Publish(e, ChannelsFor(e));
        assert Copies(EnvelopeFor(e), i) + [EnvelopeFor(e)] == Copies(EnvelopeFor(e), i + 1);
      }
      assert published[..|published| - 1] == old(published);
    }
  }

  /** Subscribes the listener to every event type. The API process does this twice. */
  method RegisterWebsocketListeners(publisher: InProcessEventPublisher)
    modifies publisher`handlers
    ensures forall i :: 0 <= i < |BROADCAST_EVENT_TYPES| ==>
      publisher.HandlersOf(BROADCAST_EVENT_TYPES[i])
      == old(publisher.HandlersOf(BROADCAST_EVENT_TYPES[i])) + [BroadcastEvent]
    ensures forall n: nat :: old(publisher.Registered(n)) ==> publisher.Registered(n + 1)
  {
    var types := BROADCAST_EVENT_TYPES;
    for i := 0 to |types|
      invariant forall j :: 0 <= j < |types| ==>
        publisher.HandlersOf(types[j])
        == old(publisher.HandlersOf(types[j])) + (if j < i then [BroadcastEvent] else [])
    {
      publisher.Subscribe(types[i], BroadcastEvent);
      forall j | 0 <= j < |types| && j != i
        ensures types[j] != types[i]
      {
        TypesDiffer(i, j);
      }
    }
  }

  /** Importing the API process's modules: the listener is registered by the application itself
      and once more by the module that defines the periodic tasks. */
  method StartApiProcess(broadcaster: RedisBroadcaster) returns (publisher: InProcessEventPublisher)
    requires broadcaster.log == []
    ensures fresh(publisher) && publisher.broadcaster == broadcaster
    ensures publisher.published == [] && publisher.InStep(2)
  {
    publisher := new InProcessEventPublisher(broadcaster);
    assert publisher.Registered(0);
    RegisterWebsocketListeners(publisher);
    RegisterWebsocketListeners(publisher);
  }

  lemma TypesDiffer(i: nat, j: nat)
    requires i < |BROADCAST_EVENT_TYPES| && j < |BROADCAST_EVENT_TYPES| && i != j
    ensures BROADCAST_EVENT_TYPES[i] != BROADCAST_EVENT_TYPES[j]
  {
    var a, b := BROADCAST_EVENT_TYPES[i], BROADCAST_EVENT_TYPES[j];
    assert |"inventory.stock_received"| == 24 && |"inventory.stock_removed"| == 23;
    assert |"inventory.stock_transferred"| == 27 && |"inventory.low_stock_detected"| == 28;
    assert |"inventory.out_of_stock_detected"| == 31;
    assert |a| != |b|;
  }

  /** Events of different kinds have different types, so a handler gets one kind only. */
  lemma EventTypesDiffer(e: Event, f: Event)
    ensures EventType(e) == EventType(f) <==>
      && (e.StockReceived? <==> f.StockReceived?) && (e.StockRemoved? <==> f.StockRemoved?)
      && (e.StockTransferred? <==> f.StockTransferred?) && (e.LowStockDetected? <==> f.LowStockDetected?)
  {
    assert |EventType(e)| == if e.StockReceived? then 24 else if e.StockRemoved? then 23
                             else if e.StockTransferred? then 27 else if e.LowStockDetected? then 28 else 31;
    assert |EventType(f)| == if f.StockReceived? then 24 else if f.StockRemoved? then 23
                             else if f.StockTransferred? then 27 else if f.LowStockDetected? then 28 else 31;
  }

  lemma EventTypeRegistered(e: Event)
    ensures exists i :: 0 <= i < |BROADCAST_EVENT_TYPES| && BROADCAST_EVENT_TYPES[i] == EventType(e)
  {
    var types := BROADCAST_EVENT_TYPES;
    match e
    case StockReceived(_, _, _, _) => assert types[0] == EventType(e);
    case StockRemoved(_, _, _, _) => assert types[1] == EventType(e);
    case StockTransferred(_, _, _, _) => assert types[2] == EventType(e);
    case LowStockDetected(_, _, _, _) => assert types[3] == EventType(e);
    case OutOfStockDetected(_, _) => assert types[4] == EventType(e);
  }
}
