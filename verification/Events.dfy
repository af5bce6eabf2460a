/** The domain events raised by movements and by alerts. */
module Events {
  import opened Wrappers
  import opened Uuids
  import opened Schema
  import opened Ledger

  datatype Event =
    | StockReceived(product: Uuid, warehouse: Uuid, quantity: int, resultingQuantity: int)
    | StockRemoved(product: Uuid, warehouse: Uuid, quantity: int, resultingQuantity: int)
    | StockTransferred(product: Uuid, source: Uuid, destination: Uuid, quantity: int)
    | LowStockDetected(product: Uuid, warehouse: Uuid, quantity: int, threshold: int)
    | OutOfStockDetected(product: Uuid, warehouse: Uuid)

  /** The event for a movement; `quantities` are those of the affected rows held in memory,
      one row for IN and OUT, source then destination for a transfer. */
  function MovementEvent(m: Movement, quantities: seq<int>): Event
    requires |quantities| == |Legs(m)|
  {
    match m
    case In(p, d, q) => StockReceived(p, d, q, quantities[0])
    case Out(p, s, q) => StockRemoved(p, s, q, quantities[0])
    case Transfer(p, s, d, q) => StockTransferred(p, s, d, q)
  }

  /** The affected pairs in the order the service returns them. */
  function Affected(m: Movement): (keys: seq<Key>)
    ensures |keys| == |Legs(m)|
    ensures forall k :: k in keys <==> k in Touched(m)
  {
    match m
    case In(_, _, _) => [DestinationKey(m)]
    case Out(_, _, _) => [SourceKey(m)]
    case Transfer(_, _, _, _) => [SourceKey(m), DestinationKey(m)]
  }

  /** What the event of the last movement of a history should say: the balance at that point. */
  function HistoricalEvent(history: seq<Movement>): Event
    requires history != []
  {
    var m := history[|history| - 1];
    var keys := Affected(m);
    MovementEvent(m, seq(|keys|, i requires 0 <= i < |keys| => Balance(history, keys[i])))
  }

  /** The movement an event tells a listener about. */
  function Described(e: Event): Option<MovementShape> {
    match e
    case StockReceived(product, warehouse, quantity, _) => Some(In(product, warehouse, quantity))
    case StockRemoved(product, warehouse, quantity, _) => Some(Out(product, warehouse, quantity))
    case StockTransferred(product, source, destination, quantity) =>
      Some(Transfer(product, source, destination, quantity))
    case _ => None
  }

  /** The event loses nothing of its movement, and its resulting quantity is the affected row's. */
  lemma EventDescribesMovement(m: Movement, quantities: seq<int>)
    requires |quantities| == |Legs(m)|
    ensures Described(MovementEvent(m, quantities)) == Some(m)
    ensures var e := MovementEvent(m, quantities);
      && (m.In? <==> e.StockReceived?) && (m.Out? <==> e.StockRemoved?) && (m.Transfer? <==> e.StockTransferred?)
      && e.product == m.product && e.quantity == m.quantity
      && (m.In? ==> e.warehouse == m.destination && quantities == [e.resultingQuantity])
      && (m.Out? ==> e.warehouse == m.source && quantities == [e.resultingQuantity])
      && (m.Transfer? ==> e.source == m.source && e.destination == m.destination)
  {
  }
}
