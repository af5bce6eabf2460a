/** The locked transaction protocol, as a step machine over any number of requests.

    Every request has its own session, so its own transaction: a program counter, the rows
    it has written but not committed, and the movement row it has flushed. Shared are the
    committed tables and one table of owners: the owner of a committed pair holds its row
    lock, the owner of an absent pair has inserted its row and not committed yet.

    An `Action` names one step of one participant. `Do` is total: an action that cannot
    happen leaves the state alone, so every sequence of actions is an interleaving. */
module Transactions {
  import opened Uuids
  import opened Schema
  import opened Ledger
  import opened Events

  datatype Phase =
    | CheckProduct
    | CheckWarehouse(leg: nat)
    | LockRow(leg: nat)                 // SELECT ... FOR UPDATE
    | InsertRow(leg: nat)               // the locked read found no row
    | Update(leg: nat, loaded: int)     // the row is ours; its quantity as loaded
    | AppendMovement
    | Commit
    | Publish                           // committed; the event is still to be published
    | Finished
    | Aborted(error: Error)

  datatype MovementRow = MovementRow(id: nat, move: Movement)

  /** One record_movement call. Its movement row's id is the call's index. */
  datatype Txn = Txn(
    move: Movement,
    phase: Phase,
    writes: Stock,
    inserted: seq<Key>,
    pending: seq<MovementRow>)
  {
    predicate Committed() {
      phase.Publish? || phase.Finished?
    }

    predicate Open() {
      !Committed() && !phase.Aborted?
    }

    predicate Unfinished() {
      Open() || phase.Publish?
    }
  }

  datatype Announcement = Announcement(id: nat, event: Event)

  datatype State = State(
    catalog: Catalog,
    table: Stock,                  // committed quantities
    rows: seq<Key>,                // committed inventory rows, in insertion order
    movements: seq<MovementRow>,   // committed movement rows, in commit order
    owners: map<Key, nat>,
    txns: seq<Txn>,
    published: seq<Announcement>)

  datatype Action =
    | Begin(move: Movement)
    | Proceed(t: nat)
    | Interrupt(t: nat)
    | AddProduct(product: Uuid)
    | AddWarehouse(warehouse: Uuid)

  function Init(catalog: Catalog): State {
    State(catalog, map[], [], [], map[], [], [])
  }

  function LegAt(txn: Txn, i: nat): Leg {
    var legs := Legs(txn.move);
    if i < |legs| then legs[i] else legs[0]
  }

  /** What a transaction at a locking phase needs that another transaction owns. */
  predicate OwnedByOther(s: State, t: nat, k: Key) {
    k in s.owners && s.owners[k] != t
  }

  /** A locked read waits for another's lock on a committed row, and does not see another's
      uncommitted insert. An insert waits for another's uncommitted insert of the same pair. */
  predicate Blocked(s: State, t: nat)
    requires t < |s.txns|
  {
    var txn := s.txns[t];
    match txn.phase
    case LockRow(i) => var k := LegAt(txn, i).key; k in s.table && OwnedByOther(s, t, k)
    case InsertRow(i) => var k := LegAt(txn, i).key; k !in s.table && OwnedByOther(s, t, k)
    case _ => false
  }

  function Release(owners: map<Key, nat>, t: nat): map<Key, nat> {
    map k | k in owners && owners[k] != t :: owners[k]
  }

  function SetTxn(s: State, t: nat, txn: Txn): State
    requires t < |s.txns|
  {
    s.(txns := s.txns[t := txn])
  }

  function SetPhase(s: State, t: nat, phase: Phase): State
    requires t < |s.txns|
  {
    SetTxn(s, t, s.txns[t].(phase := phase))
  }

  /** Closing a session without a commit rolls back. */
  function Abort(s: State, t: nat, error: Error): State
    requires t < |s.txns|
  {
    SetTxn(s, t, s.txns[t].(phase := Aborted(error), writes := map[], inserted := [], pending := []))
    .(owners := Release(s.owners, t))
  }

  function TakeRow(s: State, t: nat, i: nat): State
    requires t < |s.txns|
  {
    var txn := s.txns[t];
    var leg := LegAt(txn, i);
    if leg.key in s.table then
      SetPhase(s, t, Update(i, s.table[leg.key])).(owners := s.owners[leg.key := t])
    else if leg.Increase? then
      SetPhase(s, t, InsertRow(i))
    else
      Abort(s, t, StockRecordNotFound(leg.key))
  }

  function InsertEmptyRow(s: State, t: nat, i: nat): State
    requires t < |s.txns|
  {
    var txn := s.txns[t];
    var k := LegAt(txn, i).key;
    if k in s.table then
      Abort(s, t, DuplicateRow)
    else
      SetTxn(s, t, txn.(phase := Update(i, 0), writes := txn.writes[k := 0], inserted := txn.inserted + [k]))
      .(owners := s.owners[k := t])
  }

  /** The transaction after a successful update of its current leg. */
  function Updated(txn: Txn, i: nat, loaded: int): Txn {
    var leg := LegAt(txn, i);
    var next := if i + 1 < |Legs(txn.move)| then CheckWarehouse(i + 1) else AppendMovement;
    txn.(phase := next, writes := txn.writes[leg.key :=
      if leg.Increase? then loaded + leg.quantity else loaded - leg.quantity])
  }

  function UpdateRow(s: State, t: nat, i: nat, loaded: int): State
    requires t < |s.txns|
  {
    var leg := LegAt(s.txns[t], i);
    if leg.Decrease? && loaded < leg.quantity then
      Abort(s, t, InsufficientStock(leg.key, leg.quantity, loaded))
    else
      SetTxn(s, t, Updated(s.txns[t], i, loaded))
  }

  function CommitTxn(s: State, t: nat): State
    requires t < |s.txns|
  {
    var txn := s.txns[t];
    SetPhase(s, t, Publish).(
      table := s.table + txn.writes,
      rows := s.rows + txn.inserted,
      movements := s.movements + txn.pending,
      owners := Release(s.owners, t))
  }

  /** The quantities of the affected rows as the session still holds them after the commit. */
  function InMemory(txn: Txn): (quantities: seq<int>)
    ensures |quantities| == |Legs(txn.move)|
  {
    var keys := Affected(txn.move);
    seq(|keys|, i requires 0 <= i < |keys| => Quantity(txn.writes, keys[i]))
  }

  function PublishEvent(s: State, t: nat): State
    requires t < |s.txns|
  {
    var txn := s.txns[t];
    SetPhase(s, t, Finished).(
      published := s.published + [Announcement(t, MovementEvent(txn.move, InMemory(txn)))])
  }

  function ProceedTxn(s: State, t: nat): State
    requires t < |s.txns|
  {
    var txn := s.txns[t];
    match txn.phase
    case CheckProduct =>
      if txn.move.product in s.catalog.products
      then SetPhase(s, t, CheckWarehouse(0))
      else Abort(s, t, ProductNotFound(txn.move.product))
    case CheckWarehouse(i) =>
      if LegAt(txn, i).key.warehouse in s.catalog.warehouses
      then SetPhase(s, t, LockRow(i))
      else Abort(s, t, WarehouseNotFound(LegAt(txn, i).key.warehouse))
    case LockRow(i) => TakeRow(s, t, i)
    case InsertRow(i) => InsertEmptyRow(s, t, i)
    case Update(i, loaded) => UpdateRow(s, t, i, loaded)
    case AppendMovement =>
      SetTxn(s, t, txn.(phase := Commit, pending := [MovementRow(t, txn.move)]))
    case Commit => CommitTxn(s, t)
    case Publish => PublishEvent(s, t)
    case Finished => s
    case Aborted(_) => s
  }

  /** Any error outside the protocol: before the commit it rolls back, after it the event is lost. */
  function InterruptTxn(s: State, t: nat): State
    requires t < |s.txns|
  {
    var txn := s.txns[t];
    if txn.Open() then Abort(s, t, Interrupted)
    else if txn.phase.Publish? then SetPhase(s, t, Finished)
    else s
  }

  function Do(s: State, a: Action): State {
    match a
    case Begin(m) => s.(txns := s.txns + [Txn(m, CheckProduct, map[], [], [])])
    case Proceed(t) => if t < |s.txns| && !Blocked(s, t) then ProceedTxn(s, t) else s
    case Interrupt(t) => if t < |s.txns| then InterruptTxn(s, t) else s
    case AddProduct(p) => s.(catalog := s.catalog.(products := s.catalog.products + {p}))
    case AddWarehouse(w) => s.(catalog := s.catalog.(warehouses := s.catalog.warehouses + {w}))
  }

  /** The state after an interleaving. Every reachable state is `Exec(Init(catalog), run)`. */
  function Exec(s: State, run: seq<Action>): State {
    if run == [] then s
    else Do(Exec(s, run[..|run| - 1]), run[|run| - 1])
  }

  /** The committed movements, in commit order. */
  function History(rows: seq<MovementRow>): (history: seq<Movement>)
    ensures |history| == |rows|
    ensures forall i | 0 <= i < |rows| :: history[i] == rows[i].move
  {
    seq(|rows|, i requires 0 <= i < |rows| => rows[i].move)
  }
}
