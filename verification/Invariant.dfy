/** What every step of every transaction keeps. */
module Invariant {
  import opened Schema
  import opened Ledger
  import opened Events
  import opened Transactions

  // ---------- One transaction ----------

  /** How many legs have their row owned. */
  function Reached(txn: Txn): nat {
    match txn.phase
    case CheckWarehouse(i) => i
    case LockRow(i) => i
    case InsertRow(i) => i
    case Update(i, _) => i + 1
    case AppendMovement => |Legs(txn.move)|
    case Commit => |Legs(txn.move)|
    case _ => 0
  }

  /** How many legs have been applied to the private writes. */
  function Applied(txn: Txn): nat {
    if txn.phase.Update? then txn.phase.leg else Reached(txn)
  }

  predicate Holds(txn: Txn, k: Key) {
    var legs := Legs(txn.move);
    || (Reached(txn) >= 1 && k == legs[0].key)
    || (Reached(txn) >= 2 && |legs| == 2 && k == legs[1].key)
  }

  /** A leg whose write is made: it is the leg's effect on the committed quantity. */
  ghost predicate LegApplied(table: Stock, txn: Txn, leg: Leg) {
    && leg.key in txn.writes
    && match leg
       case Increase(k, q) => txn.writes[k] == Quantity(table, k) + q
       case Decrease(k, q) => k in table && table[k] >= q && txn.writes[k] == table[k] - q
  }

  /** The row this transaction has inserted, if it has: its destination, when absent. */
  function InsertedRows(table: Stock, txn: Txn): seq<Key> {
    if !txn.move.Out? && Holds(txn, DestinationKey(txn.move)) && DestinationKey(txn.move) !in table
    then [DestinationKey(txn.move)] else []
  }

  predicate PhaseInRange(txn: Txn) {
    match txn.phase
    case CheckWarehouse(i) => i < |Legs(txn.move)|
    case LockRow(i) => i < |Legs(txn.move)|
    case InsertRow(i) => i < |Legs(txn.move)| && Legs(txn.move)[i].Increase?
    case Update(i, _) => i < |Legs(txn.move)|
    case _ => true
  }

  /** The checks this transaction has passed. */
  predicate Checked(catalog: Catalog, txn: Txn) {
    var legs := Legs(txn.move);
    var n := match txn.phase
             case CheckWarehouse(i) => i
             case LockRow(i) => i + 1
             case InsertRow(i) => i + 1
             case Update(i, _) => i + 1
             case AppendMovement => |legs|
             case Commit => |legs|
             case _ => 0;
    && (txn.Open() && !txn.phase.CheckProduct? ==> txn.move.product in catalog.products)
    && (n >= 1 ==> legs[0].key.warehouse in catalog.warehouses)
    && (n >= 2 && |legs| == 2 ==> legs[1].key.warehouse in catalog.warehouses)
  }

  ghost predicate Loaded(table: Stock, txn: Txn) {
    txn.phase.Update? && txn.phase.leg < |Legs(txn.move)| ==>
      var leg := Legs(txn.move)[txn.phase.leg];
      && txn.phase.loaded == Quantity(table, leg.key)
      && (leg.Decrease? ==> leg.key in table)
      && (leg.key in txn.writes ==> txn.writes[leg.key] == txn.phase.loaded)
  }

  ghost predicate WritesOk(table: Stock, txn: Txn) {
    var legs := Legs(txn.move);
    && (Applied(txn) >= 1 ==> LegApplied(table, txn, legs[0]))
    && (Applied(txn) >= 2 && |legs| == 2 ==> LegApplied(table, txn, legs[1]))
    && (txn.Open() ==> forall k :: k in txn.writes ==> Holds(txn, k))
  }

  ghost predicate TxnOk(catalog: Catalog, table: Stock, t: nat, txn: Txn) {
    && PhaseInRange(txn)
    && Checked(catalog, txn)
    && Loaded(table, txn)
    && WritesOk(table, txn)
    && (txn.Open() ==> txn.inserted == InsertedRows(table, txn))
    && txn.pending == (if txn.phase.Commit? || txn.Committed() then [MovementRow(t, txn.move)] else [])
  }

  // ---------- The shared state ----------

  /** A pair's owner is the one open transaction that holds it. */
  ghost predicate OwnersOk(owners: map<Key, nat>, txns: seq<Txn>) {
    && (forall k :: k in owners ==> owners[k] < |txns| && Holds(txns[owners[k]], k))
    && (forall t, k :: 0 <= t < |txns| && Holds(txns[t], k) ==> k in owners && owners[k] == t)
  }

  ghost predicate RowsOk(table: Stock, rows: seq<Key>) {
    && (forall k :: k in rows <==> k in table)
    && (forall i, j :: 0 <= i < j < |rows| ==> rows[i] != rows[j])
  }

  /** The committed table is the replay of the committed movements, each legal in its turn. */
  ghost predicate HistoryOk(catalog: Catalog, table: Stock, movements: seq<MovementRow>) {
    && table == Replay(History(movements))
    && LegalHistory(catalog, History(movements))
  }

  /** Committed movement rows and committed transactions correspond one to one. */
  ghost predicate MovementsOk(movements: seq<MovementRow>, txns: seq<Txn>) {
    && (forall i :: 0 <= i < |movements| ==>
          && movements[i].id < |txns|
          && txns[movements[i].id].Committed()
          && movements[i].move == txns[movements[i].id].move)
    && (forall i, j :: 0 <= i < j < |movements| ==> movements[i].id != movements[j].id)
    && (forall t :: 0 <= t < |txns| && txns[t].Committed() ==>
          exists i :: 0 <= i < |movements| && movements[i].id == t)
  }

  /** What a committed transaction still holds in memory is the balance at its own commit. */
  ghost predicate MemoryOk(movements: seq<MovementRow>, txns: seq<Txn>) {
    forall i, k :: 0 <= i < |movements| && movements[i].id < |txns| && k in Touched(movements[i].move) ==>
      Quantity(txns[movements[i].id].writes, k) == Balance(History(movements[..i + 1]), k)
  }

  ghost predicate AnnouncementOk(movements: seq<MovementRow>, a: Announcement) {
    exists i :: 0 <= i < |movements| && movements[i].id == a.id
             && a.event == HistoricalEvent(History(movements[..i + 1]))
  }

  ghost predicate PublishedOk(movements: seq<MovementRow>, txns: seq<Txn>, published: seq<Announcement>) {
    && (forall a :: a in published ==>
          a.id < |txns| && txns[a.id].phase.Finished? && AnnouncementOk(movements, a))
    && (forall i, j :: 0 <= i < j < |published| ==> published[i].id != published[j].id)
  }

  ghost predicate Inv(s: State) {
    && (forall t :: 0 <= t < |s.txns| ==> TxnOk(s.catalog, s.table, t, s.txns[t]))
    && OwnersOk(s.owners, s.txns)
    && RowsOk(s.table, s.rows)
    && HistoryOk(s.catalog, s.table, s.movements)
    && MovementsOk(s.movements, s.txns)
    && MemoryOk(s.movements, s.txns)
    && PublishedOk(s.movements, s.txns, s.published)
  }

  // ---------- Steps that commit nothing ----------

  /** What a replaced transaction must keep for the committed history to stay right. */
  predicate SameCommitment(was: Txn, txn: Txn) {
    && txn.move == was.move
    && txn.Committed() == was.Committed()
    && (txn.Committed() ==> txn.writes == was.writes && txn.phase.Finished?)
  }

  lemma MovementsFrame(movements: seq<MovementRow>, txns: seq<Txn>, t: nat, txn: Txn)
    requires t < |txns| && SameCommitment(txns[t], txn) && MovementsOk(movements, txns)
    ensures MovementsOk(movements, txns[t := txn])
  {
    var txns' := txns[t := txn];
    forall u | 0 <= u < |txns'| && txns'[u].Committed()
      ensures exists i :: 0 <= i < |movements| && movements[i].id == u
    {
      assert txns[u].Committed();
    }
  }

  lemma MemoryFrame(movements: seq<MovementRow>, txns: seq<Txn>, t: nat, txn: Txn)
    requires t < |txns| && SameCommitment(txns[t], txn)
    requires MovementsOk(movements, txns) && MemoryOk(movements, txns)
    ensures MemoryOk(movements, txns[t := txn])
  {
    forall i, k | 0 <= i < |movements| && movements[i].id < |txns| && k in Touched(movements[i].move)
      ensures Quantity(txns[t := txn][movements[i].id].writes, k) == Balance(History(movements[..i + 1]), k)
    {
      assert txns[movements[i].id].Committed();
      assert txns[t := txn][movements[i].id].writes == txns[movements[i].id].writes;
    }
  }

  lemma PublishedFrame(movements: seq<MovementRow>, txns: seq<Txn>, published: seq<Announcement>, t: nat, txn: Txn)
    requires t < |txns| && SameCommitment(txns[t], txn) && PublishedOk(movements, txns, published)
    ensures PublishedOk(movements, txns[t := txn], published)
  {
  }

  /** A step that replaces one transaction's private state, and perhaps the owners, and commits nothing. */
  lemma PrivateStep(s: State, t: nat, txn: Txn, owners: map<Key, nat>)
    requires Inv(s) && t < |s.txns| && SameCommitment(s.txns[t], txn)
    requires TxnOk(s.catalog, s.table, t, txn)
    requires OwnersOk(owners, s.txns[t := txn])
    ensures Inv(SetTxn(s, t, txn).(owners := owners))
  {
    MovementsFrame(s.movements, s.txns, t, txn);
    MemoryFrame(s.movements, s.txns, t, txn);
    PublishedFrame(s.movements, s.txns, s.published, t, txn);
  }

  /** Changing a transaction without changing what it holds leaves the owners right. */
  lemma SameHoldings(owners: map<Key, nat>, txns: seq<Txn>, t: nat, txn: Txn)
    requires OwnersOk(owners, txns) && t < |txns|
    requires forall k :: Holds(txn, k) <==> Holds(txns[t], k)
    ensures OwnersOk(owners, txns[t := txn])
  {
  }

  lemma OneMore(owners: map<Key, nat>, txns: seq<Txn>, t: nat, txn: Txn, key: Key)
    requires OwnersOk(owners, txns) && t < |txns|
    requires key in owners ==> owners[key] == t
    requires forall k :: Holds(txn, k) <==> Holds(txns[t], k) || k == key
    ensures OwnersOk(owners[key := t], txns[t := txn])
  {
    var owners', txns' := owners[key := t], txns[t := txn];
    forall u, k | 0 <= u < |txns'| && Holds(txns'[u], k)
      ensures k in owners' && owners'[k] == u
    {
      if u != t {
        assert Holds(txns[u], k);
      }
    }
  }

  lemma HoldsNothing(owners: map<Key, nat>, txns: seq<Txn>, t: nat, txn: Txn)
    requires OwnersOk(owners, txns) && t < |txns|
    requires forall k :: !Holds(txn, k)
    ensures OwnersOk(Release(owners, t), txns[t := txn])
  {
    var owners', txns' := Release(owners, t), txns[t := txn];
    forall u, k | 0 <= u < |txns'| && Holds(txns'[u], k)
      ensures k in owners' && owners'[k] == u
    {
      assert u != t && Holds(txns[u], k);
    }
  }

  lemma AbortedOk(catalog: Catalog, table: Stock, t: nat, txn: Txn)
    requires txn.phase.Aborted? && txn.pending == []
    ensures TxnOk(catalog, table, t, txn)
    ensures forall k :: !Holds(txn, k)
  {
  }

  lemma {:induction false} AbortKeeps(s: State, t: nat, error: Error)
    requires Inv(s) && t < |s.txns| && s.txns[t].Open()
    ensures Inv(Abort(s, t, error))
  {
    var txn := s.txns[t].(phase := Aborted(error), writes := map[], inserted := [], pending := []);
    AbortedOk(s.catalog, s.table, t, txn);
    HoldsNothing(s.owners, s.txns, t, txn);
    PrivateStep(s, t, txn, Release(s.owners, t));
  }

  lemma {:induction false} PhaseKeeps(s: State, t: nat, txn: Txn)
    requires Inv(s) && t < |s.txns| && SameCommitment(s.txns[t], txn)
    requires TxnOk(s.catalog, s.table, t, txn)
    requires Reached(txn) == Reached(s.txns[t])
    ensures Inv(SetTxn(s, t, txn))
  {
    SameHoldings(s.owners, s.txns, t, txn);
    PrivateStep(s, t, txn, s.owners);
    assert SetTxn(s, t, txn).(owners := s.owners) == SetTxn(s, t, txn);
  }

  /** The legs of one movement are on different pairs. */
  lemma LegsDiffer(m: Movement)
    ensures |Legs(m)| == 2 ==> Legs(m)[0].key != Legs(m)[1].key
  {
  }

  lemma LockedOk(catalog: Catalog, table: Stock, t: nat, txn: Txn, i: nat)
    requires TxnOk(catalog, table, t, txn) && txn.phase == LockRow(i)
    requires Legs(txn.move)[i].key in table
    ensures TxnOk(catalog, table, t, txn.(phase := Update(i, table[Legs(txn.move)[i].key])))
    ensures forall k :: Holds(txn.(phase := Update(i, table[Legs(txn.move)[i].key])), k) <==>
                        Holds(txn, k) || k == Legs(txn.move)[i].key
  {
    LegsDiffer(txn.move);
  }

  lemma {:induction false} LockKeeps(s: State, t: nat, i: nat)
    requires Inv(s) && t < |s.txns| && s.txns[t].phase == LockRow(i) && !Blocked(s, t)
    requires LegAt(s.txns[t], i).key in s.table
    ensures Inv(TakeRow(s, t, i))
  {
    var txn := s.txns[t];
    assert TxnOk(s.catalog, s.table, t, txn);
    var k := Legs(txn.move)[i].key;
    var txn' := txn.(phase := Update(i, s.table[k]));
    LockedOk(s.catalog, s.table, t, txn, i);
    OneMore(s.owners, s.txns, t, txn', k);
    PrivateStep(s, t, txn', s.owners[k := t]);
  }

  lemma NoRowOk(catalog: Catalog, table: Stock, t: nat, txn: Txn, i: nat)
    requires TxnOk(catalog, table, t, txn) && txn.phase == LockRow(i)
    requires Legs(txn.move)[i].Increase?
    ensures TxnOk(catalog, table, t, txn.(phase := InsertRow(i)))
  {
  }

  lemma {:induction false} NoRowKeeps(s: State, t: nat, i: nat)
    requires Inv(s) && t < |s.txns| && s.txns[t].phase == LockRow(i)
    requires LegAt(s.txns[t], i).key !in s.table
    ensures Inv(TakeRow(s, t, i))
  {
    var txn := s.txns[t];
    assert TxnOk(s.catalog, s.table, t, txn);
    if LegAt(txn, i).Increase? {
      NoRowOk(s.catalog, s.table, t, txn, i);
      PhaseKeeps(s, t, txn.(phase := InsertRow(i)));
    } else {
      AbortKeeps(s, t, StockRecordNotFound(LegAt(s.txns[t], i).key));
    }
  }

  lemma InsertedOk(catalog: Catalog, table: Stock, t: nat, txn: Txn, i: nat)
    requires TxnOk(catalog, table, t, txn) && txn.phase == InsertRow(i)
    requires Legs(txn.move)[i].key !in table
    ensures var k := Legs(txn.move)[i].key;
      var txn' := txn.(phase := Update(i, 0), writes := txn.writes[k := 0], inserted := txn.inserted + [k]);
      TxnOk(catalog, table, t, txn') && forall k' :: Holds(txn', k') <==> Holds(txn, k') || k' == k
  {
    LegsDiffer(txn.move);
  }

  lemma {:induction false} InsertKeeps(s: State, t: nat, i: nat)
    requires Inv(s) && t < |s.txns| && s.txns[t].phase == InsertRow(i) && !Blocked(s, t)
    ensures Inv(InsertEmptyRow(s, t, i))
  {
    hide OwnersOk, RowsOk, HistoryOk, MovementsOk, MemoryOk, PublishedOk;
    var txn := s.txns[t];
    assert TxnOk(s.catalog, s.table, t, txn);
    var k := Legs(txn.move)[i].key;
    assert LegAt(txn, i).key == k;
    if k in s.table {
      AbortKeeps(s, t, DuplicateRow);
    } else {
      var txn' := txn.(phase := Update(i, 0), writes := txn.writes[k := 0], inserted := txn.inserted + [k]);
      InsertedOk(s.catalog, s.table, t, txn, i);
      OneMore(s.owners, s.txns, t, txn', k);
      PrivateStep(s, t, txn', s.owners[k := t]);
    }
  }

  lemma UpdatedOk(catalog: Catalog, table: Stock, t: nat, txn: Txn, i: nat, loaded: int)
    requires TxnOk(catalog, table, t, txn) && txn.phase == Update(i, loaded)
    requires LegAt(txn, i).Decrease? ==> loaded >= LegAt(txn, i).quantity
    ensures TxnOk(catalog, table, t, Updated(txn, i, loaded))
    ensures Reached(Updated(txn, i, loaded)) == Reached(txn)
  {
    LegsDiffer(txn.move);
  }

  lemma {:induction false} UpdateKeeps(s: State, t: nat, i: nat, loaded: int)
    requires Inv(s) && t < |s.txns| && s.txns[t].phase == Update(i, loaded)
    ensures Inv(UpdateRow(s, t, i, loaded))
  {
    var txn := s.txns[t];
    assert TxnOk(s.catalog, s.table, t, txn);
    var leg := LegAt(txn, i);
    if leg.Decrease? && loaded < leg.quantity {
      AbortKeeps(s, t, InsufficientStock(leg.key, leg.quantity, loaded));
    } else {
      UpdateSucceeds(s, t, i, loaded);
    }
  }

  lemma {:induction false} UpdateSucceeds(s: State, t: nat, i: nat, loaded: int)
    requires Inv(s) && t < |s.txns| && s.txns[t].phase == Update(i, loaded)
    requires LegAt(s.txns[t], i).Decrease? ==> loaded >= LegAt(s.txns[t], i).quantity
    ensures Inv(SetTxn(s, t, Updated(s.txns[t], i, loaded)))
  {
    var txn := s.txns[t];
    assert TxnOk(s.catalog, s.table, t, txn);
    UpdatedOk(s.catalog, s.table, t, txn, i, loaded);
    PhaseKeeps(s, t, Updated(txn, i, loaded));
  }

  lemma CheckedOk(catalog: Catalog, table: Stock, t: nat, txn: Txn)
    requires TxnOk(catalog, table, t, txn)
    ensures txn.phase.CheckProduct? && txn.move.product in catalog.products ==>
              TxnOk(catalog, table, t, txn.(phase := CheckWarehouse(0)))
    ensures txn.phase.CheckWarehouse? && LegAt(txn, txn.phase.leg).key.warehouse in catalog.warehouses ==>
              TxnOk(catalog, table, t, txn.(phase := LockRow(txn.phase.leg)))
    ensures txn.phase.AppendMovement? ==>
              TxnOk(catalog, table, t, txn.(phase := Commit, pending := [MovementRow(t, txn.move)]))
  {
  }

  lemma {:induction false} CheckProductKeeps(s: State, t: nat)
    requires Inv(s) && t < |s.txns| && s.txns[t].phase.CheckProduct?
    ensures Inv(ProceedTxn(s, t))
  {
    hide OwnersOk, RowsOk, HistoryOk, MovementsOk, MemoryOk, PublishedOk, Legs;
    var txn := s.txns[t];
    CheckedOk(s.catalog, s.table, t, txn);
    if txn.move.product in s.catalog.products {
      PhaseKeeps(s, t, txn.(phase := CheckWarehouse(0)));
    } else {
      AbortKeeps(s, t, ProductNotFound(txn.move.product));
    }
  }

  lemma {:induction false} CheckWarehouseKeeps(s: State, t: nat)
    requires Inv(s) && t < |s.txns| && s.txns[t].phase.CheckWarehouse?
    ensures Inv(ProceedTxn(s, t))
  {
    hide OwnersOk, RowsOk, HistoryOk, MovementsOk, MemoryOk, PublishedOk, Legs;
    var txn := s.txns[t];
    CheckedOk(s.catalog, s.table, t, txn);
    if LegAt(txn, txn.phase.leg).key.warehouse in s.catalog.warehouses {
      PhaseKeeps(s, t, txn.(phase := LockRow(txn.phase.leg)));
    } else {
      AbortKeeps(s, t, WarehouseNotFound(LegAt(txn, txn.phase.leg).key.warehouse));
    }
  }

  lemma {:induction false} AppendKeeps(s: State, t: nat)
    requires Inv(s) && t < |s.txns| && s.txns[t].phase.AppendMovement?
    ensures Inv(ProceedTxn(s, t))
  {
    hide OwnersOk, RowsOk, HistoryOk, MovementsOk, MemoryOk, PublishedOk, Legs;
    var txn := s.txns[t];
    CheckedOk(s.catalog, s.table, t, txn);
    PhaseKeeps(s, t, txn.(phase := Commit, pending := [MovementRow(t, txn.move)]));
  }

  // ---------- The commit ----------

  /** At its commit a transaction's writes are its movement's effect, and the movement is legal. */
  lemma CommitIsEffect(catalog: Catalog, table: Stock, t: nat, txn: Txn)
    requires TxnOk(catalog, table, t, txn) && txn.phase.Commit?
    ensures Legal(catalog, table, txn.move)
    ensures table + txn.writes == Effect(table, txn.move)
    ensures txn.writes.Keys == Touched(txn.move)
  {
    LegsDiffer(txn.move);
    assert forall k :: Holds(txn, k) <==> k in Touched(txn.move);
    assert forall k | k in Touched(txn.move) ::
        k in txn.writes && txn.writes[k] == Quantity(table, k) + Delta(txn.move, k);
  }

  /** No pair is held by two transactions. */
  lemma HoldingsDisjoint(owners: map<Key, nat>, txns: seq<Txn>, t: nat, u: nat, k: Key)
    requires OwnersOk(owners, txns) && t < |txns| && u < |txns| && t != u
    ensures !(Holds(txns[t], k) && Holds(txns[u], k))
  {
    if Holds(txns[t], k) {
      assert k in owners && owners[k] == t;
    }
  }

  /** Another transaction's private state only depends on rows nobody else can commit. */
  lemma OtherKeeps(s: State, t: nat, u: nat)
    requires t < |s.txns| && s.txns[t].phase.Commit? && u < |s.txns| && u != t
    requires TxnOk(s.catalog, s.table, t, s.txns[t]) && TxnOk(s.catalog, s.table, u, s.txns[u])
    requires OwnersOk(s.owners, s.txns)
    ensures TxnOk(s.catalog, s.table + s.txns[t].writes, u, s.txns[u])
  {
    var writes := s.txns[t].writes;
    assert forall k :: k in writes ==> Holds(s.txns[t], k);
    forall k | Holds(s.txns[u], k)
      ensures k !in writes
    {
      HoldingsDisjoint(s.owners, s.txns, t, u, k);
    }
    OtherOk(s.catalog, s.table, writes, u, s.txns[u]);
  }

  lemma OtherOk(catalog: Catalog, table: Stock, writes: Stock, u: nat, other: Txn)
    requires TxnOk(catalog, table, u, other)
    requires forall k :: Holds(other, k) ==> k !in writes
    ensures TxnOk(catalog, table + writes, u, other)
  {
    var legs := Legs(other.move);
    assert Reached(other) >= 1 ==> Holds(other, legs[0].key);
    assert Reached(other) >= 2 && |legs| == 2 ==> Holds(other, legs[1].key);
  }

  lemma RowsGrow(table: Stock, rows: seq<Key>, txn: Txn, catalog: Catalog, t: nat)
    requires RowsOk(table, rows) && TxnOk(catalog, table, t, txn) && txn.phase.Commit?
    ensures RowsOk(table + txn.writes, rows + txn.inserted)
  {
    CommitIsEffect(catalog, table, t, txn);
    var table', rows' := table + txn.writes, rows + txn.inserted;
    forall k
      ensures k in rows' <==> k in table'
    {
      assert k in rows' <==> k in rows || k in txn.inserted;
      if k in txn.writes && k !in table {
        assert txn.move.In? || txn.move.Transfer?;
        assert k == DestinationKey(txn.move);
      }
    }
  }

  lemma {:induction false} HistoryGrows(catalog: Catalog, table: Stock, movements: seq<MovementRow>, t: nat, txn: Txn)
    requires HistoryOk(catalog, table, movements) && TxnOk(catalog, table, t, txn) && txn.phase.Commit?
    ensures HistoryOk(catalog, table + txn.writes, movements + txn.pending)
    ensures forall k | k in Touched(txn.move) ::
              Quantity(txn.writes, k) == Balance(History(movements + txn.pending), k)
  {
    CommitIsEffect(catalog, table, t, txn);
    var history := History(movements);
    assert History(movements + txn.pending) == history + [txn.move];
    ReplaySnoc(history, txn.move);
    LegalSnoc(catalog, history, txn.move);
    forall k | k in Touched(txn.move)
      ensures Quantity(txn.writes, k) == Balance(history + [txn.move], k)
    {
      ReplayIsBalance(catalog, history + [txn.move], k);
      assert Quantity(table + txn.writes, k) == Quantity(txn.writes, k);
    }
  }

  lemma MovementsGrow(movements: seq<MovementRow>, txns: seq<Txn>, t: nat, txn: Txn)
    requires MovementsOk(movements, txns) && t < |txns| && !txns[t].Committed()
    requires txn.Committed() && txn.move == txns[t].move
    ensures MovementsOk(movements + [MovementRow(t, txn.move)], txns[t := txn])
  {
    var movements', txns' := movements + [MovementRow(t, txn.move)], txns[t := txn];
    forall u | 0 <= u < |txns'| && txns'[u].Committed()
      ensures exists i :: 0 <= i < |movements'| && movements'[i].id == u
    {
      if u == t {
        assert movements'[|movements|].id == t;
      } else {
        assert txns[u].Committed();
        var i :| 0 <= i < |movements| && movements[i].id == u;
        assert movements'[i].id == u;
      }
    }
  }

  lemma MemoryGrows(movements: seq<MovementRow>, txns: seq<Txn>, t: nat, txn: Txn)
    requires MovementsOk(movements, txns) && MemoryOk(movements, txns)
    requires t < |txns| && !txns[t].Committed() && txn.Committed()
    requires forall k | k in Touched(txn.move) ::
               Quantity(txn.writes, k) == Balance(History(movements + [MovementRow(t, txn.move)]), k)
    ensures MemoryOk(movements + [MovementRow(t, txn.move)], txns[t := txn])
  {
    var movements', txns' := movements + [MovementRow(t, txn.move)], txns[t := txn];
    forall i, k | 0 <= i < |movements'| && movements'[i].id < |txns'| && k in Touched(movements'[i].move)
      ensures Quantity(txns'[movements'[i].id].writes, k) == Balance(History(movements'[..i + 1]), k)
    {
      if i == |movements| {
        assert movements'[..i + 1] == movements';
      } else {
        assert movements'[..i + 1] == movements[..i + 1];
        assert movements[i].id != t;
        assert k in Touched(movements[i].move);
      }
    }
  }

  lemma PublishedGrows(movements: seq<MovementRow>, txns: seq<Txn>, published: seq<Announcement>,
                       row: MovementRow, t: nat, txn: Txn)
    requires PublishedOk(movements, txns, published) && t < |txns| && !txns[t].Committed()
    ensures PublishedOk(movements + [row], txns[t := txn], published)
  {
    hide AnnouncementOk;
    forall a | a in published
      ensures AnnouncementOk(movements + [row], a)
    {
      AnnouncementGrows(movements, row, a);
    }
  }

  lemma AnnouncementGrows(movements: seq<MovementRow>, row: MovementRow, a: Announcement)
    requires AnnouncementOk(movements, a)
    ensures AnnouncementOk(movements + [row], a)
  {
    hide HistoricalEvent;
    var movements' := movements + [row];
    var i :| 0 <= i < |movements| && movements[i].id == a.id && a.event == HistoricalEvent(History(movements[..i + 1]));
    assert movements'[..i + 1] == movements[..i + 1];
    assert movements'[i].id == a.id;
  }

  lemma CommittedOk(catalog: Catalog, table: Stock, t: nat, txn: Txn)
    requires txn.Committed() && txn.pending == [MovementRow(t, txn.move)]
    ensures TxnOk(catalog, table, t, txn)
    ensures forall k :: !Holds(txn, k)
  {
  }

  lemma {:induction false} CommitKeeps(s: State, t: nat)
    requires Inv(s) && t < |s.txns| && s.txns[t].phase.Commit?
    ensures Inv(CommitTxn(s, t))
  {
    var txn := s.txns[t];
    assert TxnOk(s.catalog, s.table, t, txn);
    var txn' := txn.(phase := Publish);
    CommittedOk(s.catalog, s.table + txn.writes, t, txn');
    HoldsNothing(s.owners, s.txns, t, txn');
    RowsGrow(s.table, s.rows, txn, s.catalog, t);
    HistoryGrows(s.catalog, s.table, s.movements, t, txn);
    MovementsGrow(s.movements, s.txns, t, txn');
    MemoryGrows(s.movements, s.txns, t, txn');
    PublishedGrows(s.movements, s.txns, s.published, MovementRow(t, txn.move), t, txn');
    var s' := CommitTxn(s, t);
    forall u | 0 <= u < |s'.txns|
      ensures TxnOk(s'.catalog, s'.table, u, s'.txns[u])
    {
      if u != t {
        OtherKeeps(s, t, u);
      }
    }
  }

  // ---------- The event ----------

  /** The event built from the rows in memory is the one the history calls for. */
  lemma {:induction false} EventIsHistorical(movements: seq<MovementRow>, txns: seq<Txn>, i: nat)
    requires MovementsOk(movements, txns) && MemoryOk(movements, txns) && i < |movements|
    ensures var txn := txns[movements[i].id];
      MovementEvent(txn.move, InMemory(txn)) == HistoricalEvent(History(movements[..i + 1]))
  {
    hide Balance, Touched, MovementEvent, Quantity, Legs;
    var txn, history := txns[movements[i].id], History(movements[..i + 1]);
    assert history[|history| - 1] == txn.move;
    var keys := Affected(txn.move);
    var balances := seq(|keys|, j requires 0 <= j < |keys| => Balance(history, keys[j]));
    forall j | 0 <= j < |keys|
      ensures InMemory(txn)[j] == balances[j]
    {
      assert keys[j] in Touched(movements[i].move);
    }
    assert InMemory(txn) == balances;
  }

  lemma EventIsAnnounceable(movements: seq<MovementRow>, txns: seq<Txn>, t: nat)
    requires MovementsOk(movements, txns) && MemoryOk(movements, txns)
    requires t < |txns| && txns[t].Committed()
    ensures AnnouncementOk(movements, Announcement(t, MovementEvent(txns[t].move, InMemory(txns[t]))))
  {
    hide MemoryOk, MovementEvent, InMemory;
    var i :| 0 <= i < |movements| && movements[i].id == t;
    EventIsHistorical(movements, txns, i);
  }

  lemma {:induction false} PublishKeeps(s: State, t: nat)
    requires Inv(s) && t < |s.txns| && s.txns[t].phase.Publish?
    ensures Inv(PublishEvent(s, t))
  {
    hide OwnersOk, RowsOk, HistoryOk, MovementsOk, MemoryOk, PublishedOk, MovementEvent, InMemory, Legs, AnnouncementOk;
    var txn := s.txns[t];
    var txn' := txn.(phase := Finished);
    assert TxnOk(s.catalog, s.table, t, txn);
    PhaseKeeps(s, t, txn');
    var a := Announcement(t, MovementEvent(txn.move, InMemory(txn)));
    EventIsAnnounceable(s.movements, s.txns, t);
    Announce(s.movements, s.txns, s.published, t, txn', a);
  }

  lemma Announce(movements: seq<MovementRow>, txns: seq<Txn>, published: seq<Announcement>,
                 t: nat, txn: Txn, a: Announcement)
    requires PublishedOk(movements, txns, published) && t < |txns| && txns[t].phase.Publish?
    requires txn.phase.Finished? && a.id == t && AnnouncementOk(movements, a)
    ensures PublishedOk(movements, txns[t := txn], published + [a])
  {
    assert forall b :: b in published ==> b.id != t;
  }

  // ---------- Every step ----------

  lemma BeginOwners(owners: map<Key, nat>, txns: seq<Txn>, txn: Txn)
    requires OwnersOk(owners, txns) && txn.phase.CheckProduct?
    ensures OwnersOk(owners, txns + [txn])
  {
    assert forall k :: !Holds(txn, k);
  }

  lemma BeginMovements(movements: seq<MovementRow>, txns: seq<Txn>, txn: Txn)
    requires MovementsOk(movements, txns) && txn.phase.CheckProduct?
    ensures MovementsOk(movements, txns + [txn])
  {
    var txns' := txns + [txn];
    forall u | 0 <= u < |txns'| && txns'[u].Committed()
      ensures exists i :: 0 <= i < |movements| && movements[i].id == u
    {
      assert txns[u].Committed();
    }
  }

  lemma BeginPublished(movements: seq<MovementRow>, txns: seq<Txn>, published: seq<Announcement>, txn: Txn)
    requires MovementsOk(movements, txns) && MemoryOk(movements, txns) && PublishedOk(movements, txns, published)
    ensures MemoryOk(movements, txns + [txn]) && PublishedOk(movements, txns + [txn], published)
  {
  }

  lemma BeginOk(catalog: Catalog, table: Stock, t: nat, txn: Txn)
    requires txn == Txn(txn.move, CheckProduct, map[], [], [])
    ensures TxnOk(catalog, table, t, txn)
  {
  }

  lemma {:induction false} BeginKeeps(s: State, m: Movement)
    requires Inv(s)
    ensures Inv(Do(s, Begin(m)))
  {
    var txn := Txn(m, CheckProduct, map[], [], []);
    BeginOwners(s.owners, s.txns, txn);
    BeginMovements(s.movements, s.txns, txn);
    BeginPublished(s.movements, s.txns, s.published, txn);
    BeginOk(s.catalog, s.table, |s.txns|, txn);
  }

  lemma CatalogKeeps(s: State, catalog: Catalog)
    requires Inv(s)
    requires s.catalog.products <= catalog.products && s.catalog.warehouses <= catalog.warehouses
    ensures Inv(s.(catalog := catalog))
  {
    forall t | 0 <= t < |s.txns|
      ensures TxnOk(catalog, s.table, t, s.txns[t])
    {
      assert TxnOk(s.catalog, s.table, t, s.txns[t]);
    }
    var history := History(s.movements);
    forall i | 0 <= i < |history|
      ensures Legal(catalog, Replay(history[..i]), history[i])
    {
      assert Legal(s.catalog, Replay(history[..i]), history[i]);
    }
  }

  lemma {:induction false} LockingKeeps(s: State, t: nat)
    requires Inv(s) && t < |s.txns| && !Blocked(s, t)
    requires s.txns[t].phase.LockRow? || s.txns[t].phase.InsertRow?
    ensures Inv(ProceedTxn(s, t))
  {
    var i := s.txns[t].phase.leg;
    if s.txns[t].phase.InsertRow? {
      InsertKeeps(s, t, i);
    } else if LegAt(s.txns[t], i).key in s.table {
      LockKeeps(s, t, i);
    } else {
      NoRowKeeps(s, t, i);
    }
  }

  lemma {:induction false} ProceedKeeps(s: State, t: nat)
    requires Inv(s) && t < |s.txns| && !Blocked(s, t)
    ensures Inv(ProceedTxn(s, t))
  {
    hide Inv, CommitTxn, PublishEvent, UpdateRow;
    match s.txns[t].phase
    case CheckProduct => CheckProductKeeps(s, t);
    case CheckWarehouse(_) => CheckWarehouseKeeps(s, t);
    case LockRow(_) => LockingKeeps(s, t);
    case InsertRow(_) => LockingKeeps(s, t);
    case Update(i, loaded) =>
      UpdateKeeps(s, t, i, loaded);
      assert ProceedTxn(s, t) == UpdateRow(s, t, i, loaded);
    case AppendMovement => AppendKeeps(s, t);
    case Commit =>
      CommitKeeps(s, t);
      assert ProceedTxn(s, t) == CommitTxn(s, t);
    case Publish =>
      PublishKeeps(s, t);
      assert ProceedTxn(s, t) == PublishEvent(s, t);
    case Finished =>
    case Aborted(_) =>
  }

  lemma {:induction false} InterruptKeeps(s: State, t: nat)
    requires Inv(s) && t < |s.txns|
    ensures Inv(InterruptTxn(s, t))
  {
    hide OwnersOk, RowsOk, HistoryOk, MovementsOk, MemoryOk, PublishedOk;
    if s.txns[t].Open() {
      AbortKeeps(s, t, Interrupted);
    } else if s.txns[t].phase.Publish? {
      assert TxnOk(s.catalog, s.table, t, s.txns[t]);
      PhaseKeeps(s, t, s.txns[t].(phase := Finished));
    }
  }

  lemma {:induction false} DoKeeps(s: State, a: Action)
    requires Inv(s)
    ensures Inv(Do(s, a))
  {
    hide Inv, ProceedTxn, InterruptTxn, Blocked;
    match a
    case Begin(m) => BeginKeeps(s, m);
    case Proceed(t) =>
      if t < |s.txns| && !Blocked(s, t) {
        ProceedKeeps(s, t);
      }
    case Interrupt(t) =>
      if t < |s.txns| {
        InterruptKeeps(s, t);
      }
    case AddProduct(p) => CatalogKeeps(s, s.catalog.(products := s.catalog.products + {p}));
    case AddWarehouse(w) => CatalogKeeps(s, s.catalog.(warehouses := s.catalog.warehouses + {w}));
  }

  /** The invariant holds in every state of every interleaving. */
  lemma {:induction false} ExecKeeps(s: State, run: seq<Action>)
    requires Inv(s)
    ensures Inv(Exec(s, run))
  {
    if run != [] {
      ExecKeeps(s, run[..|run| - 1]);
      DoKeeps(Exec(s, run[..|run| - 1]), run[|run| - 1]);
    }
  }

  lemma InitInv(catalog: Catalog)
    ensures Inv(Init(catalog))
  {
  }
}
