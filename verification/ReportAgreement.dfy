/** Reports against the alert table: in a state where alerts agree with stock, what a summary
    counts is what the alert table holds. */
module ReportAgreement {
  import opened Wrappers
  import opened Uuids
  import opened Schema
  import opened Ledger
  import opened AlertRules
  import opened Reconciliation
  import opened Reports
  import opened ReportTheorems
  import opened Worlds

  // ---------- Counting active alerts ----------

  predicate Matches(alert: Alert, only: Option<AlertType>) {
    alert.status.ACTIVE? && (only.None? || alert.alertType == only.value)
  }

  /** The active alerts in scope, of one type or of any. */
  function ActiveAlerts(alerts: seq<Alert>, only: Option<AlertType>, scope: Scope): nat {
    if alerts == [] then 0 else
    var alert := alerts[|alerts| - 1];
    ActiveAlerts(alerts[..|alerts| - 1], only, scope)
    + (if Matches(alert, only) && Within(alert.key.warehouse, scope) then 1 else 0)
  }

  /** Those of one pair. */
  function Held(alerts: seq<Alert>, only: Option<AlertType>, k: Key): nat {
    if alerts == [] then 0 else
    var alert := alerts[|alerts| - 1];
    Held(alerts[..|alerts| - 1], only, k) + (if Matches(alert, only) && alert.key == k then 1 else 0)
  }

  function HeldBy(alerts: seq<Alert>, only: Option<AlertType>): Row -> int {
    (row: Row) => Held(alerts, only, row.key)
  }

  ghost predicate AlertsHaveRows(alerts: seq<Alert>, rows: seq<Row>) {
    forall i :: 0 <= i < |alerts| && alerts[i].status.ACTIVE? ==> HasRow(rows, alerts[i].key)
  }

  /** Counting alerts is counting them row by row. */
  lemma {:induction false} AlertsByRow(alerts: seq<Alert>, rows: seq<Row>, only: Option<AlertType>, scope: Scope)
    requires DistinctKeys(rows) && AlertsHaveRows(alerts, rows)
    ensures Total(rows, HeldBy(alerts, only), scope) == ActiveAlerts(alerts, only, scope)
  {
    hide Total, HasRow, RowsAt;
    if alerts == [] {
      ZeroTotal(rows, HeldBy(alerts, only), scope);
    } else {
      var n := |alerts| - 1;
      var alert := alerts[n];
      assert forall i | 0 <= i < n :: alerts[..n][i] == alerts[i];
      AlertsByRow(alerts[..n], rows, only, scope);
      var c := if Matches(alert, only) then 1 else 0;
      PointTotal(rows, PointValue(alert.key, c), alert.key, c, scope);
      AddTotals(rows, HeldBy(alerts[..n], only), PointValue(alert.key, c), HeldBy(alerts, only), scope);
      if c == 1 {
        OneRowAt(rows, alert.key, scope);
      }
    }
  }

  lemma {:induction false} NoneHeld(alerts: seq<Alert>, only: Option<AlertType>, k: Key)
    requires forall i :: !IsActive(alerts, k, i)
    ensures Held(alerts, only, k) == 0
  {
    if alerts != [] {
      var n := |alerts| - 1;
      assert !IsActive(alerts, k, n);
      assert forall i :: IsActive(alerts[..n], k, i) ==> IsActive(alerts, k, i);
      NoneHeld(alerts[..n], only, k);
    }
  }

  lemma {:induction false} OneHeld(alerts: seq<Alert>, only: Option<AlertType>, k: Key, id: nat)
    requires AtMostOneActive(alerts, k) && IsActive(alerts, k, id)
    ensures Held(alerts, only, k) == if Matches(alerts[id], only) then 1 else 0
  {
    var n := |alerts| - 1;
    assert forall i :: IsActive(alerts[..n], k, i) ==> IsActive(alerts, k, i);
    if id == n {
      NoneHeld(alerts[..n], only, k);
    } else {
      assert IsActive(alerts[..n], k, id) && !IsActive(alerts, k, n);
      OneHeld(alerts[..n], only, k, id);
    }
  }

  /** A pair holds an alert when its current condition is not OK, an OUT_OF_STOCK one when it is OUT. */
  lemma HeldIsCurrent(alerts: seq<Alert>, k: Key)
    requires AtMostOneActive(alerts, k)
    ensures Held(alerts, None, k) == if Current(alerts, k) != OK then 1 else 0
    ensures Held(alerts, Some(OUT_OF_STOCK), k) == if Current(alerts, k) == Condition.OUT then 1 else 0
  {
    CurrentIs(alerts, k);
    if id :| IsActive(alerts, k, id) {
      OneHeld(alerts, None, k, id);
      OneHeld(alerts, Some(OUT_OF_STOCK), k, id);
    } else {
      NoneHeld(alerts, None, k);
      NoneHeld(alerts, Some(OUT_OF_STOCK), k);
    }
  }

  // ---------- Rows that are empty but above their threshold ----------

  /** An empty row whose threshold is negative: counted as out of stock, but no alert is due. */
  predicate Unwatched(row: Row, default: int) {
    row.inventory.quantity == 0 && Threshold(row.inventory, default) < 0
  }

  function UnwatchedIn(default: int): Row -> int {
    (row: Row) => if Unwatched(row, default) then 1 else 0
  }

  lemma {:induction false} NothingUnwatched(rows: seq<Row>, default: int, scope: Scope)
    ensures Total(rows, UnwatchedIn(default), scope) >= 0
    ensures Total(rows, UnwatchedIn(default), scope) == 0 <==>
              forall i :: 0 <= i < |rows| && Within(rows[i].key.warehouse, scope) ==> !Unwatched(rows[i], default)
  {
    if rows != [] {
      var n := |rows| - 1;
      NothingUnwatched(rows[..n], default, scope);
      assert forall i | 0 <= i < n :: rows[..n][i] == rows[i];
    }
  }

  /** In agreement, the low-stock count is the number of active alerts, and the out-of-stock
      count is that of OUT_OF_STOCK alerts exactly when no empty row has a negative threshold. */
  lemma CountsAreAlerts(w: World, order: seq<Key>, scope: Scope)
    requires InAgreement(w) && Lists(order, w.inventories)
    ensures var rows := RowsOf(w.inventories, order);
      && Total(rows, IsLow(w.default), scope) == ActiveAlerts(w.alerts, None, scope)
      && Total(rows, IsOut(), scope)
         == ActiveAlerts(w.alerts, Some(OUT_OF_STOCK), scope) + Total(rows, UnwatchedIn(w.default), scope)
  {
    hide Total, HasRow, ActiveAlerts, Held, Current;
    var rows := RowsOf(w.inventories, order);
    AgreementHasRows(w, order);
    AlertsByRow(w.alerts, rows, None, scope);
    AlertsByRow(w.alerts, rows, Some(OUT_OF_STOCK), scope);
    forall i | 0 <= i < |rows|
      ensures IsLow(w.default)(rows[i]) == HeldBy(w.alerts, None)(rows[i])
      ensures IsOut()(rows[i])
              == HeldBy(w.alerts, Some(OUT_OF_STOCK))(rows[i]) + UnwatchedIn(w.default)(rows[i])
    {
      assert order[i] in order;
      HeldIsCurrent(w.alerts, order[i]);
      assert Current(w.alerts, order[i]) == Expected(w, order[i]);
    }
    SameTotal(rows, IsLow(w.default), HeldBy(w.alerts, None), scope);
    AddTotals(rows, HeldBy(w.alerts, Some(OUT_OF_STOCK)), UnwatchedIn(w.default), IsOut(), scope);
  }

  lemma AgreementHasRows(w: World, order: seq<Key>)
    requires InAgreement(w) && Lists(order, w.inventories)
    ensures DistinctKeys(RowsOf(w.inventories, order))
    ensures AlertsHaveRows(w.alerts, RowsOf(w.inventories, order))
  {
    hide Current;
    var rows := RowsOf(w.inventories, order);
    forall i | 0 <= i < |w.alerts| && w.alerts[i].status.ACTIVE?
      ensures HasRow(rows, w.alerts[i].key)
    {
      var k := w.alerts[i].key;
      assert IsActive(w.alerts, k, i);
      CurrentIs(w.alerts, k);
      assert Expected(w, k) != OK;
      var j :| 0 <= j < |order| && order[j] == k;
      assert rows[j].key == k;
    }
  }

  // ---------- Counting products ----------

  ghost function Products(rows: seq<Row>, w: Uuid): set<Uuid> {
    set i | 0 <= i < |rows| && rows[i].key.warehouse == w :: rows[i].key.product
  }

  /** The last row adds its product, and one not seen before, if it is the warehouse's. */
  lemma OneMoreProduct(rows: seq<Row>, w: Uuid)
    requires DistinctKeys(rows) && rows != []
    ensures var before, row := Products(rows[..|rows| - 1], w), rows[|rows| - 1];
      if row.key.warehouse != w then Products(rows, w) == before
      else row.key.product !in before && Products(rows, w) == before + {row.key.product}
  {
    var n := |rows| - 1;
    var before, row := Products(rows[..n], w), rows[n];
    forall p
      ensures p in Products(rows, w) <==> p in before || (row.key.warehouse == w && p == row.key.product)
    {
      if p in before {
        var i :| 0 <= i < n && rows[..n][i].key == Key(p, w);
        assert rows[i].key == Key(p, w);
      }
      if i :| 0 <= i < n && rows[i].key == Key(p, w) {
        assert rows[..n][i].key == Key(p, w);
      }
    }
  }

  /** The row count of a warehouse is its number of different products, because pairs are unique. */
  lemma {:induction false} RowsAreProducts(rows: seq<Row>, w: Uuid)
    requires DistinctKeys(rows)
    ensures Total(rows, Each(), Some(w)) == |Products(rows, w)|
  {
    hide Products;
    if rows == [] {
      NoProducts(w);
    } else {
      RowsAreProducts(rows[..|rows| - 1], w);
      OneMoreProduct(rows, w);
    }
  }

  lemma NoProducts(w: Uuid)
    ensures Products([], w) == {}
  {
  }

  // ---------- The whole summary ----------

  ghost predicate LineAgrees(line: WarehouseStockSummary, w: World, rows: seq<Row>) {
    var scope := Some(line.warehouse.id);
    && line.distinctProducts == |Products(rows, line.warehouse.id)|
    && line.lowStockCount == ActiveAlerts(w.alerts, None, scope)
    && (line.outOfStockCount == ActiveAlerts(w.alerts, Some(OUT_OF_STOCK), scope) <==>
          forall i :: 0 <= i < |rows| && rows[i].key.warehouse == line.warehouse.id ==>
            !Unwatched(rows[i], w.default))
  }

  /** A summary in an agreed state, line by line and in total. */
  lemma SummaryAgreesWithAlerts(w: World, order: seq<Key>, warehouses: seq<Warehouse>)
    requires InAgreement(w) && Lists(order, w.inventories)
    requires DistinctIds(warehouses) && Covered(RowsOf(w.inventories, order), warehouses)
    ensures var rows := RowsOf(w.inventories, order);
            var report := InventorySummary(warehouses, rows, w.default);
      && report.lowStockCount == ActiveAlerts(w.alerts, None, None)
      && (report.outOfStockCount == ActiveAlerts(w.alerts, Some(OUT_OF_STOCK), None) <==>
            forall i :: 0 <= i < |rows| ==> !Unwatched(rows[i], w.default))
      && |report.byWarehouse| == |warehouses|
      && forall j :: 0 <= j < |warehouses| ==>
           report.byWarehouse[j].warehouse == warehouses[j] && LineAgrees(report.byWarehouse[j], w, rows)
  {
    hide InAgreement, Lists, Total, SummaryLine, ActiveAlerts, Products, SumLines, DistinctIds, Covered;
    var rows := RowsOf(w.inventories, order);
    var report := InventorySummary(warehouses, rows, w.default);
    SummaryTotals(warehouses, rows, w.default);
    CountsAreAlerts(w, order, None);
    NothingUnwatched(rows, w.default, None);
    AgreementHasRows(w, order);
    forall j | 0 <= j < |warehouses|
      ensures report.byWarehouse[j].warehouse == warehouses[j] && LineAgrees(report.byWarehouse[j], w, rows)
    {
      var id := warehouses[j].id;
      SummaryLineExact(warehouses[j], rows, w.default);
      CountsAreAlerts(w, order, Some(id));
      NothingUnwatched(rows, w.default, Some(id));
      RowsAreProducts(rows, id);
    }
  }

  // ---------- Every view of the same state ----------

  lemma RowsRead(w: World, order: seq<Key>)
    requires Lists(order, w.inventories)
    ensures Reads(RowsOf(w.inventories, order), Quantities(w.inventories))
  {
    var rows := RowsOf(w.inventories, order);
    forall k
      ensures HasRow(rows, k) <==> k in w.inventories
    {
      assert forall j | 0 <= j < |order| :: rows[j].key == order[j] && order[j] in order;
      if k in w.inventories {
        var j :| 0 <= j < |order| && order[j] == k;
        assert rows[j].key == k;
      }
    }
    forall i | 0 <= i < |rows|
      ensures rows[i].inventory.quantity == Quantity(Quantities(w.inventories), rows[i].key)
    {
      assert order[i] in order;
    }
  }

  /** After any run of movements from empty tables, ledger, stock, alerts and reports all say the
      same, line by line and in total: stock and value are the ledger's net, the low counts are
      the active alerts, and the out-of-stock counts are the OUT_OF_STOCK alerts unless the
      default threshold is negative and some row is empty. */
  lemma {:induction false} AllViewsAgree(catalog: Catalog, default: int, ops: seq<Op>,
                                         order: seq<Key>, warehouses: seq<Warehouse>, prices: map<Uuid, int>)
    requires forall i :: 0 <= i < |ops| ==> IsMovement(ops[i])
    requires Lists(order, Run(Empty(catalog, default), ops).inventories)
    requires ReadsWarehouses(warehouses, catalog)
    ensures var w := Run(Empty(catalog, default), ops);
            var rows := RowsOf(w.inventories, order);
            var report := InventorySummary(warehouses, rows, default);
      && LegalHistory(catalog, w.movements) && Quantities(w.inventories) == Replay(w.movements)
      && StockIsNet(report, w.movements, warehouses)
      && ValueIsNet(Valuation(warehouses, rows, prices), w.movements, warehouses, prices)
      && report.lowStockCount == ActiveAlerts(w.alerts, None, None)
      && (report.outOfStockCount == ActiveAlerts(w.alerts, Some(OUT_OF_STOCK), None) <==>
            default >= 0 || forall i :: 0 <= i < |rows| ==> rows[i].inventory.quantity != 0)
      && (forall j :: 0 <= j < |warehouses| ==> LineAgrees(report.byWarehouse[j], w, rows))
  {
    hide Run, Total, LedgerNet, ActiveAlerts, Covered, AllTouchedHaveRows, Reads;
    hide InventorySummary, Valuation, LineAgrees, StockIsNet, ValueIsNet;
    var w := Run(Empty(catalog, default), ops);
    var rows := RowsOf(w.inventories, order);
    AlertsFollowLedger(catalog, default, ops, Key(0, 0));
    MovementsObserved(catalog, default, ops, Key(0, 0));
    RowsRead(w, order);
    ReadsCovered(catalog, w.movements, rows, warehouses);
    SummaryOfHistory(catalog, w.movements, rows, warehouses, default);
    ValuationOfHistory(catalog, w.movements, rows, warehouses, prices);
    SummaryAgreesWithAlerts(w, order, warehouses);
    forall i | 0 <= i < |rows|
      ensures Threshold(rows[i].inventory, default) == default
    {
      assert order[i] in order;
    }
  }

  /** However far quantities, thresholds and alerts have drifted, a summary taken after a sweep
      agrees with the alert table. */
  lemma SweepThenReport(catalog: Catalog, default: int, ops: seq<Op>, order: seq<Key>, warehouses: seq<Warehouse>)
    requires Lists(order, Run(Empty(catalog, default), ops).inventories)
    requires DistinctIds(warehouses)
    requires Covered(RowsOf(Run(Empty(catalog, default), ops).inventories, order), warehouses)
    ensures var w := Do(Run(Empty(catalog, default), ops), Sweep(order));
            var rows := RowsOf(w.inventories, order);
            var report := InventorySummary(warehouses, rows, w.default);
      && report.lowStockCount == ActiveAlerts(w.alerts, None, None)
      && (report.outOfStockCount == ActiveAlerts(w.alerts, Some(OUT_OF_STOCK), None) <==>
            forall i :: 0 <= i < |rows| ==> !Unwatched(rows[i], w.default))
      && forall j :: 0 <= j < |warehouses| ==> LineAgrees(report.byWarehouse[j], w, rows)
  {
    hide Run, Do, InAgreement, Lists, InventorySummary, ActiveAlerts, LineAgrees, Covered, Unwatched;
    SweepRepairs(catalog, default, ops, order, order);
    SummaryAgreesWithAlerts(Do(Run(Empty(catalog, default), ops), Sweep(order)), order, warehouses);
  }

  /** The out-of-stock figures do part. With a default threshold of -1, receive one unit and
      remove it again: the row is counted as out of stock, but no alert is active. */
  lemma EmptyRowWithoutAlert()
    ensures var ops := [RecordMovement(In(0, 0, 1)), RecordMovement(Out(0, 0, 1))];
            var w := Run(Empty(Catalog({0}, {0}), -1), ops);
      && w.inventories == map[Key(0, 0) := Inventory(0, None)]
      && InventorySummary([Warehouse(0, "main")], RowsOf(w.inventories, [Key(0, 0)]), -1).outOfStockCount == 1
      && ActiveAlerts(w.alerts, Some(OUT_OF_STOCK), None) == 0
  {
    hide Run, ActiveAlerts, Total, InAgreement, LedgerOk, InventorySummary;
    var ops := [RecordMovement(In(0, 0, 1)), RecordMovement(Out(0, 0, 1))];
    var w := Run(Empty(Catalog({0}, {0}), -1), ops);
    BackToZero();
    AgreedAfter(Catalog({0}, {0}), -1, ops);
    var row := Row(Key(0, 0), Inventory(0, None));
    assert RowsOf(w.inventories, [Key(0, 0)]) == [row];
    EmptyRowTotals(row);
    EmptyRowSummary(row);
    CountsAreAlerts(w, [Key(0, 0)], None);
  }

  lemma {:induction false} AgreedAfter(catalog: Catalog, default: int, ops: seq<Op>)
    requires forall i :: 0 <= i < |ops| ==> IsMovement(ops[i])
    ensures var w := Run(Empty(catalog, default), ops);
      InAgreement(w) && w.default == default
  {
    hide Run, InAgreement, LedgerOk;
    EmptyAgrees(catalog, default);
    MovementsKeepAgreement(Empty(catalog, default), ops);
    MovementsObserved(catalog, default, ops, Key(0, 0));
  }

  lemma EmptyRowSummary(row: Row)
    requires row == Row(Key(0, 0), Inventory(0, None))
    ensures InventorySummary([Warehouse(0, "main")], [row], -1).outOfStockCount == 1
  {
    hide Total, InventorySummary;
    var warehouses := [Warehouse(0, "main")];
    assert warehouses[0].id == 0;
    SummaryTotals(warehouses, [row], -1);
    EmptyRowTotals(row);
  }

  lemma EmptyRowTotals(row: Row)
    requires row.inventory == Inventory(0, None)
    ensures Total([row], IsOut(), None) == Total([row], UnwatchedIn(-1), None) == 1
  {
    assert [row][..0] == [];
  }

  lemma RunTwo(w: World, a: Op, b: Op)
    ensures Run(w, [a, b]) == Do(Do(w, a), b)
  {
    hide Do;
    assert [a, b][..1] == [a] && [a][..0] == [];
    assert Run(w, [a]) == Do(Run(w, []), a);
  }

  /** After movements alone the rows are the replayed stock, without thresholds of their own. */
  lemma RowsAreReplay(w: World)
    requires LedgerOk(w)
    ensures w.inventories == WithQuantities(map[], Replay(w.movements))
  {
    hide LegalHistory, Replay;
    var inventories := w.inventories;
    assert inventories.Keys == Quantities(inventories).Keys;
    forall k | k in inventories
      ensures inventories[k] == Inventory(Replay(w.movements)[k], None)
    {
      assert Quantities(inventories)[k] == inventories[k].quantity;
    }
  }

  /** One more movement that the ledger allows. */
  lemma OneMovement(w: World, m: Movement, history: seq<Movement>)
    requires LedgerOk(w) && w.movements == history && Legal(w.catalog, Replay(history), m)
    ensures var w' := Do(w, RecordMovement(m));
      LedgerOk(w') && w'.movements == history + [m] && w'.catalog == w.catalog
  {
    hide Record, Legal, LedgerOk;
    RecordKeepsLedger(w, m);
    RecordDefault(w, m);
  }

  lemma BackToZero()
    ensures Run(Empty(Catalog({0}, {0}), -1), [RecordMovement(In(0, 0, 1)), RecordMovement(Out(0, 0, 1))]).inventories
            == map[Key(0, 0) := Inventory(0, None)]
  {
    hide Do, Run, LedgerOk, Replay;
    var w, received, removed: Movement := Empty(Catalog({0}, {0}), -1), In(0, 0, 1), Out(0, 0, 1);
    var w1 := Do(w, RecordMovement(received));
    var w2 := Do(w1, RecordMovement(removed));
    StockThenNone();
    EmptyLedger(w.catalog, w.default, Key(0, 0));
    OneMovement(w, received, []);
    assert [] + [received] == [received] && [received] + [removed] == [received, removed];
    OneMovement(w1, removed, [received]);
    RowsAreReplay(w2);
    RunTwo(w, RecordMovement(received), RecordMovement(removed));
  }

  lemma StockThenNone()
    ensures Replay([]) == map[]
    ensures Replay([In(0, 0, 1)]) == map[Key(0, 0) := 1]
    ensures Replay([In(0, 0, 1), Out(0, 0, 1)]) == map[Key(0, 0) := 0]
  {
    var received, removed: Movement := In(0, 0, 1), Out(0, 0, 1);
    ReplaySnoc([], received);
    ReplaySnoc([received], removed);
    assert [] + [received] == [received] && [received] + [removed] == [received, removed];
    assert Effect(map[], received) == map[Key(0, 0) := 1];
    assert Effect(map[Key(0, 0) := 1], removed) == map[Key(0, 0) := 0];
  }
}
