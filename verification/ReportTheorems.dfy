/** Reports against the ledger they summarize, in every state of every interleaving. */
module ReportTheorems {
  import opened Wrappers
  import opened Uuids
  import opened Schema
  import opened Ledger
  import opened Reconciliation
  import opened Reports
  import Transactions
  import LedgerTheorems

  // ---------- Sums over rows ----------

  /** How many rows of a pair are in scope. */
  function RowsAt(rows: seq<Row>, k: Key, scope: Scope): int {
    if rows == [] then 0 else
    RowsAt(rows[..|rows| - 1], k, scope)
    + (if rows[|rows| - 1].key == k && Within(k.warehouse, scope) then 1 else 0)
  }

  ghost predicate HasRow(rows: seq<Row>, k: Key) {
    exists i :: 0 <= i < |rows| && rows[i].key == k
  }

  lemma {:induction false} OneRowAt(rows: seq<Row>, k: Key, scope: Scope)
    requires DistinctKeys(rows)
    ensures RowsAt(rows, k, scope) == if HasRow(rows, k) && Within(k.warehouse, scope) then 1 else 0
  {
    if rows != [] {
      var n := |rows| - 1;
      OneRowAt(rows[..n], k, scope);
      assert forall i | 0 <= i < n :: rows[..n][i] == rows[i];
      if rows[n].key == k {
        assert !HasRow(rows[..n], k);
      } else if HasRow(rows, k) {
        var i :| 0 <= i < |rows| && rows[i].key == k;
        assert rows[..n][i].key == k;
      }
    }
  }

  lemma {:induction false} SameTotal(rows: seq<Row>, f: Row -> int, g: Row -> int, scope: Scope)
    requires forall i :: 0 <= i < |rows| ==> f(rows[i]) == g(rows[i])
    ensures Total(rows, f, scope) == Total(rows, g, scope)
  {
    if rows != [] {
      SameTotal(rows[..|rows| - 1], f, g, scope);
    }
  }

  lemma {:induction false} AddTotals(rows: seq<Row>, f: Row -> int, g: Row -> int, h: Row -> int, scope: Scope)
    requires forall i :: 0 <= i < |rows| ==> h(rows[i]) == f(rows[i]) + g(rows[i])
    ensures Total(rows, h, scope) == Total(rows, f, scope) + Total(rows, g, scope)
  {
    if rows != [] {
      AddTotals(rows[..|rows| - 1], f, g, h, scope);
    }
  }

  /** A weight that is c for the rows of one pair and nothing elsewhere. */
  lemma {:induction false} PointTotal(rows: seq<Row>, f: Row -> int, k: Key, c: int, scope: Scope)
    requires forall i :: 0 <= i < |rows| ==> f(rows[i]) == if rows[i].key == k then c else 0
    ensures Total(rows, f, scope) == c * RowsAt(rows, k, scope)
  {
    if rows != [] {
      PointTotal(rows[..|rows| - 1], f, k, c, scope);
      var r := RowsAt(rows[..|rows| - 1], k, scope);
      assert c * (r + 1) == c * r + c;
    }
  }

  // ---------- The ledger's own totals ----------

  /** What one movement brings into a scope minus what it takes out, each unit at its price. */
  function MovementNet(m: Movement, price: Uuid -> int, scope: Scope): int {
    (if !m.Out? && Within(m.destination, scope) then m.quantity * price(m.product) else 0)
    - (if !m.In? && Within(m.source, scope) then m.quantity * price(m.product) else 0)
  }

  function LedgerNet(history: seq<Movement>, price: Uuid -> int, scope: Scope): int {
    if history == [] then 0
    else LedgerNet(history[..|history| - 1], price, scope)
         + MovementNet(history[|history| - 1], price, scope)
  }

  function Unit(): Uuid -> int { (product: Uuid) => 1 }

  function PriceOf(prices: map<Uuid, int>): Uuid -> int {
    (product: Uuid) => if product in prices then prices[product] else 0
  }

  function BalanceValue(history: seq<Movement>, price: Uuid -> int): Row -> int {
    (row: Row) => Balance(history, row.key) * price(row.key.product)
  }

  function DeltaValue(m: Movement, price: Uuid -> int): Row -> int {
    (row: Row) => Delta(m, row.key) * price(row.key.product)
  }

  function PointValue(k: Key, c: int): Row -> int {
    (row: Row) => if row.key == k then c else 0
  }

  /** What one movement adds to the value of one row. */
  lemma DeltaAt(m: Movement, price: Uuid -> int, row: Row)
    ensures var c := m.quantity * price(m.product);
      DeltaValue(m, price)(row)
      == (if !m.Out? && row.key == DestinationKey(m) then c else 0)
         - (if !m.In? && row.key == SourceKey(m) then c else 0)
  {
    var q, p := m.quantity, price(row.key.product);
    assert (-q) * p == -(q * p);
    Zero(p);
    assert row.key.product != m.product ==> Delta(m, row.key) == 0;
    assert !m.In? && row.key == SourceKey(m) ==> Delta(m, row.key) == -q;
  }

  /** Over rows that include the pairs it touches, a movement changes the total by its net. */
  lemma DeltaTotal(rows: seq<Row>, m: Movement, price: Uuid -> int, scope: Scope)
    requires DistinctKeys(rows) && forall k :: k in Touched(m) ==> HasRow(rows, k)
    ensures Total(rows, DeltaValue(m, price), scope) == MovementNet(m, price, scope)
  {
    hide Total, RowsAt, HasRow, DeltaValue, Delta;
    var c := m.quantity * price(m.product);
    forall i | 0 <= i < |rows|
      ensures DeltaValue(m, price)(rows[i])
              == (if !m.Out? && rows[i].key == DestinationKey(m) then c else 0)
                 - (if !m.In? && rows[i].key == SourceKey(m) then c else 0)
    {
      DeltaAt(m, price, rows[i]);
    }
    match m
    case In(_, _, _) =>
      var d := DestinationKey(m);
      assert d in Touched(m);
      OneRowAt(rows, d, scope);
      PointTotal(rows, DeltaValue(m, price), d, c, scope);
    case Out(_, _, _) =>
      var s := SourceKey(m);
      assert s in Touched(m);
      OneRowAt(rows, s, scope);
      PointTotal(rows, DeltaValue(m, price), s, -c, scope);
    case Transfer(_, _, _, _) =>
      var s, d := SourceKey(m), DestinationKey(m);
      assert s in Touched(m) && d in Touched(m) && s != d;
      OneRowAt(rows, s, scope);
      OneRowAt(rows, d, scope);
      PointTotal(rows, PointValue(s, -c), s, -c, scope);
      PointTotal(rows, PointValue(d, c), d, c, scope);
      AddTotals(rows, PointValue(s, -c), PointValue(d, c), DeltaValue(m, price), scope);
  }

  ghost predicate AllTouchedHaveRows(rows: seq<Row>, history: seq<Movement>) {
    forall i, k :: 0 <= i < |history| && k in Touched(history[i]) ==> HasRow(rows, k)
  }

  /** Summing the balances of all rows is summing the movements. */
  lemma {:induction false} BalanceTotal(rows: seq<Row>, history: seq<Movement>, price: Uuid -> int, scope: Scope)
    requires DistinctKeys(rows) && AllTouchedHaveRows(rows, history)
    ensures Total(rows, BalanceValue(history, price), scope) == LedgerNet(history, price, scope)
  {
    hide Total, HasRow, MovementNet;
    if history == [] {
      forall i | 0 <= i < |rows|
        ensures BalanceValue(history, price)(rows[i]) == 0
      {
        Zero(price(rows[i].key.product));
      }
      ZeroTotal(rows, BalanceValue(history, price), scope);
    } else {
      var n := |history| - 1;
      assert forall i | 0 <= i < n :: history[..n][i] == history[i];
      BalanceTotal(rows, history[..n], price, scope);
      DeltaTotal(rows, history[n], price, scope);
      forall i | 0 <= i < |rows|
        ensures BalanceValue(history, price)(rows[i])
                == BalanceValue(history[..n], price)(rows[i]) + DeltaValue(history[n], price)(rows[i])
      {
        Distribute(Balance(history[..n], rows[i].key), Delta(history[n], rows[i].key), price(rows[i].key.product));
      }
      AddTotals(rows, BalanceValue(history[..n], price), DeltaValue(history[n], price),
                BalanceValue(history, price), scope);
    }
  }

  lemma Zero(a: int)
    ensures 0 * a == 0
  {
  }

  lemma Distribute(a: int, b: int, c: int)
    ensures (a + b) * c == a * c + b * c
  {
  }

  lemma {:induction false} ZeroTotal(rows: seq<Row>, f: Row -> int, scope: Scope)
    requires forall i :: 0 <= i < |rows| ==> f(rows[i]) == 0
    ensures Total(rows, f, scope) == 0
  {
    if rows != [] {
      ZeroTotal(rows[..|rows| - 1], f, scope);
    }
  }

  /** A transfer leaves the total over all warehouses as it is and moves exactly its value from
      one warehouse to the other. */
  lemma TransferShifts(history: seq<Movement>, m: Movement, price: Uuid -> int, w: Uuid)
    requires m.Transfer?
    ensures LedgerNet(history + [m], price, None) == LedgerNet(history, price, None)
    ensures LedgerNet(history + [m], price, Some(w)) == LedgerNet(history, price, Some(w))
            + (if w == m.destination then m.quantity * price(m.product)
               else if w == m.source then -(m.quantity * price(m.product)) else 0)
  {
    assert (history + [m])[..|history|] == history;
  }

  function ReceivedTotal(history: seq<Movement>): int {
    if history == [] then 0
    else ReceivedTotal(history[..|history| - 1])
         + (if history[|history| - 1].In? then history[|history| - 1].quantity else 0)
  }

  function RemovedTotal(history: seq<Movement>): int {
    if history == [] then 0
    else RemovedTotal(history[..|history| - 1])
         + (if history[|history| - 1].Out? then history[|history| - 1].quantity else 0)
  }

  lemma {:induction false} NetIsInMinusOut(history: seq<Movement>)
    ensures LedgerNet(history, Unit(), None) == ReceivedTotal(history) - RemovedTotal(history)
  {
    if history != [] {
      NetIsInMinusOut(history[..|history| - 1]);
    }
  }

  // ---------- Reports in any state of any interleaving ----------

  /** What a query reads at one moment: the committed rows, in some order, each once. */
  ghost predicate Reads(rows: seq<Row>, table: Stock) {
    && DistinctKeys(rows)
    && (forall k :: HasRow(rows, k) <==> k in table)
    && (forall i :: 0 <= i < |rows| ==> rows[i].inventory.quantity == Quantity(table, rows[i].key))
  }

  ghost predicate ReadsWarehouses(warehouses: seq<Warehouse>, catalog: Catalog) {
    DistinctIds(warehouses) && forall w :: w in catalog.warehouses ==> Listed(w, warehouses)
  }

  lemma {:induction false} ReadsCovered(catalog: Catalog, history: seq<Movement>,
                                        rows: seq<Row>, warehouses: seq<Warehouse>)
    requires LegalHistory(catalog, history) && Reads(rows, Replay(history)) && ReadsWarehouses(warehouses, catalog)
    ensures Covered(rows, warehouses)
    ensures AllTouchedHaveRows(rows, history)
  {
    hide Listed;
    forall i | 0 <= i < |rows|
      ensures Listed(rows[i].key.warehouse, warehouses)
    {
      assert HasRow(rows, rows[i].key);
      ReplayIsBalance(catalog, history, rows[i].key);
    }
    forall i, k | 0 <= i < |history| && k in Touched(history[i])
      ensures HasRow(rows, k)
    {
      ReplayRows(history, k);
    }
  }

  /** The rows' values are the ledger's, whatever the scope and the prices. */
  lemma {:induction false} RowsFollowLedger(catalog: Catalog, history: seq<Movement>, rows: seq<Row>,
                                            price: Uuid -> int, value: Row -> int, scope: Scope)
    requires LegalHistory(catalog, history) && Reads(rows, Replay(history)) && AllTouchedHaveRows(rows, history)
    requires forall row: Row :: value(row) == row.inventory.quantity * price(row.key.product)
    ensures Total(rows, value, scope) == LedgerNet(history, price, scope)
  {
    hide Total, LedgerNet, HasRow;
    forall i | 0 <= i < |rows|
      ensures value(rows[i]) == BalanceValue(history, price)(rows[i])
    {
      ReplayIsBalance(catalog, history, rows[i].key);
    }
    SameTotal(rows, value, BalanceValue(history, price), scope);
    BalanceTotal(rows, history, price, scope);
  }

  /** The summary's stock is committed IN minus committed OUT, and each line its warehouse's own net flow. */
  ghost predicate StockIsNet(report: InventorySummaryReport, history: seq<Movement>, warehouses: seq<Warehouse>) {
    && report.totalStockQuantity == ReceivedTotal(history) - RemovedTotal(history)
    && |report.byWarehouse| == |warehouses|
    && forall i :: 0 <= i < |warehouses| ==>
         && report.byWarehouse[i].warehouse == warehouses[i]
         && report.byWarehouse[i].totalQuantity == LedgerNet(history, Unit(), Some(warehouses[i].id))
  }

  /** The same of the valuation, each unit at its product's price. */
  ghost predicate ValueIsNet(report: InventoryValuationReport, history: seq<Movement>,
                             warehouses: seq<Warehouse>, prices: map<Uuid, int>) {
    && report.totalValue == LedgerNet(history, PriceOf(prices), None)
    && |report.byWarehouse| == |warehouses|
    && forall i :: 0 <= i < |warehouses| ==>
         report.byWarehouse[i]
         == WarehouseValuation(warehouses[i], LedgerNet(history, PriceOf(prices), Some(warehouses[i].id)))
  }

  lemma {:induction false} SummaryOfHistory(catalog: Catalog, history: seq<Movement>, rows: seq<Row>,
                                            warehouses: seq<Warehouse>, default: int)
    requires LegalHistory(catalog, history) && Reads(rows, Replay(history)) && ReadsWarehouses(warehouses, catalog)
    ensures StockIsNet(InventorySummary(warehouses, rows, default), history, warehouses)
  {
    hide Total, LedgerNet, SummaryLine, AllTouchedHaveRows, Covered;
    ReadsCovered(catalog, history, rows, warehouses);
    SummaryTotals(warehouses, rows, default);
    RowsFollowLedger(catalog, history, rows, Unit(), QuantityOf(), None);
    NetIsInMinusOut(history);
    forall i | 0 <= i < |warehouses|
      ensures InventorySummary(warehouses, rows, default).byWarehouse[i].totalQuantity
              == LedgerNet(history, Unit(), Some(warehouses[i].id))
      ensures InventorySummary(warehouses, rows, default).byWarehouse[i].warehouse == warehouses[i]
    {
      SummaryLineExact(warehouses[i], rows, default);
      RowsFollowLedger(catalog, history, rows, Unit(), QuantityOf(), Some(warehouses[i].id));
    }
  }

  lemma {:induction false} ValuationOfHistory(catalog: Catalog, history: seq<Movement>, rows: seq<Row>,
                                              warehouses: seq<Warehouse>, prices: map<Uuid, int>)
    requires LegalHistory(catalog, history) && Reads(rows, Replay(history)) && ReadsWarehouses(warehouses, catalog)
    ensures ValueIsNet(Valuation(warehouses, rows, prices), history, warehouses, prices)
  {
    hide Total, LedgerNet, LeftJoin, AllTouchedHaveRows, Covered;
    ReadsCovered(catalog, history, rows, warehouses);
    ValuationTotals(warehouses, rows, prices);
    RowsFollowLedger(catalog, history, rows, PriceOf(prices), ValueOf(prices), None);
    forall i | 0 <= i < |warehouses|
      ensures Total(rows, ValueOf(prices), Some(warehouses[i].id))
              == LedgerNet(history, PriceOf(prices), Some(warehouses[i].id))
    {
      RowsFollowLedger(catalog, history, rows, PriceOf(prices), ValueOf(prices), Some(warehouses[i].id));
    }
  }

  /** A summary taken at any point of any interleaving totals committed IN minus committed OUT,
      so never half a transfer, and each warehouse's line is its own net flow. */
  lemma SummaryFollowsLedger(s: Transactions.State, rows: seq<Row>, warehouses: seq<Warehouse>, default: int)
    requires LedgerTheorems.Reachable(s) && Reads(rows, s.table) && ReadsWarehouses(warehouses, s.catalog)
    ensures StockIsNet(InventorySummary(warehouses, rows, default), Transactions.History(s.movements), warehouses)
  {
    LedgerTheorems.Serializable(s);
    SummaryOfHistory(s.catalog, Transactions.History(s.movements), rows, warehouses, default);
  }

  /** A valuation taken at any point of any interleaving is the committed movements' value: the
      total over IN minus OUT at each product's price, and each line its warehouse's own. */
  lemma ValuationFollowsLedger(s: Transactions.State, rows: seq<Row>,
                               warehouses: seq<Warehouse>, prices: map<Uuid, int>)
    requires LedgerTheorems.Reachable(s) && Reads(rows, s.table) && ReadsWarehouses(warehouses, s.catalog)
    ensures ValueIsNet(Valuation(warehouses, rows, prices), Transactions.History(s.movements), warehouses, prices)
  {
    LedgerTheorems.Serializable(s);
    ValuationOfHistory(s.catalog, Transactions.History(s.movements), rows, warehouses, prices);
  }

  /** Between a state and one where exactly one more transfer has committed, the valuation report
      keeps its total and moves the transfer's value from the source's line to the destination's. */
  lemma {:induction false} TransferConservesValuation(s: Transactions.State, s': Transactions.State, m: Movement,
                                                     rows: seq<Row>, rows': seq<Row>,
                                                     warehouses: seq<Warehouse>, prices: map<Uuid, int>)
    requires LedgerTheorems.Reachable(s) && LedgerTheorems.Reachable(s') && s'.catalog == s.catalog
    requires m.Transfer? && Transactions.History(s'.movements) == Transactions.History(s.movements) + [m]
    requires Reads(rows, s.table) && Reads(rows', s'.table) && ReadsWarehouses(warehouses, s.catalog)
    ensures var before, after := Valuation(warehouses, rows, prices), Valuation(warehouses, rows', prices);
      && after.totalValue == before.totalValue
      && |after.byWarehouse| == |before.byWarehouse|
      && forall i :: 0 <= i < |warehouses| ==>
           var value, w := m.quantity * PriceOf(prices)(m.product), warehouses[i].id;
           after.byWarehouse[i].totalValue == before.byWarehouse[i].totalValue
             + (if w == m.destination then value else if w == m.source then -value else 0)
  {
    hide LedgerNet, Reads, ReadsWarehouses, Valuation;
    var history := Transactions.History(s.movements);
    ValuationFollowsLedger(s, rows, warehouses, prices);
    ValuationFollowsLedger(s', rows', warehouses, prices);
    TransferShifts(history, m, PriceOf(prices), 0);
    forall i | 0 <= i < |warehouses|
      ensures var value, w := m.quantity * PriceOf(prices)(m.product), warehouses[i].id;
        LedgerNet(history + [m], PriceOf(prices), Some(w)) == LedgerNet(history, PriceOf(prices), Some(w))
          + (if w == m.destination then value else if w == m.source then -value else 0)
    {
      TransferShifts(history, m, PriceOf(prices), warehouses[i].id);
    }
  }
}
