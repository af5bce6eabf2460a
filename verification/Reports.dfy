/** The aggregate reports, as the SQL computes them: a left join from warehouses to inventory
    rows, grouped by warehouse, with COUNT and SUM ignoring nulls, and totals over the groups. */
module Reports {
  import opened Wrappers
  import opened Uuids
  import opened AlertRules
  import opened Reconciliation

  datatype Warehouse = Warehouse(id: Uuid, name: string)

  datatype WarehouseStockSummary = WarehouseStockSummary(
    warehouse: Warehouse,
    distinctProducts: int,
    totalQuantity: int,
    lowStockCount: int,
    outOfStockCount: int)

  datatype InventorySummaryReport = InventorySummaryReport(
    totalWarehouses: nat,
    totalStockQuantity: int,
    lowStockCount: int,
    outOfStockCount: int,
    byWarehouse: seq<WarehouseStockSummary>)

  datatype WarehouseValuation = WarehouseValuation(warehouse: Warehouse, totalValue: int)

  datatype InventoryValuationReport = InventoryValuationReport(
    totalValue: int,
    byWarehouse: seq<WarehouseValuation>)

  /** The rows joined to one warehouse; a warehouse without rows keeps one row of nulls. */
  function LeftJoin(w: Uuid, rows: seq<Row>): seq<Option<Row>> {
    var matching := Matching(w, rows);
    if matching == [] then [None] else matching
  }

  function Matching(w: Uuid, rows: seq<Row>): seq<Option<Row>> {
    if rows == [] then [] else
    var row := rows[|rows| - 1];
    Matching(w, rows[..|rows| - 1]) + (if row.key.warehouse == w then [Some(row)] else [])
  }

  /** SUM of an expression that is null where the row is null: null if there is nothing to add. */
  function SqlSum(group: seq<Option<Row>>, weight: Row -> int): Option<int> {
    if group == [] then None else
    var sum := SqlSum(group[..|group| - 1], weight);
    match group[|group| - 1]
    case None => sum
    case Some(row) => Some(weight(row) + (if sum.Some? then sum.value else 0))
  }

  function Coalesce(value: Option<int>, default: int): int {
    if value.Some? then value.value else default
  }

  /** COUNT of a case expression: rows for which it is not null. */
  function SqlCount(group: seq<Option<Row>>, weight: Row -> int): int {
    Coalesce(SqlSum(group, weight), 0)
  }

  // What each column adds for one row.

  function Each(): Row -> int { (row: Row) => 1 }

  function QuantityOf(): Row -> int { (row: Row) => row.inventory.quantity }

  function IsLow(default: int): Row -> int {
    (row: Row) => if row.inventory.quantity <= Threshold(row.inventory, default) then 1 else 0
  }

  function IsOut(): Row -> int { (row: Row) => if row.inventory.quantity == 0 then 1 else 0 }

  /** Quantity times price; nothing when the product is not joined. Prices are in cents. */
  function ValueOf(prices: map<Uuid, int>): Row -> int {
    (row: Row) => if row.key.product in prices then row.inventory.quantity * prices[row.key.product] else 0
  }

  function SummaryLine(w: Warehouse, rows: seq<Row>, default: int): WarehouseStockSummary {
    var group := LeftJoin(w.id, rows);
    WarehouseStockSummary(
      w,
      SqlCount(group, Each()),
      Coalesce(SqlSum(group, QuantityOf()), 0),
      SqlCount(group, IsLow(default)),
      SqlCount(group, IsOut()))
  }

  function SumLines<T>(lines: seq<T>, figure: T -> int): int {
    if lines == [] then 0 else SumLines(lines[..|lines| - 1], figure) + figure(lines[|lines| - 1])
  }

  function TotalQuantity(): WarehouseStockSummary -> int { (line: WarehouseStockSummary) => line.totalQuantity }

  function LowStockCount(): WarehouseStockSummary -> int { (line: WarehouseStockSummary) => line.lowStockCount }

  function OutOfStockCount(): WarehouseStockSummary -> int { (line: WarehouseStockSummary) => line.outOfStockCount }

  function TotalValue(): WarehouseValuation -> int { (line: WarehouseValuation) => line.totalValue }

  function InventorySummary(warehouses: seq<Warehouse>, rows: seq<Row>, default: int): InventorySummaryReport {
    var lines := seq(|warehouses|, i requires 0 <= i < |warehouses| => SummaryLine(warehouses[i], rows, default));
    InventorySummaryReport(
      |lines|,
      SumLines(lines, TotalQuantity()),
      SumLines(lines, LowStockCount()),
      SumLines(lines, OutOfStockCount()),
      lines)
  }

  function Valuation(warehouses: seq<Warehouse>, rows: seq<Row>, prices: map<Uuid, int>): InventoryValuationReport {
    var lines := seq(|warehouses|, i requires 0 <= i < |warehouses| =>
      WarehouseValuation(warehouses[i], Coalesce(SqlSum(LeftJoin(warehouses[i].id, rows), ValueOf(prices)), 0)));
    InventoryValuationReport(SumLines(lines, TotalValue()), lines)
  }

  // ---------- What the figures are ----------

  /** One warehouse, or all of them. */
  type Scope = Option<Uuid>

  predicate Within(w: Uuid, scope: Scope) {
    scope.None? || scope.value == w
  }

  /** A plain sum over the rows in scope: the reference for every column. */
  function Total(rows: seq<Row>, weight: Row -> int, scope: Scope): int {
    if rows == [] then 0 else
    var row := rows[|rows| - 1];
    Total(rows[..|rows| - 1], weight, scope) + (if Within(row.key.warehouse, scope) then weight(row) else 0)
  }

  lemma {:induction false} MatchingSum(w: Uuid, rows: seq<Row>, weight: Row -> int)
    ensures Coalesce(SqlSum(Matching(w, rows), weight), 0) == Total(rows, weight, Some(w))
  {
    if rows != [] {
      var n := |rows| - 1;
      MatchingSum(w, rows[..n], weight);
      var before := Matching(w, rows[..n]);
      if rows[n].key.warehouse == w {
        assert (before + [Some(rows[n])])[..|before|] == before;
      } else {
        assert before + [] == before;
      }
    }
  }

  /** The null row of an empty warehouse adds nothing to any column. */
  lemma ColumnIsTotal(w: Uuid, rows: seq<Row>, weight: Row -> int)
    ensures Coalesce(SqlSum(LeftJoin(w, rows), weight), 0) == Total(rows, weight, Some(w))
  {
    MatchingSum(w, rows, weight);
    if Matching(w, rows) == [] {
      var nulls: seq<Option<Row>> := [None];
      assert nulls[..0] == [];
      assert SqlSum(nulls, weight) == SqlSum([], weight);
    }
  }

  /** Every line of the summary is about exactly its own warehouse's rows. */
  lemma SummaryLineExact(w: Warehouse, rows: seq<Row>, default: int)
    ensures SummaryLine(w, rows, default) == WarehouseStockSummary(
              w,
              Total(rows, Each(), Some(w.id)),
              Total(rows, QuantityOf(), Some(w.id)),
              Total(rows, IsLow(default), Some(w.id)),
              Total(rows, IsOut(), Some(w.id)))
  {
    hide Total, LeftJoin, SqlSum;
    ColumnIsTotal(w.id, rows, Each());
    ColumnIsTotal(w.id, rows, QuantityOf());
    ColumnIsTotal(w.id, rows, IsLow(default));
    ColumnIsTotal(w.id, rows, IsOut());
  }

  // ---------- The groups partition the rows ----------

  ghost predicate DistinctIds(warehouses: seq<Warehouse>) {
    forall i, j :: 0 <= i < j < |warehouses| ==> warehouses[i].id != warehouses[j].id
  }

  /** Every row's warehouse is among those listed (the foreign key). */
  ghost predicate Covered(rows: seq<Row>, warehouses: seq<Warehouse>) {
    forall i :: 0 <= i < |rows| ==> Listed(rows[i].key.warehouse, warehouses)
  }

  ghost predicate Listed(w: Uuid, warehouses: seq<Warehouse>) {
    exists j :: 0 <= j < |warehouses| && warehouses[j].id == w
  }

  /** Sum over warehouses of what each adds. */
  function OverWarehouses(warehouses: seq<Warehouse>, rows: seq<Row>, weight: Row -> int): int {
    if warehouses == [] then 0 else
    OverWarehouses(warehouses[..|warehouses| - 1], rows, weight)
    + Total(rows, weight, Some(warehouses[|warehouses| - 1].id))
  }

  function Occurrences(warehouses: seq<Warehouse>, w: Uuid): nat {
    if warehouses == [] then 0 else
    Occurrences(warehouses[..|warehouses| - 1], w) + (if warehouses[|warehouses| - 1].id == w then 1 else 0)
  }

  lemma {:induction false} OccursOnce(warehouses: seq<Warehouse>, w: Uuid)
    requires DistinctIds(warehouses)
    ensures Occurrences(warehouses, w) == if Listed(w, warehouses) then 1 else 0
  {
    if warehouses != [] {
      var n := |warehouses| - 1;
      OccursOnce(warehouses[..n], w);
      assert forall j | 0 <= j < n :: warehouses[..n][j] == warehouses[j];
      if warehouses[n].id == w {
        assert !Listed(w, warehouses[..n]);
      } else if Listed(w, warehouses) {
        var j :| 0 <= j < |warehouses| && warehouses[j].id == w;
        assert warehouses[..n][j].id == w;
      }
    }
  }

  /** Adding a row adds its weight once for each time its warehouse is listed. */
  lemma {:induction false} OneMoreRow(warehouses: seq<Warehouse>, rows: seq<Row>, weight: Row -> int)
    requires rows != []
    ensures var n := |rows| - 1;
      OverWarehouses(warehouses, rows, weight)
      == OverWarehouses(warehouses, rows[..n], weight)
         + Occurrences(warehouses, rows[n].key.warehouse) * weight(rows[n])
  {
    if warehouses != [] {
      OneMoreRow(warehouses[..|warehouses| - 1], rows, weight);
      var c, x := Occurrences(warehouses[..|warehouses| - 1], rows[|rows| - 1].key.warehouse), weight(rows[|rows| - 1]);
      assert (c + 1) * x == c * x + x;
    }
  }

  lemma {:induction false} NoRows(warehouses: seq<Warehouse>, weight: Row -> int)
    ensures OverWarehouses(warehouses, [], weight) == 0
  {
    if warehouses != [] {
      NoRows(warehouses[..|warehouses| - 1], weight);
    }
  }

  /** The warehouse groups, empty ones included, partition the rows: no row is counted twice and
      none is left out. */
  lemma {:induction false} GroupsPartition(warehouses: seq<Warehouse>, rows: seq<Row>, weight: Row -> int)
    requires DistinctIds(warehouses) && Covered(rows, warehouses)
    ensures OverWarehouses(warehouses, rows, weight) == Total(rows, weight, None)
  {
    if rows == [] {
      NoRows(warehouses, weight);
    } else {
      var n := |rows| - 1;
      assert Covered(rows[..n], warehouses) by {
        assert forall i | 0 <= i < n :: rows[..n][i] == rows[i];
      }
      GroupsPartition(warehouses, rows[..n], weight);
      OneMoreRow(warehouses, rows, weight);
      OccursOnce(warehouses, rows[n].key.warehouse);
    }
  }

  lemma {:induction false} LinesSum<T>(lines: seq<T>, figure: T -> int,
                                       warehouses: seq<Warehouse>, rows: seq<Row>, weight: Row -> int)
    requires |lines| == |warehouses|
    requires forall i :: 0 <= i < |lines| ==> figure(lines[i]) == Total(rows, weight, Some(warehouses[i].id))
    ensures SumLines(lines, figure) == OverWarehouses(warehouses, rows, weight)
  {
    if lines != [] {
      LinesSum(lines[..|lines| - 1], figure, warehouses[..|lines| - 1], rows, weight);
    }
  }

  /** The summary's global figures are those of all the rows together. */
  lemma SummaryTotals(warehouses: seq<Warehouse>, rows: seq<Row>, default: int)
    requires DistinctIds(warehouses) && Covered(rows, warehouses)
    ensures var report := InventorySummary(warehouses, rows, default);
      && report.totalWarehouses == |warehouses|
      && report.totalStockQuantity == Total(rows, QuantityOf(), None)
      && report.lowStockCount == Total(rows, IsLow(default), None)
      && report.outOfStockCount == Total(rows, IsOut(), None)
  {
    hide SummaryLine, Total, OverWarehouses, SumLines;
    var lines := InventorySummary(warehouses, rows, default).byWarehouse;
    forall i | 0 <= i < |warehouses|
      ensures TotalQuantity()(lines[i]) == Total(rows, QuantityOf(), Some(warehouses[i].id))
      ensures LowStockCount()(lines[i]) == Total(rows, IsLow(default), Some(warehouses[i].id))
      ensures OutOfStockCount()(lines[i]) == Total(rows, IsOut(), Some(warehouses[i].id))
    {
      SummaryLineExact(warehouses[i], rows, default);
    }
    LinesSum(lines, TotalQuantity(), warehouses, rows, QuantityOf());
    LinesSum(lines, LowStockCount(), warehouses, rows, IsLow(default));
    LinesSum(lines, OutOfStockCount(), warehouses, rows, IsOut());
    GroupsPartition(warehouses, rows, QuantityOf());
    GroupsPartition(warehouses, rows, IsLow(default));
    GroupsPartition(warehouses, rows, IsOut());
  }

  /** Each valuation line is its own warehouse's value, and the total is that of all rows. */
  lemma ValuationTotals(warehouses: seq<Warehouse>, rows: seq<Row>, prices: map<Uuid, int>)
    requires DistinctIds(warehouses) && Covered(rows, warehouses)
    ensures var report := Valuation(warehouses, rows, prices);
      && |report.byWarehouse| == |warehouses|
      && (forall i :: 0 <= i < |warehouses| ==>
            report.byWarehouse[i]
            == WarehouseValuation(warehouses[i], Total(rows, ValueOf(prices), Some(warehouses[i].id))))
      && report.totalValue == Total(rows, ValueOf(prices), None)
  {
    hide LeftJoin, SqlSum, Total, OverWarehouses, SumLines;
    var lines := Valuation(warehouses, rows, prices).byWarehouse;
    forall i | 0 <= i < |warehouses|
      ensures lines[i] == WarehouseValuation(warehouses[i], Total(rows, ValueOf(prices), Some(warehouses[i].id)))
    {
      ColumnIsTotal(warehouses[i].id, rows, ValueOf(prices));
    }
    LinesSum(lines, TotalValue(), warehouses, rows, ValueOf(prices));
    GroupsPartition(warehouses, rows, ValueOf(prices));
  }

  // ---------- The counts, as numbers of rows ----------

  ghost function Where(rows: seq<Row>, scope: Scope, holds: Row -> bool): set<nat> {
    set i: nat | i < |rows| && Within(rows[i].key.warehouse, scope) && holds(rows[i])
  }

  /** A column that is 1 where something holds and 0 elsewhere counts the rows where it holds. */
  lemma {:induction false} CountIs(rows: seq<Row>, weight: Row -> int, scope: Scope, holds: Row -> bool)
    requires forall row :: weight(row) == if holds(row) then 1 else 0
    ensures Total(rows, weight, scope) == |Where(rows, scope, holds)|
  {
    if rows != [] {
      var n: nat := |rows| - 1;
      CountIs(rows[..n], weight, scope, holds);
      OneMoreWhere(rows, scope, holds);
    }
  }

  lemma OneMoreWhere(rows: seq<Row>, scope: Scope, holds: Row -> bool)
    requires rows != []
    ensures var n: nat := |rows| - 1;
            var before := Where(rows[..n], scope, holds);
      n !in before
      && Where(rows, scope, holds)
         == if Within(rows[n].key.warehouse, scope) && holds(rows[n]) then before + {n} else before
  {
    var n: nat := |rows| - 1;
    assert forall i: nat | i < n :: rows[..n][i] == rows[i];
  }

  /** A row is low at or below its own threshold, if it has one, zero included, else the default;
      it is out of stock when it is empty, whatever its threshold. */
  lemma CountsExact(rows: seq<Row>, default: int, scope: Scope)
    ensures Total(rows, IsLow(default), scope)
            == |Where(rows, scope, (row: Row) =>
                  row.inventory.quantity <= if row.inventory.lowStockThreshold == None then default
                                            else row.inventory.lowStockThreshold.value)|
    ensures Total(rows, IsOut(), scope) == |Where(rows, scope, (row: Row) => row.inventory.quantity == 0)|
  {
    CountIs(rows, IsLow(default), scope, (row: Row) =>
      row.inventory.quantity <= if row.inventory.lowStockThreshold == None then default
                                else row.inventory.lowStockThreshold.value);
    CountIs(rows, IsOut(), scope, (row: Row) => row.inventory.quantity == 0);
  }

  /** A warehouse with one row reports that row's quantity, at its product's price if it has one. */
  lemma OneRowReports(warehouse: Warehouse, row: Row, default: int, prices: map<Uuid, int>)
    requires row.key.warehouse == warehouse.id
    ensures InventorySummary([warehouse], [row], default).totalStockQuantity == row.inventory.quantity
    ensures Valuation([warehouse], [row], prices).totalValue
            == if row.key.product in prices then row.inventory.quantity * prices[row.key.product] else 0
  {
    hide InventorySummary, Valuation;
    assert Covered([row], [warehouse]) by {
      assert [warehouse][0].id == row.key.warehouse;
    }
    SummaryTotals([warehouse], [row], default);
    ValuationTotals([warehouse], [row], prices);
    assert [row][..0] == [];
  }
}
