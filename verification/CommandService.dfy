/** The write-side service as it runs in one request's session: rows and history updated in
    place, rolled back when anything raises, then alerts evaluated and the event published. */
module CommandService {
  import opened Wrappers
  import opened Uuids
  import opened Schema
  import opened Ledger
  import opened Events
  import opened AlertRules
  import opened Reconciliation
  import opened Publisher
  import opened AlertService
  import opened Worlds

  class InventoryCommandService {
    var catalog: Catalog
    var inventories: Inventories    // the inventories table as this session sees it
    var movements: seq<Movement>    // the movements table, likewise
    const alertService: AlertService
    const publisher: InProcessEventPublisher

    constructor (catalog: Catalog, alertService: AlertService)
      ensures this.catalog == catalog && this.alertService == alertService
      ensures publisher == alertService.publisher
      ensures inventories == map[] && movements == []
    {
      this.catalog, this.alertService, this.publisher := catalog, alertService, alertService.publisher;
      inventories, movements := map[], [];
    }

    /** Everything the service's calls change, as one value. */
    ghost function Now(): World
      reads this, alertService, publisher
    {
      World(catalog, alertService.default, inventories, movements, alertService.alerts, publisher.published)
    }

    /** Locks and increases a row, creating it if absent. */
    method IncreaseStock(product: Uuid, warehouse: Uuid, quantity: int) returns (r: Result<Inventory, Error>)
      modifies this`inventories
      ensures match PerformLeg(catalog, Quantities(old(inventories)), Increase(Key(product, warehouse), quantity))
              case Failure(error) => r == Failure(error) && inventories == old(inventories)
              case Success(stock) =>
                && inventories == WithQuantities(old(inventories), stock)
                && Key(product, warehouse) in inventories && r == Success(inventories[Key(product, warehouse)])
    {
      if warehouse !in catalog.warehouses {
        return Failure(WarehouseNotFound(warehouse));
      }
      var k := Key(product, warehouse);
      if k !in inventories {
        inventories := inventories[k := Inventory(0, None)];
      }
      inventories := inventories[k := inventories[k].(quantity := inventories[k].quantity + quantity)];
      r := Success(inventories[k]);
    }

    /** Locks and decreases a row, refusing a missing one and a negative result. */
    method DecreaseStock(product: Uuid, warehouse: Uuid, quantity: int) returns (r: Result<Inventory, Error>)
      modifies this`inventories
      ensures match PerformLeg(catalog, Quantities(old(inventories)), Decrease(Key(product, warehouse), quantity))
              case Failure(error) => r == Failure(error) && inventories == old(inventories)
              case Success(stock) =>
                && inventories == WithQuantities(old(inventories), stock)
                && Key(product, warehouse) in inventories && r == Success(inventories[Key(product, warehouse)])
    {
      if warehouse !in catalog.warehouses {
        return Failure(WarehouseNotFound(warehouse));
      }
      var k := Key(product, warehouse);
      if k !in inventories {
        return Failure(StockRecordNotFound(k));
      }
      if inventories[k].quantity < quantity {
        return Failure(InsufficientStock(k, quantity, inventories[k].quantity));
      }
      inventories := inventories[k := inventories[k].(quantity := inventories[k].quantity - quantity)];
      r := Success(inventories[k]);
    }

    /** Both legs of a transfer in the order of the warehouse ids' texts; the rows come back as
        source then destination whichever leg went first. */
    method TransferStock(product: Uuid, source: Uuid, destination: Uuid, quantity: int)
      returns (r: Result<(Inventory, Inventory), Error>)
      requires source != destination && quantity > 0
      modifies this`inventories
      ensures var m: Movement := Transfer(product, source, destination, quantity);
        match PerformLegs(catalog, Quantities(old(inventories)), Legs(m))
        case Failure(error) => r == Failure(error)
        case Success(stock) =>
          && inventories == WithQuantities(old(inventories), stock)
          && SourceKey(m) in inventories && DestinationKey(m) in inventories
          && r == Success((inventories[SourceKey(m)], inventories[DestinationKey(m)]))
    {
      ghost var m: Movement := Transfer(product, source, destination, quantity);
      ghost var before := inventories;
      LegSteps(catalog, inventories, m);
      var sourceRow, destinationRow;
      if SourceFirst(source, destination) {
        sourceRow := DecreaseStock(product, source, quantity);
        if sourceRow.Failure? {
          return Failure(sourceRow.error);
        }
        destinationRow := IncreaseStock(product, destination, quantity);
        if destinationRow.Failure? {
          return Failure(destinationRow.error);
        }
      } else {
        destinationRow := IncreaseStock(product, destination, quantity);
        if destinationRow.Failure? {
          return Failure(destinationRow.error);
        }
        sourceRow := DecreaseStock(product, source, quantity);
        if sourceRow.Failure? {
          return Failure(sourceRow.error);
        }
      }
      r := Success((sourceRow.value, destinationRow.value));
    }

    /** The branch on the movement's type, giving the affected rows. */
    method ApplyMovement(data: Movement) returns (r: Result<seq<Row>, Error>)
      modifies this`inventories
      ensures match PerformLegs(catalog, Quantities(old(inventories)), Legs(data))
              case Failure(error) => r == Failure(error)
              case Success(stock) =>
                && inventories == WithQuantities(old(inventories), stock)
                && r == Success(RowsOf(inventories, Affected(data)))
    {
      match data
      case In(product, destination, quantity) =>
        PerformOne(catalog, Quantities(inventories), Legs(data)[0]);
        var row := IncreaseStock(product, destination, quantity);
        if row.Failure? {
          return Failure(row.error);
        }
        r := Success([Row(Key(product, destination), row.value)]);
        assert r.value == RowsOf(inventories, Affected(data));
      case Out(product, source, quantity) =>
        PerformOne(catalog, Quantities(inventories), Legs(data)[0]);
        var row := DecreaseStock(product, source, quantity);
        if row.Failure? {
          return Failure(row.error);
        }
        r := Success([Row(Key(product, source), row.value)]);
        assert r.value == RowsOf(inventories, Affected(data));
      case Transfer(product, source, destination, quantity) =>
        var rows := TransferStock(product, source, destination, quantity);
        if rows.Failure? {
          return Failure(rows.error);
        }
        r := Success([Row(Key(product, source), rows.value.0), Row(Key(product, destination), rows.value.1)]);
        assert r.value == RowsOf(inventories, Affected(data));
    }

    ghost predicate Valid() {
      publisher == alertService.publisher
    }

    /** Applies a movement and records it in one transaction. On any error before the commit the
        session rolls back; afterwards alerts follow the new quantities and the event goes out. */
    method RecordMovement(data: Movement) returns (r: Result<Movement, ServiceError>)
      requires Valid()
      modifies this`inventories, this`movements
      modifies alertService`alerts, alertService`notified, publisher`published, publisher.broadcaster
      ensures (Now(), r) == Record(old(Now()), data)
      ensures forall n: nat :: old(publisher.InStep(n)) ==> publisher.InStep(n)
    {
      ghost var w := Now();
      if data.product !in catalog.products {
        return Failure(StockFailed(ProductNotFound(data.product)));
      }
      var saved := inventories;
      var affected := ApplyMovement(data);
      if affected.Failure? {
        inventories := saved;
        return Failure(StockFailed(affected.error));
      }
      movements := movements + [data];
      ghost var committed := Now();
      var _, _, error := EvaluatePage(affected.value, alertService);
      if error.Some? {
        assert Now().events == committed.events
          + EvaluateAll(committed.alerts, affected.value, committed.default).events + [];
        return Failure(AlertFailed(error.value));
      }
      var rows := affected.value;
      var quantities := seq(|rows|, i requires 0 <= i < |rows| => rows[i].inventory.quantity);
      assert quantities == AffectedQuantities(inventories, data);
      publisher.Publish(MovementEvent(data, quantities));
      r := Success(data);
    }
  }

  /** Two legs one after the other, on rows, are the two legs on quantities. */
  lemma LegSteps(catalog: Catalog, inventories: Inventories, m: Movement)
    requires m.Transfer?
    ensures var first := PerformLeg(catalog, Quantities(inventories), Legs(m)[0]);
      && (first.Failure? ==> PerformLegs(catalog, Quantities(inventories), Legs(m)) == first)
      && (first.Success? ==>
            var between := WithQuantities(inventories, first.value);
            var second := PerformLeg(catalog, Quantities(between), Legs(m)[1]);
            && PerformLegs(catalog, Quantities(inventories), Legs(m)) == second
            && (second.Success? ==>
                  WithQuantities(between, second.value) == WithQuantities(inventories, second.value)))
  {
    var legs := Legs(m);
    assert legs == [legs[0], legs[1]];
    PerformTwo(catalog, Quantities(inventories), legs[0], legs[1]);
    var first := PerformLeg(catalog, Quantities(inventories), legs[0]);
    if first.Success? {
      QuantitiesOf(inventories, first.value);
    }
  }
}
