/** The alert service and the periodic sweep, over a table updated in place. */
module AlertService {
  import opened Wrappers
  import opened Ledger
  import opened Events
  import opened AlertRules
  import opened Reconciliation
  import opened Publisher

  class AlertService {
    var alerts: seq<Alert>
    var notified: seq<nat>     // alert emails queued, by alert id
    const default: int         // the global low-stock threshold
    const publisher: InProcessEventPublisher

    constructor (publisher: InProcessEventPublisher, default: int)
      ensures alerts == [] && notified == [] && this.publisher == publisher && this.default == default
    {
      alerts, notified := [], [];
      this.publisher, this.default := publisher, default;
    }

    /** Publishes the alert's event and queues its email. */
    method ReactToAlert(id: nat)
      requires id < |alerts|
      modifies this`notified, publisher`published, publisher.broadcaster
      ensures notified == old(notified) + [id]
      ensures publisher.published == old(publisher.published) + [Reaction(alerts[id])]
      ensures forall n: nat :: old(publisher.InStep(n)) ==> publisher.InStep(n)
    {
      var alert := alerts[id];
      var event :=
        if alert.alertType == OUT_OF_STOCK
        then OutOfStockDetected(alert.key.product, alert.key.warehouse)
        else LowStockDetected(alert.key.product, alert.key.warehouse, alert.quantityAtTrigger, alert.threshold);
      publisher.Publish(event);
      notified := notified + [id];
    }

    method MarkResolved(id: nat)
      requires id < |alerts|
      modifies this`alerts
      ensures alerts == old(alerts)[id := old(alerts)[id].(status := RESOLVED)]
    {
      alerts := alerts[id := alerts[id].(status := RESOLVED)];
    }

    /** Brings the pair's alert in line with its row: creates, changes or resolves it. */
    method EvaluateStockLevel(k: Key, inventory: Inventory) returns (r: Result<Option<nat>, AlertError>)
      modifies this`alerts, this`notified, publisher`published, publisher.broadcaster
      ensures match Evaluate(old(alerts), k, inventory, default)
              case Success(e) =>
                && r == Success(e.active) && alerts == e.alerts
                && notified == old(notified) + e.notified
                && publisher.published == old(publisher.published) + e.events
              case Failure(error) =>
                && r == Failure(error) && alerts == old(alerts)
                && notified == old(notified) && publisher.published == old(publisher.published)
      ensures forall n: nat :: old(publisher.InStep(n)) ==> publisher.InStep(n)
    {
      var threshold :=
        if inventory.lowStockThreshold.Some? then inventory.lowStockThreshold.value else default;
      var existing := GetActive(alerts, k);
      if existing.Failure? {
        return Failure(existing.error);
      }
      if inventory.quantity > threshold {
        if existing.value.Some? {
          MarkResolved(existing.value.value);
        }
        return Success(None);
      }
      var alertType := if inventory.quantity == 0 then OUT_OF_STOCK else LOW_STOCK;
      if existing.value.Some? {
        var id := existing.value.value;
        if alerts[id].alertType != alertType {
          alerts := alerts[id := alerts[id].(alertType := alertType, quantityAtTrigger := inventory.quantity)];
          ReactToAlert(id);
        }
        return Success(Some(id));
      }
      var id := |alerts|;
      alerts := alerts + [Alert(k, alertType, ACTIVE, threshold, inventory.quantity)];
      ReactToAlert(id);
      return Success(Some(id));
    }

    /** Resolves an alert by hand; a missing or already resolved one is refused. */
    method ResolveAlert(id: nat) returns (r: Result<Alert, AlertError>)
      modifies this`alerts
      ensures match Resolve(old(alerts), id)
              case Success(after) => alerts == after && id < |alerts| && r == Success(alerts[id])
              case Failure(error) => alerts == old(alerts) && r == Failure(error)
    {
      if id >= |alerts| {
        return Failure(AlertNotFound);
      }
      if alerts[id].status == RESOLVED {
        return Failure(AlreadyResolved);
      }
      MarkResolved(id);
      r := Success(alerts[id]);
    }
  }

  // ---------- The sweep ----------

  const BATCH_SIZE: nat := 200

  datatype SweepSummary = SweepSummary(evaluated: nat, alertsActive: nat)

  /** select(...).offset(skip).limit(limit), over the table's one row order. */
  function ListAll<T>(rows: seq<T>, skip: nat, limit: nat): (page: seq<T>)
    ensures page == [] <==> skip >= |rows| || limit == 0
    ensures skip < |rows| ==> skip + |page| <= |rows| && page == rows[skip..skip + |page|]
    ensures skip < |rows| ==> |page| == limit || skip + |page| == |rows|
    ensures |page| <= limit
  {
    if skip >= |rows| then []
    else if skip + limit <= |rows| then rows[skip..skip + limit]
    else rows[skip..]
  }

  /** The service's tables and outputs at one moment. */
  datatype Snapshot = Snapshot(alerts: seq<Alert>, notified: seq<nat>, published: seq<Event>)

  ghost function Now(service: AlertService): Snapshot
    reads service, service.publisher
  {
    Snapshot(service.alerts, service.notified, service.publisher.published)
  }

  /** What a batch of evaluations leaves behind. */
  ghost function After(start: Snapshot, batch: Batch): Snapshot {
    Snapshot(batch.alerts, start.notified + batch.notified, start.published + batch.events)
  }

  lemma AfterThen(start: Snapshot, first: Batch, second: Batch)
    requires first.ok
    ensures After(start, Then(first, second)) == After(After(start, first), second)
  {
    Associative(start.notified, first.notified, second.notified);
    Associative(start.published, first.events, second.events);
  }

  /** The sweep's inner loop: one page, up to the first row whose lookup raises. */
  method EvaluatePage(page: seq<Row>, service: AlertService)
    returns (evaluated: nat, alertsActive: nat, error: Option<AlertError>)
    modifies service`alerts, service`notified, service.publisher`published, service.publisher.broadcaster
    ensures var batch := EvaluateAll(old(service.alerts), page, service.default);
      && Now(service) == After(old(Now(service)), batch)
      && alertsActive == batch.active
      && (if batch.ok then evaluated == |page| && error == None else error == Some(MultipleResultsFound))
    ensures forall n: nat :: old(service.publisher.InStep(n)) ==> service.publisher.InStep(n)
  {
    evaluated, alertsActive, error := 0, 0, None;
    ghost var start := Now(service);
    ghost var done, total := SweepStart(start.alerts, page, service.default);
    while evaluated < |page|
      invariant evaluated <= |page| && error == None
      invariant done == EvaluateAll(start.alerts, page[..evaluated], service.default) && done.ok
      invariant alertsActive == done.active && Now(service) == After(start, done)
      invariant forall n: nat :: old(service.publisher.InStep(n)) ==> service.publisher.InStep(n)
    {
      var inventory := page[evaluated];
      ghost var next := NextRow(start, page, evaluated, done, service.default);
      done := next;
      evaluated := evaluated + 1;
      var alert := service.EvaluateStockLevel(inventory.key, inventory.inventory);
      if alert.Failure? {
        error := Some(alert.error);
        assert done == total;
        break;
      }
      if alert.value.Some? {
        alertsActive := alertsActive + 1;
      }
    }
    assert error == None ==> page[..evaluated] == page;
    assert done == total && Now(service) == After(start, total);
  }

  lemma {:induction false} NextRow(start: Snapshot, rows: seq<Row>, n: nat, done: Batch, default: int)
    returns (next: Batch)
    requires n < |rows| && done == EvaluateAll(start.alerts, rows[..n], default) && done.ok
    ensures next == EvaluateAll(start.alerts, rows[..n + 1], default)
    ensures !next.ok ==> next == EvaluateAll(start.alerts, rows, default)
    ensures match Evaluate(done.alerts, rows[n].key, rows[n].inventory, default)
      case Failure(_) => next == done.(ok := false) && After(start, next) == After(start, done)
      case Success(e) =>
        && next.ok && next.alerts == e.alerts && next.active == done.active + (if e.active.Some? then 1 else 0)
        && After(start, next)
           == Snapshot(e.alerts, After(start, done).notified + e.notified, After(start, done).published + e.events)
  {
    next := EvaluateAll(start.alerts, rows[..n + 1], default);
    assert rows[..n + 1][..n] == rows[..n];
    var e := Evaluate(done.alerts, rows[n].key, rows[n].inventory, default);
    if e.Success? {
      Associative(start.notified, done.notified, e.value.notified);
      Associative(start.published, done.events, e.value.events);
    } else {
      FailsToTheEnd(start.alerts, rows, default, n + 1);
    }
  }

  /** Pages through all rows and evaluates each. Whatever the page size, it does what evaluating
      the rows one after another does, and stops at the first row whose lookup raises. */
  method SweepPages(rows: seq<Row>, service: AlertService, batchSize: nat)
    returns (summary: Result<SweepSummary, AlertError>)
    requires batchSize > 0
    modifies service`alerts, service`notified, service.publisher`published, service.publisher.broadcaster
    ensures var batch := EvaluateAll(old(service.alerts), rows, service.default);
      && Now(service) == After(old(Now(service)), batch)
      && summary == if batch.ok then Success(SweepSummary(|rows|, batch.active))
                    else Failure(MultipleResultsFound)
    ensures summary.Success? <==> Sound(old(service.alerts), rows)
    ensures summary.Success? ==> summary.value.alertsActive == BelowThreshold(rows, service.default)
    ensures forall n: nat :: old(service.publisher.InStep(n)) ==> service.publisher.InStep(n)
  {
    hide EvaluateAll;
    var evaluated, alertsActive, skip := 0, 0, 0;
    var error: Option<AlertError> := None;
    ghost var start := Now(service);
    ghost var done, total := SweepStart(start.alerts, rows, service.default);
    while true
      invariant evaluated == if skip <= |rows| then skip else |rows|
      invariant done == EvaluateAll(start.alerts, rows[..evaluated], service.default) && done.ok
      invariant alertsActive == done.active && Now(service) == After(start, done)
      invariant forall n: nat :: old(service.publisher.InStep(n)) ==> service.publisher.InStep(n)
      invariant error == None
      decreases |rows| - skip
    {
      var batch := ListAll(rows, skip, batchSize);
      if |batch| == 0 {
        assert rows[..evaluated] == rows;
        assert done == total;
        break;
      }
      ghost var next := NextPage(start.alerts, rows, evaluated, batch, done, service.default);
      AfterThen(start, done, next);
      var n, active;
      n, active, error := EvaluatePage(batch, service);
      done := Then(done, next);
      if error.Some? {
        assert done == total;
        break;
      }
      evaluated, alertsActive := evaluated + n, alertsActive + active;
      skip := skip + batchSize;
    }
    assert done == total && Now(service) == After(start, total);
    BatchOk(start.alerts, rows, service.default);
    if error == None {
      CountsActive(start.alerts, rows, service.default);
    }
    summary := if error.Some? then Failure(error.value) else Success(SweepSummary(evaluated, alertsActive));
  }

  /** Nothing evaluated yet, and what evaluating everything will come to. */
  lemma SweepStart(alerts: seq<Alert>, rows: seq<Row>, default: int) returns (done: Batch, total: Batch)
    ensures done == EvaluateAll(alerts, rows[..0], default) == Batch(alerts, [], [], 0, true)
    ensures total == EvaluateAll(alerts, rows, default)
  {
    done, total := Batch(alerts, [], [], 0, true), EvaluateAll(alerts, rows, default);
  }

  lemma {:induction false} NextPage(alerts: seq<Alert>, rows: seq<Row>, n: nat, page: seq<Row>,
                                    done: Batch, default: int)
    returns (next: Batch)
    requires n + |page| <= |rows| && page == rows[n..n + |page|]
    requires done == EvaluateAll(alerts, rows[..n], default)
    ensures next == EvaluateAll(done.alerts, page, default)
    ensures EvaluateAll(alerts, rows[..n + |page|], default) == Then(done, next)
    ensures !Then(done, next).ok ==> EvaluateAll(alerts, rows, default) == Then(done, next)
  {
    next := EvaluateAll(done.alerts, page, default);
    assert rows[..n] + page == rows[..n + |page|];
    EvaluateConcat(alerts, rows[..n], page, default);
    if !Then(done, next).ok {
      FailsToTheEnd(alerts, rows, default, n + |page|);
    }
  }

  lemma {:induction false} FailsToTheEnd(alerts: seq<Alert>, rows: seq<Row>, default: int, n: nat)
    requires n <= |rows| && !EvaluateAll(alerts, rows[..n], default).ok
    ensures EvaluateAll(alerts, rows, default) == EvaluateAll(alerts, rows[..n], default)
  {
    assert rows == rows[..n] + rows[n..];
    EvaluateConcat(alerts, rows[..n], rows[n..], default);
  }

  method CheckLowStockLevels(rows: seq<Row>, service: AlertService)
    returns (summary: Result<SweepSummary, AlertError>)
    modifies service`alerts, service`notified, service.publisher`published, service.publisher.broadcaster
    ensures var batch := EvaluateAll(old(service.alerts), rows, service.default);
      && Now(service) == After(old(Now(service)), batch)
      && summary == if batch.ok then Success(SweepSummary(|rows|, batch.active))
                    else Failure(MultipleResultsFound)
    ensures summary.Success? <==> Sound(old(service.alerts), rows)
    ensures summary.Success? ==> summary.value.alertsActive == BelowThreshold(rows, service.default)
    ensures forall n: nat :: old(service.publisher.InStep(n)) ==> service.publisher.InStep(n)
  {
    summary := SweepPages(rows, service, BATCH_SIZE);
  }
}
