/** Alerts as values: what one evaluation does to the alert table, and what it means. */
module AlertRules {
  import opened Wrappers
  import opened Ledger
  import opened Events

  datatype AlertType = LOW_STOCK | OUT_OF_STOCK

  datatype AlertStatus = ACTIVE | RESOLVED

  /** A row of the alerts table; its id is its index. */
  datatype Alert = Alert(
    key: Key,
    alertType: AlertType,
    status: AlertStatus,
    threshold: int,
    quantityAtTrigger: int)

  /** An inventory row, without the pair it belongs to. */
  datatype Inventory = Inventory(quantity: int, lowStockThreshold: Option<int>)

  datatype AlertError = MultipleResultsFound | AlertNotFound | AlreadyResolved

  // ---------- The rule alerts should follow ----------

  datatype Condition = OK | LOW | OUT

  function Threshold(inventory: Inventory, default: int): int {
    match inventory.lowStockThreshold
    case Some(threshold) => threshold
    case None => default
  }

  function Classify(inventory: Inventory, default: int): Condition {
    if inventory.quantity > Threshold(inventory, default) then OK
    else if inventory.quantity == 0 then OUT
    else LOW
  }

  function TypeCondition(alertType: AlertType): Condition {
    if alertType.OUT_OF_STOCK? then OUT else LOW
  }

  // ---------- The alert table ----------

  ghost predicate IsActive(alerts: seq<Alert>, k: Key, i: int) {
    0 <= i < |alerts| && alerts[i].key == k && alerts[i].status.ACTIVE?
  }

  /** The ids of a pair's active alerts, in table order. */
  function ActiveIds(alerts: seq<Alert>, k: Key): (ids: seq<nat>)
    ensures forall i :: i in ids <==> IsActive(alerts, k, i)
    ensures forall a :: 0 <= a < |ids| ==> ids[a] < |alerts|
    ensures forall a, b :: 0 <= a < b < |ids| ==> ids[a] < ids[b]
  {
    if alerts == [] then [] else
    var n := |alerts| - 1;
    var ids := ActiveIds(alerts[..n], k);
    assert forall i :: i in ids ==> alerts[..n][i] == alerts[i];
    if alerts[n].key == k && alerts[n].status.ACTIVE? then ids + [n] else ids
  }

  ghost predicate AtMostOneActive(alerts: seq<Alert>, k: Key) {
    forall i, j :: IsActive(alerts, k, i) && IsActive(alerts, k, j) ==> i == j
  }

  /** scalar_one_or_none: more than one row is an error. */
  function GetActive(alerts: seq<Alert>, k: Key): (r: Result<Option<nat>, AlertError>)
    ensures r.Success? <==> AtMostOneActive(alerts, k)
    ensures r.Success? && r.value.Some? ==> IsActive(alerts, k, r.value.value)
    ensures r.Success? && r.value.None? ==> forall i :: !IsActive(alerts, k, i)
    ensures r.Failure? ==> r.error == MultipleResultsFound
  {
    var ids := ActiveIds(alerts, k);
    if |ids| == 0 then
      assert forall i :: !IsActive(alerts, k, i) by { assert forall i :: i !in ids; }
      Success(None)
    else if |ids| == 1 then
      assert ids[0] in ids;
      Success(Some(ids[0]))
    else
      assert ids[0] in ids && ids[1] in ids;
      Failure(MultipleResultsFound)
  }

  /** The condition the active alert of a pair reports. */
  function Current(alerts: seq<Alert>, k: Key): Condition {
    var ids := ActiveIds(alerts, k);
    if ids == [] then OK else assert ids[0] in ids; TypeCondition(alerts[ids[0]].alertType)
  }

  /** With at most one active alert, the current condition is that alert's. */
  lemma CurrentIs(alerts: seq<Alert>, k: Key)
    requires AtMostOneActive(alerts, k)
    ensures forall i :: IsActive(alerts, k, i) ==> Current(alerts, k) == TypeCondition(alerts[i].alertType)
    ensures Current(alerts, k) == OK <==> forall i :: !IsActive(alerts, k, i)
  {
    var ids := ActiveIds(alerts, k);
    if ids != [] {
      assert ids[0] in ids;
    }
  }

  // ---------- One evaluation ----------

  /** The table afterwards, the events published, the emails queued, and the alert returned. */
  datatype Evaluation = Evaluation(
    alerts: seq<Alert>,
    events: seq<Event>,
    notified: seq<nat>,
    active: Option<nat>)

  /** The event for a new or changed alert, from the alert's own columns. */
  function Reaction(alert: Alert): Event {
    if alert.alertType.OUT_OF_STOCK?
    then OutOfStockDetected(alert.key.product, alert.key.warehouse)
    else LowStockDetected(alert.key.product, alert.key.warehouse, alert.quantityAtTrigger, alert.threshold)
  }

  function Evaluate(alerts: seq<Alert>, k: Key, inventory: Inventory, default: int): Result<Evaluation, AlertError> {
    var existing :- GetActive(alerts, k);
    var threshold := Threshold(inventory, default);
    if inventory.quantity > threshold then
      match existing
      case None => Success(Evaluation(alerts, [], [], None))
      case Some(id) => Success(Evaluation(alerts[id := alerts[id].(status := RESOLVED)], [], [], None))
    else
      var alertType := if inventory.quantity == 0 then OUT_OF_STOCK else LOW_STOCK;
      match existing
      case Some(id) =>
        if alerts[id].alertType == alertType then Success(Evaluation(alerts, [], [], existing))
        else
          var alert := alerts[id].(alertType := alertType, quantityAtTrigger := inventory.quantity);
          Success(Evaluation(alerts[id := alert], [Reaction(alert)], [id], existing))
      case None =>
        var alert := Alert(k, alertType, ACTIVE, threshold, inventory.quantity);
        Success(Evaluation(alerts + [alert], [Reaction(alert)], [|alerts|], Some(|alerts|)))
  }

  ghost predicate IsAlertEvent(e: Event) {
    e.LowStockDetected? || e.OutOfStockDetected?
  }

  /** The pair and condition an alert event announces. */
  function Announced(e: Event): (Key, Condition)
    requires e.LowStockDetected? || e.OutOfStockDetected?
  {
    (Key(e.product, e.warehouse), if e.OutOfStockDetected? then OUT else LOW)
  }

  /** Nothing about other pairs changes, no alert is deleted, and a resolved one stays as it is. */
  ghost predicate OnlyAbout(alerts: seq<Alert>, alerts': seq<Alert>, k: Key) {
    && |alerts| <= |alerts'|
    && (forall i :: 0 <= i < |alerts| ==> alerts'[i].key == alerts[i].key)
    && (forall i :: 0 <= i < |alerts| && (alerts[i].key != k || alerts[i].status.RESOLVED?) ==>
          alerts'[i] == alerts[i])
    && (forall i :: |alerts| <= i < |alerts'| ==> alerts'[i].key == k)
  }

  /** An evaluation fails exactly when the pair already has two active alerts. */
  lemma EvaluateFails(alerts: seq<Alert>, k: Key, inventory: Inventory, default: int)
    ensures Evaluate(alerts, k, inventory, default).Success? <==> AtMostOneActive(alerts, k)
  {
  }

  /** Rewriting a pair's one active alert, either as another active one or as resolved. */
  lemma Rewritten(alerts: seq<Alert>, k: Key, id: nat, alert: Alert)
    requires AtMostOneActive(alerts, k) && IsActive(alerts, k, id) && alert.key == k
    ensures var alerts' := alerts[id := alert];
      && AtMostOneActive(alerts', k) && OnlyAbout(alerts, alerts', k)
      && (IsActive(alerts', k, id) <==> alert.status.ACTIVE?)
      && Current(alerts', k) == if alert.status.ACTIVE? then TypeCondition(alert.alertType) else OK
  {
    var alerts' := alerts[id := alert];
    assert forall i :: IsActive(alerts', k, i) ==> IsActive(alerts, k, i);
    CurrentIs(alerts', k);
    assert alert.status.ACTIVE? ==> IsActive(alerts', k, id);
  }

  lemma Created(alerts: seq<Alert>, k: Key, alert: Alert)
    requires forall i :: !IsActive(alerts, k, i)
    requires alert.key == k && alert.status.ACTIVE?
    ensures var alerts' := alerts + [alert];
      && AtMostOneActive(alerts', k) && OnlyAbout(alerts, alerts', k)
      && IsActive(alerts', k, |alerts|) && Current(alerts', k) == TypeCondition(alert.alertType)
  {
    var alerts' := alerts + [alert];
    assert forall i :: IsActive(alerts', k, i) && i < |alerts| ==> IsActive(alerts, k, i);
    CurrentIs(alerts', k);
    assert IsActive(alerts', k, |alerts|);
  }

  /** What an evaluation achieves: afterwards the pair's one active alert, or none, is what the
      rule says; it is announced exactly when it is a change into LOW or OUT. */
  lemma EvaluateReconciles(alerts: seq<Alert>, k: Key, inventory: Inventory, default: int)
    requires AtMostOneActive(alerts, k)
    ensures Evaluate(alerts, k, inventory, default).Success?
    ensures var e := Evaluate(alerts, k, inventory, default).value;
            var condition := Classify(inventory, default);
      && AtMostOneActive(e.alerts, k) && OnlyAbout(alerts, e.alerts, k)
      && Current(e.alerts, k) == condition
      && (condition == OK <==> e.active == None)
      && (e.active.Some? ==> IsActive(e.alerts, k, e.active.value))
      && (if condition == OK || condition == Current(alerts, k) then e.events == []
          else |e.events| == 1 && IsAlertEvent(e.events[0]) && Announced(e.events[0]) == (k, condition))
      && |e.notified| == |e.events|
  {
    CurrentIs(alerts, k);
    var condition, q := Classify(inventory, default), inventory.quantity;
    var alertType := if q == 0 then OUT_OF_STOCK else LOW_STOCK;
    match GetActive(alerts, k).value
    case Some(id) =>
      assert IsActive(alerts, k, id);
      if condition == OK {
        Rewritten(alerts, k, id, alerts[id].(status := RESOLVED));
      } else if alerts[id].alertType != alertType {
        Rewritten(alerts, k, id, alerts[id].(alertType := alertType, quantityAtTrigger := q));
      }
    case None =>
      if condition != OK {
        Created(alerts, k, Alert(k, alertType, ACTIVE, Threshold(inventory, default), q));
      }
  }

  lemma {:induction false} ActiveIdsSame(alerts: seq<Alert>, alerts': seq<Alert>, k: Key)
    requires forall i :: IsActive(alerts, k, i) <==> IsActive(alerts', k, i)
    ensures ActiveIds(alerts, k) == ActiveIds(alerts', k)
  {
    Increasing(ActiveIds(alerts, k), ActiveIds(alerts', k));
  }

  /** An increasing sequence is determined by its elements. */
  lemma {:induction false} Increasing(xs: seq<nat>, ys: seq<nat>)
    requires forall a, b :: 0 <= a < b < |xs| ==> xs[a] < xs[b]
    requires forall a, b :: 0 <= a < b < |ys| ==> ys[a] < ys[b]
    requires forall i :: i in xs <==> i in ys
    ensures xs == ys
  {
    if |ys| > 0 {
      assert ys[0] in ys && ys[0] in xs;
    }
    if |xs| > 0 {
      assert xs[0] in xs && xs[0] in ys;
      assert xs[0] == ys[0];
      forall i
        ensures i in xs[1..] <==> i in ys[1..]
      {
        assert i in xs <==> i == xs[0] || i in xs[1..];
        assert i in ys <==> i == ys[0] || i in ys[1..];
      }
      Increasing(xs[1..], ys[1..]);
    }
  }

  /** Other pairs keep their active alerts and their current condition. */
  lemma {:induction false} OthersUnchanged(alerts: seq<Alert>, alerts': seq<Alert>, k: Key, other: Key)
    requires OnlyAbout(alerts, alerts', k) && other != k
    ensures forall i :: IsActive(alerts, other, i) <==> IsActive(alerts', other, i)
    ensures ActiveIds(alerts', other) == ActiveIds(alerts, other)
    ensures Current(alerts', other) == Current(alerts, other)
    ensures AtMostOneActive(alerts', other) <==> AtMostOneActive(alerts, other)
  {
    ActiveIdsSame(alerts, alerts', other);
    var ids := ActiveIds(alerts, other);
    if ids != [] {
      assert ids[0] in ids;
    }
  }

  /** The rule itself, in the row's own terms: its own threshold counts whenever it has one, zero
      included, else the default; at the threshold is low. */
  lemma AlertRule(alerts: seq<Alert>, k: Key, q: int, own: Option<int>, default: int)
    requires AtMostOneActive(alerts, k)
    ensures var e := Evaluate(alerts, k, Inventory(q, own), default);
            var n := if own == None then default else own.value;
      && e.Success? && AtMostOneActive(e.value.alerts, k)
      && Current(e.value.alerts, k) == if q > n then OK else if q == 0 then Condition.OUT else LOW
  {
    EvaluateReconciles(alerts, k, Inventory(q, own), default);
  }

  /** What is on record afterwards when stock is above the threshold: no alert is made, changed,
      announced or mailed; an active one of the pair is resolved. */
  lemma QuietEvaluation(alerts: seq<Alert>, k: Key, q: int, own: Option<int>, default: int)
    requires AtMostOneActive(alerts, k) && q > if own == None then default else own.value
    ensures var e := Evaluate(alerts, k, Inventory(q, own), default).value;
      && e.active == None && e.events == [] && e.notified == [] && |e.alerts| == |alerts|
      && forall i :: 0 <= i < |alerts| ==>
           e.alerts[i] == if IsActive(alerts, k, i) then alerts[i].(status := RESOLVED) else alerts[i]
  {
  }

  /** And when it is not: a new alert keeps the threshold and quantity it was raised at; an old one
      keeps its threshold, and its quantity changes only with its type. The one email and the one
      event are for that alert. */
  lemma RaisedEvaluation(alerts: seq<Alert>, k: Key, q: int, own: Option<int>, default: int)
    requires AtMostOneActive(alerts, k) && q <= if own == None then default else own.value
    ensures var e := Evaluate(alerts, k, Inventory(q, own), default).value;
            var n := if own == None then default else own.value;
      && e.active.Some? && e.active.value < |e.alerts|
      && var id, alert := e.active.value, e.alerts[e.active.value];
      && alert.key == k && alert.status == ACTIVE && alert.alertType == (if q == 0 then OUT_OF_STOCK else LOW_STOCK)
      && (forall i :: 0 <= i < |alerts| && i != id ==> e.alerts[i] == alerts[i])
      && (if id < |alerts| then
            && |e.alerts| == |alerts| && IsActive(alerts, k, id) && alert.threshold == alerts[id].threshold
            && (alert.alertType == alerts[id].alertType ==> alert == alerts[id] && e.notified == [] && e.events == [])
            && (alert.alertType != alerts[id].alertType ==> alert.quantityAtTrigger == q && e.notified == [id])
          else
            && id == |alerts| && |e.alerts| == |alerts| + 1 && (forall i :: !IsActive(alerts, k, i))
            && alert.threshold == n && alert.quantityAtTrigger == q && e.notified == [id])
      && (e.notified == [id] ==>
            e.events == [if q == 0 then OutOfStockDetected(k.product, k.warehouse)
                         else LowStockDetected(k.product, k.warehouse, q, alert.threshold)])
  {
  }

  /** Every email is for an alert of the evaluated pair, as is the event that goes with it. */
  lemma EvaluateNotifies(alerts: seq<Alert>, k: Key, inventory: Inventory, default: int)
    requires Evaluate(alerts, k, inventory, default).Success?
    ensures var e := Evaluate(alerts, k, inventory, default).value;
      && |alerts| <= |e.alerts| && (forall i :: 0 <= i < |alerts| ==> e.alerts[i].key == alerts[i].key)
      && |e.notified| == |e.events| <= 1
      && forall i :: 0 <= i < |e.notified| ==>
           && e.notified[i] < |e.alerts| && e.alerts[e.notified[i]].key == k
           && IsAlertEvent(e.events[i]) && Announced(e.events[i]).0 == k
  {
  }

  /** The threshold in a low-stock event is the one stored when the alert was created. It is
      the row's current threshold unless an alert raised under another one is being changed. */
  lemma EventThreshold(alerts: seq<Alert>, k: Key, inventory: Inventory, default: int)
    requires AtMostOneActive(alerts, k)
    ensures var e := Evaluate(alerts, k, inventory, default).value;
            var existing := GetActive(alerts, k).value;
      |e.events| == 1 && e.events[0].LowStockDetected? ==>
        && e.events[0].quantity == inventory.quantity
        && (e.events[0].threshold == Threshold(inventory, default) <==>
              (existing.Some? ==> alerts[existing.value].threshold == Threshold(inventory, default)))
  {
  }

  /** It can differ: an alert raised at threshold 10, when the stock ran out, turns LOW after the
      row's threshold became 3, and still announces 10. */
  lemma EventThresholdCanBeStale()
    ensures var k, alert := Key(0, 0), Alert(Key(0, 0), OUT_OF_STOCK, ACTIVE, 10, 0);
            var row := Inventory(2, Some(3));
      && Threshold(row, 10) == 3
      && Evaluate([alert], k, row, 10)
         == Success(Evaluation([Alert(k, LOW_STOCK, ACTIVE, 10, 2)], [LowStockDetected(0, 0, 2, 10)], [0], Some(0)))
  {
    var k, alerts := Key(0, 0), [Alert(Key(0, 0), OUT_OF_STOCK, ACTIVE, 10, 0)];
    assert AtMostOneActive(alerts, k);
    assert IsActive(alerts, k, 0);
    assert GetActive(alerts, k).value == Some(0);
    assert alerts[0 := Alert(k, LOW_STOCK, ACTIVE, 10, 2)] == [Alert(k, LOW_STOCK, ACTIVE, 10, 2)];
  }

  // ---------- A manual resolve ----------

  function Resolve(alerts: seq<Alert>, id: nat): Result<seq<Alert>, AlertError> {
    if id >= |alerts| then Failure(AlertNotFound)
    else if alerts[id].status.RESOLVED? then Failure(AlreadyResolved)
    else Success(alerts[id := alerts[id].(status := RESOLVED)])
  }

  /** What a resolve answers, and that a successful one changes one alert's status and nothing else. */
  lemma ResolveAnswers(alerts: seq<Alert>, id: nat)
    ensures Resolve(alerts, id) == Failure(AlertNotFound) <==> id >= |alerts|
    ensures Resolve(alerts, id) == Failure(AlreadyResolved) <==> id < |alerts| && alerts[id].status == RESOLVED
    ensures Resolve(alerts, id).Success? <==> id < |alerts| && alerts[id].status == ACTIVE
    ensures Resolve(alerts, id).Success? ==>
              var alerts' := Resolve(alerts, id).value;
              && |alerts'| == |alerts|
              && forall i :: 0 <= i < |alerts| ==>
                   alerts'[i] == if i == id then alerts[i].(status := RESOLVED) else alerts[i]
  {
  }

  /** A resolve that succeeds leaves its pair with no active alert; a second one is refused. */
  lemma ResolveClears(alerts: seq<Alert>, id: nat)
    requires id < |alerts| && AtMostOneActive(alerts, alerts[id].key)
    ensures Resolve(alerts, id).Success? <==> IsActive(alerts, alerts[id].key, id)
    ensures Resolve(alerts, id).Success? ==>
              var alerts' := Resolve(alerts, id).value;
              && Current(alerts', alerts[id].key) == OK
              && AtMostOneActive(alerts', alerts[id].key)
              && OnlyAbout(alerts, alerts', alerts[id].key)
              && Resolve(alerts', id) == Failure(AlreadyResolved)
  {
    if Resolve(alerts, id).Success? {
      var k, alerts' := alerts[id].key, Resolve(alerts, id).value;
      assert IsActive(alerts, k, id);
      assert forall i :: IsActive(alerts', k, i) ==> IsActive(alerts, k, i);
      CurrentIs(alerts', k);
    }
  }
}
