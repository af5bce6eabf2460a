/** Runs of whole service calls, one after another: movements with their evaluations, manual
    resolves, edits made behind the services' back, and sweeps. Stock, movement history, alerts
    and published events are one state here, and the results tie them to each other. */
module Worlds {
  import opened Wrappers
  import opened Schema
  import opened Ledger
  import opened Events
  import opened AlertRules
  import opened Reconciliation

  type Inventories = map<Key, Inventory>

  datatype World = World(
    catalog: Catalog,
    default: int,                // the global low-stock threshold
    inventories: Inventories,
    movements: seq<Movement>,
    alerts: seq<Alert>,
    events: seq<Event>)

  function Empty(catalog: Catalog, default: int): World {
    World(catalog, default, map[], [], [], [])
  }

  datatype ServiceError = StockFailed(error: Error) | AlertFailed(alertError: AlertError)

  function Quantities(inventories: Inventories): Stock {
    map k | k in inventories :: inventories[k].quantity
  }

  /** Rows with new quantities; a new row has no threshold of its own. */
  function WithQuantities(inventories: Inventories, stock: Stock): Inventories {
    map k | k in stock ::
      Inventory(stock[k], if k in inventories then inventories[k].lowStockThreshold else None)
  }

  function RowOf(inventories: Inventories, k: Key): Row {
    Row(k, if k in inventories then inventories[k] else Inventory(0, None))
  }

  function RowsOf(inventories: Inventories, keys: seq<Key>): (rows: seq<Row>)
    ensures |rows| == |keys|
    ensures forall i :: 0 <= i < |keys| ==> rows[i] == RowOf(inventories, keys[i])
  {
    seq(|keys|, i requires 0 <= i < |keys| => RowOf(inventories, keys[i]))
  }

  function AffectedQuantities(inventories: Inventories, m: Movement): (quantities: seq<int>)
    ensures |quantities| == |Legs(m)|
  {
    var keys := Affected(m);
    seq(|keys|, i requires 0 <= i < |keys| => RowOf(inventories, keys[i]).inventory.quantity)
  }

  /** A movement's own commit: stock and history change together or not at all. */
  function Committed(w: World, m: Movement, stock: Stock): World {
    w.(inventories := WithQuantities(w.inventories, stock), movements := w.movements + [m])
  }

  /** After the commit: the affected rows are evaluated, then the movement's event goes out,
      unless an evaluation raised. */
  function Evaluated(w: World, m: Movement): (World, bool) {
    var batch := EvaluateAll(w.alerts, RowsOf(w.inventories, Affected(m)), w.default);
    var event := if batch.ok then [MovementEvent(m, AffectedQuantities(w.inventories, m))] else [];
    (w.(alerts := batch.alerts, events := w.events + batch.events + event), batch.ok)
  }

  function Record(w: World, m: Movement): (World, Result<Movement, ServiceError>) {
    match Performed(w.catalog, Quantities(w.inventories), m)
    case Failure(error) => (w, Failure(StockFailed(error)))
    case Success(stock) =>
      var (w', ok) := Evaluated(Committed(w, m, stock), m);
      (w', if ok then Success(m) else Failure(AlertFailed(MultipleResultsFound)))
  }

  datatype Op =
    | RecordMovement(move: Movement)
    | ResolveAlert(id: nat)
    | EditRow(key: Key, inventory: Inventory)   // a manual database correction or threshold edit
    | Sweep(order: seq<Key>)                    // the row order the database happens to use

  /** Some order of all inventory rows, each once. */
  ghost predicate Lists(order: seq<Key>, inventories: Inventories) {
    && (forall k :: k in order <==> k in inventories)
    && (forall i, j :: 0 <= i < j < |order| ==> order[i] != order[j])
  }

  ghost function Do(w: World, op: Op): World {
    match op
    case RecordMovement(m) => Record(w, m).0
    case ResolveAlert(id) =>
      var alerts := Resolve(w.alerts, id);
      if alerts.Success? then w.(alerts := alerts.value) else w
    case EditRow(k, inventory) =>
      if k in w.inventories then w.(inventories := w.inventories[k := inventory]) else w
    case Sweep(order) =>
      if !Lists(order, w.inventories) then w else
      var batch := EvaluateAll(w.alerts, RowsOf(w.inventories, order), w.default);
      w.(alerts := batch.alerts, events := w.events + batch.events)
  }

  /** An edit puts any quantity and threshold into an existing row, and touches nothing else. */
  lemma EditExact(w: World, k: Key, inventory: Inventory)
    requires k in w.inventories
    ensures var w' := Do(w, EditRow(k, inventory));
      && w' == w.(inventories := w'.inventories) && w'.inventories.Keys == w.inventories.Keys
      && w'.inventories[k] == inventory
      && forall other :: other in w.inventories && other != k ==> w'.inventories[other] == w.inventories[other]
  {
  }

  ghost function Run(w: World, ops: seq<Op>): World {
    if ops == [] then w else Do(Run(w, ops[..|ops| - 1]), ops[|ops| - 1])
  }

  // ---------- What a recorded movement does to the rows ----------

  lemma QuantitiesOf(inventories: Inventories, stock: Stock)
    ensures Quantities(WithQuantities(inventories, stock)) == stock
  {
  }

  /** Rows a movement does not touch keep their quantity and threshold. */
  lemma UntouchedRows(w: World, m: Movement, k: Key)
    requires k !in Touched(m)
    ensures k in Record(w, m).0.inventories <==> k in w.inventories
    ensures RowOf(Record(w, m).0.inventories, k) == RowOf(w.inventories, k)
  {
    hide EvaluateAll, MovementEvent, SourceFirst;
    PerformedExact(w.catalog, Quantities(w.inventories), m);
  }

  /** The affected rows as evaluated are rows of the new table, and each is affected once. */
  lemma AffectedRows(w: World, m: Movement)
    requires Performed(w.catalog, Quantities(w.inventories), m).Success?
    ensures var rows := RowsOf(Record(w, m).0.inventories, Affected(m));
      DistinctKeys(rows) && forall i :: 0 <= i < |rows| ==> rows[i].key in Record(w, m).0.inventories
  {
    hide EvaluateAll, MovementEvent;
    PerformedExact(w.catalog, Quantities(w.inventories), m);
    var rows := RowsOf(Record(w, m).0.inventories, Affected(m));
    forall i | 0 <= i < |rows|
      ensures rows[i].key in Record(w, m).0.inventories
    {
      assert rows[i].key in Touched(m);
    }
    AffectedDiffer(m);
  }

  /** Every row after a movement: the touched ones have their quantity changed by the movement, or
      are created with it, nothing else about any row changes, and a new row has no threshold of
      its own. */
  lemma RowsExact(w: World, m: Movement, k: Key)
    ensures var rows, rows' := w.inventories, Record(w, m).0.inventories;
            var legal := Legal(w.catalog, Quantities(w.inventories), m);
      && (k in rows' <==> k in rows || (legal && k in Touched(m)))
      && (k in rows && k in rows' ==>
            && rows'[k].lowStockThreshold == rows[k].lowStockThreshold
            && rows'[k].quantity == rows[k].quantity + (if legal then Delta(m, k) else 0))
      && (k !in rows && k in rows' ==>
            rows'[k].lowStockThreshold == None && rows'[k].quantity == Delta(m, k))
  {
    hide EvaluateAll, MovementEvent, Performed, Legal, Delta;
    PerformedExact(w.catalog, Quantities(w.inventories), m);
    EvaluationOnlyAlerts(Committed(w, m, Effect(Quantities(w.inventories), m)), m);
  }

  lemma AffectedDiffer(m: Movement)
    ensures m.Transfer? ==> Affected(m)[0] != Affected(m)[1]
  {
  }

  // ---------- The alert trace ----------

  /** At most one active alert to a pair, everywhere. */
  ghost predicate Calm(alerts: seq<Alert>) {
    forall k :: AtMostOneActive(alerts, k)
  }

  /** The conditions a call finds a pair in. A manual resolve counts as an OK. */
  ghost function Observed(w: World, op: Op, k: Key): seq<Condition> {
    match op
    case RecordMovement(m) =>
      if Performed(w.catalog, Quantities(w.inventories), m).Success?
      then Conditions(RowsOf(Record(w, m).0.inventories, Affected(m)), w.default, k) else []
    case ResolveAlert(id) =>
      if Resolve(w.alerts, id).Success? && w.alerts[id].key == k then [OK] else []
    case EditRow(_, _) => []
    case Sweep(order) =>
      if Lists(order, w.inventories) then Conditions(RowsOf(w.inventories, order), w.default, k) else []
  }

  ghost function ObservedRun(w: World, ops: seq<Op>, k: Key): seq<Condition> {
    if ops == [] then [] else
    var before := ops[..|ops| - 1];
    ObservedRun(w, before, k) + Observed(Run(w, before), ops[|ops| - 1], k)
  }

  /** Evaluating rows keeps every pair at one active alert at most. */
  lemma BatchCalm(alerts: seq<Alert>, rows: seq<Row>, default: int)
    requires Calm(alerts)
    ensures Sound(alerts, rows) && Calm(EvaluateAll(alerts, rows, default).alerts)
  {
    forall k
      ensures AtMostOneActive(EvaluateAll(alerts, rows, default).alerts, k)
    {
      BatchTrace(alerts, rows, default, k);
    }
  }

  /** A movement's event is not an alert event. */
  lemma MovementAnnouncesNothing(m: Movement, quantities: seq<int>, k: Key)
    requires |quantities| == |Legs(m)|
    ensures AnnouncedFor([MovementEvent(m, quantities)], k) == []
  {
    var events := [MovementEvent(m, quantities)];
    assert events[..0] == [];
  }

  lemma EvaluatedTrace(w: World, m: Movement, k: Key)
    requires Calm(w.alerts)
    ensures var w' := Evaluated(w, m).0;
            var observed := Conditions(RowsOf(w.inventories, Affected(m)), w.default, k);
      && Evaluated(w, m).1 && Calm(w'.alerts)
      && AnnouncedFor(w'.events, k) == AnnouncedFor(w.events, k) + Changes(Current(w.alerts, k), observed)
      && Current(w'.alerts, k) == Last(Current(w.alerts, k), observed)
  {
    hide EvaluateAll, Conditions, Current, Changes, MovementEvent;
    var rows := RowsOf(w.inventories, Affected(m));
    BatchCalm(w.alerts, rows, w.default);
    BatchTrace(w.alerts, rows, w.default, k);
    var batch := EvaluateAll(w.alerts, rows, w.default);
    var event := MovementEvent(m, AffectedQuantities(w.inventories, m));
    MovementAnnouncesNothing(m, AffectedQuantities(w.inventories, m), k);
    AnnouncedConcat(w.events, batch.events, k);
    AnnouncedConcat(w.events + batch.events, [event], k);
  }

  lemma EvaluationOnlyAlerts(w: World, m: Movement)
    ensures var w' := Evaluated(w, m).0;
      w'.inventories == w.inventories && w'.movements == w.movements
      && w'.catalog == w.catalog && w'.default == w.default
  {
  }

  lemma ResolveTrace(w: World, id: nat, k: Key)
    requires Calm(w.alerts) && Resolve(w.alerts, id).Success?
    ensures var alerts := Resolve(w.alerts, id).value;
      && Calm(alerts)
      && Current(alerts, k) == if w.alerts[id].key == k then OK else Current(w.alerts, k)
  {
    var key, alerts := w.alerts[id].key, Resolve(w.alerts, id).value;
    ResolveClears(w.alerts, id);
    forall other
      ensures AtMostOneActive(alerts, other)
      ensures other != key ==> Current(alerts, other) == Current(w.alerts, other)
    {
      if other != key {
        OthersUnchanged(w.alerts, alerts, key, other);
      }
    }
  }

  lemma NoChanges(before: Condition)
    ensures Changes(before, []) == [] && Changes(before, [OK]) == []
    ensures AnnouncedFor([], Key(0, 0)) == []
  {
    assert [OK][..0] == [];
  }

  /** Each call's alert events for a pair are the changes among the conditions it observes. */
  lemma DoTrace(w: World, op: Op, k: Key)
    requires Calm(w.alerts)
    ensures Calm(Do(w, op).alerts)
    ensures AnnouncedFor(Do(w, op).events, k)
            == AnnouncedFor(w.events, k) + Changes(Current(w.alerts, k), Observed(w, op, k))
    ensures Current(Do(w, op).alerts, k) == Last(Current(w.alerts, k), Observed(w, op, k))
  {
    hide EvaluateAll, Evaluated, Conditions, Current, Changes, AnnouncedFor, Resolve, Performed, Lists;
    NoChanges(Current(w.alerts, k));
    match op
    case RecordMovement(m) =>
      var stock := Performed(w.catalog, Quantities(w.inventories), m);
      if stock.Success? {
        var committed := Committed(w, m, stock.value);
        EvaluatedTrace(committed, m, k);
        EvaluationOnlyAlerts(committed, m);
      }
    case ResolveAlert(id) =>
      if Resolve(w.alerts, id).Success? {
        ResolveTrace(w, id, k);
      }
    case EditRow(_, _) =>
    case Sweep(order) =>
      if Lists(order, w.inventories) {
        var rows := RowsOf(w.inventories, order);
        BatchCalm(w.alerts, rows, w.default);
        BatchTrace(w.alerts, rows, w.default, k);
        AnnouncedConcat(w.events, EvaluateAll(w.alerts, rows, w.default).events, k);
      }
  }

  /** Over any run of calls, the alert events of a pair are exactly the conditions it was found
      in with repeats dropped and OK left out, and its alert stands at the last of them. */
  lemma {:induction false} AlertTrace(w: World, ops: seq<Op>, k: Key)
    requires Calm(w.alerts)
    ensures Calm(Run(w, ops).alerts)
    ensures AnnouncedFor(Run(w, ops).events, k)
            == AnnouncedFor(w.events, k) + Changes(Current(w.alerts, k), ObservedRun(w, ops, k))
    ensures Current(Run(w, ops).alerts, k) == Last(Current(w.alerts, k), ObservedRun(w, ops, k))
  {
    hide Do, Observed, Current, AnnouncedFor, Changes;
    if ops == [] {
      NoChanges(Current(w.alerts, k));
    } else {
      var n := |ops| - 1;
      AlertTrace(w, ops[..n], k);
      DoTrace(Run(w, ops[..n]), ops[n], k);
      ChangesConcat(Current(w.alerts, k), ObservedRun(w, ops[..n], k), Observed(Run(w, ops[..n]), ops[n], k));
    }
  }

  // ---------- Agreement between alerts and stock ----------

  function Expected(w: World, k: Key): Condition {
    if k in w.inventories then Classify(w.inventories[k], w.default) else OK
  }

  /** Every pair's alert is exactly what its row calls for, and no row means no alert. */
  ghost predicate InAgreement(w: World) {
    Calm(w.alerts) && forall k :: Current(w.alerts, k) == Expected(w, k)
  }

  /** Every active alert is of the type its row calls for; an alert may be missing. */
  ghost predicate Faithful(w: World) {
    Calm(w.alerts) && forall k :: Current(w.alerts, k) == OK || Current(w.alerts, k) == Expected(w, k)
  }

  /** Alerts exist only for pairs that have a row. */
  ghost predicate NoStrays(w: World) {
    forall k :: k !in w.inventories ==> Current(w.alerts, k) == OK
  }

  /** After a movement the touched pairs agree whatever was before, the others are as before. */
  lemma RecordAgreement(w: World, m: Movement, k: Key)
    requires Calm(w.alerts)
    ensures var w' := Record(w, m).0;
      && Calm(w'.alerts)
      && (Performed(w.catalog, Quantities(w.inventories), m).Success? && k in Touched(m) ==>
            Current(w'.alerts, k) == Expected(w', k))
      && (k !in Touched(m) || Performed(w.catalog, Quantities(w.inventories), m).Failure? ==>
            Current(w'.alerts, k) == Current(w.alerts, k) && Expected(w', k) == Expected(w, k))
  {
    hide EvaluateAll, Evaluated, Current, Changes, AnnouncedFor, Performed, Conditions;
    if Performed(w.catalog, Quantities(w.inventories), m).Success? {
      var w' := Record(w, m).0;
      var rows := RowsOf(w'.inventories, Affected(m));
      DoTrace(w, RecordMovement(m), k);
      AffectedRows(w, m);
      if k in Touched(m) {
        var i :| 0 <= i < |Affected(m)| && Affected(m)[i] == k;
        OneCondition(rows, w.default, i);
        RecordDefault(w, m);
      } else {
        UntouchedRows(w, m, k);
        RecordDefault(w, m);
        assert forall i | 0 <= i < |rows| :: rows[i].key in Touched(m);
        NoConditions(rows, w.default, k);
      }
    }
  }

  /** Some pair the movement touches has two active alerts already. */
  ghost predicate Muddled(w: World, m: Movement) {
    exists k :: k in Touched(m) && !AtMostOneActive(w.alerts, k)
  }

  lemma MuddledIsUnsound(w: World, m: Movement, inventories: Inventories)
    ensures Sound(w.alerts, RowsOf(inventories, Affected(m))) <==> !Muddled(w, m)
  {
    hide AtMostOneActive;
    var rows := RowsOf(inventories, Affected(m));
    assert forall i :: 0 <= i < |rows| ==> rows[i].key == Affected(m)[i] && Affected(m)[i] in Touched(m);
    if k :| k in Touched(m) && !AtMostOneActive(w.alerts, k) {
      var i :| 0 <= i < |Affected(m)| && Affected(m)[i] == k;
      assert !AtMostOneActive(w.alerts, rows[i].key);
    }
  }

  /** A refused movement answers with what is wrong, and changes nothing. */
  lemma RefusedAnswer(w: World, m: Movement)
    ensures var refusal := Refusal(w.catalog, Quantities(w.inventories), m);
      && (refusal.Some? ==> Record(w, m) == (w, Failure(StockFailed(refusal.value))))
      && (refusal == None ==> !(Record(w, m).1.Failure? && Record(w, m).1.error.StockFailed?))
  {
    hide Performed, Refusal, Evaluated, Committed;
    RefusedExactly(w.catalog, Quantities(w.inventories), m);
  }

  /** A movement that is not refused is committed. It answers with itself, unless a pair it touches
      has two active alerts already: then the answer is that error. Alert events come first, and
      its own event is last, or left out in that case. */
  lemma CommittedAnswer(w: World, m: Movement) returns (alertEvents: seq<Event>)
    requires Refusal(w.catalog, Quantities(w.inventories), m) == None
    ensures var (w', r) := Record(w, m);
      && w'.movements == w.movements + [m]
      && r == (if Muddled(w, m) then Failure(AlertFailed(MultipleResultsFound)) else Success(m))
      && (forall e :: e in alertEvents ==> IsAlertEvent(e))
      && if Muddled(w, m) then w'.events == w.events + alertEvents
         else |w'.events| == |w.events| + |alertEvents| + 1
              && w'.events[..|w'.events| - 1] == w.events + alertEvents
              && Described(w'.events[|w'.events| - 1]) == Some(m)
  {
    hide EvaluateAll, MovementEvent, Performed, Refusal, Described, Muddled;
    RefusedExactly(w.catalog, Quantities(w.inventories), m);
    var committed := Committed(w, m, Performed(w.catalog, Quantities(w.inventories), m).value);
    var rows := RowsOf(committed.inventories, Affected(m));
    MuddledIsUnsound(w, m, committed.inventories);
    BatchOk(w.alerts, rows, w.default);
    BatchAnnouncesAlerts(w.alerts, rows, w.default);
    EventDescribesMovement(m, AffectedQuantities(committed.inventories, m));
    alertEvents := EvaluateAll(w.alerts, rows, w.default).events;
    assert w.events + alertEvents + [] == w.events + alertEvents;
  }

  /** Spelled out for an OUT, with no pair in two active alerts. */
  lemma OutAnswers(w: World, m: Movement)
    requires m.Out? && Calm(w.alerts)
    ensures var r, k := Record(w, m).1, Key(m.product, m.source);
      r == if m.product !in w.catalog.products then Failure(StockFailed(ProductNotFound(m.product)))
           else if m.source !in w.catalog.warehouses then Failure(StockFailed(WarehouseNotFound(m.source)))
           else if k !in w.inventories then Failure(StockFailed(StockRecordNotFound(k)))
           else if w.inventories[k].quantity < m.quantity
           then Failure(StockFailed(InsufficientStock(k, m.quantity, w.inventories[k].quantity)))
           else Success(m)
  {
    hide Record;
    RefusedAnswer(w, m);
    if Refusal(w.catalog, Quantities(w.inventories), m) == None {
      var _ := CommittedAnswer(w, m);
    }
  }

  /** And for an IN. */
  lemma InAnswers(w: World, m: Movement)
    requires m.In? && Calm(w.alerts)
    ensures Record(w, m).1
            == if m.product !in w.catalog.products then Failure(StockFailed(ProductNotFound(m.product)))
               else if m.destination !in w.catalog.warehouses
               then Failure(StockFailed(WarehouseNotFound(m.destination)))
               else Success(m)
  {
    hide Record;
    RefusedAnswer(w, m);
    if Refusal(w.catalog, Quantities(w.inventories), m) == None {
      var _ := CommittedAnswer(w, m);
    }
  }

  /** A transfer's alert events speak of the source before the destination, whichever row was
      locked first. */
  lemma TransferAlertOrder(w: World, m: Movement)
    requires m.Transfer? && Refusal(w.catalog, Quantities(w.inventories), m) == None && Calm(w.alerts)
    ensures var events, n := Record(w, m).0.events, |w.events|;
      |events| >= n + 3 ==>
        && IsAlertEvent(events[n]) && Announced(events[n]).0 == Key(m.product, m.source)
        && IsAlertEvent(events[n + 1]) && Announced(events[n + 1]).0 == Key(m.product, m.destination)
  {
    hide EvaluateAll, MovementEvent, Performed, Refusal;
    RefusedExactly(w.catalog, Quantities(w.inventories), m);
    var committed := Committed(w, m, Performed(w.catalog, Quantities(w.inventories), m).value);
    var rows := RowsOf(committed.inventories, Affected(m));
    assert rows == [rows[0], rows[1]];
    FirstRowFirst(w.alerts, rows[0], rows[1], w.default);
  }

  lemma RecordDefault(w: World, m: Movement)
    ensures Record(w, m).0.default == w.default && Record(w, m).0.catalog == w.catalog
  {
    hide EvaluateAll, Performed;
  }

  /** Whatever state alerts are in, a sweep over all rows makes them agree; strays stay. */
  lemma SweepAgreement(w: World, order: seq<Key>, k: Key)
    requires Calm(w.alerts) && Lists(order, w.inventories)
    ensures Calm(Do(w, Sweep(order)).alerts)
    ensures Current(Do(w, Sweep(order)).alerts, k)
            == if k in w.inventories then Expected(w, k) else Current(w.alerts, k)
  {
    hide EvaluateAll, Current, Changes, AnnouncedFor, Conditions;
    DoTrace(w, Sweep(order), k);
    var rows := RowsOf(w.inventories, order);
    if k in w.inventories {
      var i :| 0 <= i < |order| && order[i] == k;
      OneCondition(rows, w.default, i);
    } else {
      forall i | 0 <= i < |rows|
        ensures rows[i].key != k
      {
        assert order[i] in order;
      }
      NoConditions(rows, w.default, k);
    }
  }

  predicate IsMovement(op: Op) {
    op.RecordMovement?
  }

  predicate IsRequest(op: Op) {
    op.RecordMovement? || op.ResolveAlert?
  }

  lemma EmptyAgrees(catalog: Catalog, default: int)
    ensures InAgreement(Empty(catalog, default)) && NoStrays(Empty(catalog, default))
  {
  }

  /** After any run of movements from empty tables every inventory row has exactly one active
      alert of the right type when its quantity is at or below its threshold, and none when not. */
  lemma {:induction false} MovementsKeepAgreement(w: World, ops: seq<Op>)
    requires InAgreement(w) && forall i :: 0 <= i < |ops| ==> IsMovement(ops[i])
    ensures InAgreement(Run(w, ops))
  {
    hide Record, Current, Classify;
    if ops != [] {
      var n := |ops| - 1;
      MovementsKeepAgreement(w, ops[..n]);
      var before, m := Run(w, ops[..n]), ops[n].move;
      assert IsMovement(ops[n]);
      forall k
        ensures Current(Record(before, m).0.alerts, k) == Expected(Record(before, m).0, k)
      {
        RecordAgreement(before, m, k);
      }
      RecordAgreement(before, m, Key(0, 0));
    }
  }

  /** With manual resolves an alert may be missing, but an active one is still right. */
  lemma {:induction false} RequestsKeepFaith(w: World, ops: seq<Op>)
    requires Faithful(w) && forall i :: 0 <= i < |ops| ==> IsRequest(ops[i])
    ensures Faithful(Run(w, ops))
  {
    hide Record, Current, Classify, Resolve;
    if ops != [] {
      var n := |ops| - 1;
      RequestsKeepFaith(w, ops[..n]);
      var before := Run(w, ops[..n]);
      assert IsRequest(ops[n]);
      if ops[n].RecordMovement? {
        forall k
          ensures Calm(Record(before, ops[n].move).0.alerts)
          ensures Current(Record(before, ops[n].move).0.alerts, k) == OK
               || Current(Record(before, ops[n].move).0.alerts, k) == Expected(Record(before, ops[n].move).0, k)
        {
          RecordAgreement(before, ops[n].move, k);
        }
        RecordAgreement(before, ops[n].move, Key(0, 0));
      } else if Resolve(before.alerts, ops[n].id).Success? {
        forall k
          ensures Current(Resolve(before.alerts, ops[n].id).value, k) == OK
               || Current(Resolve(before.alerts, ops[n].id).value, k) == Expected(before, k)
        {
          ResolveTrace(before, ops[n].id, k);
        }
        ResolveTrace(before, ops[n].id, Key(0, 0));
      }
    }
  }

  /** From an agreed state a manual resolve keeps agreement exactly when it is refused. One that
      goes through leaves a low row without an alert, though no wrong alert. */
  lemma ResolveBreaksAgreement(w: World, id: nat)
    requires InAgreement(w)
    ensures InAgreement(Do(w, ResolveAlert(id))) <==> id >= |w.alerts| || w.alerts[id].status.RESOLVED?
    ensures Faithful(Do(w, ResolveAlert(id)))
  {
    hide Classify;
    if Resolve(w.alerts, id).Success? {
      var k := w.alerts[id].key;
      assert IsActive(w.alerts, k, id);
      CurrentIs(w.alerts, k);
      forall other
        ensures Current(Resolve(w.alerts, id).value, other)
                == if other == k then OK else Current(w.alerts, other)
      {
        ResolveTrace(w, id, other);
      }
      ResolveTrace(w, id, k);
      assert Expected(w, k) != OK;
    }
  }

  /** Whatever the calls and edits, no pair gets a second active alert, and no alert is about a
      pair without a row. */
  lemma DoKeepsOrder(w: World, op: Op)
    requires Calm(w.alerts) && NoStrays(w)
    ensures Calm(Do(w, op).alerts) && NoStrays(Do(w, op))
  {
    hide Record, Current, Classify, Resolve, EvaluateAll;
    DoTrace(w, op, Key(0, 0));
    forall k | k !in Do(w, op).inventories
      ensures Current(Do(w, op).alerts, k) == OK
    {
      match op
      case RecordMovement(m) =>
        RecordAgreement(w, m, k);
        RowsStay(w, m, k);
      case ResolveAlert(id) =>
        if Resolve(w.alerts, id).Success? {
          ResolveTrace(w, id, k);
        }
      case EditRow(_, _) =>
      case Sweep(order) =>
        if Lists(order, w.inventories) {
          SweepAgreement(w, order, k);
        }
    }
  }

  /** A movement never removes a row, and adds none but those it touches. */
  lemma RowsStay(w: World, m: Movement, k: Key)
    ensures k in w.inventories ==> k in Record(w, m).0.inventories
    ensures k in Touched(m) && Performed(w.catalog, Quantities(w.inventories), m).Success? ==>
              k in Record(w, m).0.inventories
  {
    hide EvaluateAll, MovementEvent;
    PerformedExact(w.catalog, Quantities(w.inventories), m);
  }

  lemma {:induction false} RunKeepsOrder(w: World, ops: seq<Op>)
    requires Calm(w.alerts) && NoStrays(w)
    ensures Calm(Run(w, ops).alerts) && NoStrays(Run(w, ops))
  {
    hide Do, Calm, NoStrays;
    if ops != [] {
      RunKeepsOrder(w, ops[..|ops| - 1]);
      DoKeepsOrder(Run(w, ops[..|ops| - 1]), ops[|ops| - 1]);
    }
  }

  /** The safety net: after any run of movements, resolves, edits and sweeps from empty tables,
      a sweep succeeds and brings every alert into agreement, and sweeping again, in whatever
      row order, changes nothing and publishes nothing. */
  lemma SweepRepairs(catalog: Catalog, default: int, ops: seq<Op>, order: seq<Key>, again: seq<Key>)
    requires Lists(order, Run(Empty(catalog, default), ops).inventories)
    requires Lists(again, Run(Empty(catalog, default), ops).inventories)
    ensures var w := Run(Empty(catalog, default), ops);
            var w' := Do(w, Sweep(order));
      InAgreement(w') && w'.inventories == w.inventories && Do(w', Sweep(again)) == w'
  {
    hide Run, Current, Classify, EvaluateAll;
    EmptyAgrees(catalog, default);
    RunKeepsOrder(Empty(catalog, default), ops);
    var w := Run(Empty(catalog, default), ops);
    var w' := Do(w, Sweep(order));
    forall k
      ensures Calm(w'.alerts) && Current(w'.alerts, k) == Expected(w', k)
    {
      SweepAgreement(w, order, k);
    }
    SweepAgreement(w, order, Key(0, 0));
    assert InAgreement(w');
    SweepIdle(w', again);
  }

  lemma SweepIdle(w: World, order: seq<Key>)
    requires InAgreement(w) && Lists(order, w.inventories)
    ensures Do(w, Sweep(order)) == w
  {
    hide Current, Classify, EvaluateAll;
    var rows := RowsOf(w.inventories, order);
    forall i | 0 <= i < |rows|
      ensures Agrees(w.alerts, rows[i], w.default)
    {
      assert order[i] in order;
      assert Current(w.alerts, order[i]) == Expected(w, order[i]);
    }
    AgreementIsStable(w.alerts, rows, w.default);
    assert w.events + [] == w.events;
  }

  // ---------- Alerts and the ledger ----------

  /** Stock, history and thresholds as movements alone leave them. */
  ghost predicate LedgerOk(w: World) {
    && Quantities(w.inventories) == Replay(w.movements)
    && LegalHistory(w.catalog, w.movements)
    && forall k :: k in w.inventories ==> w.inventories[k].lowStockThreshold == None
  }

  lemma RecordKeepsLedger(w: World, m: Movement)
    requires LedgerOk(w)
    ensures LedgerOk(Record(w, m).0)
    ensures Record(w, m).0.movements
            == if Legal(w.catalog, Replay(w.movements), m) then w.movements + [m] else w.movements
  {
    hide EvaluateAll, MovementEvent, Performed;
    PerformedExact(w.catalog, Replay(w.movements), m);
    if Legal(w.catalog, Replay(w.movements), m) {
      ReplaySnoc(w.movements, m);
      LegalSnoc(w.catalog, w.movements, m);
      QuantitiesOf(w.inventories, Effect(Replay(w.movements), m));
    }
  }

  /** A recorded movement's own event comes last and says what the ledger says at that point;
      before it come only alert events. */
  lemma RecordAnnounces(w: World, m: Movement) returns (alertEvents: seq<Event>)
    requires LedgerOk(w) && Calm(w.alerts) && Legal(w.catalog, Replay(w.movements), m)
    ensures var w' := Record(w, m).0;
      && w'.movements == w.movements + [m]
      && w'.events == w.events + alertEvents + [HistoricalEvent(w'.movements)]
    ensures forall e :: e in alertEvents ==> IsAlertEvent(e)
  {
    hide EvaluateAll, MovementEvent, Performed, Legal, Replay;
    RecordKeepsLedger(w, m);
    PerformedExact(w.catalog, Replay(w.movements), m);
    var stock := Performed(w.catalog, Quantities(w.inventories), m).value;
    var committed := Committed(w, m, stock);
    var rows := RowsOf(committed.inventories, Affected(m));
    EvaluationOnlyAlerts(committed, m);
    BatchCalm(w.alerts, rows, w.default);
    BatchOk(w.alerts, rows, w.default);
    BatchAnnouncesAlerts(w.alerts, rows, w.default);
    alertEvents := EvaluateAll(w.alerts, rows, w.default).events;
    var history, keys := committed.movements, Affected(m);
    forall i | 0 <= i < |keys|
      ensures AffectedQuantities(committed.inventories, m)[i] == Balance(history, keys[i])
    {
      ReplayIsBalance(w.catalog, history, keys[i]);
      assert Quantity(Quantities(committed.inventories), keys[i])
          == RowOf(committed.inventories, keys[i]).inventory.quantity;
    }
    assert AffectedQuantities(committed.inventories, m)
        == seq(|keys|, i requires 0 <= i < |keys| => Balance(history, keys[i]));
  }

  /** The conditions a history takes a pair through: one for each movement that touches it,
      from the pair's balance just after that movement. */
  ghost function LedgerConditions(history: seq<Movement>, default: int, k: Key): seq<Condition> {
    if history == [] then [] else
    var n := |history| - 1;
    LedgerConditions(history[..n], default, k)
    + (if k in Touched(history[n]) then [Classify(Inventory(Balance(history, k), None), default)] else [])
  }

  /** One movement is observed as its ledger entry says. */
  lemma RecordObserved(w: World, m: Movement, k: Key)
    requires LedgerOk(w)
    ensures LedgerConditions(Record(w, m).0.movements, w.default, k)
            == LedgerConditions(w.movements, w.default, k) + Observed(w, RecordMovement(m), k)
  {
    hide EvaluateAll, MovementEvent, Performed, Conditions, Classify;
    RecordKeepsLedger(w, m);
    PerformedExact(w.catalog, Replay(w.movements), m);
    if Legal(w.catalog, Replay(w.movements), m) {
      var w' := Record(w, m).0;
      assert w'.movements[..|w.movements|] == w.movements;
      var rows := RowsOf(w'.inventories, Affected(m));
      AffectedRows(w, m);
      ReplayIsBalance(w'.catalog, w'.movements, k);
      RecordDefault(w, m);
      if k in Touched(m) {
        var i :| 0 <= i < |Affected(m)| && Affected(m)[i] == k;
        OneCondition(rows, w.default, i);
        assert k in w'.inventories;
        assert w'.inventories[k].quantity == Quantities(w'.inventories)[k];
        assert w'.inventories[k] == Inventory(Balance(w'.movements, k), None);
      } else {
        assert forall i | 0 <= i < |rows| :: rows[i].key in Touched(m);
        NoConditions(rows, w.default, k);
      }
    }
  }

  lemma {:induction false} MovementsObserved(catalog: Catalog, default: int, ops: seq<Op>, k: Key)
    requires forall i :: 0 <= i < |ops| ==> IsMovement(ops[i])
    ensures var w := Run(Empty(catalog, default), ops);
      && LedgerOk(w) && w.default == default && w.catalog == catalog
      && ObservedRun(Empty(catalog, default), ops, k) == LedgerConditions(w.movements, default, k)
  {
    hide Record, LedgerConditions, Observed;
    if ops == [] {
      EmptyLedger(catalog, default, k);
    } else {
      var n := |ops| - 1;
      MovementsObserved(catalog, default, ops[..n], k);
      assert IsMovement(ops[n]);
      var w := Run(Empty(catalog, default), ops[..n]);
      RecordKeepsLedger(w, ops[n].move);
      RecordObserved(w, ops[n].move, k);
      RecordDefault(w, ops[n].move);
    }
  }

  lemma EmptyLedger(catalog: Catalog, default: int, k: Key)
    ensures LedgerOk(Empty(catalog, default)) && LedgerConditions([], default, k) == []
  {
  }

  /** Ledger, stock and alerts together: after any run of movements from empty tables, stock is
      the replay of the recorded movements, and the alert events of a pair are the changes into
      LOW and OUT that its ledger balance went through, one for each, in order. */
  lemma {:induction false} AlertsFollowLedger(catalog: Catalog, default: int, ops: seq<Op>, k: Key)
    requires forall i :: 0 <= i < |ops| ==> IsMovement(ops[i])
    ensures var w := Run(Empty(catalog, default), ops);
      && Quantities(w.inventories) == Replay(w.movements) && LegalHistory(catalog, w.movements)
      && InAgreement(w)
      && AnnouncedFor(w.events, k) == Changes(OK, LedgerConditions(w.movements, default, k))
  {
    hide Run, LedgerConditions, ObservedRun, AnnouncedFor, Changes, Legal, Replay;
    var empty := Empty(catalog, default);
    EmptyAgrees(catalog, default);
    assert Current(empty.alerts, k) == Expected(empty, k) == OK;
    AlertTrace(empty, ops, k);
    MovementsObserved(catalog, default, ops, k);
    MovementsKeepAgreement(empty, ops);
    NothingAnnounced(k);
  }

  lemma NothingAnnounced(k: Key)
    ensures AnnouncedFor([], k) == []
  {
  }

  /** Two calls are enough to lose agreement: receive one unit where the threshold is 10, and
      resolve the alert that raises. */
  lemma ResolvedTooSoon()
    ensures var w := Run(Empty(Catalog({0}, {0}), 10), [RecordMovement(In(0, 0, 1))]);
      && w.alerts == [Alert(Key(0, 0), LOW_STOCK, ACTIVE, 10, 1)]
      && InAgreement(w) && !InAgreement(Do(w, ResolveAlert(0)))
  {
    var empty, m: Movement := Empty(Catalog({0}, {0}), 10), In(0, 0, 1);
    var ops := [RecordMovement(m)];
    assert ops[..0] == [] && Run(empty, ops) == Record(empty, m).0;
    FirstAlert();
    EmptyAgrees(Catalog({0}, {0}), 10);
    MovementsKeepAgreement(empty, ops);
    ResolveBreaksAgreement(Run(empty, ops), 0);
  }

  lemma FirstAlert()
    ensures Record(Empty(Catalog({0}, {0}), 10), In(0, 0, 1)).0.alerts
            == [Alert(Key(0, 0), LOW_STOCK, ACTIVE, 10, 1)]
  {
    var w, m: Movement := Empty(Catalog({0}, {0}), 10), In(0, 0, 1);
    PerformOne(w.catalog, map[], Increase(Key(0, 0), 1));
    assert Performed(w.catalog, map[], m) == Success(map[Key(0, 0) := 1]);
    var committed := Committed(w, m, map[Key(0, 0) := 1]);
    assert Quantities(w.inventories) == map[];
    var rows := RowsOf(committed.inventories, Affected(m));
    assert rows == [Row(Key(0, 0), Inventory(1, None))] && rows[..0] == [];
    assert EvaluateAll([], [], 10) == Batch([], [], [], 0, true);
    assert EvaluateAll([], rows, 10) == EvaluateNext(Batch([], [], [], 0, true), rows[0], 10);
    assert GetActive([], Key(0, 0)) == Success(None);
  }
}
