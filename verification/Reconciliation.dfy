/** Evaluating many rows one after another: a movement's affected rows, or a whole sweep. */
module Reconciliation {
  import opened Ledger
  import opened Events
  import opened AlertRules

  datatype Row = Row(key: Key, inventory: Inventory)

  /** Where a series of evaluations has got to; `ok` is false once one has raised. */
  datatype Batch = Batch(
    alerts: seq<Alert>,
    events: seq<Event>,
    notified: seq<nat>,
    active: nat,        // evaluations that returned an alert
    ok: bool)

  function EvaluateNext(batch: Batch, row: Row, default: int): Batch {
    if !batch.ok then batch else
    match Evaluate(batch.alerts, row.key, row.inventory, default)
    case Failure(_) => batch.(ok := false)
    case Success(e) =>
      Batch(e.alerts, batch.events + e.events, batch.notified + e.notified,
            batch.active + (if e.active.Some? then 1 else 0), true)
  }

  function EvaluateAll(alerts: seq<Alert>, rows: seq<Row>, default: int): Batch {
    if rows == [] then Batch(alerts, [], [], 0, true)
    else EvaluateNext(EvaluateAll(alerts, rows[..|rows| - 1], default), rows[|rows| - 1], default)
  }

  /** A batch that starts from where the first one ended. */
  function Then(first: Batch, second: Batch): Batch {
    if !first.ok then first
    else Batch(second.alerts, first.events + second.events, first.notified + second.notified,
               first.active + second.active, second.ok)
  }

  lemma Associative<T>(xs: seq<T>, ys: seq<T>, zs: seq<T>)
    ensures (xs + ys) + zs == xs + (ys + zs)
  {
  }

  lemma NextThen(first: Batch, second: Batch, row: Row, default: int)
    ensures EvaluateNext(Then(first, second), row, default) == Then(first, EvaluateNext(second, row, default))
  {
    var e := Evaluate(second.alerts, row.key, row.inventory, default);
    if e.Success? {
      Associative(first.events, second.events, e.value.events);
      Associative(first.notified, second.notified, e.value.notified);
    }
  }

  /** Evaluating a list in two parts is evaluating it whole. */
  lemma {:induction false} EvaluateConcat(alerts: seq<Alert>, rows: seq<Row>, more: seq<Row>, default: int)
    ensures var first := EvaluateAll(alerts, rows, default);
      EvaluateAll(alerts, rows + more, default) == Then(first, EvaluateAll(first.alerts, more, default))
  {
    var first := EvaluateAll(alerts, rows, default);
    if more == [] {
      assert rows + more == rows;
    } else {
      var n := |more| - 1;
      assert (rows + more)[..|rows| + n] == rows + more[..n];
      EvaluateConcat(alerts, rows, more[..n], default);
      NextThen(first, EvaluateAll(first.alerts, more[..n], default), more[n], default);
    }
  }

  // ---------- The alert trace of one pair ----------

  /** The conditions one pair is found in, in order. */
  function Conditions(rows: seq<Row>, default: int, k: Key): seq<Condition> {
    if rows == [] then [] else
    var row := rows[|rows| - 1];
    Conditions(rows[..|rows| - 1], default, k)
    + (if row.key == k then [Classify(row.inventory, default)] else [])
  }

  function Last(before: Condition, conditions: seq<Condition>): Condition {
    if conditions == [] then before else conditions[|conditions| - 1]
  }

  /** The reference for the events of a pair: the conditions it goes through, with repeats of
      the condition before dropped and OK left out. */
  function Changes(before: Condition, conditions: seq<Condition>): seq<Condition> {
    if conditions == [] then [] else
    var n := |conditions| - 1;
    var c := conditions[n];
    Changes(before, conditions[..n])
    + (if c != OK && c != Last(before, conditions[..n]) then [c] else [])
  }

  /** The conditions announced for a pair by a series of events. */
  function AnnouncedFor(events: seq<Event>, k: Key): seq<Condition> {
    if events == [] then [] else
    var e := events[|events| - 1];
    AnnouncedFor(events[..|events| - 1], k)
    + (if (e.LowStockDetected? || e.OutOfStockDetected?) && Announced(e).0 == k then [Announced(e).1] else [])
  }

  lemma {:induction false} AnnouncedConcat(events: seq<Event>, more: seq<Event>, k: Key)
    ensures AnnouncedFor(events + more, k) == AnnouncedFor(events, k) + AnnouncedFor(more, k)
  {
    if more == [] {
      assert events + more == events;
    } else {
      var n := |more| - 1;
      assert (events + more)[..|events| + n] == events + more[..n];
      AnnouncedConcat(events, more[..n], k);
    }
  }

  lemma {:induction false} ChangesConcat(before: Condition, cs: seq<Condition>, more: seq<Condition>)
    ensures Changes(before, cs + more) == Changes(before, cs) + Changes(Last(before, cs), more)
    ensures Last(before, cs + more) == Last(Last(before, cs), more)
  {
    if more == [] {
      assert cs + more == cs;
    } else {
      var n := |more| - 1;
      assert (cs + more)[..|cs| + n] == cs + more[..n];
      ChangesConcat(before, cs, more[..n]);
    }
  }

  /** One evaluation, as a trace step of every pair. */
  lemma EvaluateTrace(alerts: seq<Alert>, row: Row, default: int, k: Key)
    requires AtMostOneActive(alerts, row.key)
    ensures Evaluate(alerts, row.key, row.inventory, default).Success?
    ensures var e := Evaluate(alerts, row.key, row.inventory, default).value;
            var observed := if row.key == k then [Classify(row.inventory, default)] else [];
      && AnnouncedFor(e.events, k) == Changes(Current(alerts, k), observed)
      && Current(e.alerts, k) == Last(Current(alerts, k), observed)
      && (AtMostOneActive(e.alerts, k) <==> AtMostOneActive(alerts, k))
  {
    EvaluateReconciles(alerts, row.key, row.inventory, default);
    var e := Evaluate(alerts, row.key, row.inventory, default).value;
    if row.key != k {
      OthersUnchanged(alerts, e.alerts, row.key, k);
    } else {
      var c := Classify(row.inventory, default);
      assert [c][..0] == [];
      assert Changes(Current(alerts, k), [c]) == if c != OK && c != Current(alerts, k) then [c] else [];
    }
    if e.events != [] {
      assert e.events[..0] == [];
      assert AnnouncedFor(e.events, k) == if row.key == k then [Classify(row.inventory, default)] else [];
    }
  }

  lemma EmptyTrace(before: Condition, k: Key)
    ensures AnnouncedFor([], k) == Changes(before, []) == []
  {
  }

  ghost predicate Sound(alerts: seq<Alert>, rows: seq<Row>) {
    forall i :: 0 <= i < |rows| ==> AtMostOneActive(alerts, rows[i].key)
  }

  /** Over a series of evaluations the events of each pair are the changes of its conditions,
      and its alert ends as the last of them. */
  lemma {:induction false} BatchTrace(alerts: seq<Alert>, rows: seq<Row>, default: int, k: Key)
    requires Sound(alerts, rows)
    ensures var batch := EvaluateAll(alerts, rows, default);
      && batch.ok
      && AnnouncedFor(batch.events, k) == Changes(Current(alerts, k), Conditions(rows, default, k))
      && Current(batch.alerts, k) == Last(Current(alerts, k), Conditions(rows, default, k))
      && (AtMostOneActive(batch.alerts, k) <==> AtMostOneActive(alerts, k))
      && |batch.notified| == |batch.events|
  {
    hide Evaluate, Changes, AnnouncedFor, Current, Classify;
    if rows == [] {
      EmptyTrace(Current(alerts, k), k);
    } else {
      var n := |rows| - 1;
      BatchTrace(alerts, rows[..n], default, k);
      BatchTrace(alerts, rows[..n], default, rows[n].key);
      var before := EvaluateAll(alerts, rows[..n], default);
      assert AtMostOneActive(alerts, rows[n].key);
      EvaluateTrace(before.alerts, rows[n], default, k);
      EvaluateReconciles(before.alerts, rows[n].key, rows[n].inventory, default);
      var e := Evaluate(before.alerts, rows[n].key, rows[n].inventory, default).value;
      AnnouncedConcat(before.events, e.events, k);
      var observed := if rows[n].key == k then [Classify(rows[n].inventory, default)] else [];
      ChangesConcat(Current(alerts, k), Conditions(rows[..n], default, k), observed);
    }
  }

  /** Evaluations publish alert events only. */
  lemma {:induction false} BatchAnnouncesAlerts(alerts: seq<Alert>, rows: seq<Row>, default: int)
    ensures forall e :: e in EvaluateAll(alerts, rows, default).events ==> IsAlertEvent(e)
  {
    if rows != [] {
      BatchAnnouncesAlerts(alerts, rows[..|rows| - 1], default);
    }
  }

  /** Each email is for the alert that its event announces. */
  ghost predicate MailsMatch(batch: Batch) {
    && |batch.notified| == |batch.events|
    && forall i :: 0 <= i < |batch.events| ==>
         && batch.notified[i] < |batch.alerts| && IsAlertEvent(batch.events[i])
         && batch.alerts[batch.notified[i]].key == Announced(batch.events[i]).0
  }

  lemma {:induction false} EmailsFollowEvents(alerts: seq<Alert>, rows: seq<Row>, default: int)
    ensures MailsMatch(EvaluateAll(alerts, rows, default))
  {
    hide Evaluate;
    if rows != [] {
      var n := |rows| - 1;
      EmailsFollowEvents(alerts, rows[..n], default);
      var before := EvaluateAll(alerts, rows[..n], default);
      if before.ok && Evaluate(before.alerts, rows[n].key, rows[n].inventory, default).Success? {
        EvaluateNotifies(before.alerts, rows[n].key, rows[n].inventory, default);
      }
    }
  }

  /** A batch of two rows of different pairs speaks of the first before the second. */
  lemma FirstRowFirst(alerts: seq<Alert>, first: Row, second: Row, default: int)
    ensures var events := EvaluateAll(alerts, [first, second], default).events;
      && |events| <= 2
      && (forall e :: e in events ==> IsAlertEvent(e) && Announced(e).0 in {first.key, second.key})
      && (|events| == 2 ==>
            && IsAlertEvent(events[0]) && Announced(events[0]).0 == first.key
            && IsAlertEvent(events[1]) && Announced(events[1]).0 == second.key)
  {
    hide Evaluate;
    var rows := [first, second];
    assert rows[..1] == [first] && [first][..0] == [];
    assert EvaluateAll(alerts, [], default) == Batch(alerts, [], [], 0, true);
    var one := EvaluateAll(alerts, [first], default);
    assert one == EvaluateNext(Batch(alerts, [], [], 0, true), first, default);
    if Evaluate(alerts, first.key, first.inventory, default).Success? {
      EvaluateNotifies(alerts, first.key, first.inventory, default);
      if Evaluate(one.alerts, second.key, second.inventory, default).Success? {
        EvaluateNotifies(one.alerts, second.key, second.inventory, default);
      }
    }
  }

  // ---------- Agreement ----------

  ghost predicate DistinctKeys(rows: seq<Row>) {
    forall i, j :: 0 <= i < j < |rows| ==> rows[i].key != rows[j].key
  }

  /** A pair has exactly one active alert, of the type the rule gives, or none when it gives none. */
  ghost predicate Agrees(alerts: seq<Alert>, row: Row, default: int) {
    AtMostOneActive(alerts, row.key) && Current(alerts, row.key) == Classify(row.inventory, default)
  }

  ghost predicate AllAgree(alerts: seq<Alert>, rows: seq<Row>, default: int) {
    forall i :: 0 <= i < |rows| ==> Agrees(alerts, rows[i], default)
  }

  function BelowThreshold(rows: seq<Row>, default: int): nat {
    if rows == [] then 0 else
    var inventory := rows[|rows| - 1].inventory;
    BelowThreshold(rows[..|rows| - 1], default)
    + (if inventory.quantity <= Threshold(inventory, default) then 1 else 0)
  }

  lemma {:induction false} NoConditions(rows: seq<Row>, default: int, k: Key)
    requires forall i :: 0 <= i < |rows| ==> rows[i].key != k
    ensures Conditions(rows, default, k) == []
  {
    if rows != [] {
      NoConditions(rows[..|rows| - 1], default, k);
    }
  }

  /** With one row to a pair, each pair is found in its row's condition, once. */
  lemma {:induction false} OneCondition(rows: seq<Row>, default: int, i: nat)
    requires DistinctKeys(rows) && i < |rows|
    ensures Conditions(rows, default, rows[i].key) == [Classify(rows[i].inventory, default)]
  {
    var n := |rows| - 1;
    if i < n {
      OneCondition(rows[..n], default, i);
    } else {
      NoConditions(rows[..n], default, rows[n].key);
    }
  }

  lemma {:induction false} CountsActive(alerts: seq<Alert>, rows: seq<Row>, default: int)
    requires Sound(alerts, rows)
    ensures EvaluateAll(alerts, rows, default).active == BelowThreshold(rows, default)
  {
    if rows != [] {
      var n := |rows| - 1;
      CountsActive(alerts, rows[..n], default);
      BatchTrace(alerts, rows[..n], default, rows[n].key);
      assert AtMostOneActive(alerts, rows[n].key);
      EvaluateReconciles(EvaluateAll(alerts, rows[..n], default).alerts, rows[n].key, rows[n].inventory, default);
    }
  }

  /** Evaluating every row once brings all of them into agreement, from any table with at most
      one active alert for each of their pairs, and leaves the alerts of other pairs alone. */
  lemma {:induction false} EvaluateAllAgrees(alerts: seq<Alert>, rows: seq<Row>, default: int)
    requires DistinctKeys(rows) && Sound(alerts, rows)
    ensures var batch := EvaluateAll(alerts, rows, default);
      && batch.ok && AllAgree(batch.alerts, rows, default)
      && batch.active == BelowThreshold(rows, default)
    ensures forall k | forall i :: 0 <= i < |rows| ==> rows[i].key != k ::
              Current(EvaluateAll(alerts, rows, default).alerts, k) == Current(alerts, k)
  {
    CountsActive(alerts, rows, default);
    var batch := EvaluateAll(alerts, rows, default);
    forall i | 0 <= i < |rows|
      ensures Agrees(batch.alerts, rows[i], default)
    {
      BatchTrace(alerts, rows, default, rows[i].key);
      OneCondition(rows, default, i);
      assert AtMostOneActive(alerts, rows[i].key);
    }
    BatchOk(alerts, rows, default);
    forall k | forall i :: 0 <= i < |rows| ==> rows[i].key != k
      ensures Current(batch.alerts, k) == Current(alerts, k)
    {
      BatchTrace(alerts, rows, default, k);
      NoConditions(rows, default, k);
    }
  }

  /** The series runs to its end exactly when no pair in it has two active alerts. */
  lemma {:induction false} BatchOk(alerts: seq<Alert>, rows: seq<Row>, default: int)
    ensures EvaluateAll(alerts, rows, default).ok <==> Sound(alerts, rows)
  {
    if Sound(alerts, rows) {
      BatchTrace(alerts, rows, default, Key(0, 0));
    } else {
      var n := |rows| - 1;
      if Sound(alerts, rows[..n]) {
        assert forall i | 0 <= i < n :: rows[..n][i] == rows[i];
        assert !AtMostOneActive(alerts, rows[n].key);
        BatchTrace(alerts, rows[..n], default, rows[n].key);
        EvaluateFails(EvaluateAll(alerts, rows[..n], default).alerts, rows[n].key, rows[n].inventory, default);
      } else {
        BatchOk(alerts, rows[..n], default);
      }
    }
  }

  /** Rows already in agreement are evaluated without any change, event or email. */
  lemma {:induction false} AgreementIsStable(alerts: seq<Alert>, rows: seq<Row>, default: int)
    requires AllAgree(alerts, rows, default)
    ensures EvaluateAll(alerts, rows, default)
            == Batch(alerts, [], [], BelowThreshold(rows, default), true)
  {
    if rows != [] {
      var n := |rows| - 1;
      AgreementIsStable(alerts, rows[..n], default);
      var before := EvaluateAll(alerts, rows[..n], default);
      assert Agrees(alerts, rows[n], default);
      NothingToDo(alerts, rows[n], default);
      assert before.events + [] == [] && before.notified + [] == [];
    }
  }

  lemma NothingToDo(alerts: seq<Alert>, row: Row, default: int)
    requires Agrees(alerts, row, default)
    ensures var e := Evaluate(alerts, row.key, row.inventory, default);
      && e.Success? && e.value.alerts == alerts && e.value.events == [] && e.value.notified == []
      && (e.value.active.Some? <==> row.inventory.quantity <= Threshold(row.inventory, default))
  {
    CurrentIs(alerts, row.key);
    EvaluateReconciles(alerts, row.key, row.inventory, default);
  }

  /** However far alerts, quantities or thresholds have drifted, one sweep over all rows reaches
      full agreement and a second one changes nothing, publishes nothing and queues nothing. */
  lemma {:induction false} SweepConverges(alerts: seq<Alert>, rows: seq<Row>, default: int)
    requires DistinctKeys(rows) && Sound(alerts, rows)
    ensures var first := EvaluateAll(alerts, rows, default);
            var second := EvaluateAll(first.alerts, rows, default);
      && AllAgree(first.alerts, rows, default)
      && second == Batch(first.alerts, [], [], first.active, true)
  {
    EvaluateAllAgrees(alerts, rows, default);
    AgreementIsStable(EvaluateAll(alerts, rows, default).alerts, rows, default);
  }
}
