/** Deadlock freedom and termination of the locked transactions.

    `Waits` is the widest waiting the database may impose: a locked read or an insert waits
    for whoever owns its pair, committed row or not. Even so nobody waits in a circle, because
    a transaction only ever waits for a pair beyond the one it holds in the lock order. */
module Progress {
  import opened Uuids
  import opened Ledger
  import opened Events
  import opened Transactions
  import opened Invariant
  import opened LedgerTheorems

  predicate Locking(txn: Txn) {
    txn.phase.LockRow? || txn.phase.InsertRow?
  }

  /** The pair whose row a locking transaction is after. */
  function Wanted(txn: Txn): Key {
    LegAt(txn, if Locking(txn) then txn.phase.leg else 0).key
  }

  predicate Waits(s: State, t: nat, u: nat)
    requires t < |s.txns|
  {
    Locking(s.txns[t]) && Wanted(s.txns[t]) in s.owners && s.owners[Wanted(s.txns[t])] == u && t != u
  }

  predicate Waiting(s: State, t: nat)
    requires t < |s.txns|
  {
    Locking(s.txns[t]) && OwnedByOther(s, t, Wanted(s.txns[t]))
  }

  /** A transaction that is waited for holds the wanted pair, and if it waits itself, it does so
      for the same product in a warehouse further on. */
  lemma WaitsGoUp(s: State, t: nat, u: nat)
    requires OwnersOk(s.owners, s.txns) && t < |s.txns| && Waits(s, t, u)
    requires u < |s.txns| ==> TxnOk(s.catalog, s.table, u, s.txns[u])
    ensures u < |s.txns| && s.txns[u].Open() && Holds(s.txns[u], Wanted(s.txns[t]))
    ensures Waiting(s, u) ==> Wanted(s.txns[t]).warehouse < Wanted(s.txns[u]).warehouse
  {
    var k := Wanted(s.txns[t]);
    assert Holds(s.txns[u], k);
    if Waiting(s, u) {
      HeldBeforeWanted(s.catalog, s.table, u, s.txns[u], k);
    }
  }

  lemma HeldBeforeWanted(catalog: Catalog, table: Stock, t: nat, txn: Txn, k: Key)
    requires TxnOk(catalog, table, t, txn) && Locking(txn) && Holds(txn, k)
    ensures k.warehouse < Wanted(txn).warehouse
  {
    LegsInLockOrder(txn.move);
  }

  // ---------- Deadlock freedom ----------

  /** No circle of waiting transactions: along any chain of waits the wanted warehouse goes up. */
  lemma {:induction false} WaitsClimb(s: State, chain: seq<nat>)
    requires Reachable(s) && |chain| >= 1
    requires forall i :: 0 <= i < |chain| ==> chain[i] < |s.txns| && Waiting(s, chain[i])
    requires forall i :: 0 < i < |chain| ==> Waits(s, chain[i - 1], chain[i])
    ensures |chain| > 1 ==>
              Wanted(s.txns[chain[0]]).warehouse < Wanted(s.txns[chain[|chain| - 1]]).warehouse
  {
    ReachableInv(s);
    if |chain| > 1 {
      var n := |chain| - 1;
      WaitsClimb(s, chain[..n]);
      assert Waits(s, chain[n - 1], chain[n]);
      WaitsGoUp(s, chain[n - 1], chain[n]);
    }
  }

  lemma NoWaitingCircle(s: State, chain: seq<nat>)
    requires Reachable(s) && |chain| > 1
    requires forall i :: 0 <= i < |chain| ==> chain[i] < |s.txns|
    requires forall i :: 0 < i < |chain| ==> Waits(s, chain[i - 1], chain[i])
    ensures chain[0] != chain[|chain| - 1]
  {
    if chain[0] == chain[|chain| - 1] {
      forall i | 0 <= i < |chain|
        ensures Waiting(s, chain[i])
      {
        if i < |chain| - 1 {
          assert Waits(s, chain[i], chain[i + 1]);
        } else {
          assert Waits(s, chain[0], chain[1]);
        }
      }
      WaitsClimb(s, chain);
    }
  }

  predicate AllEnded(s: State) {
    forall t :: 0 <= t < |s.txns| ==> !s.txns[t].Unfinished()
  }

  lemma {:induction false} FollowWaits(s: State, t: nat) returns (u: nat)
    requires Inv(s) && t < |s.txns| && s.txns[t].Unfinished()
    ensures u < |s.txns| && s.txns[u].Unfinished() && !Waiting(s, u)
    decreases if Waiting(s, t) then LIMIT - Wanted(s.txns[t]).warehouse else 0
  {
    if Waiting(s, t) {
      var next := s.owners[Wanted(s.txns[t])];
      WaitsGoUp(s, t, next);
      u := FollowWaits(s, next);
    } else {
      u := t;
    }
  }

  // ---------- Termination ----------

  /** Steps a transaction may still take. */
  function Remaining(txn: Txn): nat {
    match txn.phase
    case CheckProduct => 13
    case CheckWarehouse(i) => if i == 0 then 12 else 8
    case LockRow(i) => if i == 0 then 11 else 7
    case InsertRow(i) => if i == 0 then 10 else 6
    case Update(i, _) => if i == 0 then 9 else 5
    case AppendMovement => 4
    case Commit => 3
    case Publish => 2
    case Finished => 0
    case Aborted(_) => 0
  }

  function Measure(txns: seq<Txn>): nat {
    if txns == [] then 0 else Measure(txns[..|txns| - 1]) + Remaining(txns[|txns| - 1])
  }

  lemma {:induction false} MeasureUpdate(txns: seq<Txn>, t: nat, txn: Txn)
    requires t < |txns|
    ensures Measure(txns[t := txn]) == Measure(txns) - Remaining(txns[t]) + Remaining(txn)
  {
    var n := |txns| - 1;
    if t == n {
      assert txns[t := txn][..n] == txns[..n];
    } else {
      assert txns[t := txn][..n] == txns[..n][t := txn];
      MeasureUpdate(txns[..n], t, txn);
    }
  }

  predicate ByTransaction(a: Action) {
    a.Proceed? || a.Interrupt?
  }

  ghost predicate OwnOnly(s: State, t: nat, s': State)
    requires t < |s.txns|
  {
    |s'.txns| == |s.txns| && s'.txns == s.txns[t := s'.txns[t]]
  }

  lemma LegOwnOnly(s: State, t: nat, i: nat, loaded: int)
    requires t < |s.txns|
    ensures OwnOnly(s, t, TakeRow(s, t, i))
    ensures OwnOnly(s, t, InsertEmptyRow(s, t, i))
    ensures OwnOnly(s, t, UpdateRow(s, t, i, loaded))
  {
  }

  /** Every step changes at most its own transaction among the transactions. */
  lemma ProceedOwnOnly(s: State, t: nat)
    requires t < |s.txns|
    ensures OwnOnly(s, t, ProceedTxn(s, t))
  {
    match s.txns[t].phase
    case LockRow(i) => LegOwnOnly(s, t, i, 0);
    case InsertRow(i) => LegOwnOnly(s, t, i, 0);
    case Update(i, loaded) => LegOwnOnly(s, t, i, loaded);
    case _ =>
  }

  predicate AtLeg(phase: Phase) {
    phase.CheckWarehouse? || phase.LockRow? || phase.InsertRow? || phase.Update?
  }

  /** Having the row, or at least knowing that there is none. */
  lemma RowDecreases(s: State, t: nat, i: nat)
    requires t < |s.txns|
    ensures s.txns[t].phase == LockRow(i) ==> Remaining(TakeRow(s, t, i).txns[t]) < Remaining(s.txns[t])
    ensures s.txns[t].phase == InsertRow(i) ==> Remaining(InsertEmptyRow(s, t, i).txns[t]) < Remaining(s.txns[t])
  {
    hide LegAt, Release;
  }

  lemma UpdateDecreases(s: State, t: nat, i: nat, loaded: int)
    requires t < |s.txns| && s.txns[t].phase == Update(i, loaded) && i < |Legs(s.txns[t].move)|
    ensures Remaining(UpdateRow(s, t, i, loaded).txns[t]) < Remaining(s.txns[t])
  {
    hide LegAt, Legs, Release;
  }

  lemma {:induction false} LegDecreases(s: State, t: nat)
    requires t < |s.txns| && PhaseInRange(s.txns[t]) && AtLeg(s.txns[t].phase)
    ensures Remaining(ProceedTxn(s, t).txns[t]) < Remaining(s.txns[t])
  {
    hide LegAt, Legs, Release, TakeRow, InsertEmptyRow, UpdateRow, Remaining;
    match s.txns[t].phase
    case CheckWarehouse(i) => WarehouseDecreases(s, t, i);
    case LockRow(i) => RowDecreases(s, t, i);
    case InsertRow(i) => RowDecreases(s, t, i);
    case Update(i, loaded) => UpdateDecreases(s, t, i, loaded);
  }

  lemma WarehouseDecreases(s: State, t: nat, i: nat)
    requires t < |s.txns| && s.txns[t].phase == CheckWarehouse(i)
    ensures Remaining(ProceedTxn(s, t).txns[t]) < Remaining(s.txns[t])
  {
    hide LegAt, Legs, Release;
  }

  lemma OtherDecreases(s: State, t: nat)
    requires t < |s.txns| && s.txns[t].Unfinished() && !AtLeg(s.txns[t].phase)
    ensures Remaining(ProceedTxn(s, t).txns[t]) < Remaining(s.txns[t])
  {
    hide Legs, LegAt, Release, InMemory;
  }

  lemma ProceedDecreases(s: State, t: nat)
    requires t < |s.txns| && PhaseInRange(s.txns[t]) && s.txns[t].Unfinished()
    ensures Measure(ProceedTxn(s, t).txns) < Measure(s.txns)
  {
    if AtLeg(s.txns[t].phase) {
      LegDecreases(s, t);
    } else {
      OtherDecreases(s, t);
    }
    ProceedOwnOnly(s, t);
    MeasureUpdate(s.txns, t, ProceedTxn(s, t).txns[t]);
  }

  /** A transaction's step either changes nothing or brings the end nearer. */
  lemma StepDecreases(s: State, a: Action)
    requires forall t :: 0 <= t < |s.txns| ==> PhaseInRange(s.txns[t])
    requires ByTransaction(a)
    ensures Do(s, a) == s || Measure(Do(s, a).txns) < Measure(s.txns)
  {
    hide Legs, LegAt, Release, Measure;
    var t := a.t;
    if t < |s.txns| {
      if a.Interrupt? {
        MeasureUpdate(s.txns, t, Do(s, a).txns[t]);
      } else if s.txns[t].Unfinished() {
        ProceedDecreases(s, t);
      }
    }
  }

  predicate Effective(s: State, run: seq<Action>)
    decreases |run|
  {
    run == [] || (
      && ByTransaction(run[|run| - 1])
      && Exec(s, run) != Exec(s, run[..|run| - 1])
      && Effective(s, run[..|run| - 1]))
  }

  lemma InRange(s: State)
    requires Inv(s)
    ensures forall t :: 0 <= t < |s.txns| ==> PhaseInRange(s.txns[t])
  {
    forall t | 0 <= t < |s.txns|
      ensures PhaseInRange(s.txns[t])
    {
      assert TxnOk(s.catalog, s.table, t, s.txns[t]);
    }
  }

  /** From any reachable state the transactions begun so far take at most `Measure` steps
      between them, in every interleaving. */
  lemma {:induction false} Terminates(s: State, run: seq<Action>)
    requires Reachable(s) && Effective(s, run)
    ensures |run| + Measure(Exec(s, run).txns) <= Measure(s.txns)
  {
    if run != [] {
      var before := run[..|run| - 1];
      Terminates(s, before);
      ReachableInv(s);
      ExecKeeps(s, before);
      InRange(Exec(s, before));
      StepDecreases(Exec(s, before), run[|run| - 1]);
    }
  }

  lemma ReadyStep(s: State, t: nat)
    requires t < |s.txns| && PhaseInRange(s.txns[t]) && s.txns[t].Unfinished() && !Waiting(s, t)
    ensures !Blocked(s, t)
    ensures Do(s, Proceed(t)) != s && Measure(Do(s, Proceed(t)).txns) < Measure(s.txns)
  {
    ProceedDecreases(s, t);
    assert Do(s, Proceed(t)) == ProceedTxn(s, t);
  }

  /** While some transaction is unfinished, some transaction can take its next step, without
      waiting and without being interrupted. */
  lemma DeadlockFree(s: State) returns (t: nat)
    requires Reachable(s) && !AllEnded(s)
    ensures t < |s.txns| && !Waiting(s, t) && !Blocked(s, t)
    ensures Do(s, Proceed(t)) != s && Measure(Do(s, Proceed(t)).txns) < Measure(s.txns)
  {
    ReachableInv(s);
    var u: nat :| u < |s.txns| && s.txns[u].Unfinished();
    t := FollowWaits(s, u);
    InRange(s);
    ReadyStep(s, t);
  }

  /** So a state in which no transaction's step has any effect is one in which all have ended. */
  lemma StuckMeansEnded(s: State)
    requires Reachable(s) && forall t :: Do(s, Proceed(t)) == s
    ensures AllEnded(s)
  {
    if !AllEnded(s) {
      var t := DeadlockFree(s);
    }
  }

  /** Letting transactions go on as long as one can ends with all of them ended. */
  lemma {:induction false} RunsToCompletion(s: State) returns (run: seq<Action>)
    requires Reachable(s)
    ensures forall a :: a in run ==> a.Proceed?
    ensures |run| <= Measure(s.txns) && AllEnded(Exec(s, run))
    decreases Measure(s.txns)
  {
    if AllEnded(s) {
      run := [];
    } else {
      var t := DeadlockFree(s);
      var catalog, before :| s == Exec(Init(catalog), before);
      assert (before + [Proceed(t)])[..|before|] == before;
      assert Do(s, Proceed(t)) == Exec(Init(catalog), before + [Proceed(t)]);
      var rest := RunsToCompletion(Do(s, Proceed(t)));
      run := [Proceed(t)] + rest;
      ExecCons(s, Proceed(t), rest);
    }
  }

  lemma {:induction false} ExecCons(s: State, a: Action, run: seq<Action>)
    ensures Exec(s, [a] + run) == Exec(Do(s, a), run)
  {
    hide Do;
    if run == [] {
      assert [a] + run == [a] && [a][..0] == [];
      assert Exec(s, [a]) == Do(Exec(s, []), a);
    } else {
      var n := |run| - 1;
      assert ([a] + run)[..n + 1] == [a] + run[..n];
      ExecCons(s, a, run[..n]);
    }
  }

  // ---------- No event is lost ----------

  ghost predicate IsPublished(s: State, t: nat) {
    exists j :: 0 <= j < |s.published| && s.published[j].id == t
  }

  ghost predicate FinishedArePublished(s: State) {
    forall t :: 0 <= t < |s.txns| && s.txns[t].phase.Finished? ==> IsPublished(s, t)
  }

  lemma StillPublished(s: State, a: Action, t: nat)
    requires IsPublished(s, t)
    ensures IsPublished(Do(s, a), t)
  {
    hide Do;
    StepAppends(s, a);
    var j :| 0 <= j < |s.published| && s.published[j].id == t;
    assert Do(s, a).published[j].id == t;
  }

  lemma LegFinishesNot(s: State, t: nat, i: nat, loaded: int)
    requires t < |s.txns|
    ensures !TakeRow(s, t, i).txns[t].phase.Finished?
    ensures !InsertEmptyRow(s, t, i).txns[t].phase.Finished?
    ensures !UpdateRow(s, t, i, loaded).txns[t].phase.Finished?
  {
    hide Legs, LegAt, Release;
  }

  /** No step but the publishing one finishes a transaction. */
  lemma ProceedFinishes(s: State, t: nat)
    requires t < |s.txns| && !s.txns[t].phase.Finished?
    ensures OwnOnly(s, t, ProceedTxn(s, t))
    ensures ProceedTxn(s, t).txns[t].phase.Finished? ==> s.txns[t].phase.Publish?
  {
    hide Legs, LegAt, Release, InMemory, TakeRow, InsertEmptyRow, UpdateRow;
    ProceedOwnOnly(s, t);
    match s.txns[t].phase
    case LockRow(i) => LegFinishesNot(s, t, i, 0);
    case InsertRow(i) => LegFinishesNot(s, t, i, 0);
    case Update(i, loaded) => LegFinishesNot(s, t, i, loaded);
    case _ =>
  }

  lemma PublishAnnounces(s: State, t: nat)
    requires t < |s.txns| && s.txns[t].phase.Publish?
    ensures IsPublished(ProceedTxn(s, t), t)
  {
    assert ProceedTxn(s, t).published[|s.published|].id == t;
  }

  /** Without an interruption a transaction finishes only by publishing. */
  lemma StepFinishes(s: State, a: Action, t: nat)
    requires !a.Interrupt? && t < |Do(s, a).txns| && Do(s, a).txns[t].phase.Finished?
    requires t < |s.txns| ==> !s.txns[t].phase.Finished?
    ensures IsPublished(Do(s, a), t)
  {
    hide ProceedTxn, Blocked;
    if a.Proceed? && a.t < |s.txns| && !Blocked(s, a.t) {
      ProceedOwnOnly(s, a.t);
      if a.t == t {
        ProceedFinishes(s, t);
        PublishAnnounces(s, t);
      }
    }
  }

  lemma {:induction false} NoneForgotten(catalog: Catalog, run: seq<Action>)
    requires forall a :: a in run ==> !a.Interrupt?
    ensures FinishedArePublished(Exec(Init(catalog), run))
  {
    hide Do, IsPublished;
    if run != [] {
      var n := |run| - 1;
      assert run[n] in run;
      NoneForgotten(catalog, run[..n]);
      var s := Exec(Init(catalog), run[..n]);
      forall t: nat | t < |Do(s, run[n]).txns| && Do(s, run[n]).txns[t].phase.Finished?
        ensures IsPublished(Do(s, run[n]), t)
      {
        if t < |s.txns| && s.txns[t].phase.Finished? {
          StillPublished(s, run[n], t);
        } else {
          StepFinishes(s, run[n], t);
        }
      }
    }
  }

  /** Without interruptions no event is lost: when all requests have ended every committed
      movement has its event published, exactly one, with what the history calls for. */
  lemma EachPublishedOnce(catalog: Catalog, run: seq<Action>, i: nat) returns (j: nat)
    requires forall a :: a in run ==> !a.Interrupt?
    requires var s := Exec(Init(catalog), run);
      i < |s.movements| && AllEnded(s)
    ensures var s := Exec(Init(catalog), run);
      && j < |s.published|
      && s.published[j] == Announcement(s.movements[i].id, HistoricalEvent(History(s.movements)[..i + 1]))
      && forall j' :: 0 <= j' < |s.published| && s.published[j'].id == s.movements[i].id ==> j' == j
  {
    hide Exec, HistoricalEvent;
    var s := Exec(Init(catalog), run);
    assert Reachable(s);
    ReachableInv(s);
    NoneForgotten(catalog, run);
    var t := s.movements[i].id;
    assert s.txns[t].Committed() && !s.txns[t].Unfinished();
    assert IsPublished(s, t);
    j :| 0 <= j < |s.published| && s.published[j].id == t;
    var i' := EventsAreHistorical(s, s.published[j]);
    assert i' == i;
  }
}
