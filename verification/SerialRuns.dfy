/** The step machine run one request at a time.

    `Predicted` says how a transaction will end if nobody else steps. No step of its own
    changes the prediction, so the machine run alone does what `Performed` says, error
    included, and every interleaving has the same committed tables as a serial run. */
module SerialRuns {
  import opened Wrappers
  import opened Schema
  import opened Ledger
  import opened Transactions
  import opened Invariant
  import opened LedgerTheorems
  import opened Progress

  function Remainder(m: Movement, i: nat): seq<Leg> {
    if i <= |Legs(m)| then Legs(m)[i..] else []
  }

  function Predicted(catalog: Catalog, table: Stock, txn: Txn): Result<Stock, Error> {
    var view := table + txn.writes;
    match txn.phase
    case CheckProduct => Performed(catalog, table, txn.move)
    case CheckWarehouse(i) => PerformLegs(catalog, view, Remainder(txn.move, i))
    case LockRow(i) => PerformLegs(catalog, view, Remainder(txn.move, i))
    case InsertRow(i) =>
      if LegAt(txn, i).key in table then Failure(DuplicateRow)
      else PerformLegs(catalog, view, Remainder(txn.move, i))
    case Update(i, _) => PerformLegs(catalog, view, Remainder(txn.move, i))
    case Aborted(error) => Failure(error)
    case _ => Success(view)
  }

  lemma UnfoldLegs(catalog: Catalog, stock: Stock, m: Movement, i: nat)
    requires i < |Legs(m)|
    ensures PerformLegs(catalog, stock, Remainder(m, i)) ==
            var stock' := PerformLeg(catalog, stock, Legs(m)[i]);
            if stock'.Failure? then stock' else PerformLegs(catalog, stock'.value, Remainder(m, i + 1))
  {
    assert Remainder(m, i)[1..] == Remainder(m, i + 1);
  }

  /** A leg's pair is not among the writes before the leg has its row. */
  lemma NotYetWritten(catalog: Catalog, table: Stock, t: nat, txn: Txn)
    requires TxnOk(catalog, table, t, txn)
    requires txn.phase.CheckWarehouse? || txn.phase.LockRow? || txn.phase.InsertRow?
    ensures LegAt(txn, txn.phase.leg).key !in txn.writes
    ensures txn.phase.leg == 0 ==> txn.writes == map[]
  {
    LegsDiffer(txn.move);
    assert !Holds(txn, LegAt(txn, txn.phase.leg).key);
    if txn.phase.leg == 0 {
      assert forall k :: !Holds(txn, k);
      assert txn.writes.Keys == {};
    }
  }

  lemma CheckPredicted(s: State, t: nat)
    requires t < |s.txns| && TxnOk(s.catalog, s.table, t, s.txns[t])
    requires s.txns[t].phase.CheckProduct? ==> s.txns[t].writes == map[]
    requires s.txns[t].phase.CheckProduct? || s.txns[t].phase.CheckWarehouse?
    ensures Predicted(s.catalog, s.table, ProceedTxn(s, t).txns[t])
            == Predicted(s.catalog, s.table, s.txns[t])
  {
    var txn := s.txns[t];
    if txn.phase.CheckProduct? {
      assert s.table + map[] == s.table;
      assert Remainder(txn.move, 0) == Legs(txn.move);
    } else {
      UnfoldLegs(s.catalog, s.table + txn.writes, txn.move, txn.phase.leg);
    }
  }

  lemma LockPredicted(s: State, t: nat)
    requires t < |s.txns| && TxnOk(s.catalog, s.table, t, s.txns[t]) && s.txns[t].phase.LockRow?
    ensures Predicted(s.catalog, s.table, TakeRow(s, t, s.txns[t].phase.leg).txns[t])
            == Predicted(s.catalog, s.table, s.txns[t])
  {
    var txn := s.txns[t];
    var i := txn.phase.leg;
    NotYetWritten(s.catalog, s.table, t, txn);
    UnfoldLegs(s.catalog, s.table + txn.writes, txn.move, i);
  }

  lemma InsertPredicted(s: State, t: nat)
    requires t < |s.txns| && TxnOk(s.catalog, s.table, t, s.txns[t]) && s.txns[t].phase.InsertRow?
    ensures Predicted(s.catalog, s.table, InsertEmptyRow(s, t, s.txns[t].phase.leg).txns[t])
            == Predicted(s.catalog, s.table, s.txns[t])
  {
    var txn := s.txns[t];
    var i := txn.phase.leg;
    var leg := LegAt(txn, i);
    NotYetWritten(s.catalog, s.table, t, txn);
    hide PerformLegs, SourceFirst, TxnOk;
    if leg.key !in s.table {
      var view, view' := s.table + txn.writes, s.table + txn.writes[leg.key := 0];
      assert view' == view[leg.key := 0];
      EmptyRowPredicted(s.catalog, view, txn.move, i);
    }
  }

  /** Adding a row of quantity zero first makes no difference to increasing it. */
  lemma EmptyRowPredicted(catalog: Catalog, view: Stock, m: Movement, i: nat)
    requires i < |Legs(m)| && Legs(m)[i].Increase? && Legs(m)[i].key !in view
    ensures PerformLegs(catalog, view[Legs(m)[i].key := 0], Remainder(m, i))
            == PerformLegs(catalog, view, Remainder(m, i))
  {
    hide PerformLegs, SourceFirst;
    var leg := Legs(m)[i];
    UnfoldLegs(catalog, view, m, i);
    UnfoldLegs(catalog, view[leg.key := 0], m, i);
    assert view[leg.key := 0][leg.key := leg.quantity] == view[leg.key := leg.quantity];
  }

  lemma UpdatedPredicted(catalog: Catalog, table: Stock, t: nat, txn: Txn, i: nat, loaded: int)
    requires TxnOk(catalog, table, t, txn) && txn.phase == Update(i, loaded)
    requires LegAt(txn, i).Decrease? ==> loaded >= LegAt(txn, i).quantity
    ensures Predicted(catalog, table, Updated(txn, i, loaded)) == Predicted(catalog, table, txn)
  {
    hide PerformLegs, SourceFirst;
    var leg, view := Legs(txn.move)[i], table + txn.writes;
    UnfoldLegs(catalog, view, txn.move, i);
    assert Quantity(view, leg.key) == loaded;
    var q := if leg.Increase? then loaded + leg.quantity else loaded - leg.quantity;
    assert table + txn.writes[leg.key := q] == view[leg.key := q];
    if i + 1 == |Legs(txn.move)| {
      assert Remainder(txn.move, i + 1) == [];
      NoLegs(catalog, view[leg.key := q]);
    }
  }

  lemma NoLegs(catalog: Catalog, stock: Stock)
    ensures PerformLegs(catalog, stock, []) == Success(stock)
  {
  }

  lemma UpdatePredicted(s: State, t: nat, i: nat, loaded: int)
    requires t < |s.txns| && TxnOk(s.catalog, s.table, t, s.txns[t]) && s.txns[t].phase == Update(i, loaded)
    ensures Predicted(s.catalog, s.table, UpdateRow(s, t, i, loaded).txns[t])
            == Predicted(s.catalog, s.table, s.txns[t])
  {
    var txn := s.txns[t];
    var leg := LegAt(txn, i);
    if leg.Decrease? && loaded < leg.quantity {
      UnfoldLegs(s.catalog, s.table + txn.writes, txn.move, i);
    } else {
      UpdatedPredicted(s.catalog, s.table, t, txn, i, loaded);
    }
  }

  /** A transaction's own step before its commit does not change how it will end. */
  lemma {:induction false} StepKeepsPrediction(s: State, t: nat)
    requires t < |s.txns| && TxnOk(s.catalog, s.table, t, s.txns[t])
    requires s.txns[t].Open() && !s.txns[t].phase.Commit?
    ensures Predicted(s.catalog, s.table, ProceedTxn(s, t).txns[t])
            == Predicted(s.catalog, s.table, s.txns[t])
  {
    var txn := s.txns[t];
    match txn.phase
    case CheckProduct =>
      assert forall k :: !Holds(txn, k);
      assert txn.writes == map[];
      CheckPredicted(s, t);
    case CheckWarehouse(_) => CheckPredicted(s, t);
    case LockRow(_) => LockPredicted(s, t);
    case InsertRow(_) => InsertPredicted(s, t);
    case Update(i, loaded) => UpdatePredicted(s, t, i, loaded);
    case _ =>
  }

  // ---------- Refused requests ----------

  /** The insert of an open transaction comes too late: another's row for the pair is committed. */
  predicate LostRace(table: Stock, txn: Txn) {
    txn.phase.InsertRow? && LegAt(txn, txn.phase.leg).key in table
  }

  /** Before its first leg is done a transaction has nothing to show, except an empty row. */
  lemma FirstLegPrediction(catalog: Catalog, table: Stock, t: nat, txn: Txn)
    requires TxnOk(catalog, table, t, txn) && txn.Open() && !LostRace(table, txn)
    requires Applied(txn) == 0
    ensures Predicted(catalog, table, txn) == Performed(catalog, table, txn.move)
  {
    hide PerformLegs, SourceFirst;
    assert Remainder(txn.move, 0) == Legs(txn.move);
    assert forall k :: k in txn.writes ==> Holds(txn, k);
    if txn.phase.Update? && Legs(txn.move)[0].key in txn.writes {
      EmptyRowWritten(catalog, table, t, txn);
    } else {
      assert txn.writes == map[];
      assert table + txn.writes == table;
    }
  }

  /** A first leg that has inserted its row, at quantity zero, and not updated it. */
  lemma EmptyRowWritten(catalog: Catalog, table: Stock, t: nat, txn: Txn)
    requires TxnOk(catalog, table, t, txn) && txn.phase.Update? && txn.phase.leg == 0
    requires Legs(txn.move)[0].key in txn.writes
    ensures PerformLegs(catalog, table + txn.writes, Remainder(txn.move, 0))
            == PerformLegs(catalog, table, Remainder(txn.move, 0))
  {
    hide PerformLegs, SourceFirst;
    var leg := Legs(txn.move)[0];
    assert txn.writes == map[leg.key := Quantity(table, leg.key)];
    if leg.key in table {
      assert table + txn.writes == table;
    } else {
      assert table + txn.writes == table[leg.key := 0];
      EmptyRowPredicted(catalog, table, txn.move, 0);
    }
  }
  /** A leg whose write is made succeeds alone, with that write. */
  lemma AppliedLeg(catalog: Catalog, table: Stock, t: nat, txn: Txn, i: nat)
    requires TxnOk(catalog, table, t, txn) && txn.Open() && i < |Legs(txn.move)| && i < Applied(txn)
    ensures var k := Legs(txn.move)[i].key;
      && k in txn.writes
      && forall view: Stock :: (k in view <==> k in table) && Quantity(view, k) == Quantity(table, k) ==>
           PerformLeg(catalog, view, Legs(txn.move)[i]) == Success(view[k := txn.writes[k]])
  {
    hide SourceFirst;
  }

  /** After the first leg the prediction goes on from there; a row inserted for the second leg at
      quantity zero makes no difference. */
  lemma SecondLegPrediction(catalog: Catalog, table: Stock, t: nat, txn: Txn)
    requires TxnOk(catalog, table, t, txn) && txn.Open() && !LostRace(table, txn)
    requires Applied(txn) == 1 && |Legs(txn.move)| == 2
    ensures Predicted(catalog, table, txn) == Performed(catalog, table, txn.move)
  {
    hide PerformLegs, PerformLeg, SourceFirst;
    LegsDiffer(txn.move);
    AppliedLeg(catalog, table, t, txn, 0);
    UnfoldLegs(catalog, table, txn.move, 0);
    assert Remainder(txn.move, 0) == Legs(txn.move);
    var k, k' := Legs(txn.move)[0].key, Legs(txn.move)[1].key;
    var view := table[k := txn.writes[k]];
    assert forall other :: other in txn.writes ==> Holds(txn, other);
    if k' in txn.writes {
      assert txn.writes == map[k := txn.writes[k], k' := Quantity(table, k')];
      if k' in table {
        assert table + txn.writes == view;
      } else {
        assert table + txn.writes == view[k' := 0];
        EmptyRowPredicted(catalog, view, txn.move, 1);
      }
    } else {
      assert txn.writes == map[k := txn.writes[k]];
      assert table + txn.writes == view;
    }
  }

  lemma AllLegsPrediction(catalog: Catalog, table: Stock, t: nat, txn: Txn)
    requires TxnOk(catalog, table, t, txn) && txn.Open() && Applied(txn) == |Legs(txn.move)|
    ensures Predicted(catalog, table, txn) == Performed(catalog, table, txn.move)
  {
    var done := txn.(phase := Commit, pending := [MovementRow(t, txn.move)]);
    assert TxnOk(catalog, table, t, done);
    CommitIsEffect(catalog, table, t, done);
    PerformedExact(catalog, table, txn.move);
    hide TxnOk, Effect, Legal, Performed;
  }

  /** In every state a transaction that has not lost the race for a row would end, left alone
      from there, as its request would if it were made at that very state. */
  lemma PredictedIsPerformed(catalog: Catalog, table: Stock, t: nat, txn: Txn)
    requires TxnOk(catalog, table, t, txn) && txn.Open() && !LostRace(table, txn)
    ensures Predicted(catalog, table, txn) == Performed(catalog, table, txn.move)
  {
    hide Predicted, Performed, WritesOk, Loaded, Checked, LostRace;
    if Applied(txn) == |Legs(txn.move)| {
      AllLegsPrediction(catalog, table, t, txn);
    } else if Applied(txn) == 0 {
      FirstLegPrediction(catalog, table, t, txn);
    } else {
      SecondLegPrediction(catalog, table, t, txn);
    }
  }

  lemma AbortedPrediction(catalog: Catalog, table: Stock, txn: Txn)
    requires txn.phase.Aborted?
    ensures Predicted(catalog, table, txn) == Failure(txn.phase.error)
  {
  }

  lemma LoserError(s: State, t: nat)
    requires t < |s.txns| && LostRace(s.table, s.txns[t])
    ensures ProceedTxn(s, t).txns[t].phase == Aborted(DuplicateRow)
  {
  }

  lemma ProceedRefused(s: State, t: nat)
    requires t < |s.txns| && TxnOk(s.catalog, s.table, t, s.txns[t]) && s.txns[t].Open()
    requires t < |ProceedTxn(s, t).txns| && ProceedTxn(s, t).txns[t].phase.Aborted?
    ensures var error := ProceedTxn(s, t).txns[t].phase.error;
      if LostRace(s.table, s.txns[t]) then error == DuplicateRow
      else Performed(s.catalog, s.table, s.txns[t].move) == Failure(error)
  {
    hide TxnOk, ProceedTxn, Predicted, Performed, LostRace;
    if LostRace(s.table, s.txns[t]) {
      LoserError(s, t);
    } else {
      ProceedOwnOnly(s, t);
      NoCommitAborts(s, t);
      PredictedIsPerformed(s.catalog, s.table, t, s.txns[t]);
      StepKeepsPrediction(s, t);
      AbortedPrediction(s.catalog, s.table, ProceedTxn(s, t).txns[t]);
    }
  }

  /** A request is only refused for a reason: whatever else is going on, a step that aborts a
      transaction is an interruption, the loss of the race for an absent row, or the refusal, with
      the same error, that its movement would meet at that very state on its own. */
  lemma RefusedForReason(s: State, a: Action, t: nat)
    requires Reachable(s) && t < |s.txns| && s.txns[t].Open()
    requires t < |Do(s, a).txns| && Do(s, a).txns[t].phase.Aborted?
    ensures var error := Do(s, a).txns[t].phase.error;
      || (a == Interrupt(t) && error == Interrupted)
      || (a == Proceed(t) && LostRace(s.table, s.txns[t]) && error == DuplicateRow)
      || (a == Proceed(t) && Performed(s.catalog, s.table, s.txns[t].move) == Failure(error))
  {
    hide TxnOk, ProceedTxn, Performed, LostRace, Blocked;
    ReachableInv(s);
    assert TxnOk(s.catalog, s.table, t, s.txns[t]);
    OnlyOwnStep(s, a, t);
    if a == Proceed(t) {
      ProceedRefused(s, t);
    }
  }

  lemma OnlyOwnStep(s: State, a: Action, t: nat)
    requires t < |s.txns| && s.txns[t].Open()
    requires t < |Do(s, a).txns| && Do(s, a).txns[t].phase != s.txns[t].phase
    ensures a == Proceed(t) || a == Interrupt(t)
    ensures a == Proceed(t) ==> !Blocked(s, t)
  {
    hide Legs, LegAt, Release, Updated;
    if (a.Proceed? || a.Interrupt?) && a.t != t && a.t < |s.txns| {
      if a.Proceed? {
        ProceedOwnOnly(s, a.t);
      }
    }
  }

  lemma NoCommitAborts(s: State, t: nat)
    requires t < |s.txns| && s.txns[t].Open()
    requires t < |ProceedTxn(s, t).txns| && ProceedTxn(s, t).txns[t].phase.Aborted?
    ensures !s.txns[t].phase.Commit?
  {
    hide TakeRow, InsertEmptyRow, UpdateRow, Abort, PublishEvent, Legs, LegAt, Release;
  }

  // ---------- A whole request ----------

  ghost predicate OnlyOwner(s: State, t: nat) {
    forall k :: k in s.owners ==> s.owners[k] == t
  }

  ghost predicate SameTables(s: State, s': State) {
    && s'.catalog == s.catalog && s'.table == s.table && s'.rows == s.rows
    && s'.movements == s.movements && |s'.txns| == |s.txns|
  }

  lemma PrivateTables(s: State, t: nat)
    requires t < |s.txns| && s.txns[t].Open() && !s.txns[t].phase.Commit? && OnlyOwner(s, t)
    ensures SameTables(s, ProceedTxn(s, t)) && OnlyOwner(ProceedTxn(s, t), t)
    ensures ProceedTxn(s, t).txns[t].move == s.txns[t].move
    ensures !Blocked(s, t)
  {
  }

  predicate StepsOf(run: seq<Action>, t: nat) {
    forall a :: a in run ==> a == Proceed(t)
  }

  /** How a transaction that nobody disturbs ends. */
  ghost predicate EndsAsPredicted(s: State, t: nat, s': State)
    requires t < |s.txns|
  {
    && |s'.txns| == |s.txns| && s'.catalog == s.catalog && s'.owners == map[]
    && match Predicted(s.catalog, s.table, s.txns[t])
       case Success(stock) =>
         && s'.txns[t].Committed() && s'.table == stock
         && s'.movements == s.movements + [MovementRow(t, s.txns[t].move)]
       case Failure(error) =>
         s'.txns[t].phase == Aborted(error) && SameTables(s, s')
  }

  lemma CommitAlone(s: State, t: nat)
    requires Inv(s) && t < |s.txns| && s.txns[t].phase.Commit? && OnlyOwner(s, t)
    ensures EndsAsPredicted(s, t, CommitTxn(s, t))
  {
    assert TxnOk(s.catalog, s.table, t, s.txns[t]);
    assert Release(s.owners, t) == map[];
  }

  lemma {:induction false} PrivateStepAlone(s: State, t: nat) returns (s': State)
    requires Inv(s) && t < |s.txns| && s.txns[t].Open() && !s.txns[t].phase.Commit? && OnlyOwner(s, t)
    ensures s' == Do(s, Proceed(t)) && Inv(s') && SameTables(s, s') && OnlyOwner(s', t)
    ensures s'.txns[t].move == s.txns[t].move
    ensures Remaining(s'.txns[t]) < Remaining(s.txns[t])
    ensures s'.txns[t].Open() || s'.txns[t].phase.Aborted?
    ensures Predicted(s'.catalog, s'.table, s'.txns[t]) == Predicted(s.catalog, s.table, s.txns[t])
  {
    assert TxnOk(s.catalog, s.table, t, s.txns[t]);
    s' := ProceedTxn(s, t);
    StepKeepsPrediction(s, t);
    PrivateTables(s, t);
    DoKeeps(s, Proceed(t));
    StepRemaining(s, t);
  }

  lemma EndsSame(s: State, t: nat, s1: State, s': State)
    requires t < |s.txns| && SameTables(s, s1) && s1.txns[t].move == s.txns[t].move
    requires Predicted(s1.catalog, s1.table, s1.txns[t]) == Predicted(s.catalog, s.table, s.txns[t])
    requires EndsAsPredicted(s1, t, s')
    ensures EndsAsPredicted(s, t, s')
  {
  }

  lemma {:induction false} RunAlone(s: State, t: nat) returns (run: seq<Action>)
    requires Inv(s) && t < |s.txns| && OnlyOwner(s, t)
    requires s.txns[t].Open() || s.txns[t].phase.Aborted?
    ensures StepsOf(run, t) && EndsAsPredicted(s, t, Exec(s, run))
    decreases Remaining(s.txns[t]), 1
  {
    hide Inv, Predicted, CommitTxn, EndsAsPredicted;
    if s.txns[t].phase.Aborted? {
      run := [];
      AbortedAlone(s, t);
    } else if s.txns[t].phase.Commit? {
      run := [Proceed(t)];
      ExecCons(s, Proceed(t), []);
      CommitAlone(s, t);
    } else {
      run := RunOn(s, t);
    }
  }

  lemma {:induction false} RunOn(s: State, t: nat) returns (run: seq<Action>)
    requires Inv(s) && t < |s.txns| && OnlyOwner(s, t)
    requires s.txns[t].Open() && !s.txns[t].phase.Commit?
    ensures StepsOf(run, t) && EndsAsPredicted(s, t, Exec(s, run))
    decreases Remaining(s.txns[t]), 0
  {
    hide Inv, Predicted, EndsAsPredicted, Remaining, Do, OnlyOwner;
    var s' := PrivateStepAlone(s, t);
    var rest := RunAlone(s', t);
    EndsSame(s, t, s', Exec(s', rest));
    ExecCons(s, Proceed(t), rest);
    run := [Proceed(t)] + rest;
  }

  lemma {:induction false} StepRemaining(s: State, t: nat)
    requires t < |s.txns| && PhaseInRange(s.txns[t]) && s.txns[t].Open() && !s.txns[t].phase.Commit?
    ensures Remaining(ProceedTxn(s, t).txns[t]) < Remaining(s.txns[t])
    ensures ProceedTxn(s, t).txns[t].Open() || ProceedTxn(s, t).txns[t].phase.Aborted?
  {
    if AtLeg(s.txns[t].phase) {
      LegDecreases(s, t);
    } else {
      OtherDecreases(s, t);
    }
  }

  lemma AbortedAlone(s: State, t: nat)
    requires Inv(s) && t < |s.txns| && s.txns[t].phase.Aborted? && OnlyOwner(s, t)
    ensures EndsAsPredicted(s, t, s)
  {
    assert forall k :: !Holds(s.txns[t], k);
    assert forall k :: k !in s.owners;
    assert s.owners == map[];
  }

  /** The machine run alone is the sequential service: a request begun when nobody holds
      anything commits exactly what `Performed` says, or aborts with exactly its error. */
  lemma {:induction false} RequestAlone(s: State, m: Movement) returns (run: seq<Action>)
    requires Inv(s) && s.owners == map[]
    ensures var t, s' := |s.txns|, Exec(s, [Begin(m)] + run);
      && StepsOf(run, t) && |s'.txns| == t + 1 && s'.catalog == s.catalog && s'.owners == map[]
      && match Performed(s.catalog, s.table, m)
         case Success(stock) =>
           s'.txns[t].Committed() && s'.table == stock && s'.movements == s.movements + [MovementRow(t, m)]
         case Failure(error) =>
           s'.txns[t].phase == Aborted(error) && s'.table == s.table && s'.movements == s.movements
  {
    var t, s1 := |s.txns|, Do(s, Begin(m));
    DoKeeps(s, Begin(m));
    run := RunAlone(s1, t);
    ExecCons(s, Begin(m), run);
  }

  lemma {:induction false} ExecConcat(s: State, run: seq<Action>, run': seq<Action>)
    ensures Exec(s, run + run') == Exec(Exec(s, run), run')
  {
    if run' == [] {
      assert run + run' == run;
    } else {
      var n := |run'| - 1;
      assert (run + run')[..|run| + n] == run + run'[..n];
      ExecConcat(s, run, run'[..n]);
    }
  }

  /** n requests, each begun only after the one before has taken its last step. */
  ghost predicate OneAtATime(run: seq<Action>, n: nat) {
    if n == 0 then run == []
    else exists i :: 0 <= i < |run| && run[i].Begin? && StepsOf(run[i + 1..], n - 1) && OneAtATime(run[..i], n - 1)
  }

  lemma {:induction false} RunHistory(catalog: Catalog, history: seq<Movement>) returns (run: seq<Action>)
    requires LegalHistory(catalog, history)
    ensures OneAtATime(run, |history|)
    ensures var s := Exec(Init(catalog), run);
      && s.table == Replay(history) && History(s.movements) == history
      && s.catalog == catalog && s.owners == map[] && |s.txns| == |history|
  {
    hide Exec, OneAtATime, Legal, Replay, LegalHistory, Init;
    if history == [] {
      run := [];
      NothingRun(catalog);
    } else {
      var n := |history| - 1;
      LegalPrefix(catalog, history, n);
      var before := RunHistory(catalog, history[..n]);
      LegalLast(catalog, history);
      run := OneMoreRequest(catalog, before, history[..n], history[n]);
      assert history[..n] + [history[n]] == history;
    }
  }

  lemma NothingRun(catalog: Catalog)
    ensures OneAtATime([], 0)
    ensures var s := Exec(Init(catalog), []);
      && s.table == Replay([]) && History(s.movements) == []
      && s.catalog == catalog && s.owners == map[] && |s.txns| == 0
  {
  }

  lemma LegalLast(catalog: Catalog, history: seq<Movement>)
    requires LegalHistory(catalog, history) && history != []
    ensures Legal(catalog, Replay(history[..|history| - 1]), history[|history| - 1])
  {
  }

  lemma {:induction false} OneMoreRequest(catalog: Catalog, before: seq<Action>, history: seq<Movement>, m: Movement)
    returns (run: seq<Action>)
    requires OneAtATime(before, |history|) && Legal(catalog, Replay(history), m)
    requires var s := Exec(Init(catalog), before);
      && s.table == Replay(history) && History(s.movements) == history
      && s.catalog == catalog && s.owners == map[] && |s.txns| == |history|
    ensures OneAtATime(run, |history| + 1)
    ensures var s := Exec(Init(catalog), run);
      && s.table == Replay(history + [m]) && History(s.movements) == history + [m]
      && s.catalog == catalog && s.owners == map[] && |s.txns| == |history| + 1
  {
    hide Inv, Exec, Performed, OneAtATime, Replay, Effect, Legal;
    InitInv(catalog);
    ExecKeeps(Init(catalog), before);
    var s := Exec(Init(catalog), before);
    var steps := RequestAlone(s, m);
    PerformedExact(catalog, s.table, m);
    ReplaySnoc(history, m);
    run := before + ([Begin(m)] + steps);
    ExecConcat(Init(catalog), before, [Begin(m)] + steps);
    Schedule(before, m, steps, |history|);
    assert History(s.movements + [MovementRow(|history|, m)]) == history + [m];
  }

  lemma Schedule(before: seq<Action>, m: Movement, steps: seq<Action>, n: nat)
    requires OneAtATime(before, n) && StepsOf(steps, n)
    ensures OneAtATime(before + ([Begin(m)] + steps), n + 1)
  {
    var run := before + ([Begin(m)] + steps);
    assert run[|before|] == Begin(m) && run[|before| + 1..] == steps && run[..|before|] == before;
  }

  /** Serializability on the machine itself: whatever the interleaving, some run of the same
      machine with one request at a time commits the same movements and the same table. */
  lemma HasSerialRun(s: State) returns (run: seq<Action>)
    requires Reachable(s)
    ensures OneAtATime(run, |s.movements|)
    ensures var s' := Exec(Init(s.catalog), run);
      s'.table == s.table && History(s'.movements) == History(s.movements)
  {
    Serializable(s);
    run := RunHistory(s.catalog, History(s.movements));
  }
}
