/** The absent-row race, step by step and over runs: when a request waits, when it does not, and
    why it can lose. */
module AbsentRow {
  import opened Ledger
  import opened Transactions
  import opened Invariant
  import opened LedgerTheorems
  import opened Progress
  import opened SerialRuns

  // ---------- Who waits for whom ----------

  /** A locked read waits for the lock of another open transaction on a committed row, an insert for
      another's uncommitted insert of the same pair. */
  ghost predicate Delays(s: State, t: nat, u: nat)
    requires t < |s.txns| && u < |s.txns|
  {
    var k := Wanted(s.txns[t]);
    || (s.txns[t].phase.LockRow? && k in s.table && Holds(s.txns[u], k))
    || (s.txns[t].phase.InsertRow? && k !in s.table && k in s.txns[u].inserted)
  }

  lemma HoldersAreOpen(txn: Txn, k: Key)
    requires Holds(txn, k)
    ensures txn.Open()
  {
  }

  /** Of an absent pair the only hold is an insert. */
  lemma AbsentIsInserted(catalog: Catalog, table: Stock, t: nat, txn: Txn, k: Key)
    requires TxnOk(catalog, table, t, txn) && txn.Open() && k !in table
    ensures Holds(txn, k) <==> k in txn.inserted
  {
    hide SourceFirst;
    LegsDiffer(txn.move);
  }

  lemma BlockedIsDelayed(s: State, t: nat) returns (u: nat)
    requires Inv(s) && t < |s.txns| && Blocked(s, t)
    ensures u < |s.txns| && u != t && s.txns[u].Open() && Delays(s, t, u)
  {
    hide Legs, RowsOk, HistoryOk, MovementsOk, MemoryOk, PublishedOk, TxnOk, Holds;
    var k := Wanted(s.txns[t]);
    u := s.owners[k];
    HoldersAreOpen(s.txns[u], k);
    if k !in s.table {
      AbsentIsInserted(s.catalog, s.table, u, s.txns[u], k);
    }
  }

  lemma DelayedIsBlocked(s: State, t: nat, u: nat)
    requires Inv(s) && t < |s.txns| && u < |s.txns| && u != t && s.txns[u].Open() && Delays(s, t, u)
    ensures Blocked(s, t)
  {
    hide Legs, RowsOk, HistoryOk, MovementsOk, MemoryOk, PublishedOk, TxnOk, Holds;
    var k := Wanted(s.txns[t]);
    if k !in s.table {
      AbsentIsInserted(s.catalog, s.table, u, s.txns[u], k);
    }
    assert Holds(s.txns[u], k);
  }

  lemma NotDelayed(s: State, t: nat, u: nat)
    requires Inv(s) && t < |s.txns| && u < |s.txns| && u != t && s.txns[u].Open() && !Blocked(s, t)
    ensures !Delays(s, t, u)
  {
    hide Inv, Blocked, Delays;
    if Delays(s, t, u) {
      DelayedIsBlocked(s, t, u);
    }
  }

  /** A request's next step is held up exactly by these two waits. */
  lemma WaitsExactly(s: State, t: nat)
    requires Reachable(s) && t < |s.txns| && s.txns[t].Unfinished()
    ensures Do(s, Proceed(t)) == s <==>
              exists u :: 0 <= u < |s.txns| && u != t && s.txns[u].Open() && Delays(s, t, u)
  {
    hide Delays, Blocked, ProceedTxn, Inv;
    ReachableInv(s);
    InRange(s);
    if Blocked(s, t) {
      var u := BlockedIsDelayed(s, t);
    } else {
      ProceedDecreases(s, t);
      forall u: nat | u < |s.txns| && u != t && s.txns[u].Open()
        ensures !Delays(s, t, u)
      {
        NotDelayed(s, t, u);
      }
    }
  }

  /** A locked read of an absent row does not wait, whoever has inserted it, and locks nothing: a
      request that is to increase the row goes on to its own insert. */
  lemma AbsentReadDoesNotWait(s: State, t: nat, i: nat)
    requires t < |s.txns| && s.txns[t].phase == LockRow(i) && LegAt(s.txns[t], i).key !in s.table
    ensures LegAt(s.txns[t], i).Increase? ==>
              Do(s, Proceed(t)) == s.(txns := s.txns[t := s.txns[t].(phase := InsertRow(i))])
    ensures LegAt(s.txns[t], i).Decrease? ==>
              Do(s, Proceed(t)).txns[t].phase == Aborted(StockRecordNotFound(LegAt(s.txns[t], i).key))
  {
  }

  // ---------- Who loses ----------

  /** t read before u's row was there to be read. */
  ghost predicate ReadTooEarly(s: State, t: nat, u: nat, i: nat, k: Key) {
    && t < |s.txns| && u < |s.txns| && t != u
    && (s.txns[u].phase.Aborted? || (
          && (s.txns[t].phase.Aborted? || (s.txns[t].phase == InsertRow(i) && LegAt(s.txns[t], i).key == k))
          && (k in s.table || (s.txns[u].Open() && k in s.txns[u].inserted))))
  }

  /** What becomes of a transaction in one step of its own. */
  ghost predicate KeepsInsert(s: State, s': State, u: nat, k: Key)
    requires u < |s.txns|
  {
    && |s'.txns| == |s.txns|
    && (s'.txns[u].phase.Aborted? || (s'.txns[u].Open() && k in s'.txns[u].inserted) || k in s'.table)
  }

  lemma OpenStep(s: State, u: nat, k: Key)
    requires u < |s.txns| && s.txns[u].Open() && !s.txns[u].phase.Commit? && k in s.txns[u].inserted
    ensures KeepsInsert(s, ProceedTxn(s, u), u, k)
  {
    hide Legs, LegAt, Release;
  }

  lemma CommitStep(s: State, u: nat, k: Key)
    requires Inv(s) && u < |s.txns| && s.txns[u].phase.Commit? && k in s.txns[u].inserted
    ensures KeepsInsert(s, ProceedTxn(s, u), u, k)
  {
    hide OwnersOk, HistoryOk, MovementsOk, MemoryOk, PublishedOk, Release;
    assert TxnOk(s.catalog, s.table, u, s.txns[u]);
    RowsGrow(s.table, s.rows, s.txns[u], s.catalog, u);
    assert k in s.rows + s.txns[u].inserted;
  }

  /** Committed rows stay. */
  lemma TableGrows(s: State, a: Action)
    requires Inv(s)
    ensures s.table.Keys <= Do(s, a).table.Keys
  {
    hide Inv, Do;
    DoKeeps(s, a);
    StepAppends(s, a);
    RowsAreTable(s);
    RowsAreTable(Do(s, a));
  }

  lemma RowsAreTable(s: State)
    requires Inv(s)
    ensures forall k :: k in s.rows <==> k in s.table
  {
  }

  lemma InserterStep(s: State, u: nat, k: Key)
    requires Inv(s) && u < |s.txns| && s.table.Keys <= ProceedTxn(s, u).table.Keys
    requires s.txns[u].phase.Aborted? || k in s.table || (s.txns[u].Open() && k in s.txns[u].inserted)
    ensures KeepsInsert(s, ProceedTxn(s, u), u, k)
  {
    hide Inv, ProceedTxn;
    ProceedOwnOnly(s, u);
    if s.txns[u].phase.Aborted? {
      AbortedStep(s, u);
    } else if k !in s.table && s.txns[u].phase.Commit? {
      CommitStep(s, u, k);
    } else if k !in s.table {
      OpenStep(s, u, k);
    }
  }

  lemma AbortedStep(s: State, t: nat)
    requires t < |s.txns| && s.txns[t].phase.Aborted?
    ensures ProceedTxn(s, t) == s
  {
  }

  /** The early reader waits while the other's insert is open, and then fails. */
  lemma ReaderStep(s: State, t: nat, u: nat, i: nat, k: Key)
    requires Inv(s) && ReadTooEarly(s, t, u, i, k) && !s.txns[u].phase.Aborted? && !s.txns[t].phase.Aborted?
    requires !Blocked(s, t)
    ensures k in s.table && ProceedTxn(s, t).txns[t].phase == Aborted(DuplicateRow)
  {
    hide Inv, Holds, Legs;
    if k !in s.table {
      assert Wanted(s.txns[t]) == k && Delays(s, t, u);
      NotDelayed(s, t, u);
    }
  }

  lemma ProceedStays(s: State, v: nat, t: nat, u: nat, i: nat, k: Key)
    requires Inv(s) && ReadTooEarly(s, t, u, i, k) && v < |s.txns| && !Blocked(s, v)
    requires s.table.Keys <= ProceedTxn(s, v).table.Keys
    ensures ReadTooEarly(ProceedTxn(s, v), t, u, i, k)
  {
    hide Inv, Legs, LegAt, Blocked, ProceedTxn;
    ProceedOwnOnly(s, v);
    if s.txns[v].phase.Aborted? {
      AbortedStep(s, v);
    } else if v == u {
      InserterStep(s, u, k);
    } else if v == t && !s.txns[u].phase.Aborted? {
      ReaderStep(s, t, u, i, k);
    }
  }

  lemma InterruptStays(s: State, v: nat, t: nat, u: nat, i: nat, k: Key)
    requires ReadTooEarly(s, t, u, i, k) && v < |s.txns|
    ensures ReadTooEarly(InterruptTxn(s, v), t, u, i, k)
  {
    hide Legs, LegAt, Release;
  }

  lemma {:induction false} TooEarlyStays(s: State, a: Action, t: nat, u: nat, i: nat, k: Key)
    requires Inv(s) && ReadTooEarly(s, t, u, i, k)
    ensures ReadTooEarly(Do(s, a), t, u, i, k)
  {
    hide Inv, Legs, LegAt, Blocked, ProceedTxn, InterruptTxn;
    TableGrows(s, a);
    match a
    case Begin(_) =>
    case AddProduct(_) =>
    case AddWarehouse(_) =>
    case Interrupt(v) =>
      if v < |s.txns| {
        InterruptStays(s, v, t, u, i, k);
      }
    case Proceed(v) =>
      if v < |s.txns| && !Blocked(s, v) {
        ProceedStays(s, v, t, u, i, k);
      }
  }

  lemma {:induction false} TooEarlyRun(s: State, run: seq<Action>, t: nat, u: nat, i: nat, k: Key)
    requires Inv(s) && ReadTooEarly(s, t, u, i, k)
    ensures ReadTooEarly(Exec(s, run), t, u, i, k)
  {
    hide Inv, Do, ReadTooEarly;
    if run != [] {
      var before := run[..|run| - 1];
      TooEarlyRun(s, before, t, u, i, k);
      ExecKeeps(s, before);
      TooEarlyStays(Exec(s, before), run[|run| - 1], t, u, i, k);
    }
  }

  /** A request that found no row while another's insert of it was open cannot be saved by waiting:
      in no continuation in which the other commits does it commit too. */
  lemma EarlyReaderLoses(s: State, t: nat, u: nat, run: seq<Action>)
    requires Reachable(s) && t < |s.txns| && u < |s.txns| && t != u
    requires s.txns[t].phase.InsertRow? && s.txns[u].Open() && Wanted(s.txns[t]) in s.txns[u].inserted
    ensures var s' := Exec(s, run);
      && |s'.txns| >= |s.txns|
      && (s'.txns[u].Committed() ==> !s'.txns[t].Committed())
  {
    hide Exec, Inv, Holds, Legs;
    ReachableInv(s);
    TooEarlyRun(s, run, t, u, s.txns[t].phase.leg, Wanted(s.txns[t]));
    TxnsGrow(s, run);
  }

  lemma {:induction false} TxnsGrow(s: State, run: seq<Action>)
    ensures |Exec(s, run).txns| >= |s.txns|
  {
    hide Do;
    if run != [] {
      TxnsGrow(s, run[..|run| - 1]);
      StepTxnsGrow(Exec(s, run[..|run| - 1]), run[|run| - 1]);
    }
  }

  lemma StepTxnsGrow(s: State, a: Action)
    ensures |Do(s, a).txns| >= |s.txns|
  {
    hide Legs, LegAt, Release, ProceedTxn;
    if a.Proceed? && a.t < |s.txns| {
      ProceedOwnOnly(s, a.t);
    }
  }

  // ---------- No trace of an aborted request ----------

  lemma AbortingLeg(s: State, t: nat, i: nat, loaded: int)
    requires t < |s.txns|
    ensures var s' := TakeRow(s, t, i);
      s'.txns[t].phase.Aborted? ==> s' == Abort(s, t, s'.txns[t].phase.error)
    ensures var s' := InsertEmptyRow(s, t, i);
      s'.txns[t].phase.Aborted? ==> s' == Abort(s, t, s'.txns[t].phase.error)
    ensures var s' := UpdateRow(s, t, i, loaded);
      s'.txns[t].phase.Aborted? ==> s' == Abort(s, t, s'.txns[t].phase.error)
  {
    hide Legs, LegAt, Release;
  }

  lemma AbortingStep(s: State, t: nat)
    requires t < |s.txns| && s.txns[t].Open() && |ProceedTxn(s, t).txns| == |s.txns|
    requires ProceedTxn(s, t).txns[t].phase.Aborted?
    ensures ProceedTxn(s, t) == Abort(s, t, ProceedTxn(s, t).txns[t].phase.error)
  {
    hide Legs, LegAt, Release, TakeRow, InsertEmptyRow, UpdateRow;
    match s.txns[t].phase
    case LockRow(i) => AbortingLeg(s, t, i, 0);
    case InsertRow(i) => AbortingLeg(s, t, i, 0);
    case Update(i, loaded) => AbortingLeg(s, t, i, loaded);
    case _ =>
  }

  /** Whatever aborts a request, nothing shared changes, it owns nothing any more, and what it had
      written or flushed is gone. */
  lemma AbortLeavesNoTrace(s: State, a: Action, t: nat)
    requires t < |s.txns| && s.txns[t].Open() && t < |Do(s, a).txns| && Do(s, a).txns[t].phase.Aborted?
    ensures var s' := Do(s, a);
      && s'.table == s.table && s'.rows == s.rows && s'.movements == s.movements && s'.published == s.published
      && s'.txns[t].writes == map[] && s'.txns[t].inserted == [] && s'.txns[t].pending == []
      && (forall k :: k in s'.owners <==> k in s.owners && s.owners[k] != t)
      && s'.txns == s.txns[t := s'.txns[t]]
  {
    OnlyOwnStep(s, a, t);
    if a == Proceed(t) {
      ProceedOwnOnly(s, t);
      AbortingStep(s, t);
    }
    hide Blocked, ProceedTxn;
  }

  /** An interruption aborts a request that has not committed; afterwards it only costs the event. */
  lemma InterruptExact(s: State, t: nat)
    requires t < |s.txns| && s.txns[t].Unfinished()
    ensures var s' := Do(s, Interrupt(t));
      && s'.txns[t].phase == (if s.txns[t].Open() then Aborted(Interrupted) else Finished)
      && s'.table == s.table && s'.movements == s.movements && s'.published == s.published
  {
  }
}
