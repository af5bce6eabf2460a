/** What holds of the committed data in every state of every interleaving. */
module LedgerTheorems {
  import opened Wrappers
  import opened Schema
  import opened Ledger
  import opened Events
  import opened Transactions
  import opened Invariant

  /** The states of all interleavings of any number of requests, from empty tables. */
  ghost predicate Reachable(s: State) {
    exists catalog, run :: s == Exec(Init(catalog), run)
  }

  lemma {:induction false} ReachableInv(s: State)
    requires Reachable(s)
    ensures Inv(s)
  {
    var catalog, run :| s == Exec(Init(catalog), run);
    InitInv(catalog);
    ExecKeeps(Init(catalog), run);
  }

  // ---------- Serializability ----------

  /** Requests run one at a time, each by its legs alone, stopping at the first error. */
  function PerformedAll(catalog: Catalog, history: seq<Movement>): Result<Stock, Error> {
    if history == [] then Success(map[]) else
    var stock :- PerformedAll(catalog, history[..|history| - 1]);
    Performed(catalog, stock, history[|history| - 1])
  }

  lemma {:induction false} LegalIsPerformed(catalog: Catalog, history: seq<Movement>)
    requires LegalHistory(catalog, history)
    ensures PerformedAll(catalog, history) == Success(Replay(history))
  {
    if history != [] {
      var n := |history| - 1;
      LegalPrefix(catalog, history, n);
      LegalIsPerformed(catalog, history[..n]);
      assert Legal(catalog, Replay(history[..n]), history[n]);
      PerformedExact(catalog, Replay(history[..n]), history[n]);
    }
  }

  /** Every interleaving commits what its committed movements do one at a time in commit
      order, from empty stock, and none of them fails there. */
  lemma Serializable(s: State)
    requires Reachable(s)
    ensures s.table == Replay(History(s.movements))
    ensures LegalHistory(s.catalog, History(s.movements))
    ensures PerformedAll(s.catalog, History(s.movements)) == Success(s.table)
  {
    ReachableInv(s);
    LegalIsPerformed(s.catalog, History(s.movements));
  }

  /** Each committed quantity is inflow minus outflow and never negative, also while
      transactions are half way through; a pair has a row once some movement touched it. */
  lemma QuantityIsBalance(s: State, k: Key)
    requires Reachable(s)
    ensures Quantity(s.table, k) == Balance(History(s.movements), k) >= 0
    ensures k in s.table <==> exists i :: 0 <= i < |s.movements| && k in Touched(s.movements[i].move)
  {
    Serializable(s);
    var history := History(s.movements);
    ReplayIsBalance(s.catalog, history, k);
    ReplayRows(history, k);
    if k in s.table {
      var i :| 0 <= i < |history| && k in Touched(history[i]);
      assert k in Touched(s.movements[i].move);
    } else {
      assert forall i | 0 <= i < |s.movements| :: history[i] == s.movements[i].move;
    }
  }

  /** One movement row for each committed transaction and none for any other. */
  lemma OneMovementEach(s: State, t: nat)
    requires Reachable(s) && t < |s.txns|
    ensures s.txns[t].Committed() <==> MovementRow(t, s.txns[t].move) in s.movements
    ensures forall row :: row in s.movements && row.id == t ==> row.move == s.txns[t].move
    ensures forall i, j :: 0 <= i < j < |s.movements| ==> s.movements[i].id != s.movements[j].id
  {
    ReachableInv(s);
    if s.txns[t].Committed() {
      var i :| 0 <= i < |s.movements| && s.movements[i].id == t;
      assert s.movements[i] == MovementRow(t, s.txns[t].move);
    }
  }

  ghost predicate Appends(s: State, s': State) {
    s.movements <= s'.movements && s.rows <= s'.rows && s.published <= s'.published
  }

  lemma LegAppends(s: State, t: nat, i: nat, loaded: int)
    requires t < |s.txns|
    ensures Appends(s, TakeRow(s, t, i)) && Appends(s, InsertEmptyRow(s, t, i)) && Appends(s, UpdateRow(s, t, i, loaded))
  {
    hide Legs, LegAt, Updated, Release;
  }

  lemma ProceedAppends(s: State, t: nat)
    requires t < |s.txns|
    ensures Appends(s, ProceedTxn(s, t))
  {
    hide Legs, LegAt, Affected, InMemory, MovementEvent, Release, TakeRow, InsertEmptyRow, UpdateRow;
    match s.txns[t].phase
    case LockRow(i) => LegAppends(s, t, i, 0);
    case InsertRow(i) => LegAppends(s, t, i, 0);
    case Update(i, loaded) => LegAppends(s, t, i, loaded);
    case _ =>
  }

  /** No step changes, removes or reorders a committed movement or row. */
  lemma StepAppends(s: State, a: Action)
    ensures s.movements <= Do(s, a).movements && s.rows <= Do(s, a).rows
    ensures s.published <= Do(s, a).published
  {
    hide Blocked, ProceedTxn, Release;
    if a.Proceed? && a.t < |s.txns| {
      ProceedAppends(s, a.t);
    }
  }

  /** Products and warehouses may appear at any time, and never disappear. */
  lemma CatalogOnlyGrows(s: State, a: Action)
    ensures s.catalog.products <= Do(s, a).catalog.products && s.catalog.warehouses <= Do(s, a).catalog.warehouses
    ensures a.AddProduct? ==> a.product in Do(s, a).catalog.products
    ensures a.AddWarehouse? ==> a.warehouse in Do(s, a).catalog.warehouses
  {
    hide Legs, LegAt, Affected, InMemory, MovementEvent, Blocked, Updated, Release;
  }

  lemma {:induction false} HistoryOnlyGrows(s: State, run: seq<Action>)
    ensures s.movements <= Exec(s, run).movements && s.rows <= Exec(s, run).rows
    ensures s.published <= Exec(s, run).published
  {
    if run != [] {
      HistoryOnlyGrows(s, run[..|run| - 1]);
      StepAppends(Exec(s, run[..|run| - 1]), run[|run| - 1]);
    }
  }

  // ---------- The absent-row race ----------

  /** The inventories table never holds two rows for a pair, and holds one for every stocked pair. */
  lemma AtMostOneRow(s: State, k: Key)
    requires Reachable(s)
    ensures multiset(s.rows)[k] == if k in s.table then 1 else 0
  {
    ReachableInv(s);
    CountDistinct(s.rows, k);
  }

  lemma {:induction false} CountDistinct<T>(xs: seq<T>, x: T)
    requires forall i, j :: 0 <= i < j < |xs| ==> xs[i] != xs[j]
    ensures multiset(xs)[x] == if x in xs then 1 else 0
  {
    if xs != [] {
      var n := |xs| - 1;
      CountDistinct(xs[..n], x);
      assert xs == xs[..n] + [xs[n]];
    }
  }

  /** Several transactions may find no row for a pair. Of those still open only one has
      inserted it, and nobody commits a row for the pair until that one ends. */
  lemma OneOpenInsert(s: State, t: nat, u: nat, k: Key)
    requires Reachable(s) && t < |s.txns| && u < |s.txns|
    requires s.txns[t].Open() && s.txns[u].Open()
    requires k in s.txns[t].inserted && k in s.txns[u].inserted
    ensures t == u && k !in s.table
  {
    ReachableInv(s);
    assert TxnOk(s.catalog, s.table, t, s.txns[t]) && TxnOk(s.catalog, s.table, u, s.txns[u]);
    if t != u {
      HoldingsDisjoint(s.owners, s.txns, t, u, k);
    }
  }

  /** The loser: once a row for its pair is committed, its insert can only abort it, with no
      effect on anything shared, and the movement that won is in the pair's history. */
  lemma LoserAborts(s: State, t: nat)
    requires Reachable(s) && t < |s.txns| && s.txns[t].phase.InsertRow?
    requires LegAt(s.txns[t], s.txns[t].phase.leg).key in s.table
    ensures var s' := Do(s, Proceed(t));
      && s'.txns[t].phase == Aborted(DuplicateRow) && s'.txns[t].writes == map[]
      && s'.table == s.table && s'.rows == s.rows && s'.movements == s.movements
      && s'.published == s.published && s'.owners == Release(s.owners, t)
      && (forall u | 0 <= u < |s.txns| && u != t :: s'.txns[u] == s.txns[u])
    ensures exists i :: 0 <= i < |s.movements| && !s.movements[i].move.Out?
              && LegAt(s.txns[t], s.txns[t].phase.leg).key == DestinationKey(s.movements[i].move)
  {
    Serializable(s);
    var history := History(s.movements);
    var i := FirstIncrease(s.catalog, history, LegAt(s.txns[t], s.txns[t].phase.leg).key);
    assert s.movements[i].move == history[i];
  }

  /** A pair's row exists because some movement brought stock to it. */
  lemma {:induction false} FirstIncrease(catalog: Catalog, history: seq<Movement>, k: Key) returns (i: nat)
    requires LegalHistory(catalog, history) && k in Replay(history)
    ensures i < |history| && !history[i].Out? && k == DestinationKey(history[i])
  {
    var n := |history| - 1;
    if k in Replay(history[..n]) {
      LegalPrefix(catalog, history, n);
      i := FirstIncrease(catalog, history[..n], k);
    } else {
      assert Legal(catalog, Replay(history[..n]), history[n]);
      i := n;
    }
  }

  // ---------- Published events ----------

  /** Every published event is the one its own movement called for at its own commit point,
      whatever was committed before it went out, and no movement has two. */
  lemma EventsAreHistorical(s: State, a: Announcement) returns (i: nat)
    requires Reachable(s) && a in s.published
    ensures i < |s.movements| && s.movements[i].id == a.id
    ensures a.event == HistoricalEvent(History(s.movements)[..i + 1])
    ensures forall j, j' :: 0 <= j < j' < |s.published| ==> s.published[j].id != s.published[j'].id
  {
    ReachableInv(s);
    i := AnnouncedAt(s.movements, s.txns, s.published, a);
  }

  lemma AnnouncedAt(movements: seq<MovementRow>, txns: seq<Txn>, published: seq<Announcement>, a: Announcement)
    returns (i: nat)
    requires PublishedOk(movements, txns, published) && a in published
    ensures i < |movements| && movements[i].id == a.id
    ensures a.event == HistoricalEvent(History(movements)[..i + 1])
  {
    assert AnnouncementOk(movements, a);
    i :| 0 <= i < |movements| && movements[i].id == a.id
      && a.event == HistoricalEvent(History(movements[..i + 1]));
    assert History(movements[..i + 1]) == History(movements)[..i + 1];
  }

  /** So the resulting quantity of an IN or OUT event is the ledger balance at that commit. */
  lemma ResultingQuantityIsBalance(s: State, a: Announcement) returns (i: nat)
    requires Reachable(s) && a in s.published
    requires a.event.StockReceived? || a.event.StockRemoved?
    ensures i < |s.movements| && s.movements[i].id == a.id
    ensures a.event.quantity == s.movements[i].move.quantity
    ensures a.event.resultingQuantity
            == Balance(History(s.movements)[..i + 1], Key(a.event.product, a.event.warehouse))
  {
    i := EventsAreHistorical(s, a);
    var history := History(s.movements)[..i + 1];
    assert history[|history| - 1] == s.movements[i].move;
  }
}
