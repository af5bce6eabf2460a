/** The sequential meaning of a stock movement, and of a history of movements.

    `Performed` runs the two legs the way the service's code does, one after the other.
    `Legal` and `Effect` say what a movement is, without legs or an order. `Replay` folds
    `Effect` over a history; it is the reference every concurrent run is compared with. */
module Ledger {
  import opened Wrappers
  import opened Uuids
  import opened Schema

  datatype Key = Key(product: Uuid, warehouse: Uuid)

  /** The inventories table, as far as quantities go: at most one row for each pair. */
  type Stock = map<Key, int>

  /** Products and warehouses that exist. They are only ever soft-deleted. */
  datatype Catalog = Catalog(products: set<Uuid>, warehouses: set<Uuid>)

  /** What stops a request, with everything its message says. */
  datatype Error =
    | ProductNotFound(product: Uuid)
    | WarehouseNotFound(warehouse: Uuid)
    | StockRecordNotFound(key: Key)
    | InsufficientStock(key: Key, requested: int, available: int)
    | DuplicateRow     // the unique constraint on (product, warehouse)
    | Interrupted      // connection lost, request cancelled, any other database error

  datatype Leg = Increase(key: Key, quantity: int) | Decrease(key: Key, quantity: int)

  // ---------- The legs, in lock order ----------

  predicate SourceFirst(source: Uuid, destination: Uuid) {
    !LexLess(Text(destination), Text(source))
  }

  /** Sorting two ids by text puts the source first unless the destination's text is smaller. */
  function Legs(m: Movement): (legs: seq<Leg>)
    ensures 1 <= |legs| <= 2
    ensures |legs| == 2 <==> m.Transfer?
  {
    match m
    case In(p, d, q) => [Increase(Key(p, d), q)]
    case Out(p, s, q) => [Decrease(Key(p, s), q)]
    case Transfer(p, s, d, q) =>
      if SourceFirst(s, d)
      then [Decrease(Key(p, s), q), Increase(Key(p, d), q)]
      else [Increase(Key(p, d), q), Decrease(Key(p, s), q)]
  }

  /** Whatever the direction of a transfer, its first leg is on the smaller warehouse id. */
  lemma LegsInLockOrder(m: Movement)
    requires m.Transfer?
    ensures Legs(m)[0].key.product == Legs(m)[1].key.product
    ensures Legs(m)[0].key.warehouse < Legs(m)[1].key.warehouse
  {
    TextOrder(m.destination, m.source);
  }

  // ---------- One movement ----------

  function Quantity(stock: Stock, k: Key): int {
    if k in stock then stock[k] else 0
  }

  function PerformLeg(catalog: Catalog, stock: Stock, leg: Leg): Result<Stock, Error> {
    if leg.key.warehouse !in catalog.warehouses then Failure(WarehouseNotFound(leg.key.warehouse)) else
    match leg
    case Increase(k, q) => Success(stock[k := Quantity(stock, k) + q])
    case Decrease(k, q) =>
      if k !in stock then Failure(StockRecordNotFound(k))
      else if stock[k] < q then Failure(InsufficientStock(k, q, stock[k]))
      else Success(stock[k := stock[k] - q])
  }

  function PerformLegs(catalog: Catalog, stock: Stock, legs: seq<Leg>): Result<Stock, Error>
    decreases |legs|
  {
    if legs == [] then Success(stock) else
    var stock' :- PerformLeg(catalog, stock, legs[0]);
    PerformLegs(catalog, stock', legs[1..])
  }

  /** One request running alone, up to its commit or its first error. */
  function Performed(catalog: Catalog, stock: Stock, m: Movement): Result<Stock, Error> {
    if m.product !in catalog.products then Failure(ProductNotFound(m.product))
    else PerformLegs(catalog, stock, Legs(m))
  }

  function SourceKey(m: Movement): Key
    requires !m.In?
  {
    Key(m.product, m.source)
  }

  function DestinationKey(m: Movement): Key
    requires !m.Out?
  {
    Key(m.product, m.destination)
  }

  function Touched(m: Movement): set<Key> {
    (if m.In? then {} else {SourceKey(m)}) + (if m.Out? then {} else {DestinationKey(m)})
  }

  /** What a movement adds to one pair's balance. */
  function Delta(m: Movement, k: Key): int {
    if !m.In? && k == SourceKey(m) then -m.quantity
    else if !m.Out? && k == DestinationKey(m) then m.quantity
    else 0
  }

  /** When a movement may happen: everything it names exists and the source holds enough. */
  ghost predicate Legal(catalog: Catalog, stock: Stock, m: Movement) {
    && m.product in catalog.products
    && (forall k <- Touched(m) :: k.warehouse in catalog.warehouses)
    && (!m.In? ==> SourceKey(m) in stock && stock[SourceKey(m)] >= m.quantity)
  }

  function Effect(stock: Stock, m: Movement): Stock {
    map k | k in stock.Keys + Touched(m) :: Quantity(stock, k) + Delta(m, k)
  }

  lemma PerformOne(catalog: Catalog, stock: Stock, leg: Leg)
    ensures PerformLegs(catalog, stock, [leg]) == PerformLeg(catalog, stock, leg)
  {
    assert [leg][1..] == [];
    var stock' := PerformLeg(catalog, stock, leg);
    if stock'.Success? {
      assert PerformLegs(catalog, stock'.value, []) == stock';
    }
  }

  lemma PerformTwo(catalog: Catalog, stock: Stock, first: Leg, second: Leg)
    ensures PerformLegs(catalog, stock, [first, second]) ==
            var stock' := PerformLeg(catalog, stock, first);
            if stock'.Failure? then stock' else PerformLeg(catalog, stock'.value, second)
  {
    assert [first, second][1..] == [second];
    var stock' := PerformLeg(catalog, stock, first);
    if stock'.Success? {
      PerformOne(catalog, stock'.value, second);
    }
  }

  /** Both lock orders of a transfer accept the same transfers and reach the same stock. */
  lemma TransferOrder(catalog: Catalog, stock: Stock, m: Movement)
    requires m.Transfer? && m.product in catalog.products
    ensures var s, d := Decrease(SourceKey(m), m.quantity), Increase(DestinationKey(m), m.quantity);
      var sourceFirst, destinationFirst :=
        PerformLegs(catalog, stock, [s, d]), PerformLegs(catalog, stock, [d, s]);
      && (sourceFirst.Success? <==> Legal(catalog, stock, m))
      && (destinationFirst.Success? <==> Legal(catalog, stock, m))
      && (Legal(catalog, stock, m) ==>
            sourceFirst == destinationFirst == Success(Effect(stock, m)))
  {
    var s, d := Decrease(SourceKey(m), m.quantity), Increase(DestinationKey(m), m.quantity);
    PerformTwo(catalog, stock, s, d);
    PerformTwo(catalog, stock, d, s);
    assert s.key in Touched(m) && d.key in Touched(m);
    if Legal(catalog, stock, m) {
      var q := m.quantity;
      var effect := stock[s.key := stock[s.key] - q][d.key := Quantity(stock, d.key) + q];
      assert effect == stock[d.key := Quantity(stock, d.key) + q][s.key := stock[s.key] - q];
      assert effect == Effect(stock, m);
    }
  }

  /** Running the legs in lock order succeeds exactly on the legal movements, with their effect. */
  lemma PerformedExact(catalog: Catalog, stock: Stock, m: Movement)
    ensures Performed(catalog, stock, m).Success? <==> Legal(catalog, stock, m)
    ensures Legal(catalog, stock, m) ==> Performed(catalog, stock, m) == Success(Effect(stock, m))
  {
    if m.product in catalog.products {
      match m
      case Transfer(_, _, _, _) =>
        TransferOrder(catalog, stock, m);
      case In(_, _, q) =>
        var k := DestinationKey(m);
        assert Touched(m) == {k} && k in Touched(m);
        PerformOne(catalog, stock, Legs(m)[0]);
        assert stock[k := Quantity(stock, k) + q] == Effect(stock, m);
      case Out(_, _, q) =>
        var k := SourceKey(m);
        assert Touched(m) == {k} && k in Touched(m);
        PerformOne(catalog, stock, Legs(m)[0]);
        assert k in stock ==> stock[k := stock[k] - q] == Effect(stock, m);
    }
  }

  /** What is wrong with a movement's source, looked at on its own. */
  function SourceProblem(catalog: Catalog, stock: Stock, m: Movement): Option<Error>
    requires !m.In?
  {
    var k := SourceKey(m);
    if m.source !in catalog.warehouses then Some(WarehouseNotFound(m.source))
    else if k !in stock then Some(StockRecordNotFound(k))
    else if stock[k] < m.quantity then Some(InsufficientStock(k, m.quantity, stock[k]))
    else None
  }

  function DestinationProblem(catalog: Catalog, m: Movement): Option<Error>
    requires !m.Out?
  {
    if m.destination !in catalog.warehouses then Some(WarehouseNotFound(m.destination)) else None
  }

  /** The two lock orders end the same, error and its details included, exactly when the
      destination exists or there is nothing wrong with the source. */
  lemma TransferErrorOrder(catalog: Catalog, stock: Stock, m: Movement)
    requires m.Transfer?
    ensures var s, d := Decrease(SourceKey(m), m.quantity), Increase(DestinationKey(m), m.quantity);
      PerformLegs(catalog, stock, [s, d]) == PerformLegs(catalog, stock, [d, s]) <==>
        || m.destination in catalog.warehouses
        || (m.source in catalog.warehouses && SourceKey(m) in stock && stock[SourceKey(m)] >= m.quantity)
  {
    var s, d := Decrease(SourceKey(m), m.quantity), Increase(DestinationKey(m), m.quantity);
    PerformTwo(catalog, stock, s, d);
    PerformTwo(catalog, stock, d, s);
    if m.destination in catalog.warehouses && SourceProblem(catalog, stock, m) == None {
      TransferOrder(catalog.(products := {m.product}), stock, m);
      PerformTwo(catalog.(products := {m.product}), stock, s, d);
      PerformTwo(catalog.(products := {m.product}), stock, d, s);
    }
  }

  /** Why a movement is refused: a missing product comes first; of a transfer's two problems, the
      one with the smaller warehouse id. */
  function Refusal(catalog: Catalog, stock: Stock, m: Movement): Option<Error> {
    if m.product !in catalog.products then Some(ProductNotFound(m.product)) else
    match m
    case In(_, _, _) => DestinationProblem(catalog, m)
    case Out(_, _, _) => SourceProblem(catalog, stock, m)
    case Transfer(_, _, _, _) =>
      var source, destination := SourceProblem(catalog, stock, m), DestinationProblem(catalog, m);
      if source.Some? && (m.source < m.destination || destination == None) then source else destination
  }

  /** A request run alone ends with exactly that error, or succeeds when there is none. */
  lemma RefusedExactly(catalog: Catalog, stock: Stock, m: Movement)
    ensures match Performed(catalog, stock, m)
            case Success(_) => Refusal(catalog, stock, m) == None
            case Failure(error) => Refusal(catalog, stock, m) == Some(error)
  {
    match m
    case Transfer(_, _, _, _) =>
      if m.product in catalog.products {
        TransferRefused(catalog, stock, m);
      }
    case _ => PerformOne(catalog, stock, Legs(m)[0]);
  }

  /** The error of a refused transfer: of its two problems, the one with the smaller warehouse id. */
  lemma TransferRefused(catalog: Catalog, stock: Stock, m: Movement)
    requires m.Transfer? && m.product in catalog.products
    ensures var source, destination := SourceProblem(catalog, stock, m), DestinationProblem(catalog, m);
      match Performed(catalog, stock, m)
      case Success(_) => source == None && destination == None
      case Failure(error) =>
        Some(error) == if source.Some? && (m.source < m.destination || destination == None)
                       then source else destination
  {
    TextOrder(m.destination, m.source);
    PerformTwo(catalog, stock, Legs(m)[0], Legs(m)[1]);
    assert Legs(m) == [Legs(m)[0], Legs(m)[1]];
  }

  /** Two transfers out of the same short row, to warehouses neither of which exists: one is told
      of the shortage, the other of the warehouse. */
  lemma TransferErrorsDiffer()
    ensures var catalog, stock: Stock := Catalog({0}, {1}), map[Key(0, 1) := 3];
      && Performed(catalog, stock, Transfer(0, 1, 2, 5)) == Failure(InsufficientStock(Key(0, 1), 5, 3))
      && Performed(catalog, stock, Transfer(0, 1, 0, 5)) == Failure(WarehouseNotFound(0))
  {
    hide Performed;
    var catalog, stock: Stock := Catalog({0}, {1}), map[Key(0, 1) := 3];
    TransferRefused(catalog, stock, Transfer(0, 1, 2, 5));
    TransferRefused(catalog, stock, Transfer(0, 1, 0, 5));
  }

  // ---------- Histories ----------

  /** The stock after a history, from empty. */
  function Replay(history: seq<Movement>): Stock {
    if history == [] then map[]
    else Effect(Replay(history[..|history| - 1]), history[|history| - 1])
  }

  /** Every movement of the history was legal when its turn came. */
  ghost predicate LegalHistory(catalog: Catalog, history: seq<Movement>) {
    forall i | 0 <= i < |history| :: Legal(catalog, Replay(history[..i]), history[i])
  }

  /** Inflow minus outflow of one pair. */
  function Balance(history: seq<Movement>, k: Key): int {
    if history == [] then 0
    else Balance(history[..|history| - 1], k) + Delta(history[|history| - 1], k)
  }

  lemma ReplaySnoc(history: seq<Movement>, m: Movement)
    ensures Replay(history + [m]) == Effect(Replay(history), m)
    ensures forall k :: Balance(history + [m], k) == Balance(history, k) + Delta(m, k)
  {
    assert (history + [m])[..|history|] == history;
  }

  lemma {:induction false} LegalSnoc(catalog: Catalog, history: seq<Movement>, m: Movement)
    requires LegalHistory(catalog, history) && Legal(catalog, Replay(history), m)
    ensures LegalHistory(catalog, history + [m])
  {
    forall i | 0 <= i <= |history|
      ensures Legal(catalog, Replay((history + [m])[..i]), (history + [m])[i])
    {
      assert (history + [m])[..i] == history[..i];
      if i == |history| {
        assert history[..i] == history;
      } else {
        assert Legal(catalog, Replay(history[..i]), history[i]);
      }
    }
  }

  lemma {:induction false} LegalPrefix(catalog: Catalog, history: seq<Movement>, n: nat)
    requires LegalHistory(catalog, history) && n <= |history|
    ensures LegalHistory(catalog, history[..n])
  {
    forall i | 0 <= i < n
      ensures Legal(catalog, Replay(history[..n][..i]), history[..n][i])
    {
      assert history[..n][..i] == history[..i];
    }
  }

  /** A replayed quantity is the pair's inflow minus its outflow, and is not negative. */
  lemma {:induction false} ReplayIsBalance(catalog: Catalog, history: seq<Movement>, k: Key)
    requires LegalHistory(catalog, history)
    ensures Quantity(Replay(history), k) == Balance(history, k) >= 0
    ensures k in Replay(history) ==> k.product in catalog.products && k.warehouse in catalog.warehouses
  {
    if history != [] {
      var n := |history| - 1;
      LegalPrefix(catalog, history, n);
      ReplayIsBalance(catalog, history[..n], k);
      assert Legal(catalog, Replay(history[..n]), history[n]);
    }
  }

  /** A pair has a row exactly when some movement of the history touched it. */
  lemma {:induction false} ReplayRows(history: seq<Movement>, k: Key)
    ensures k in Replay(history) <==> exists i :: 0 <= i < |history| && k in Touched(history[i])
  {
    if history != [] {
      var n := |history| - 1;
      ReplayRows(history[..n], k);
      if k in Replay(history[..n]) {
        var i :| 0 <= i < n && k in Touched(history[..n][i]);
        assert k in Touched(history[i]);
      } else {
        assert forall i | 0 <= i < n :: history[..n][i] == history[i];
      }
    }
  }
}
