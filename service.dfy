/**
 * The service (src/main/java/com/inventory/service/TransactionService.java):
 * ingestion of a new transaction and the correction of a recorded one, each a
 * sequence of calls on the two stores. The failures it throws become tagged
 * outcomes; whatever a failing call has already written stays written.
 */
module Service {
  import opened Wrappers
  import opened Units
  import opened Records
  import opened Transactions
  import opened Stocks

  /** The body of a POST: one new transaction. */
  datatype PostRequest = PostRequest(
    itemName: string,
    quantity: real,
    unit: Unit,
    pricePerUnit: real,
    warehouseName: string)

  /** The body of a PATCH: the id of a recorded transaction and its full replacement values. */
  datatype PatchRequest = PatchRequest(
    originalTransactionId: int,
    itemName: string,
    quantity: real,
    unit: Unit,
    pricePerUnit: real,
    warehouseName: string)

  /** The bean-validation constraints a POST body passes before it reaches the service. */
  predicate ValidPost(r: PostRequest) {
    |r.itemName| > 0 && r.quantity > 0.0 && r.pricePerUnit > 0.0 && |r.warehouseName| > 0
  }

  /** The bean-validation constraints a PATCH body passes before it reaches the service. */
  predicate ValidPatch(r: PatchRequest) {
    r.originalTransactionId > 0 &&
    |r.itemName| > 0 && r.quantity > 0.0 && r.pricePerUnit > 0.0 && |r.warehouseName| > 0
  }

  /** `mapTransactionCreationDtoToTransaction`: the request's five values, nothing lost. */
  function MapPostRequest(r: PostRequest): (d: Draft)
    ensures PostRequest(d.itemName, d.quantity, d.unit, d.pricePerUnit, d.warehouseName) == r
  {
    Draft(r.itemName, r.quantity, r.unit, r.pricePerUnit, r.warehouseName)
  }

  /** `mapTransactionCorrectionDtoToTransaction`: the request's five values; only the original id is dropped. */
  function MapPatchRequest(r: PatchRequest): (d: Draft)
    ensures PatchRequest(r.originalTransactionId, d.itemName, d.quantity, d.unit, d.pricePerUnit, d.warehouseName) == r
  {
    Draft(r.itemName, r.quantity, r.unit, r.pricePerUnit, r.warehouseName)
  }

  /** TransactionNotFoundException, StockNotFoundException, and a store failure passed through unchanged. */
  datatype Failure =
    | TransactionNotFound(id: int)
    | StockNotFound(itemName: string, warehouseName: string, pricePerUnit: real)
    | StoreFailure(cause: StoreError)

  datatype Outcome = Done | Failed(failure: Failure)

  /** Both tables. */
  datatype World = World(ledger: Ledger, stock: StockTable)

  ghost predicate WorldValid(w: World) {
    LedgerValid(w.ledger) && TableValid(w.stock)
  }

  /** What a service call reports and the tables it leaves behind. */
  datatype Effect = Effect(outcome: Outcome, after: World)

  /** `addTransaction`: append to the ledger, then upsert the stock with the same five values. */
  function Ingest(w: World, r: PostRequest): Effect {
    var d := MapPostRequest(r);
    Effect(Done, World(Appended(w.ledger, d), Upserted(w.stock, d)))
  }

  /**
   * The zero-remainder branch: five single-column updates of the row with this id, in the
   * service's order. Together they give that row exactly the corrected values under its old id.
   */
  function Relabel(rows: seq<StockEntry>, id: int, c: Draft): (r: seq<StockEntry>)
    ensures |r| == |rows|
    ensures forall i :: 0 <= i < |rows| ==> r[i] == if rows[i].id == id then StockRow(id, c) else rows[i]
  {
    var r1 := UpdateById(rows, id, NewItemName(c.itemName));
    var r2 := UpdateById(r1, id, NewQuantity(c.quantity));
    var r3 := UpdateById(r2, id, NewUnit(c.unit));
    var r4 := UpdateById(r3, id, NewPricePerUnit(c.pricePerUnit));
    UpdateById(r4, id, NewWarehouseName(c.warehouseName))
  }

  /** The other branch: create a row for the corrected values, then set the old row's quantity to the remainder. */
  function Split(t: StockTable, id: int, remainder: real, c: Draft): StockTable {
    var t1 := Inserted(t, c);
    StockTable(UpdateById(t1.rows, id, NewQuantity(remainder)), t1.nextId)
  }

  /**
   * Steps 1 to 3 of a correction: find the original transaction, append the corrected values
   * to the ledger, find the stock row under the original's key. Stops with the failure of the
   * first step that fails, keeping what the earlier steps wrote.
   */
  datatype Located =
    | Stopped(effect: Effect)
    | Located(ledger: Ledger, original: Transaction, entry: StockEntry)

  function Locate(w: World, p: PatchRequest): Located {
    match LookupId(w.ledger.rows, p.originalTransactionId)
    case None => Stopped(Effect(Failed(TransactionNotFound(p.originalTransactionId)), w))
    case Some(orig) =>
      var ledger := Appended(w.ledger, MapPatchRequest(p));
      match FindByKey(w.stock.rows, TransactionKey(orig))
      case Err(e) => Stopped(Effect(Failed(StoreFailure(e)), World(ledger, w.stock)))
      case Ok(None) =>
        Stopped(Effect(Failed(StockNotFound(orig.itemName, orig.warehouseName, orig.pricePerUnit)), World(ledger, w.stock)))
      case Ok(Some(s)) => Located(ledger, orig, s)
  }

  /** `correctTransaction`, step by step as the service performs it. */
  function Correct(w: World, p: PatchRequest): Effect {
    match Locate(w, p)
    case Stopped(e) => e
    case Located(ledger, orig, s) => Effect(Done, World(ledger, Rebuilt(w.stock, s, orig, MapPatchRequest(p))))
  }

  /** Steps 4 and 5: relabel the row in place when the remainder is zero, split it otherwise. */
  function Rebuilt(t: StockTable, s: StockEntry, orig: Transaction, c: Draft): StockTable {
    var newQuantity := s.quantity - orig.quantity;
    if newQuantity == 0.0 then StockTable(Relabel(t.rows, s.id, c), t.nextId)
    else Split(t, s.id, newQuantity, c)
  }

  // ---------------------------------------------------------------------------
  // Ingestion

  /** `addTransaction` appends exactly one ledger row with the request's values and upserts the same values. */
  lemma IngestEffect(w: World, r: PostRequest)
    requires WorldValid(w)
    ensures WorldValid(Ingest(w, r).after)
    ensures Ingest(w, r).after.ledger.rows == w.ledger.rows + [TransactionRow(w.ledger.nextId, MapPostRequest(r))]
    ensures KeysUnique(w.stock.rows) ==> KeysUnique(Ingest(w, r).after.stock.rows)
  {
    AppendedValid(w.ledger, MapPostRequest(r));
    UpsertedValid(w.stock, MapPostRequest(r));
    if KeysUnique(w.stock.rows) {
      UpsertKeepsKeysUnique(w.stock, MapPostRequest(r));
    }
  }

  /**
   * Two ingestions with the same (item, warehouse, price) on a key not yet stocked: two
   * ledger rows, one stock row whose quantity is the sum (Tomatoes 10 + 120 = 130).
   */
  lemma IngestTwiceSums(w: World, r1: PostRequest, r2: PostRequest)
    requires WorldValid(w) && KeysUnique(w.stock.rows)
    requires !HasKey(w.stock.rows, DraftKey(MapPostRequest(r1)))
    requires r2.itemName == r1.itemName && r2.warehouseName == r1.warehouseName && r2.pricePerUnit == r1.pricePerUnit
    ensures |Ingest(Ingest(w, r1).after, r2).after.ledger.rows| == |w.ledger.rows| + 2
    ensures FindByKey(Ingest(Ingest(w, r1).after, r2).after.stock.rows, DraftKey(MapPostRequest(r1))) ==
            Ok(Some(StockEntry(w.stock.nextId, r1.itemName, r1.quantity + r2.quantity, r1.unit, r1.pricePerUnit, r1.warehouseName)))
  {
    UpsertTwiceSums(w.stock, MapPostRequest(r1), MapPostRequest(r2));
  }

  // ---------------------------------------------------------------------------
  // Correction: the failure cases

  /** The correction fails with TransactionNotFound exactly when no ledger row has the id, and then changes nothing. */
  lemma CorrectMissingTransaction(w: World, p: PatchRequest)
    ensures Correct(w, p).outcome == Failed(TransactionNotFound(p.originalTransactionId)) <==>
            forall t :: t in w.ledger.rows ==> t.id != p.originalTransactionId
    ensures Correct(w, p).outcome == Failed(TransactionNotFound(p.originalTransactionId)) ==> Correct(w, p).after == w
  {
  }

  /**
   * Whenever the original transaction exists, the ledger gains exactly one row holding the
   * corrected values, whatever happens to the stock afterwards; the earlier rows, the
   * original among them, are untouched.
   */
  lemma {:induction false} CorrectAppendsOnce(w: World, p: PatchRequest, n: int)
    requires WorldValid(w) && 0 <= n < |w.ledger.rows| && w.ledger.rows[n].id == p.originalTransactionId
    ensures Correct(w, p).after.ledger.rows == w.ledger.rows + [TransactionRow(w.ledger.nextId, MapPatchRequest(p))]
    ensures Correct(w, p).after.ledger.rows[n] == w.ledger.rows[n]
    ensures LedgerValid(Correct(w, p).after.ledger)
  {
    LookupFindsRow(w.ledger, n);
    AppendedValid(w.ledger, MapPatchRequest(p));
  }

  /**
   * No stock row has the original's key: StockNotFound naming that key, one new ledger row,
   * the stock table unchanged.
   */
  lemma {:induction false} CorrectStockMissing(w: World, p: PatchRequest, n: int)
    requires WorldValid(w) && 0 <= n < |w.ledger.rows| && w.ledger.rows[n].id == p.originalTransactionId
    requires !HasKey(w.stock.rows, TransactionKey(w.ledger.rows[n]))
    ensures Correct(w, p) == Effect(
      Failed(StockNotFound(w.ledger.rows[n].itemName, w.ledger.rows[n].warehouseName, w.ledger.rows[n].pricePerUnit)),
      World(Appended(w.ledger, MapPatchRequest(p)), w.stock))
  {
    LookupFindsRow(w.ledger, n);
  }

  /** Two stock rows have the original's key: the lookup's failure is passed on, after the ledger row was added. */
  lemma {:induction false} CorrectStockAmbiguous(w: World, p: PatchRequest, n: int, i: int, j: int)
    requires WorldValid(w) && 0 <= n < |w.ledger.rows| && w.ledger.rows[n].id == p.originalTransactionId
    requires 0 <= i < j < |w.stock.rows|
    requires KeyOf(w.stock.rows[i]) == TransactionKey(w.ledger.rows[n])
    requires KeyOf(w.stock.rows[j]) == TransactionKey(w.ledger.rows[n])
    ensures Correct(w, p).outcome ==
              Failed(StoreFailure(IncorrectResultSize(|Matching(w.stock.rows, TransactionKey(w.ledger.rows[n]))|)))
    ensures |Matching(w.stock.rows, TransactionKey(w.ledger.rows[n]))| >= 2
    ensures Correct(w, p).after == World(Appended(w.ledger, MapPatchRequest(p)), w.stock)
  {
    LookupFindsRow(w.ledger, n);
    FindByKeyDuplicate(w.stock.rows, TransactionKey(w.ledger.rows[n]), i, j);
  }

  // ---------------------------------------------------------------------------
  // Correction: the two branches

  /**
   * The stock row i is the only one with the original's key and its quantity is exactly the
   * original's: that row takes all five corrected values under its own id, no row is added,
   * every other row is unchanged.
   */
  lemma {:induction false} CorrectInPlace(w: World, p: PatchRequest, n: int, i: int)
    requires WorldValid(w) && 0 <= n < |w.ledger.rows| && w.ledger.rows[n].id == p.originalTransactionId
    requires 0 <= i < |w.stock.rows| && KeyOf(w.stock.rows[i]) == TransactionKey(w.ledger.rows[n])
    requires forall j :: 0 <= j < |w.stock.rows| && j != i ==> KeyOf(w.stock.rows[j]) != KeyOf(w.stock.rows[i])
    requires w.stock.rows[i].quantity - w.ledger.rows[n].quantity == 0.0
    ensures Correct(w, p).outcome == Done
    ensures Correct(w, p).after.stock ==
            StockTable(w.stock.rows[i := StockRow(w.stock.rows[i].id, MapPatchRequest(p))], w.stock.nextId)
    ensures TableValid(Correct(w, p).after.stock)
  {
    LookupFindsRow(w.ledger, n);
    FindByKeyExactlyOne(w.stock.rows, KeyOf(w.stock.rows[i]), i);
    var rows := w.stock.rows;
    var r := Relabel(rows, rows[i].id, MapPatchRequest(p));
    forall j | 0 <= j < |rows| && j != i ensures r[j] == rows[j] {
      if j < i { assert rows[j].id < rows[i].id; } else { assert rows[i].id < rows[j].id; }
    }
    assert r == rows[i := StockRow(rows[i].id, MapPatchRequest(p))];
  }

  /**
   * The stock row i is the only one with the original's key and holds more (or less) than the
   * original's quantity: a new row with the full corrected values is appended under the next id,
   * row i keeps everything but its quantity, which becomes stock minus original.
   */
  lemma {:induction false} CorrectSplit(w: World, p: PatchRequest, n: int, i: int)
    requires WorldValid(w) && 0 <= n < |w.ledger.rows| && w.ledger.rows[n].id == p.originalTransactionId
    requires 0 <= i < |w.stock.rows| && KeyOf(w.stock.rows[i]) == TransactionKey(w.ledger.rows[n])
    requires forall j :: 0 <= j < |w.stock.rows| && j != i ==> KeyOf(w.stock.rows[j]) != KeyOf(w.stock.rows[i])
    requires w.stock.rows[i].quantity - w.ledger.rows[n].quantity != 0.0
    ensures Correct(w, p).outcome == Done
    ensures Correct(w, p).after.stock == StockTable(
              w.stock.rows[i := w.stock.rows[i].(quantity := w.stock.rows[i].quantity - w.ledger.rows[n].quantity)]
                + [StockRow(w.stock.nextId, MapPatchRequest(p))],
              w.stock.nextId + 1)
    ensures TableValid(Correct(w, p).after.stock)
  {
    LookupFindsRow(w.ledger, n);
    FindByKeyExactlyOne(w.stock.rows, KeyOf(w.stock.rows[i]), i);
    var s := w.stock.rows[i];
    var t1 := Inserted(w.stock, MapPatchRequest(p));
    InsertedValid(w.stock, MapPatchRequest(p));
    UpdateChangesOneRow(t1, i, NewQuantity(s.quantity - w.ledger.rows[n].quantity));
    assert t1.rows[i] == s;
    UpdateValid(t1, s.id, NewQuantity(s.quantity - w.ledger.rows[n].quantity));
  }

  // ---------------------------------------------------------------------------
  // Correction and the uniqueness of the business key

  /**
   * In the in-place branch, starting from unique keys, the keys stay unique exactly when
   * no other row already holds the corrected key.
   */
  lemma {:induction false} CorrectInPlaceKeysUnique(w: World, p: PatchRequest, n: int, i: int)
    requires WorldValid(w) && KeysUnique(w.stock.rows)
    requires 0 <= n < |w.ledger.rows| && w.ledger.rows[n].id == p.originalTransactionId
    requires 0 <= i < |w.stock.rows| && KeyOf(w.stock.rows[i]) == TransactionKey(w.ledger.rows[n])
    requires w.stock.rows[i].quantity - w.ledger.rows[n].quantity == 0.0
    ensures KeysUnique(Correct(w, p).after.stock.rows) <==>
            forall j :: 0 <= j < |w.stock.rows| && j != i ==> KeyOf(w.stock.rows[j]) != DraftKey(MapPatchRequest(p))
  {
    var rows := w.stock.rows;
    forall j | 0 <= j < |rows| && j != i ensures KeyOf(rows[j]) != KeyOf(rows[i]) {
      if j < i { } else { }
    }
    CorrectInPlace(w, p, n, i);
    var r := Correct(w, p).after.stock.rows;
    var k := DraftKey(MapPatchRequest(p));
    assert KeyOf(r[i]) == k;
    if forall j :: 0 <= j < |rows| && j != i ==> KeyOf(rows[j]) != k {
      forall a, b | 0 <= a < b < |r| ensures KeyOf(r[a]) != KeyOf(r[b]) {
        if a != i && b != i { assert r[a] == rows[a] && r[b] == rows[b]; }
      }
    } else {
      var j :| 0 <= j < |rows| && j != i && KeyOf(rows[j]) == k;
      assert r[j] == rows[j];
      if j < i { assert KeyOf(r[j]) == KeyOf(r[i]); } else { assert KeyOf(r[i]) == KeyOf(r[j]); }
    }
  }

  /**
   * In the split branch, starting from unique keys, the keys stay unique exactly when no row
   * at all holds the corrected key before the call. In particular a correction that keeps the
   * original's item, warehouse and price always leaves two rows with that key.
   */
  lemma {:induction false} CorrectSplitKeysUnique(w: World, p: PatchRequest, n: int, i: int)
    requires WorldValid(w) && KeysUnique(w.stock.rows)
    requires 0 <= n < |w.ledger.rows| && w.ledger.rows[n].id == p.originalTransactionId
    requires 0 <= i < |w.stock.rows| && KeyOf(w.stock.rows[i]) == TransactionKey(w.ledger.rows[n])
    requires w.stock.rows[i].quantity - w.ledger.rows[n].quantity != 0.0
    ensures KeysUnique(Correct(w, p).after.stock.rows) <==> !HasKey(w.stock.rows, DraftKey(MapPatchRequest(p)))
  {
    var rows := w.stock.rows;
    forall j | 0 <= j < |rows| && j != i ensures KeyOf(rows[j]) != KeyOf(rows[i]) {
      if j < i { } else { }
    }
    CorrectSplit(w, p, n, i);
    var r := Correct(w, p).after.stock.rows;
    var k := DraftKey(MapPatchRequest(p));
    assert KeyOf(r[|rows|]) == k;
    assert forall j :: 0 <= j < |rows| ==> KeyOf(r[j]) == KeyOf(rows[j]);
    if HasKey(rows, k) {
      var j :| 0 <= j < |rows| && KeyOf(rows[j]) == k;
      assert KeyOf(r[j]) == KeyOf(r[|rows|]);
    } else {
      forall a, b | 0 <= a < b < |r| ensures KeyOf(r[a]) != KeyOf(r[b]) {
        if b < |rows| { assert KeyOf(rows[a]) != KeyOf(rows[b]); }
      }
    }
  }

  class TransactionService {
    const transactions: TransactionRepository
    const stocks: StockRepository

    ghost predicate Valid()
      reads transactions, stocks
    {
      transactions.Valid() && stocks.Valid()
    }

    function State(): World
      reads transactions, stocks
    {
      World(transactions.State(), stocks.State())
    }

    /** The two stores are passed in, as the service's constructor receives them. */
    constructor (transactionRepository: TransactionRepository, stockRepository: StockRepository)
      ensures transactions == transactionRepository && stocks == stockRepository
    {
      transactions := transactionRepository;
      stocks := stockRepository;
    }

    /** `addTransaction`: one ledger row, then the upsert, both with the request's five values. */
    method AddTransaction(request: PostRequest)
      requires Valid() && ValidPost(request)
      modifies transactions, stocks
      ensures Valid()
      ensures State() == Ingest(old(State()), request).after
    {
      var transaction := MapPostRequest(request);
      transactions.CreateTransaction(
        transaction.itemName, transaction.quantity, transaction.unit,
        transaction.pricePerUnit, transaction.warehouseName);
      stocks.UpsertStock(
        transaction.itemName, transaction.quantity, transaction.unit,
        transaction.pricePerUnit, transaction.warehouseName);
    }

    /** Steps 4 and 5 of `correctTransaction`: the remainder decides between the two branches. */
    method FixStock(stockEntryToFix: StockEntry, originalTransaction: Transaction, correctTransaction: Draft)
      requires Valid()
      modifies stocks
      ensures Valid()
      ensures stocks.State() == Rebuilt(old(stocks.State()), stockEntryToFix, originalTransaction, correctTransaction)
    {
      var newQuantity := stockEntryToFix.quantity - originalTransaction.quantity;
      if newQuantity == 0.0 {
        stocks.UpdateStockItemName(stockEntryToFix.id, correctTransaction.itemName);
        stocks.UpdateStockQuantity(stockEntryToFix.id, correctTransaction.quantity);
        stocks.UpdateStockUnit(stockEntryToFix.id, correctTransaction.unit);
        stocks.UpdateStockPricePerUnit(stockEntryToFix.id, correctTransaction.pricePerUnit);
        stocks.UpdateStockWarehouseName(stockEntryToFix.id, correctTransaction.warehouseName);
      } else {
        stocks.CreateStock(
          correctTransaction.itemName, correctTransaction.quantity, correctTransaction.unit,
          correctTransaction.pricePerUnit, correctTransaction.warehouseName);
        newQuantity := stockEntryToFix.quantity - originalTransaction.quantity;
        stocks.UpdateStockQuantity(stockEntryToFix.id, newQuantity);
      }
    }

    /** `correctTransaction`: the calls on the two stores in the service's order; a failure stops the sequence. */
    method CorrectTransaction(correction: PatchRequest) returns (outcome: Outcome)
      requires Valid() && ValidPatch(correction)
      modifies transactions, stocks
      ensures Valid()
      ensures Effect(outcome, State()) == Correct(old(State()), correction)
    {
      ghost var before := State();
      var originalTransactionId := correction.originalTransactionId;
      var correctTransaction := MapPatchRequest(correction);

      var found := transactions.GetById(originalTransactionId);
      if found.None? {
        assert Locate(before, correction) == Stopped(Effect(Failed(TransactionNotFound(originalTransactionId)), before));
        return Failed(TransactionNotFound(originalTransactionId));
      }
      var originalTransaction := found.value;
      transactions.CreateTransaction(
        correctTransaction.itemName, correctTransaction.quantity, correctTransaction.unit,
        correctTransaction.pricePerUnit, correctTransaction.warehouseName);
      ghost var ledger := Appended(before.ledger, correctTransaction);
      assert transactions.State() == ledger && stocks.State() == before.stock;

      var lookup := stocks.GetByCompositeKey(
        originalTransaction.itemName, originalTransaction.warehouseName, originalTransaction.pricePerUnit);
      if lookup.Err? {
        assert Locate(before, correction) == Stopped(Effect(Failed(StoreFailure(lookup.error)), State()));
        return Failed(StoreFailure(lookup.error));
      }
      if lookup.value.None? {
        assert Locate(before, correction) == Stopped(Effect(Failed(StockNotFound(
          originalTransaction.itemName, originalTransaction.warehouseName, originalTransaction.pricePerUnit)), State()));
        return Failed(StockNotFound(
          originalTransaction.itemName, originalTransaction.warehouseName, originalTransaction.pricePerUnit));
      }
      var stockEntryToFix := lookup.value.value;
      assert Locate(before, correction) == Located(ledger, originalTransaction, stockEntryToFix);

      ghost var stockBefore := stocks.State();
      FixStock(stockEntryToFix, originalTransaction, correctTransaction);
      assert Correct(before, correction) == Effect(Done, World(ledger, Rebuilt(stockBefore, stockEntryToFix, originalTransaction, correctTransaction)));
      outcome := Done;
    }
  }
}
