/**
 * The repository tests' scenarios, written against the store and service methods' contracts:
 * each method builds fresh stores, makes the same calls as the test and states what the test
 * reads back. The last one replays the split-lot correction through the service itself.
 */
module Scenarios {
  import opened Wrappers
  import opened Units
  import opened Records
  import opened Transactions
  import opened Stocks
  import opened Service
  import opened Merging

  /** A stock table holding one 50 kg lot of strawberries at 5.25 in LIDL under id 1. */
  method StrawberryLot() returns (stocks: StockRepository)
    ensures fresh(stocks) && stocks.Valid()
    ensures stocks.rows == [StockEntry(1, "Strawberry", 50.0, KG, 5.25, "LIDL")] && stocks.nextId == 2
  {
    stocks := new StockRepository();
    stocks.CreateStock("Strawberry", 50.0, KG, 5.25, "LIDL");
  }

  /** A created lot is found by its key with all five values. */
  method CreateThenGetScenario() returns (r: Result<Option<StockEntry>, StoreError>)
    ensures r == Ok(Some(StockEntry(1, "Strawberry", 50.0, KG, 5.25, "LIDL")))
  {
    var stocks := StrawberryLot();
    r := stocks.GetByCompositeKey("Strawberry", "LIDL", 5.25);
    FindByKeyExactlyOne(stocks.rows, StockKey("Strawberry", "LIDL", 5.25), 0);
  }

  /** After renaming, the lot is found under its new item name. */
  method UpdateItemNameScenario() returns (r: Result<Option<StockEntry>, StoreError>)
    ensures r == Ok(Some(StockEntry(1, "Blueberry", 50.0, KG, 5.25, "LIDL")))
  {
    var stocks := StrawberryLot();
    stocks.UpdateStockItemName(1, "Blueberry");
    assert stocks.rows == [StockEntry(1, "Blueberry", 50.0, KG, 5.25, "LIDL")];
    r := stocks.GetByCompositeKey("Blueberry", "LIDL", 5.25);
    FindByKeyExactlyOne(stocks.rows, StockKey("Blueberry", "LIDL", 5.25), 0);
  }

  /** After a quantity update, the lot found under the same key holds the new quantity. */
  method UpdateQuantityScenario() returns (r: Result<Option<StockEntry>, StoreError>)
    ensures r == Ok(Some(StockEntry(1, "Strawberry", 100.0, KG, 5.25, "LIDL")))
  {
    var stocks := StrawberryLot();
    stocks.UpdateStockQuantity(1, 100.0);
    assert stocks.rows == [StockEntry(1, "Strawberry", 100.0, KG, 5.25, "LIDL")];
    r := stocks.GetByCompositeKey("Strawberry", "LIDL", 5.25);
    FindByKeyExactlyOne(stocks.rows, StockKey("Strawberry", "LIDL", 5.25), 0);
  }

  /** After a unit update, the lot found under the same key is in pounds. */
  method UpdateUnitScenario() returns (r: Result<Option<StockEntry>, StoreError>)
    ensures r == Ok(Some(StockEntry(1, "Strawberry", 50.0, LB, 5.25, "LIDL")))
  {
    var stocks := StrawberryLot();
    stocks.UpdateStockUnit(1, LB);
    assert stocks.rows == [StockEntry(1, "Strawberry", 50.0, LB, 5.25, "LIDL")];
    r := stocks.GetByCompositeKey("Strawberry", "LIDL", 5.25);
    FindByKeyExactlyOne(stocks.rows, StockKey("Strawberry", "LIDL", 5.25), 0);
  }

  /** After a price update, the lot is found under its new price. */
  method UpdatePriceScenario() returns (r: Result<Option<StockEntry>, StoreError>)
    ensures r == Ok(Some(StockEntry(1, "Strawberry", 50.0, KG, 6.99, "LIDL")))
  {
    var stocks := StrawberryLot();
    stocks.UpdateStockPricePerUnit(1, 6.99);
    assert stocks.rows == [StockEntry(1, "Strawberry", 50.0, KG, 6.99, "LIDL")];
    r := stocks.GetByCompositeKey("Strawberry", "LIDL", 6.99);
    FindByKeyExactlyOne(stocks.rows, StockKey("Strawberry", "LIDL", 6.99), 0);
  }

  /** After a warehouse update, the lot is found in its new warehouse. */
  method UpdateWarehouseScenario() returns (r: Result<Option<StockEntry>, StoreError>)
    ensures r == Ok(Some(StockEntry(1, "Strawberry", 50.0, KG, 5.25, "KAUFLAND")))
  {
    var stocks := StrawberryLot();
    stocks.UpdateStockWarehouseName(1, "KAUFLAND");
    assert stocks.rows == [StockEntry(1, "Strawberry", 50.0, KG, 5.25, "KAUFLAND")];
    r := stocks.GetByCompositeKey("Strawberry", "KAUFLAND", 5.25);
    FindByKeyExactlyOne(stocks.rows, StockKey("Strawberry", "KAUFLAND", 5.25), 0);
  }

  /** Two upserts of 30 and 20 under one key leave one lot of 50 under the first id. */
  method UpsertTwiceScenario() returns (r: Result<Option<StockEntry>, StoreError>)
    ensures r == Ok(Some(StockEntry(1, "Strawberry", 50.0, KG, 5.25, "LIDL")))
  {
    var stocks := new StockRepository();
    stocks.UpsertStock("Strawberry", 30.0, KG, 5.25, "LIDL");
    stocks.UpsertStock("Strawberry", 20.0, KG, 5.25, "LIDL");
    UpsertTwiceSums(StockTable([], 1), Draft("Strawberry", 30.0, KG, 5.25, "LIDL"), Draft("Strawberry", 20.0, KG, 5.25, "LIDL"));
    r := stocks.GetByCompositeKey("Strawberry", "LIDL", 5.25);
  }

  /** A deleted lot is no longer found. */
  method DeleteScenario() returns (r: Result<Option<StockEntry>, StoreError>)
    ensures r == Ok(None)
  {
    var stocks := StrawberryLot();
    var entry := stocks.GetByCompositeKey("Strawberry", "LIDL", 5.25);
    FindByKeyExactlyOne(stocks.rows, StockKey("Strawberry", "LIDL", 5.25), 0);
    ghost var before := stocks.rows;
    stocks.DeleteStock(entry.value.value);
    r := stocks.GetByCompositeKey("Strawberry", "LIDL", 5.25);
    DeleteThenFind(before, entry.value.value);
  }

  /** A created transaction is read back under id 1 with all five values. */
  method CreateTransactionScenario() returns (r: Option<Transaction>)
    ensures r == Some(Transaction(1, "Onion", 50.0, KG, 3.2, "LIDL"))
  {
    var transactions := new TransactionRepository();
    transactions.CreateTransaction("Onion", 50.0, KG, 3.2, "LIDL");
    r := transactions.GetById(1);
  }

  /** Both tables empty, as the service starts. */
  function Empty(): World {
    World(Ledger([], 1), StockTable([], 1))
  }

  /** Receiving 50 kg and then 33 kg of one lot gives the two-receipt tables: one ledger row each, one stock row of 83 kg. */
  lemma TwoReceiptsIngested()
    ensures Ingest(Ingest(Empty(), PostRequest("Watermelon", 50.0, KG, 1.20, "LIDL")).after,
                   PostRequest("Watermelon", 33.0, KG, 1.20, "LIDL")).after == TwoReceipts()
  {
    var once := Ingest(Empty(), PostRequest("Watermelon", 50.0, KG, 1.20, "LIDL")).after;
    UpsertFresh(StockTable([], 1), Draft("Watermelon", 50.0, KG, 1.20, "LIDL"));
    assert once.stock == StockTable([StockEntry(1, "Watermelon", 50.0, KG, 1.20, "LIDL")], 2);
    UpsertExisting(once.stock, Draft("Watermelon", 33.0, KG, 1.20, "LIDL"), 0);
  }

  /** The service after two receipts of one lot: 50 kg, then 33 kg, of watermelon at 1.20 in LIDL. */
  method TwoReceiptsService() returns (service: TransactionService)
    ensures fresh(service) && fresh(service.transactions) && fresh(service.stocks)
    ensures service.Valid() && service.State() == TwoReceipts()
  {
    var transactions := new TransactionRepository();
    var stocks := new StockRepository();
    service := new TransactionService(transactions, stocks);
    assert service.State() == Empty();
    service.AddTransaction(PostRequest("Watermelon", 50.0, KG, 1.20, "LIDL"));
    service.AddTransaction(PostRequest("Watermelon", 33.0, KG, 1.20, "LIDL"));
    TwoReceiptsIngested();
  }

  /**
   * Two receipts of one lot through the service, then a correction of the first that only
   * changes its quantity, on the model's store, which does not enforce a unique index on the
   * key: the correction succeeds, after which the lot can no longer be looked up by its key and
   * the second receipt can no longer be corrected. Under the index the receipts need, the
   * correction's insert would be rejected instead (`Merging.QuantityCorrectionMeetsHeldKey`).
   */
  method SplitLotScenario() returns (first: Outcome, lookup: Result<Option<StockEntry>, StoreError>, second: Outcome)
    ensures first == Done
    ensures lookup == Err(IncorrectResultSize(2))
    ensures second == Failed(StoreFailure(IncorrectResultSize(2)))
  {
    var service := TwoReceiptsService();
    QuantityCorrectionDuplicatesKey();
    first := service.CorrectTransaction(ToForty());
    ghost var split := Correct(TwoReceipts(), ToForty()).after;
    assert service.State() == split;
    lookup := service.stocks.GetByCompositeKey("Watermelon", "LIDL", 1.20);
    second := service.CorrectTransaction(PatchRequest(2, "Watermelon", 30.0, KG, 1.20, "LIDL"));
  }

  /** Receiving 50 kg of a new lot gives one ledger row and one stock row, both under id 1. */
  lemma OneReceiptIngested()
    ensures Ingest(Empty(), PostRequest("Watermelon", 50.0, KG, 1.20, "LIDL")).after ==
            World(Ledger([Transaction(1, "Watermelon", 50.0, KG, 1.20, "LIDL")], 2),
                  StockTable([StockEntry(1, "Watermelon", 50.0, KG, 1.20, "LIDL")], 2))
  {
    UpsertFresh(StockTable([], 1), Draft("Watermelon", 50.0, KG, 1.20, "LIDL"));
  }

  /**
   * One receipt of 50 kg of watermelon at 1.20 in LIDL, corrected to 77 kg at 1.40: the lot held
   * only that receipt, so its row takes the corrected values under its own id and the ledger
   * keeps the original next to the correction.
   */
  lemma InPlaceCorrection()
    ensures Correct(Ingest(Empty(), PostRequest("Watermelon", 50.0, KG, 1.20, "LIDL")).after,
                    PatchRequest(1, "Watermelon", 77.0, KG, 1.40, "LIDL")) ==
            Effect(Done, World(
              Ledger([Transaction(1, "Watermelon", 50.0, KG, 1.20, "LIDL"), Transaction(2, "Watermelon", 77.0, KG, 1.40, "LIDL")], 3),
              StockTable([StockEntry(1, "Watermelon", 77.0, KG, 1.40, "LIDL")], 2)))
  {
    OneReceiptIngested();
    var w := World(Ledger([Transaction(1, "Watermelon", 50.0, KG, 1.20, "LIDL")], 2),
                   StockTable([StockEntry(1, "Watermelon", 50.0, KG, 1.20, "LIDL")], 2));
    CorrectInPlace(w, PatchRequest(1, "Watermelon", 77.0, KG, 1.40, "LIDL"), 0, 0);
    CorrectAppendsOnce(w, PatchRequest(1, "Watermelon", 77.0, KG, 1.40, "LIDL"), 0);
  }

  /** The same receipt and correction through the service's methods. */
  method InPlaceCorrectionScenario() returns (outcome: Outcome, stock: seq<StockEntry>, ledger: seq<Transaction>)
    ensures outcome == Done
    ensures stock == [StockEntry(1, "Watermelon", 77.0, KG, 1.40, "LIDL")]
    ensures ledger == [Transaction(1, "Watermelon", 50.0, KG, 1.20, "LIDL"), Transaction(2, "Watermelon", 77.0, KG, 1.40, "LIDL")]
  {
    var transactions := new TransactionRepository();
    var stocks := new StockRepository();
    var service := new TransactionService(transactions, stocks);
    assert service.State() == Empty();
    service.AddTransaction(PostRequest("Watermelon", 50.0, KG, 1.20, "LIDL"));
    InPlaceCorrection();
    outcome := service.CorrectTransaction(PatchRequest(1, "Watermelon", 77.0, KG, 1.40, "LIDL"));
    stock := stocks.GetAll();
    ledger := transactions.rows;
  }
}
