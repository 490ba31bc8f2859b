# Inventory ledger and stock reconciliation, modelled in Dafny

This project models the core of `inventory-management`, a Spring service over two database
tables:

- an append-only **ledger** of receipt transactions (item, quantity, unit, price per unit,
  warehouse, and an id assigned by the store);
- a **stock** table with one row per lot. A lot's business key is the triple
  (item name, warehouse name, price per unit).

It offers two operations:

- **Receiving** (`addTransaction`) appends a ledger row. It then *upserts* the stock: the quantity
  is added to the lot with the same key, or a new lot is created.
- **Correcting** (`correctTransaction`) runs these steps, stopping at the first failure:
  1. Find the original transaction.
  2. Append the corrected values to the ledger.
  3. Find the original's lot.
  4. If the original was that lot's whole quantity, relabel the lot in place with the corrected
     values.
  5. Otherwise, create a new lot with the corrected values and shrink the old lot by the
     original's quantity.

The model follows the source's shape:

- `TransactionRepository` and `StockRepository` are classes whose fields are the table's rows and
  the next id to hand out.
- Each repository method (one SQL statement in the source) is a method. Its `ensures` gives the
  new state as a function of the old one.
- `TransactionService` is a class that holds the two repositories. Its methods make the same
  calls, in the same order, as the Java service. Each method is proved equal to a pure
  specification function (`Ingest`, `Correct`).
- Lemmas about those functions state what the operations promise:
  - round trips: create, then find;
  - the three failure paths of a correction;
  - the in-place and split outcomes;
  - uniqueness of the business key;
  - conservation of the per-key totals.
- `Unit` is a datatype with the two pure functions `Value` and `FromValue`.

Files:

- `wrappers.dfy`: `Option` and `Result`.
- `units.dfy`: `Unit.java`.
- `records.dfy`: the transaction and stock rows, the five-field value a service maps a request to,
  and the business key.
- `transactions.dfy`: `TransactionRepository.java`.
- `stocks.dfy`: `StockRepository.java`.
- `totals.dfy`: the total quantity booked under a key, a measure used to state conservation.
- `service.dfy`: `TransactionService.java`.
- `merging.dfy`: a correction that merges the corrected lot into the stock (see Findings), and a
  concrete correction that duplicates a key.
- `scenarios.dfy`: the repository tests' scenarios, and two service scenarios, written against
  the method contracts.

Modelling decisions:

- Quantities and prices are `real`.
- Failures the Java code throws become values:
  - `TransactionNotFound` and `StockNotFound`;
  - `StoreFailure(IncorrectResultSize(n))`, for the exception JdbcClient's `.optional()` raises
    when more than one row matches a key.
- Whatever a failing correction has already written stays written, because the source has no
  rollback.
- The stock table is a plain table: nothing in the model stops two rows from sharing a key.
  Under that table:
  - `deleteStock` removes every row with the entry's key;
  - `upsertStock` adds the quantity to every row with the key;
  - `upsertStock` uses up one id even on a conflict, because PostgreSQL evaluates the identity
    default before it detects the conflict.

Two points about the code that the model keeps as written:

- The in-place branch of `correctTransaction` issues all five field updates unconditionally,
  whether or not a field's value changes (TransactionService.java:69-74). `Relabel` makes the
  five calls in the code's order.
- The code does not keep the business key unique. `createStock` inserts without looking for a
  row with the same key (StockRepository.java:46-59), and the split branch of
  `correctTransaction` calls it with the corrected values whatever key they carry
  (TransactionService.java:76-81). When the correction keeps item, warehouse and price, that key
  is the original lot's own (see Findings). What then happens depends on the schema, which is not
  part of this model:
  - with a unique index on the key, which `upsertStock`'s `ON CONFLICT` clause needs and which
    receipts through `addTransaction` therefore need, the insert is rejected with a constraint
    violation. The corrected ledger row has already been appended by then, so the ledger and the
    stock disagree and the caller gets an exception;
  - without that index every `upsertStock` fails, so the lot can only have been written by direct
    SQL, as TransactionControllerIT.java:74-86 seeds its tables. There the insert succeeds and a
    second row with that key is created.

  The model's stock table does not enforce the index: its upsert merges as under the index, and
  its `createStock` appends whatever the key. Its outcome after such a correction is therefore
  the second of the two above.

## Model

| member | source | states |
|---|---|---|
| Units.Value | src/main/java/com/inventory/model/Unit.java:4-15 | `getValue` names KG "KG" and LB "LB", and no other string |
| Units.FirstMatch | src/main/java/com/inventory/model/Unit.java:18-22 | the loop over the constants returns a constant whose name matches the input ignoring case, and returns nothing exactly when no constant matches |
| Units.FromValue | src/main/java/com/inventory/model/Unit.java:17-24 | `fromValue` returns a unit whose name matches ignoring case; it fails with `UnknownUnit(s)` exactly when neither "KG" nor "LB" matches |
| Units.EqualsIgnoreCase | src/main/java/com/inventory/model/Unit.java:19 | definition of the case-insensitive comparison `equalsIgnoreCase`, folding ASCII letters only; what it implies for parsing is proved in `Units.FromValueNamesUnit` and `Units.FromValueCaseInsensitive` |
| Units.ValuesDistinctIgnoringCase | src/main/java/com/inventory/model/Unit.java:4-5 | no string matches both names, so the loop's order cannot change its answer |
| Units.FromValueRoundTrip | src/main/java/com/inventory/model/Unit.java:13-24 | `fromValue(getValue(u)) == u` for both units |
| Units.FromValueNamesUnit | src/main/java/com/inventory/model/Unit.java:17-24 | `fromValue(s)` is unit u exactly when s equals u's name ignoring case |
| Units.FromValueIgnoresCase | src/main/java/com/inventory/model/Unit.java:19 | "kg" parses to KG and "Lb" to LB; "KILO" is rejected |
| Units.FromValueCaseInsensitive | src/main/java/com/inventory/model/Unit.java:17-24 | two strings equal ignoring case parse to the same result |
| Transactions.LookupId | src/main/java/com/inventory/repository/TransactionRepository.java:23-34 | the lookup by id returns a row of the table with that id, and returns nothing exactly when no row has it |
| Transactions.Appended | src/main/java/com/inventory/repository/TransactionRepository.java:36-50 | an insert keeps every existing row, adds exactly one, and advances the id sequence |
| Transactions.AppendedValid | src/main/java/com/inventory/repository/TransactionRepository.java:36-50 | inserting keeps the ids store-assigned: positive, increasing, below the next id |
| Transactions.LookupFindsRow | src/main/java/com/inventory/repository/TransactionRepository.java:23-34 | with store-assigned ids, looking up any row's id returns that row |
| Transactions.LookupConcat | src/main/java/com/inventory/repository/TransactionRepository.java:23-34 | a lookup in a table with one more row finds what it found before, or else the new row when its id matches |
| Transactions.CreateThenGet | src/test/java/com/inventory/repository/TransactionRepositoryTest.java:56-78 | after an insert, the new id reads back exactly the five inserted values, and every older id reads back what it did before |
| Transactions.TransactionRepository.GetById | src/main/java/com/inventory/repository/TransactionRepository.java:23-34 | returns the row with the id or nothing, and does not change the table |
| Transactions.TransactionRepository.CreateTransaction | src/main/java/com/inventory/repository/TransactionRepository.java:36-50 | appends one row with the next id and the five values; the ids stay store-assigned |
| Stocks.Matching | src/main/java/com/inventory/repository/StockRepository.java:35-42 | the rows the WHERE clause selects are exactly the rows with the key |
| Stocks.FindByKey | src/main/java/com/inventory/repository/StockRepository.java:32-44 | `getByCompositeKey` returns nothing exactly when no row has the key; a returned row has the key and is the only row with it; a failure reports the number of matching rows, which is at least 2 (that one row with the key gives `Ok(Some(row))` is `Stocks.FindByKeyExactlyOne`, that two give a failure is `Stocks.FindByKeyDuplicate`) |
| Stocks.MatchingSingle | src/main/java/com/inventory/repository/StockRepository.java:35-42 | when one row has the key, the query selects just that row |
| Stocks.MatchingMany | src/main/java/com/inventory/repository/StockRepository.java:35-42 | when two rows have the key, the query selects at least two |
| Stocks.FindByKeyExactlyOne | src/main/java/com/inventory/repository/StockRepository.java:32-44 | the one row with the key is what the lookup returns |
| Stocks.FindByKeyDuplicate | src/main/java/com/inventory/repository/StockRepository.java:32-44 | two rows with one key make the lookup fail |
| Stocks.FindByKeyUnique | src/main/java/com/inventory/repository/StockRepository.java:32-44 | with unique keys the lookup never fails, and every row is found by its own key |
| Stocks.Assign | src/main/java/com/inventory/repository/StockRepository.java:61-124 | a single-column update keeps the row's id; updating the quantity or the unit keeps its key |
| Stocks.UpdateById | src/main/java/com/inventory/repository/StockRepository.java:61-124 | definition of `UPDATE … WHERE id = :id` on the rows; promises proved in `Stocks.UpdateChangesOneRow`, `Stocks.UpdateThenFind`, `Stocks.UpdateValid`, `Totals.TotalReplace` |
| Stocks.WithoutKey | src/main/java/com/inventory/repository/StockRepository.java:126-137 | the delete keeps exactly the rows with another key; the model keeps them in id order (`Stocks.DeleteKeepsIdsIncreasing`) |
| Stocks.AddQuantity | src/main/java/com/inventory/repository/StockRepository.java:145-146 | definition of the `DO UPDATE` arm of the upsert on the rows; promises proved in `Stocks.UpsertExisting`, `Totals.UpsertedTotal` |
| Stocks.Inserted | src/main/java/com/inventory/repository/StockRepository.java:46-59 | definition of `createStock` on the table: one row appended under the next id; promises proved in `Stocks.InsertedValid`, `Stocks.CreateThenFind`, `Stocks.CreateDuplicatesKey` |
| Stocks.InsertedValid | src/main/java/com/inventory/repository/StockRepository.java:46-59 | inserting keeps the ids store-assigned |
| Stocks.CreateThenFind | src/main/java/com/inventory/repository/StockRepository.java:46-59 | creating a lot under a fresh key makes the lookup return it with the new id |
| Stocks.CreateDuplicatesKey | src/main/java/com/inventory/repository/StockRepository.java:46-59 | creating a lot under a key already held leaves two rows with that key and makes the lookup fail |
| Stocks.UpdateValid | src/main/java/com/inventory/repository/StockRepository.java:61-124 | updates keep the ids store-assigned |
| Stocks.UpdateChangesOneRow | src/main/java/com/inventory/repository/StockRepository.java:61-124 | with store-assigned ids, an update by a row's id changes that row alone |
| Stocks.UpdateThenFind | src/main/java/com/inventory/repository/StockRepository.java:61-124 | after an update the row is found under its new key, provided no other row holds that key |
| Stocks.DeleteKeepsKeysUnique | src/main/java/com/inventory/repository/StockRepository.java:126-137 | deleting keeps the keys unique |
| Stocks.DeleteKeepsIdsIncreasing | src/main/java/com/inventory/repository/StockRepository.java:126-137 | the rows a delete keeps stay in id order |
| Stocks.DeleteValid | src/main/java/com/inventory/repository/StockRepository.java:126-137 | deleting keeps the ids store-assigned |
| Stocks.DeleteThenFind | src/main/java/com/inventory/repository/StockRepository.java:126-137 | after deleting an entry, nothing is found under its key |
| Stocks.Upserted | src/main/java/com/inventory/repository/StockRepository.java:139-154 | definition of `upsertStock` on the table: add to every row with the key, otherwise insert, and consume an id either way; promises proved in `Stocks.UpsertedValid`, `Stocks.UpsertExisting`, `Stocks.UpsertFresh`, `Stocks.UpsertKeepsKeysUnique`, `Totals.UpsertedTotal` |
| Stocks.UpsertedValid | src/main/java/com/inventory/repository/StockRepository.java:139-154 | upserting keeps the ids store-assigned |
| Stocks.UpsertExisting | src/main/java/com/inventory/repository/StockRepository.java:145-146 | upserting into the one row with the key adds the quantity to that row, changes nothing else, and uses up an id |
| Stocks.UpsertFresh | src/main/java/com/inventory/repository/StockRepository.java:142-144 | upserting under a fresh key appends one row with the next id |
| Stocks.UpsertKeepsKeysUnique | src/main/java/com/inventory/repository/StockRepository.java:139-154 | upserting keeps the keys unique |
| Stocks.UpsertTwiceSums | src/test/java/com/inventory/repository/StockRepositoryTest.java:135-142 | two upserts under a fresh key leave one lot holding the sum, under the first id |
| Stocks.StockRepository.GetAll | src/main/java/com/inventory/repository/StockRepository.java:24-30 | returns every row of the table, and changes nothing |
| Stocks.StockRepository.GetByCompositeKey | src/main/java/com/inventory/repository/StockRepository.java:32-44 | returns the lookup's result as `FindByKey` characterises it |
| Stocks.StockRepository.CreateStock | src/main/java/com/inventory/repository/StockRepository.java:46-59 | appends one row with the next id, without an existence check |
| Stocks.StockRepository.UpdateStockItemName | src/main/java/com/inventory/repository/StockRepository.java:61-72 | sets the item name of the rows with the id, and nothing else |
| Stocks.StockRepository.UpdateStockQuantity | src/main/java/com/inventory/repository/StockRepository.java:74-85 | sets the quantity of the rows with the id, and nothing else |
| Stocks.StockRepository.UpdateStockUnit | src/main/java/com/inventory/repository/StockRepository.java:87-98 | sets the unit of the rows with the id, and nothing else |
| Stocks.StockRepository.UpdateStockPricePerUnit | src/main/java/com/inventory/repository/StockRepository.java:100-111 | sets the price of the rows with the id, and nothing else |
| Stocks.StockRepository.UpdateStockWarehouseName | src/main/java/com/inventory/repository/StockRepository.java:113-124 | sets the warehouse of the rows with the id, and nothing else |
| Stocks.StockRepository.DeleteStock | src/main/java/com/inventory/repository/StockRepository.java:126-137 | removes every row with the entry's key, whatever its id |
| Stocks.StockRepository.UpsertStock | src/main/java/com/inventory/repository/StockRepository.java:139-154 | adds to the lot with the key, or appends a new lot; uses up one id either way |
| Totals.TotalAppend | src/main/java/com/inventory/repository/StockRepository.java:46-59 | a created row adds its quantity to its own key's total only |
| Totals.TotalReplace | src/main/java/com/inventory/repository/StockRepository.java:61-124 | replacing a row moves its old quantity out of its old key and its new quantity into its new key |
| Totals.TotalWithoutKey | src/main/java/com/inventory/repository/StockRepository.java:126-137 | a delete zeroes the key's total and leaves every other total alone |
| Totals.TotalAbsent | src/main/java/com/inventory/repository/StockRepository.java:32-44 | a key no row holds totals zero |
| Totals.TotalUnique | src/main/java/com/inventory/repository/StockRepository.java:32-44 | with unique keys, a key's total is its one row's quantity |
| Totals.UpsertedTotal | src/main/java/com/inventory/repository/StockRepository.java:139-154 | with unique keys, an upsert adds its quantity to its key's total and to no other |
| Service.MapPostRequest | src/main/java/com/inventory/service/TransactionService.java:87-96 | the mapped value carries the request's five fields unchanged; the request is rebuilt from it |
| Service.MapPatchRequest | src/main/java/com/inventory/service/TransactionService.java:98-107 | the mapped value carries the correction's five fields; with the original id, the request is rebuilt from it |
| Service.Ingest | src/main/java/com/inventory/service/TransactionService.java:33-47 | definition of `addTransaction` on the two tables; promises proved in `Service.IngestEffect`, `Service.IngestTwiceSums` |
| Service.Locate | src/main/java/com/inventory/service/TransactionService.java:50-66 | definition of steps 1 to 3 of `correctTransaction` (find the original, append the correction, look up the lot); promises proved in `Service.CorrectMissingTransaction`, `Service.CorrectAppendsOnce`, `Service.CorrectStockMissing`, `Service.CorrectStockAmbiguous` |
| Service.Split | src/main/java/com/inventory/service/TransactionService.java:75-84 | definition of the split branch: insert the corrected values, then set the lot to the remainder; promises proved in `Service.CorrectSplit`, `Service.CorrectSplitKeysUnique`, `Merging.RebuiltTotals` |
| Service.Rebuilt | src/main/java/com/inventory/service/TransactionService.java:68-84 | definition of the branch on the remainder; promises proved in `Service.CorrectInPlace`, `Service.CorrectSplit`, `Merging.RebuiltTotals` |
| Service.Correct | src/main/java/com/inventory/service/TransactionService.java:49-85 | definition of `correctTransaction` as written; promises proved in the `Service.Correct*` lemmas and `Merging.CorrectConservesTotals` |
| Service.Relabel | src/main/java/com/inventory/service/TransactionService.java:69-74 | the five updates together give the rows with the id exactly the corrected values under that id; all other rows are unchanged |
| Service.IngestEffect | src/main/java/com/inventory/service/TransactionService.java:33-47 | a receipt appends one ledger row with the request's values, keeps both tables' ids store-assigned, and keeps stock keys unique |
| Service.IngestTwiceSums | src/main/java/com/inventory/service/TransactionService.java:33-47 | two receipts of one new lot add two ledger rows and leave one lot holding the sum |
| Service.CorrectMissingTransaction | src/main/java/com/inventory/service/TransactionService.java:53-55 | a correction fails with `TransactionNotFound` exactly when no ledger row has the id, and then writes nothing |
| Service.CorrectAppendsOnce | src/main/java/com/inventory/service/TransactionService.java:56-61 | once the original is found, the ledger gains exactly the corrected row and the original row is unchanged |
| Service.CorrectStockMissing | src/main/java/com/inventory/service/TransactionService.java:63-66 | no lot under the original's key: `StockNotFound` with that key, the corrected ledger row stays, the stock is unchanged |
| Service.CorrectStockAmbiguous | src/main/java/com/inventory/service/TransactionService.java:63-66 | two lots under the original's key: the correction fails with the lookup's own error, a result size equal to the number of matching rows (at least 2); the corrected ledger row stays and the stock is unchanged |
| Service.CorrectInPlace | src/main/java/com/inventory/service/TransactionService.java:68-74 | when the lot held exactly the original's quantity, it takes the corrected values under its own id and no row is added |
| Service.CorrectSplit | src/main/java/com/inventory/service/TransactionService.java:75-84 | otherwise the lot keeps everything but its quantity, which becomes the lot minus the original; a row with the full corrected values is appended under the next id |
| Service.CorrectInPlaceKeysUnique | src/main/java/com/inventory/service/TransactionService.java:68-74 | from unique keys, the in-place branch keeps them unique exactly when no other lot holds the corrected key |
| Service.CorrectSplitKeysUnique | src/main/java/com/inventory/service/TransactionService.java:75-84 | from unique keys, the split branch keeps them unique exactly when no lot at all, the original's included, holds the corrected key |
| Service.TransactionService.AddTransaction | src/main/java/com/inventory/service/TransactionService.java:33-47 | the two store calls leave the tables as `Ingest` describes |
| Service.TransactionService.FixStock | src/main/java/com/inventory/service/TransactionService.java:68-84 | the branch on the remainder leaves the stock as `Rebuilt` describes |
| Service.TransactionService.CorrectTransaction | src/main/java/com/inventory/service/TransactionService.java:49-85 | the outcome and both tables are as `Correct` describes, on every path, failures included |
| Merging.Rebooked | src/main/java/com/inventory/service/TransactionService.java:68-84 | definition of the corrected steps 4 and 5 (drop or relabel the lot when nothing remains, otherwise shrink it; upsert the corrected values); promises proved in `Merging.RebookedKeepsKeysUnique`, `Merging.RebookedTotals`, `Merging.RebookedAgrees` |
| Merging.CorrectMerging | src/main/java/com/inventory/service/TransactionService.java:49-85 | definition of the corrected `correctTransaction`; promises proved in `Merging.CorrectMergingKeepsKeysUnique`, `Merging.CorrectMergingConservesTotals`, `Merging.CorrectMergingAgrees` |
| Merging.QuantityUpdateKeepsKeysUnique | src/main/java/com/inventory/repository/StockRepository.java:74-85 | a quantity update keeps the keys unique |
| Merging.RebuiltTotals | src/main/java/com/inventory/service/TransactionService.java:68-84 | the service's steps 4 and 5 take the original's quantity out of its key's total and put the corrected quantity into the corrected key's total; every other total is unchanged |
| Merging.CorrectConservesTotals | src/main/java/com/inventory/service/TransactionService.java:49-85 | the same, for a whole correction that finds its lot |
| Merging.QuantityCorrectionSplits | src/main/java/com/inventory/service/TransactionService.java:75-84 | on the model's store, a ledger of 50 and 33 in one lot of 83, first corrected to 40 with the same key: the lot splits into 33 under id 1 and 40 under id 3, as on a table without the unique index |
| Merging.QuantityCorrectionMeetsHeldKey | src/main/java/com/inventory/service/TransactionService.java:56-84 | in the two-receipt example, the corrected ledger row 3 is appended and the split branch is taken with a key the table already holds, so a unique index on the key would reject the `createStock` call |
| Merging.SplitLotLookupFails | src/main/java/com/inventory/repository/StockRepository.java:32-44 | with that lot split over two rows, the lookup by its key fails with a result size of 2 |
| Merging.QuantityCorrectionDuplicatesKey | src/main/java/com/inventory/service/TransactionService.java:75-84 | on the model's store, which does not enforce the unique index, the split leaves two rows with one key; the lookup then fails, and correcting the second receipt fails too; the merged correction leaves one lot of 73 |
| Merging.DeleteThenUpsertKeepsKeysUnique | src/main/java/com/inventory/repository/StockRepository.java:126-154 | a delete followed by an upsert keeps the keys unique |
| Merging.ShrinkThenUpsertKeepsKeysUnique | src/main/java/com/inventory/repository/StockRepository.java:74-154 | a quantity update followed by an upsert keeps the keys unique |
| Merging.RelabelKeepsKeysUnique | src/main/java/com/inventory/service/TransactionService.java:69-74 | relabelling a lot keeps the keys unique when no other lot holds the new key |
| Merging.RebookedKeepsKeysUnique | src/main/java/com/inventory/service/TransactionService.java:68-84 | the merged steps 4 and 5 keep the ids store-assigned and the keys unique, whatever the corrected key |
| Merging.DeleteThenUpsertTotals | src/main/java/com/inventory/repository/StockRepository.java:126-154 | dropping a lot and upserting into another key moves that lot's quantity out and the upserted quantity in |
| Merging.ShrinkThenUpsertTotals | src/main/java/com/inventory/repository/StockRepository.java:74-154 | shrinking a lot and upserting moves the difference out and the upserted quantity in |
| Merging.RelabelTotals | src/main/java/com/inventory/service/TransactionService.java:69-74 | relabelling a lot moves its quantity out of its old key and the new quantity into the new key |
| Merging.RebookedTotals | src/main/java/com/inventory/service/TransactionService.java:68-84 | the merged steps move the same quantities between keys as the service's steps |
| Merging.RebookedAgrees | src/main/java/com/inventory/service/TransactionService.java:68-84 | from unique keys, the merged steps equal the service's steps exactly when the service's steps keep the keys unique |
| Merging.CorrectMergingKeepsKeysUnique | src/main/java/com/inventory/service/TransactionService.java:49-85 | the merged correction never leaves two lots with one key |
| Merging.CorrectMergingConservesTotals | src/main/java/com/inventory/service/TransactionService.java:49-85 | a merged correction that finds its lot moves exactly the original's and the corrected quantities |
| Merging.CorrectMergingAgrees | src/main/java/com/inventory/service/TransactionService.java:49-85 | from unique keys, the merged correction equals the service's exactly when the service's keeps the keys unique |
| Merging.QuantityCorrectionMerges | src/main/java/com/inventory/service/TransactionService.java:75-84 | in the two-receipt example, the merged correction leaves one lot of 73 under id 1 |
| Scenarios.StrawberryLot | src/test/java/com/inventory/repository/StockRepositoryTest.java:62-64 | creating one lot in an empty table gives it id 1 |
| Scenarios.CreateThenGetScenario | src/test/java/com/inventory/repository/StockRepositoryTest.java:62-75 | a created lot is found by its key with its five values |
| Scenarios.UpdateItemNameScenario | src/test/java/com/inventory/repository/StockRepositoryTest.java:77-87 | after renaming, the lot is found under the new name |
| Scenarios.UpdateQuantityScenario | src/test/java/com/inventory/repository/StockRepositoryTest.java:89-98 | after a quantity update, the lot is found with the new quantity |
| Scenarios.UpdateUnitScenario | src/test/java/com/inventory/repository/StockRepositoryTest.java:100-109 | after a unit update, the lot is found in pounds |
| Scenarios.UpdatePriceScenario | src/test/java/com/inventory/repository/StockRepositoryTest.java:111-121 | after a price update, the lot is found under the new price |
| Scenarios.UpdateWarehouseScenario | src/test/java/com/inventory/repository/StockRepositoryTest.java:123-133 | after a warehouse update, the lot is found in the new warehouse |
| Scenarios.UpsertTwiceScenario | src/test/java/com/inventory/repository/StockRepositoryTest.java:135-142 | upserts of 30 and 20 leave one lot of 50 under id 1 |
| Scenarios.DeleteScenario | src/test/java/com/inventory/repository/StockRepositoryTest.java:144-153 | a deleted lot is no longer found |
| Scenarios.CreateTransactionScenario | src/test/java/com/inventory/repository/TransactionRepositoryTest.java:56-78 | a created transaction reads back under id 1 with its five values |
| Scenarios.TwoReceiptsIngested | src/main/java/com/inventory/service/TransactionService.java:33-47 | receipts of 50 and 33 in one lot give two ledger rows and one lot of 83 |
| Scenarios.TwoReceiptsService | src/main/java/com/inventory/service/TransactionService.java:33-47 | the service's methods reach the same tables |
| Scenarios.SplitLotScenario | src/main/java/com/inventory/service/TransactionService.java:49-85 | the service's calls on the model's store, which does not enforce a unique index: the quantity-only correction succeeds, then the lot's lookup fails and the second receipt can no longer be corrected; in PostgreSQL the same tables reached through receipts make the correction fail instead (`Merging.QuantityCorrectionMeetsHeldKey`) |
| Scenarios.OneReceiptIngested | src/main/java/com/inventory/service/TransactionService.java:33-47 | one receipt of 50 into empty tables gives one ledger row and one lot, both under id 1 |
| Scenarios.InPlaceCorrection | src/main/java/com/inventory/service/TransactionService.java:68-74 | one receipt of 50 corrected to 77 at 1.40: the lot takes the corrected values under id 1, and the ledger holds the original and the correction |
| Scenarios.InPlaceCorrectionScenario | src/main/java/com/inventory/service/TransactionService.java:49-85 | the same, through the service's methods |

## Left out

- The HTTP layer is not modelled:
  - the controller and its batch loop over requests (`TransactionController.java`);
  - the exception-to-status mapping (`GlobalExceptionHandler.java`);
  - bean validation of the request bodies.
- The service methods instead require `ValidPost` or `ValidPatch`: the constraints that validation
  enforces before the service runs.
- Logging, SQL text, JdbcClient's row mapping and the connection are not modelled. Each statement
  is modelled by the table operation it performs.
- Storage failures other than a lookup matching several rows are not modelled. This includes a
  lost connection and constraint violations.
- Concurrency and transaction isolation are not modelled. Every call runs alone, and nothing is
  rolled back.
- IEEE doubles are not modelled: quantities and prices are exact reals. Sums in `upsertStock`,
  the remainder in `correctTransaction` and every stored quantity derived from them may differ
  from their double values by rounding, which the model does not capture.
- Service.Rebuilt: the test for a zero remainder is made on exact reals. Once a lot's quantity
  comes from earlier rounded sums or differences, the source's double test can take the other
  branch. For example, receipts of 0.3 and 0.1 give a lot of 0.4. Correcting the 0.1 receipt to
  another key leaves 0.30000000000000004 in doubles but 0.3 here. A later correction of the 0.3
  receipt then takes the split branch in the source and the in-place branch in the model.
- Stocks.StockRepository.GetAll: row order is not modelled. The model returns the rows in id
  order, but `SELECT * FROM stocks` has no `ORDER BY`, so the database may return them in any
  order. No operation of the core depends on that order.
- The controller integration test's JSON payloads are not part of this model. Its correction
  scenarios are therefore not restated; the Watermelon in-place case is covered by
  `Scenarios.InPlaceCorrection`.
- Stocks.StockRepository.UpsertStock: behaves as under the unique index on (item name,
  warehouse name, price per unit) that its `ON CONFLICT` clause requires. On a table without that
  index PostgreSQL rejects the statement on every call, which the model does not capture. On a
  table that already holds duplicates, the model adds the quantity to every row with the key;
  that state cannot arise under the index.
- Stocks.StockRepository.CreateStock: the unique index's rejection of an insert whose key is
  already held is not modelled; the model appends the row, as a table without the index does. A
  correction whose split branch meets a held key would, under the index, fail with a constraint
  violation after its ledger row was appended. The model marks that point
  (`Service.CorrectSplitKeysUnique`, `Merging.QuantityCorrectionMeetsHeldKey`) but does not model
  the rejection itself.
- Units.FromValue: case folding is ASCII only. Java's `equalsIgnoreCase` also folds a few
  non-ASCII characters, for example the Kelvin sign, which it matches to `K`.
- Transactions.TransactionRepository.GetById: a null id is not modelled. Ids are integers, and the
  patch body's id is validated as positive.
- Service.TransactionService.FixStock: this is a helper that groups steps 4 and 5 of
  `correctTransaction`. The Java method inlines them. The calls and their order are the
  source's.

## Findings

| source | as written | input that shows it | evidently intended | confidence | as-written member | corrected member |
|---|---|---|---|---|---|---|
| src/main/java/com/inventory/service/TransactionService.java:75-84 | when the lot held more than the original, `createStock` is called with the corrected values whatever their key, even when it is the original lot's own or another lot's. With the unique index on the key that `upsertStock`'s `ON CONFLICT` needs, the insert is rejected after the corrected ledger row has been appended. On a table without that index, whose lots can only have been written by direct SQL, it creates a second row with that key | a ledger with transactions 1 (50 kg) and 2 (33 kg) of Watermelon at 1.20 in LIDL and one lot of 83 kg under id 1, then transaction 1 corrected to 40 kg with the same item, price and warehouse. With the index, where these tables come from two receipts: ledger row 3 is kept, the stock stays at 83 and the call fails with a constraint violation. Without the index, where these tables were seeded by direct SQL: two rows of 33 and 40 share one key, `getByCompositeKey` on that key then fails, and so does every later correction of a receipt in that lot | the corrected quantity is merged into the lot that holds its key (as `upsertStock` does on receipt), so one lot per key remains, the stock agrees with the ledger and later lookups succeed | medium (a collision with an unrelated lot's key could be a deliberate simplification; splitting a single lot into two rows with one key makes the lot impossible to look up, which nothing else in the code accounts for); not executed | Merging.QuantityCorrectionDuplicatesKey | Merging.CorrectMergingKeepsKeysUnique |

Both halves are in `merging.dfy`.

The as-written side:

- `Service.Correct` models the service as written.
- `Merging.QuantityCorrectionMeetsHeldKey` shows that on the input above the ledger row is
  already appended when `createStock` is called with a held key. That call is the one the unique
  index rejects, and this is the outcome the code reaches when the tables come from receipts.
- `Merging.QuantityCorrectionDuplicatesKey` shows the two rows, the failed lookup and the failed
  second correction on the same tables. That is the outcome on a table without the index, whose
  lots were written by direct SQL, and it is the outcome of the model's store.
- `Service.CorrectSplitKeysUnique` and `Service.CorrectInPlaceKeysUnique` characterise exactly
  when the service breaks key uniqueness.

The corrected side is `Merging.CorrectMerging`:

- It keeps steps 1 to 3.
- If the remainder is zero and another lot holds the corrected key, it drops the original's lot
  and upserts the corrected values. If the remainder is zero and no other lot holds the key, it
  relabels the lot in place.
- Otherwise it shrinks the lot to the remainder and upserts the corrected values.

What is proved about `Merging.CorrectMerging`:

- It keeps the keys unique (`Merging.CorrectMergingKeepsKeysUnique`).
- It moves the same quantities between keys as the service (`Merging.CorrectMergingConservesTotals`,
  `Merging.CorrectConservesTotals`).
- Starting from unique keys, it coincides with the service exactly when the service keeps them
  unique (`Merging.CorrectMergingAgrees`).
