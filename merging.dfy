/**
 * Correction with the corrected lot merged into the stock, as the ingestion path merges a
 * new receipt: the original row is shrunk (or, when it held only the original transaction,
 * relabelled or dropped) and the corrected values go through `upsertStock` semantics instead
 * of an unconditional insert. Unlike the service's correction, this never leaves two rows
 * with one business key.
 */
module Merging {
  import opened Wrappers
  import opened Units
  import opened Records
  import opened Transactions
  import opened Stocks
  import opened Totals
  import opened Service

  /** A row other than the one with this id holds key k. */
  predicate HeldElsewhere(rows: seq<StockEntry>, id: int, k: StockKey) {
    exists j :: 0 <= j < |rows| && rows[j].id != id && KeyOf(rows[j]) == k
  }

  /** Steps 4 and 5 with the corrected lot merged into whatever row already holds its key. */
  function Rebooked(t: StockTable, s: StockEntry, orig: Transaction, c: Draft): StockTable {
    var newQuantity := s.quantity - orig.quantity;
    if newQuantity == 0.0 then
      if HeldElsewhere(t.rows, s.id, DraftKey(c)) then
        Upserted(StockTable(WithoutKey(t.rows, KeyOf(s)), t.nextId), c)
      else
        StockTable(Relabel(t.rows, s.id, c), t.nextId)
    else
      Upserted(StockTable(UpdateById(t.rows, s.id, NewQuantity(newQuantity)), t.nextId), c)
  }

  /** The correction with steps 1 to 3 as the service performs them and the merged steps 4 and 5. */
  function CorrectMerging(w: World, p: PatchRequest): Effect {
    match Locate(w, p)
    case Stopped(e) => e
    case Located(ledger, orig, s) => Effect(Done, World(ledger, Rebooked(w.stock, s, orig, MapPatchRequest(p))))
  }

  /** A stopped correction leaves the stock table as it was. */
  lemma StoppedKeepsStock(w: World, p: PatchRequest)
    requires Locate(w, p).Stopped?
    ensures Locate(w, p).effect.after.stock == w.stock
  {
  }

  /**
   * A correction that reaches step 4 has found the original at ledger index n and the only
   * stock row with its key at index i.
   */
  lemma {:induction false} LocatedRows(w: World, p: PatchRequest) returns (n: int, i: int)
    requires WorldValid(w) && Locate(w, p).Located?
    ensures 0 <= n < |w.ledger.rows| && w.ledger.rows[n].id == p.originalTransactionId
    ensures Locate(w, p).original == w.ledger.rows[n]
    ensures 0 <= i < |w.stock.rows| && Locate(w, p).entry == w.stock.rows[i]
    ensures KeyOf(w.stock.rows[i]) == TransactionKey(w.ledger.rows[n])
  {
    var orig := LookupId(w.ledger.rows, p.originalTransactionId).value;
    n :| 0 <= n < |w.ledger.rows| && w.ledger.rows[n] == orig;
    var s := Locate(w, p).entry;
    i :| 0 <= i < |w.stock.rows| && w.stock.rows[i] == s;
  }

  /** With ids unique, relabelling by the id of row i changes row i and nothing else. */
  lemma RelabelOneRow(t: StockTable, i: int, c: Draft)
    requires TableValid(t) && 0 <= i < |t.rows|
    ensures Relabel(t.rows, t.rows[i].id, c) == t.rows[i := StockRow(t.rows[i].id, c)]
  {
    var r := Relabel(t.rows, t.rows[i].id, c);
    forall j | 0 <= j < |t.rows| && j != i ensures r[j] == t.rows[j] {
      if j < i { assert t.rows[j].id < t.rows[i].id; } else { assert t.rows[i].id < t.rows[j].id; }
    }
  }

  /** An update of a quantity keeps every key where it was. */
  lemma QuantityUpdateKeepsKeysUnique(rows: seq<StockEntry>, id: int, q: real)
    requires KeysUnique(rows)
    ensures KeysUnique(UpdateById(rows, id, NewQuantity(q)))
  {
    var r := UpdateById(rows, id, NewQuantity(q));
    assert forall j :: 0 <= j < |rows| ==> KeyOf(r[j]) == KeyOf(rows[j]);
  }

  /** Dropping every row with one key and upserting keeps the table valid and its keys unique. */
  lemma DeleteThenUpsertKeepsKeysUnique(t: StockTable, k: StockKey, c: Draft)
    requires TableValid(t) && KeysUnique(t.rows)
    ensures TableValid(Upserted(StockTable(WithoutKey(t.rows, k), t.nextId), c))
    ensures KeysUnique(Upserted(StockTable(WithoutKey(t.rows, k), t.nextId), c).rows)
  {
    DeleteValid(t, k);
    DeleteKeepsKeysUnique(t.rows, k);
    UpsertedValid(StockTable(WithoutKey(t.rows, k), t.nextId), c);
    UpsertKeepsKeysUnique(StockTable(WithoutKey(t.rows, k), t.nextId), c);
  }

  /** Changing one quantity and upserting keeps the table valid and its keys unique. */
  lemma ShrinkThenUpsertKeepsKeysUnique(t: StockTable, id: int, q: real, c: Draft)
    requires TableValid(t) && KeysUnique(t.rows)
    ensures TableValid(Upserted(StockTable(UpdateById(t.rows, id, NewQuantity(q)), t.nextId), c))
    ensures KeysUnique(Upserted(StockTable(UpdateById(t.rows, id, NewQuantity(q)), t.nextId), c).rows)
  {
    UpdateValid(t, id, NewQuantity(q));
    QuantityUpdateKeepsKeysUnique(t.rows, id, q);
    UpsertedValid(StockTable(UpdateById(t.rows, id, NewQuantity(q)), t.nextId), c);
    UpsertKeepsKeysUnique(StockTable(UpdateById(t.rows, id, NewQuantity(q)), t.nextId), c);
  }

  /** Relabelling row i keeps the keys unique when no other row holds the new key. */
  lemma RelabelKeepsKeysUnique(t: StockTable, i: int, c: Draft)
    requires TableValid(t) && KeysUnique(t.rows) && 0 <= i < |t.rows|
    requires !HeldElsewhere(t.rows, t.rows[i].id, DraftKey(c))
    ensures TableValid(StockTable(Relabel(t.rows, t.rows[i].id, c), t.nextId))
    ensures KeysUnique(Relabel(t.rows, t.rows[i].id, c))
  {
    var s := t.rows[i];
    RelabelOneRow(t, i, c);
    var r := t.rows[i := StockRow(s.id, c)];
    forall a, b | 0 <= a < b < |r| ensures KeyOf(r[a]) != KeyOf(r[b]) {
      if a == i { assert t.rows[b].id != s.id; }
      else if b == i { assert t.rows[a].id != s.id; }
    }
  }

  /** Merged steps 4 and 5 keep the ids store-assigned and never give two rows the same key. */
  lemma {:induction false} RebookedKeepsKeysUnique(t: StockTable, i: int, orig: Transaction, c: Draft)
    requires TableValid(t) && KeysUnique(t.rows) && 0 <= i < |t.rows|
    ensures TableValid(Rebooked(t, t.rows[i], orig, c))
    ensures KeysUnique(Rebooked(t, t.rows[i], orig, c).rows)
  {
    var s := t.rows[i];
    var r := Rebooked(t, s, orig, c);
    if s.quantity - orig.quantity != 0.0 {
      ShrinkThenUpsertKeepsKeysUnique(t, s.id, s.quantity - orig.quantity, c);
      assert r == Upserted(StockTable(UpdateById(t.rows, s.id, NewQuantity(s.quantity - orig.quantity)), t.nextId), c);
    } else if HeldElsewhere(t.rows, s.id, DraftKey(c)) {
      DeleteThenUpsertKeepsKeysUnique(t, KeyOf(s), c);
      assert r == Upserted(StockTable(WithoutKey(t.rows, KeyOf(s)), t.nextId), c);
    } else {
      RelabelKeepsKeysUnique(t, i, c);
      assert r == StockTable(Relabel(t.rows, s.id, c), t.nextId);
    }
  }

  /**
   * Dropping the only row of a key and upserting into another key moves that row's quantity
   * out of its key and the upserted quantity into the other.
   */
  lemma DeleteThenUpsertTotals(t: StockTable, i: int, c: Draft, k: StockKey)
    requires KeysUnique(t.rows) && 0 <= i < |t.rows| && KeyOf(t.rows[i]) != DraftKey(c)
    ensures Total(Upserted(StockTable(WithoutKey(t.rows, KeyOf(t.rows[i])), t.nextId), c).rows, k) ==
            Total(t.rows, k) - Contribution(KeyOf(t.rows[i]), t.rows[i].quantity, k) + Contribution(DraftKey(c), c.quantity, k)
  {
    DeleteKeepsKeysUnique(t.rows, KeyOf(t.rows[i]));
    TotalUnique(t.rows, i);
    TotalWithoutKey(t.rows, KeyOf(t.rows[i]), k);
    UpsertedTotal(StockTable(WithoutKey(t.rows, KeyOf(t.rows[i])), t.nextId), c, k);
  }

  /** Shrinking row i to q and upserting moves the difference out of its key and the upserted quantity in. */
  lemma ShrinkThenUpsertTotals(t: StockTable, i: int, q: real, c: Draft, k: StockKey)
    requires TableValid(t) && KeysUnique(t.rows) && 0 <= i < |t.rows|
    ensures Total(Upserted(StockTable(UpdateById(t.rows, t.rows[i].id, NewQuantity(q)), t.nextId), c).rows, k) ==
            Total(t.rows, k) - Contribution(KeyOf(t.rows[i]), t.rows[i].quantity - q, k) + Contribution(DraftKey(c), c.quantity, k)
  {
    UpdateChangesOneRow(t, i, NewQuantity(q));
    QuantityUpdateKeepsKeysUnique(t.rows, t.rows[i].id, q);
    TotalReplace(t.rows, i, t.rows[i].(quantity := q), k);
    UpsertedTotal(StockTable(UpdateById(t.rows, t.rows[i].id, NewQuantity(q)), t.nextId), c, k);
  }

  /** Relabelling row i moves its quantity out of its key and into the new one. */
  lemma RelabelTotals(t: StockTable, i: int, c: Draft, k: StockKey)
    requires TableValid(t) && 0 <= i < |t.rows|
    ensures Total(Relabel(t.rows, t.rows[i].id, c), k) ==
            Total(t.rows, k) - Contribution(KeyOf(t.rows[i]), t.rows[i].quantity, k) + Contribution(DraftKey(c), c.quantity, k)
  {
    RelabelOneRow(t, i, c);
    TotalReplace(t.rows, i, StockRow(t.rows[i].id, c), k);
  }

  /**
   * Merged steps 4 and 5 move exactly the original's quantity out of its key and the corrected
   * quantity into the corrected key; every other key's total is unchanged.
   */
  lemma {:induction false} RebookedTotals(t: StockTable, i: int, orig: Transaction, c: Draft)
    requires TableValid(t) && KeysUnique(t.rows) && 0 <= i < |t.rows| && KeyOf(t.rows[i]) == TransactionKey(orig)
    ensures forall k :: Total(Rebooked(t, t.rows[i], orig, c).rows, k) ==
              Total(t.rows, k) - Contribution(TransactionKey(orig), orig.quantity, k) + Contribution(DraftKey(c), c.quantity, k)
  {
    var s := t.rows[i];
    var r := Rebooked(t, s, orig, c);
    if s.quantity - orig.quantity != 0.0 {
      assert r == Upserted(StockTable(UpdateById(t.rows, s.id, NewQuantity(s.quantity - orig.quantity)), t.nextId), c);
      forall k ensures Total(r.rows, k) ==
                       Total(t.rows, k) - Contribution(KeyOf(s), orig.quantity, k) + Contribution(DraftKey(c), c.quantity, k) {
        ShrinkThenUpsertTotals(t, i, s.quantity - orig.quantity, c, k);
      }
    } else if HeldElsewhere(t.rows, s.id, DraftKey(c)) {
      var j :| 0 <= j < |t.rows| && t.rows[j].id != s.id && KeyOf(t.rows[j]) == DraftKey(c);
      assert KeyOf(s) != DraftKey(c) by {
        if j < i { assert KeyOf(t.rows[j]) != KeyOf(t.rows[i]); }
        else { assert KeyOf(t.rows[i]) != KeyOf(t.rows[j]); }
      }
      assert r == Upserted(StockTable(WithoutKey(t.rows, KeyOf(s)), t.nextId), c);
      forall k ensures Total(r.rows, k) ==
                       Total(t.rows, k) - Contribution(KeyOf(s), orig.quantity, k) + Contribution(DraftKey(c), c.quantity, k) {
        DeleteThenUpsertTotals(t, i, c, k);
      }
    } else {
      assert r == StockTable(Relabel(t.rows, s.id, c), t.nextId);
      forall k ensures Total(r.rows, k) ==
                       Total(t.rows, k) - Contribution(KeyOf(s), orig.quantity, k) + Contribution(DraftKey(c), c.quantity, k) {
        RelabelTotals(t, i, c, k);
      }
    }
  }

  /**
   * The service's steps 4 and 5 move the same quantities between keys, with or without unique
   * keys: what they get wrong is not a total but how many rows a key is spread over.
   */
  lemma {:induction false} RebuiltTotals(t: StockTable, i: int, orig: Transaction, c: Draft)
    requires TableValid(t) && 0 <= i < |t.rows| && KeyOf(t.rows[i]) == TransactionKey(orig)
    ensures forall k :: Total(Rebuilt(t, t.rows[i], orig, c).rows, k) ==
              Total(t.rows, k) - Contribution(TransactionKey(orig), orig.quantity, k) + Contribution(DraftKey(c), c.quantity, k)
  {
    var s := t.rows[i];
    var newQuantity := s.quantity - orig.quantity;
    var after := Rebuilt(t, s, orig, c).rows;
    if newQuantity == 0.0 {
      RelabelOneRow(t, i, c);
      forall k ensures Total(after, k) == Total(t.rows, k) - Contribution(KeyOf(s), orig.quantity, k)
                                          + Contribution(DraftKey(c), c.quantity, k) {
        TotalReplace(t.rows, i, StockRow(s.id, c), k);
      }
    } else {
      var t1 := Inserted(t, c);
      InsertedValid(t, c);
      UpdateChangesOneRow(t1, i, NewQuantity(newQuantity));
      assert t1.rows[i] == s;
      forall k ensures Total(after, k) == Total(t.rows, k) - Contribution(KeyOf(s), orig.quantity, k)
                                          + Contribution(DraftKey(c), c.quantity, k) {
        TotalAppend(t.rows, StockRow(t.nextId, c), k);
        TotalReplace(t1.rows, i, s.(quantity := newQuantity), k);
      }
    }
  }

  /**
   * From unique keys, the merged steps do exactly what the service's steps do whenever the
   * service keeps the keys unique, and differ exactly when it would leave two rows with one key.
   */
  lemma {:induction false} RebookedAgrees(t: StockTable, i: int, orig: Transaction, c: Draft)
    requires TableValid(t) && KeysUnique(t.rows) && 0 <= i < |t.rows|
    ensures Rebooked(t, t.rows[i], orig, c) == Rebuilt(t, t.rows[i], orig, c) <==>
            KeysUnique(Rebuilt(t, t.rows[i], orig, c).rows)
  {
    RebookedKeepsKeysUnique(t, i, orig, c);
    var s := t.rows[i];
    var newQuantity := s.quantity - orig.quantity;
    var r := Rebuilt(t, s, orig, c).rows;
    if KeysUnique(r) {
      if newQuantity == 0.0 {
        RelabelOneRow(t, i, c);
      } else {
        var t1 := Inserted(t, c);
        InsertedValid(t, c);
        UpdateChangesOneRow(t1, i, NewQuantity(newQuantity));
        var updated := StockTable(UpdateById(t.rows, s.id, NewQuantity(newQuantity)), t.nextId);
        UpdateChangesOneRow(t, i, NewQuantity(newQuantity));
        assert r == updated.rows + [StockRow(t.nextId, c)];
        assert !HasKey(updated.rows, DraftKey(c)) by {
          forall j | 0 <= j < |updated.rows| ensures KeyOf(updated.rows[j]) != DraftKey(c) {
            assert KeyOf(r[j]) != KeyOf(r[|t.rows|]);
          }
        }
        UpsertFresh(updated, c);
      }
    }
  }

  // ---------------------------------------------------------------------------
  // The whole correction

  /** The merged correction never gives two stock rows the same key. */
  lemma {:induction false} CorrectMergingKeepsKeysUnique(w: World, p: PatchRequest)
    requires WorldValid(w) && KeysUnique(w.stock.rows)
    ensures TableValid(CorrectMerging(w, p).after.stock)
    ensures KeysUnique(CorrectMerging(w, p).after.stock.rows)
  {
    if Locate(w, p).Stopped? {
      StoppedKeepsStock(w, p);
    } else {
      var n, i := LocatedRows(w, p);
      RebookedKeepsKeysUnique(w.stock, i, w.ledger.rows[n], MapPatchRequest(p));
    }
  }

  /** A merged correction that finds the original's stock row moves only the two quantities it names. */
  lemma {:induction false} CorrectMergingConservesTotals(w: World, p: PatchRequest)
    requires WorldValid(w) && KeysUnique(w.stock.rows) && Locate(w, p).Located?
    ensures CorrectMerging(w, p).outcome == Done
    ensures forall k :: Total(CorrectMerging(w, p).after.stock.rows, k) ==
              Total(w.stock.rows, k)
              - Contribution(TransactionKey(Locate(w, p).original), Locate(w, p).original.quantity, k)
              + Contribution(DraftKey(MapPatchRequest(p)), p.quantity, k)
  {
    var n, i := LocatedRows(w, p);
    RebookedTotals(w.stock, i, w.ledger.rows[n], MapPatchRequest(p));
  }

  /** The service's correction, when it finds the original's stock row, moves the same two quantities. */
  lemma {:induction false} CorrectConservesTotals(w: World, p: PatchRequest)
    requires WorldValid(w) && Locate(w, p).Located?
    ensures Correct(w, p).outcome == Done
    ensures forall k :: Total(Correct(w, p).after.stock.rows, k) ==
              Total(w.stock.rows, k)
              - Contribution(TransactionKey(Locate(w, p).original), Locate(w, p).original.quantity, k)
              + Contribution(DraftKey(MapPatchRequest(p)), p.quantity, k)
  {
    var n, i := LocatedRows(w, p);
    RebuiltTotals(w.stock, i, w.ledger.rows[n], MapPatchRequest(p));
  }

  /**
   * From unique keys, the merged correction equals the service's correction exactly when the
   * service's correction keeps the keys unique.
   */
  lemma {:induction false} CorrectMergingAgrees(w: World, p: PatchRequest)
    requires WorldValid(w) && KeysUnique(w.stock.rows)
    ensures CorrectMerging(w, p) == Correct(w, p) <==> KeysUnique(Correct(w, p).after.stock.rows)
  {
    if Locate(w, p).Stopped? {
      StoppedKeepsStock(w, p);
    } else {
      var n, i := LocatedRows(w, p);
      RebookedAgrees(w.stock, i, w.ledger.rows[n], MapPatchRequest(p));
    }
  }

  // ---------------------------------------------------------------------------
  // A concrete correction that splits one lot into two rows with one key

  /**
   * 83 kg of watermelon at 1.20 in LIDL, received as 50 kg (transaction 1) and 33 kg
   * (transaction 2); the second upsert merged into stock row 1 and used up id 2.
   */
  function TwoReceipts(): World {
    World(
      Ledger([Transaction(1, "Watermelon", 50.0, KG, 1.20, "LIDL"),
              Transaction(2, "Watermelon", 33.0, KG, 1.20, "LIDL")], 3),
      StockTable([StockEntry(1, "Watermelon", 83.0, KG, 1.20, "LIDL")], 3))
  }

  /** Transaction 1 corrected to 40 kg, same item, warehouse and price. */
  function ToForty(): PatchRequest {
    PatchRequest(1, "Watermelon", 40.0, KG, 1.20, "LIDL")
  }

  /**
   * On a store without a unique index on the key, the service splits the 83 kg row into 33 kg
   * under id 1 and 40 kg under id 3: one key, two rows.
   */
  lemma {:induction false} QuantityCorrectionSplits()
    ensures WorldValid(TwoReceipts()) && KeysUnique(TwoReceipts().stock.rows)
    ensures Correct(TwoReceipts(), ToForty()).outcome == Done
    ensures Correct(TwoReceipts(), ToForty()).after.stock == StockTable(
              [StockEntry(1, "Watermelon", 33.0, KG, 1.20, "LIDL"), StockEntry(3, "Watermelon", 40.0, KG, 1.20, "LIDL")], 4)
    ensures LookupId(Correct(TwoReceipts(), ToForty()).after.ledger.rows, 2) == Some(TwoReceipts().ledger.rows[1])
  {
    var w := TwoReceipts();
    assert Locate(w, ToForty()).Located?;
    CorrectSplit(w, ToForty(), 0, 0);
    CorrectAppendsOnce(w, ToForty(), 0);
    LookupFindsRow(Correct(w, ToForty()).after.ledger, 1);
  }

  /**
   * On a table with a unique index on the key, the same correction reaches `createStock` with a
   * key the table already holds, after the corrected ledger row has been appended.
   */
  lemma QuantityCorrectionMeetsHeldKey()
    ensures Locate(TwoReceipts(), ToForty()).Located?
    ensures Locate(TwoReceipts(), ToForty()).ledger.rows ==
              TwoReceipts().ledger.rows + [Transaction(3, "Watermelon", 40.0, KG, 1.20, "LIDL")]
    ensures Locate(TwoReceipts(), ToForty()).entry.quantity - Locate(TwoReceipts(), ToForty()).original.quantity != 0.0
    ensures HasKey(TwoReceipts().stock.rows, DraftKey(MapPatchRequest(ToForty())))
  {
    var w := TwoReceipts();
    assert LookupId(w.ledger.rows, 1) == Some(w.ledger.rows[0]);
    assert Matching(w.stock.rows, StockKey("Watermelon", "LIDL", 1.20)) == w.stock.rows;
    assert KeyOf(w.stock.rows[0]) == DraftKey(MapPatchRequest(ToForty()));
  }

  /** With the lot split over two rows, the lookup by its key fails. */
  lemma SplitLotLookupFails()
    ensures FindByKey([StockEntry(1, "Watermelon", 33.0, KG, 1.20, "LIDL"), StockEntry(3, "Watermelon", 40.0, KG, 1.20, "LIDL")],
                      StockKey("Watermelon", "LIDL", 1.20)) == Err(IncorrectResultSize(2))
  {
    var rows := [StockEntry(1, "Watermelon", 33.0, KG, 1.20, "LIDL"), StockEntry(3, "Watermelon", 40.0, KG, 1.20, "LIDL")];
    assert rows[1..] == [rows[1]];
    assert Matching(rows, StockKey("Watermelon", "LIDL", 1.20)) == rows;
  }

  /** The merged correction books the 40 kg back onto the 33 kg left, in the one row. */
  lemma {:induction false} QuantityCorrectionMerges()
    ensures CorrectMerging(TwoReceipts(), ToForty()).after.stock ==
            StockTable([StockEntry(1, "Watermelon", 73.0, KG, 1.20, "LIDL")], 4)
  {
    var w := TwoReceipts();
    assert Locate(w, ToForty()).Located?;
    var updated := StockTable(UpdateById(w.stock.rows, 1, NewQuantity(33.0)), 3);
    assert updated.rows == [StockEntry(1, "Watermelon", 33.0, KG, 1.20, "LIDL")];
    UpsertExisting(updated, MapPatchRequest(ToForty()), 0);
  }

  /**
   * Correcting transaction 1 to 40 kg on a store without a unique index on the key: the service
   * leaves two rows with one key, after which the lookup by that key fails and so does the
   * correction of transaction 2; the merged correction leaves one row of 73 kg.
   */
  lemma {:induction false} QuantityCorrectionDuplicatesKey()
    ensures WorldValid(TwoReceipts()) && KeysUnique(TwoReceipts().stock.rows)
    ensures !KeysUnique(Correct(TwoReceipts(), ToForty()).after.stock.rows)
    ensures FindByKey(Correct(TwoReceipts(), ToForty()).after.stock.rows, StockKey("Watermelon", "LIDL", 1.20)) ==
            Err(IncorrectResultSize(2))
    ensures Correct(Correct(TwoReceipts(), ToForty()).after, PatchRequest(2, "Watermelon", 30.0, KG, 1.20, "LIDL")).outcome ==
            Failed(StoreFailure(IncorrectResultSize(2)))
    ensures CorrectMerging(TwoReceipts(), ToForty()).after.stock ==
            StockTable([StockEntry(1, "Watermelon", 73.0, KG, 1.20, "LIDL")], 4)
  {
    QuantityCorrectionSplits();
    SplitLotLookupFails();
    QuantityCorrectionMerges();
    var rows := Correct(TwoReceipts(), ToForty()).after.stock.rows;
    assert KeyOf(rows[0]) == KeyOf(rows[1]);
  }
}
