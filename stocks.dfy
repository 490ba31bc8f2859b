/**
 * The stock aggregate (src/main/java/com/inventory/repository/StockRepository.java):
 * a table of rows keyed by a store-assigned id and looked up by the business key
 * (item name, warehouse name, price per unit). Each repository method is one SQL
 * statement; here each is the table operation that statement performs.
 *
 * The table is a plain table: nothing stops two rows from sharing a business key.
 */
module Stocks {
  import opened Wrappers
  import opened Units
  import opened Records

  /** The `stocks` table as a value: its rows in insertion order and the next id to hand out. */
  datatype StockTable = StockTable(rows: seq<StockEntry>, nextId: int)

  ghost predicate IdsIncreasing(rows: seq<StockEntry>) {
    forall i, j :: 0 <= i < j < |rows| ==> rows[i].id < rows[j].id
  }

  /** Store-assigned ids: positive, strictly increasing in row order and below the next id. */
  ghost predicate TableValid(t: StockTable) {
    && 0 < t.nextId
    && (forall i :: 0 <= i < |t.rows| ==> 0 < t.rows[i].id < t.nextId)
    && IdsIncreasing(t.rows)
  }

  /** No two rows share a business key: what the ON CONFLICT target of `upsertStock` presumes. */
  ghost predicate KeysUnique(rows: seq<StockEntry>) {
    forall i, j :: 0 <= i < j < |rows| ==> KeyOf(rows[i]) != KeyOf(rows[j])
  }

  predicate HasKey(rows: seq<StockEntry>, k: StockKey) {
    exists i :: 0 <= i < |rows| && KeyOf(rows[i]) == k
  }

  /** `SELECT * FROM stocks WHERE <key> = k`: the rows carrying key k, in table order. */
  function Matching(rows: seq<StockEntry>, k: StockKey): (m: seq<StockEntry>)
    ensures |m| <= |rows|
    ensures forall e :: e in m <==> e in rows && KeyOf(e) == k
    ensures (forall e :: e in rows ==> KeyOf(e) != k) ==> m == []
  {
    if rows == [] then []
    else (if KeyOf(rows[0]) == k then [rows[0]] else []) + Matching(rows[1..], k)
  }

  /** The failure JdbcClient's `optional()` raises when a query meant for one row returns several. */
  datatype StoreError = IncorrectResultSize(actual: nat)

  /**
   * `getByCompositeKey`: the one row with key k, None when there is none,
   * and an IncorrectResultSize failure when there are several.
   */
  function FindByKey(rows: seq<StockEntry>, k: StockKey): (r: Result<Option<StockEntry>, StoreError>)
    ensures r == Ok(None) <==> !HasKey(rows, k)
    ensures r.Ok? && r.value.Some? ==>
              && r.value.value in rows
              && KeyOf(r.value.value) == k
              && forall e :: e in rows && KeyOf(e) == k ==> e == r.value.value
    ensures r.Err? ==> r.error.actual >= 2
    ensures r.Err? ==> r.error.actual == |Matching(rows, k)|
  {
    var m := Matching(rows, k);
    if |m| == 0 then
      assert forall i :: 0 <= i < |rows| ==> rows[i] in rows;
      Ok(None)
    else if |m| == 1 then
      assert m[0] in m;
      Ok(Some(m[0]))
    else
      Err(IncorrectResultSize(|m|))
  }

  /** The five columns the `updateStock*` methods write, each with its new value. */
  datatype FieldValue =
    | NewItemName(itemName: string)
    | NewQuantity(quantity: real)
    | NewUnit(unit: Unit)
    | NewPricePerUnit(pricePerUnit: real)
    | NewWarehouseName(warehouseName: string)

  /** One row with one column overwritten. */
  function Assign(e: StockEntry, f: FieldValue): (r: StockEntry)
    ensures r.id == e.id
    ensures f.NewQuantity? || f.NewUnit? ==> KeyOf(r) == KeyOf(e)
  {
    match f
    case NewItemName(n) => e.(itemName := n)
    case NewQuantity(q) => e.(quantity := q)
    case NewUnit(u) => e.(unit := u)
    case NewPricePerUnit(p) => e.(pricePerUnit := p)
    case NewWarehouseName(w) => e.(warehouseName := w)
  }

  /** `UPDATE stocks SET <field> WHERE id = :id`. */
  function UpdateById(rows: seq<StockEntry>, id: int, f: FieldValue): (r: seq<StockEntry>)
    ensures |r| == |rows|
    ensures forall i :: 0 <= i < |rows| ==> r[i] == if rows[i].id == id then Assign(rows[i], f) else rows[i]
  {
    seq(|rows|, i requires 0 <= i < |rows| => if rows[i].id == id then Assign(rows[i], f) else rows[i])
  }

  /** `createStock`: one row with the five values, under the next id, with no look at the keys already present. */
  function Inserted(t: StockTable, d: Draft): StockTable {
    StockTable(t.rows + [StockRow(t.nextId, d)], t.nextId + 1)
  }

  /** `DELETE FROM stocks WHERE <key> = k`: every row with key k goes, the others stay in order. */
  function WithoutKey(rows: seq<StockEntry>, k: StockKey): (r: seq<StockEntry>)
    ensures |r| <= |rows|
    ensures forall e :: e in r <==> e in rows && KeyOf(e) != k
  {
    if rows == [] then []
    else
      var rest := WithoutKey(rows[1..], k);
      if KeyOf(rows[0]) == k then rest else [rows[0]] + rest
  }

  /** The DO UPDATE arm of `upsertStock`: every row with key k gains q; nothing else changes. */
  function AddQuantity(rows: seq<StockEntry>, k: StockKey, q: real): (r: seq<StockEntry>)
    ensures |r| == |rows|
    ensures forall i :: 0 <= i < |rows| ==>
              r[i] == if KeyOf(rows[i]) == k then rows[i].(quantity := rows[i].quantity + q) else rows[i]
  {
    seq(|rows|, i requires 0 <= i < |rows| =>
      if KeyOf(rows[i]) == k then rows[i].(quantity := rows[i].quantity + q) else rows[i])
  }

  /**
   * `upsertStock`: INSERT ... ON CONFLICT (key) DO UPDATE SET quantity = quantity + EXCLUDED.quantity.
   * The identity column is drawn before the conflict is detected, so an id is used up either way.
   */
  function Upserted(t: StockTable, d: Draft): StockTable {
    if HasKey(t.rows, DraftKey(d)) then StockTable(AddQuantity(t.rows, DraftKey(d), d.quantity), t.nextId + 1)
    else Inserted(t, d)
  }

  // ---------------------------------------------------------------------------
  // Lookup by key

  /** Rows from index 1 on, re-indexed. */
  lemma TailIndex(rows: seq<StockEntry>, j: int)
    requires 0 < j < |rows|
    ensures rows[1..][j - 1] == rows[j]
  {
  }

  lemma {:induction false} MatchingSingle(rows: seq<StockEntry>, k: StockKey, i: int)
    requires 0 <= i < |rows| && KeyOf(rows[i]) == k
    requires forall j :: 0 <= j < |rows| && j != i ==> KeyOf(rows[j]) != k
    ensures Matching(rows, k) == [rows[i]]
    decreases |rows|
  {
    if i == 0 {
      forall e | e in rows[1..] ensures KeyOf(e) != k {
        var j :| 0 <= j < |rows[1..]| && rows[1..][j] == e;
        TailIndex(rows, j + 1);
      }
      assert Matching(rows[1..], k) == [];
    } else {
      forall j | 0 <= j < |rows[1..]| && j != i - 1 ensures KeyOf(rows[1..][j]) != k {
        TailIndex(rows, j + 1);
      }
      MatchingSingle(rows[1..], k, i - 1);
    }
  }

  lemma {:induction false} MatchingMany(rows: seq<StockEntry>, k: StockKey, i: int, j: int)
    requires 0 <= i < j < |rows| && KeyOf(rows[i]) == k && KeyOf(rows[j]) == k
    ensures |Matching(rows, k)| >= 2
    decreases |rows|
  {
    TailIndex(rows, j);
    if i == 0 {
      assert rows[j] in Matching(rows[1..], k);
    } else {
      TailIndex(rows, i);
      MatchingMany(rows[1..], k, i - 1, j - 1);
    }
  }

  /** Exactly one row carries k: the lookup returns that row. */
  lemma FindByKeyExactlyOne(rows: seq<StockEntry>, k: StockKey, i: int)
    requires 0 <= i < |rows| && KeyOf(rows[i]) == k
    requires forall j :: 0 <= j < |rows| && j != i ==> KeyOf(rows[j]) != k
    ensures FindByKey(rows, k) == Ok(Some(rows[i]))
  {
    MatchingSingle(rows, k, i);
  }

  /** Two rows carry k: the lookup fails instead of picking one. */
  lemma FindByKeyDuplicate(rows: seq<StockEntry>, k: StockKey, i: int, j: int)
    requires 0 <= i < j < |rows| && KeyOf(rows[i]) == k && KeyOf(rows[j]) == k
    ensures FindByKey(rows, k).Err?
  {
    MatchingMany(rows, k, i, j);
  }

  /** While keys are unique, every lookup succeeds and every row is found under its own key. */
  lemma FindByKeyUnique(rows: seq<StockEntry>, k: StockKey)
    requires KeysUnique(rows)
    ensures FindByKey(rows, k).Ok?
    ensures forall i :: 0 <= i < |rows| ==> FindByKey(rows, KeyOf(rows[i])) == Ok(Some(rows[i]))
  {
    forall i | 0 <= i < |rows| ensures FindByKey(rows, KeyOf(rows[i])) == Ok(Some(rows[i])) {
      FindByKeyExactlyOne(rows, KeyOf(rows[i]), i);
    }
    if HasKey(rows, k) {
      var i :| 0 <= i < |rows| && KeyOf(rows[i]) == k;
      assert FindByKey(rows, KeyOf(rows[i])) == Ok(Some(rows[i]));
    }
  }

  // ---------------------------------------------------------------------------
  // createStock

  lemma InsertedValid(t: StockTable, d: Draft)
    requires TableValid(t)
    ensures TableValid(Inserted(t, d))
  {
  }

  /** `createStock` then `getByCompositeKey` on a fresh key returns the row just created (testCreateStock). */
  lemma CreateThenFind(t: StockTable, d: Draft)
    requires !HasKey(t.rows, DraftKey(d))
    ensures FindByKey(Inserted(t, d).rows, DraftKey(d)) == Ok(Some(StockRow(t.nextId, d)))
  {
    var rows := Inserted(t, d).rows;
    FindByKeyExactlyOne(rows, DraftKey(d), |t.rows|);
  }

  /** `createStock` on a key that is already present leaves two rows with that key, and the key can no longer be looked up. */
  lemma CreateDuplicatesKey(t: StockTable, d: Draft)
    requires HasKey(t.rows, DraftKey(d))
    ensures !KeysUnique(Inserted(t, d).rows)
    ensures FindByKey(Inserted(t, d).rows, DraftKey(d)).Err?
  {
    var i :| 0 <= i < |t.rows| && KeyOf(t.rows[i]) == DraftKey(d);
    var rows := Inserted(t, d).rows;
    assert rows[i] == t.rows[i] && KeyOf(rows[|t.rows|]) == DraftKey(d);
    FindByKeyDuplicate(rows, DraftKey(d), i, |t.rows|);
  }

  // ---------------------------------------------------------------------------
  // updateStock*

  lemma UpdateValid(t: StockTable, id: int, f: FieldValue)
    requires TableValid(t)
    ensures TableValid(StockTable(UpdateById(t.rows, id, f), t.nextId))
  {
  }

  /** Ids are distinct, so an update by id changes the named column of at most one row and nothing else. */
  lemma UpdateChangesOneRow(t: StockTable, i: int, f: FieldValue)
    requires TableValid(t) && 0 <= i < |t.rows|
    ensures UpdateById(t.rows, t.rows[i].id, f) == t.rows[i := Assign(t.rows[i], f)]
  {
    var r := UpdateById(t.rows, t.rows[i].id, f);
    forall j | 0 <= j < |t.rows| && j != i ensures r[j] == t.rows[j] {
      if j < i { assert t.rows[j].id < t.rows[i].id; } else { assert t.rows[i].id < t.rows[j].id; }
    }
  }

  /**
   * After an update by id the row is found under its new key, provided no other row holds
   * that key (the item name, price and warehouse updates move a row to another key;
   * the quantity and unit updates keep it where it was).
   */
  lemma UpdateThenFind(t: StockTable, i: int, f: FieldValue)
    requires TableValid(t) && 0 <= i < |t.rows|
    requires forall j :: 0 <= j < |t.rows| && j != i ==> KeyOf(t.rows[j]) != KeyOf(Assign(t.rows[i], f))
    ensures FindByKey(UpdateById(t.rows, t.rows[i].id, f), KeyOf(Assign(t.rows[i], f))) == Ok(Some(Assign(t.rows[i], f)))
  {
    UpdateChangesOneRow(t, i, f);
    var r := UpdateById(t.rows, t.rows[i].id, f);
    FindByKeyExactlyOne(r, KeyOf(Assign(t.rows[i], f)), i);
  }

  // ---------------------------------------------------------------------------
  // deleteStock

  lemma KeysUniqueTail(rows: seq<StockEntry>)
    requires rows != [] && KeysUnique(rows)
    ensures KeysUnique(rows[1..])
    ensures forall e :: e in rows[1..] ==> KeyOf(e) != KeyOf(rows[0])
  {
    forall a, b | 0 <= a < b < |rows[1..]| ensures KeyOf(rows[1..][a]) != KeyOf(rows[1..][b]) {
      assert rows[1..][a] == rows[a + 1] && rows[1..][b] == rows[b + 1];
    }
    forall e | e in rows[1..] ensures KeyOf(e) != KeyOf(rows[0]) {
      var j :| 0 <= j < |rows[1..]| && rows[1..][j] == e;
      assert rows[j + 1] == e;
    }
  }

  lemma KeysUniqueCons(x: StockEntry, rest: seq<StockEntry>)
    requires KeysUnique(rest) && forall e :: e in rest ==> KeyOf(e) != KeyOf(x)
    ensures KeysUnique([x] + rest)
  {
    var r := [x] + rest;
    forall a, b | 0 <= a < b < |r| ensures KeyOf(r[a]) != KeyOf(r[b]) {
      assert r[b] == rest[b - 1] && rest[b - 1] in rest;
      if a > 0 { assert r[a] == rest[a - 1]; }
    }
  }

  /** Deleting never creates a duplicate key. */
  lemma {:induction false} DeleteKeepsKeysUnique(rows: seq<StockEntry>, k: StockKey)
    requires KeysUnique(rows)
    ensures KeysUnique(WithoutKey(rows, k))
  {
    if rows != [] {
      KeysUniqueTail(rows);
      DeleteKeepsKeysUnique(rows[1..], k);
      if KeyOf(rows[0]) != k {
        KeysUniqueCons(rows[0], WithoutKey(rows[1..], k));
      }
    }
  }

  /** Deleting keeps the surviving rows in id order. */
  lemma {:induction false} DeleteKeepsIdsIncreasing(rows: seq<StockEntry>, k: StockKey)
    requires IdsIncreasing(rows)
    ensures IdsIncreasing(WithoutKey(rows, k))
  {
    if rows != [] {
      var tail := rows[1..];
      assert IdsIncreasing(tail) by {
        forall a, b | 0 <= a < b < |tail| ensures tail[a].id < tail[b].id {
          assert tail[a] == rows[a + 1] && tail[b] == rows[b + 1];
        }
      }
      DeleteKeepsIdsIncreasing(tail, k);
      var rest := WithoutKey(tail, k);
      if KeyOf(rows[0]) != k {
        var r := [rows[0]] + rest;
        forall a, b | 0 <= a < b < |r| ensures r[a].id < r[b].id {
          assert r[b] == rest[b - 1] && rest[b - 1] in tail;
          if a > 0 {
            assert r[a] == rest[a - 1];
          } else {
            var j :| 0 <= j < |tail| && tail[j] == r[b];
            assert rows[j + 1] == r[b];
          }
        }
      }
    }
  }

  lemma DeleteValid(t: StockTable, k: StockKey)
    requires TableValid(t)
    ensures TableValid(StockTable(WithoutKey(t.rows, k), t.nextId))
  {
    var r := WithoutKey(t.rows, k);
    DeleteKeepsIdsIncreasing(t.rows, k);
    forall i | 0 <= i < |r| ensures 0 < r[i].id < t.nextId {
      assert r[i] in t.rows;
    }
  }

  /** After `deleteStock(e)` the lookup by e's key finds nothing, whatever row e was (testDeleteStock). */
  lemma DeleteThenFind(rows: seq<StockEntry>, e: StockEntry)
    ensures FindByKey(WithoutKey(rows, KeyOf(e)), KeyOf(e)) == Ok(None)
  {
    var r := WithoutKey(rows, KeyOf(e));
    forall i | 0 <= i < |r| ensures KeyOf(r[i]) != KeyOf(e) {
      assert r[i] in r;
    }
  }

  // ---------------------------------------------------------------------------
  // upsertStock

  lemma UpsertedValid(t: StockTable, d: Draft)
    requires TableValid(t)
    ensures TableValid(Upserted(t, d))
  {
  }

  /** Upsert on a key held by row i: that row's quantity grows by the amount, its unit stays; nothing else changes. */
  lemma UpsertExisting(t: StockTable, d: Draft, i: int)
    requires KeysUnique(t.rows) && 0 <= i < |t.rows| && KeyOf(t.rows[i]) == DraftKey(d)
    ensures Upserted(t, d) ==
            StockTable(t.rows[i := t.rows[i].(quantity := t.rows[i].quantity + d.quantity)], t.nextId + 1)
  {
    var r := AddQuantity(t.rows, DraftKey(d), d.quantity);
    forall j | 0 <= j < |t.rows| && j != i ensures r[j] == t.rows[j] {
      if j < i { assert KeyOf(t.rows[j]) != KeyOf(t.rows[i]); } else { assert KeyOf(t.rows[i]) != KeyOf(t.rows[j]); }
    }
  }

  /** Upsert on an absent key inserts one row holding the five values. */
  lemma UpsertFresh(t: StockTable, d: Draft)
    requires !HasKey(t.rows, DraftKey(d))
    ensures Upserted(t, d) == StockTable(t.rows + [StockRow(t.nextId, d)], t.nextId + 1)
  {
  }

  /** Upsert never introduces a second row for a key. */
  lemma UpsertKeepsKeysUnique(t: StockTable, d: Draft)
    requires KeysUnique(t.rows)
    ensures KeysUnique(Upserted(t, d).rows)
  {
    var k := DraftKey(d);
    if HasKey(t.rows, k) {
      var i :| 0 <= i < |t.rows| && KeyOf(t.rows[i]) == k;
      UpsertExisting(t, d, i);
      var r := Upserted(t, d).rows;
      forall a, b | 0 <= a < b < |r| ensures KeyOf(r[a]) != KeyOf(r[b]) {
        assert KeyOf(r[a]) == KeyOf(t.rows[a]) && KeyOf(r[b]) == KeyOf(t.rows[b]);
      }
    } else {
      var r := Upserted(t, d).rows;
      forall a, b | 0 <= a < b < |r| ensures KeyOf(r[a]) != KeyOf(r[b]) {
        if b == |t.rows| { assert KeyOf(r[b]) == k && r[a] == t.rows[a]; }
      }
    }
  }

  /**
   * Two upserts on a fresh key leave one row whose quantity is the sum, with the
   * first upsert's id and unit (testUpsertStock: 30 then 20 gives 50).
   */
  lemma UpsertTwiceSums(t: StockTable, d1: Draft, d2: Draft)
    requires KeysUnique(t.rows) && !HasKey(t.rows, DraftKey(d1)) && DraftKey(d2) == DraftKey(d1)
    ensures FindByKey(Upserted(Upserted(t, d1), d2).rows, DraftKey(d1)) ==
            Ok(Some(StockRow(t.nextId, d1).(quantity := d1.quantity + d2.quantity)))
  {
    var t1 := Upserted(t, d1);
    UpsertFresh(t, d1);
    UpsertKeepsKeysUnique(t, d1);
    UpsertExisting(t1, d2, |t.rows|);
    var t2 := Upserted(t1, d2);
    UpsertKeepsKeysUnique(t1, d2);
    FindByKeyUnique(t2.rows, DraftKey(d1));
    assert KeyOf(t2.rows[|t.rows|]) == DraftKey(d1);
  }

  class StockRepository {
    var rows: seq<StockEntry>
    var nextId: int

    ghost predicate Valid()
      reads this
    {
      TableValid(StockTable(rows, nextId))
    }

    function State(): StockTable
      reads this
    {
      StockTable(rows, nextId)
    }

    /** An empty table whose identity column starts at 1. */
    constructor ()
      ensures Valid()
      ensures rows == [] && nextId == 1
    {
      rows := [];
      nextId := 1;
    }

    /** `getAll`: every row; the table is only read. */
    method GetAll() returns (all: seq<StockEntry>)
      ensures all == rows
    {
      all := rows;
    }

    /** `getByCompositeKey`: the one row with this key, None, or IncorrectResultSize; the table is only read. */
    method GetByCompositeKey(itemName: string, warehouseName: string, pricePerUnit: real)
      returns (r: Result<Option<StockEntry>, StoreError>)
      ensures r == FindByKey(rows, StockKey(itemName, warehouseName, pricePerUnit))
    {
      r := FindByKey(rows, StockKey(itemName, warehouseName, pricePerUnit));
    }

    /** `createStock`: appends one row with exactly the given values; no existence check. */
    method CreateStock(itemName: string, quantity: real, unit: Unit, pricePerUnit: real, warehouseName: string)
      requires Valid()
      modifies this
      ensures Valid()
      ensures State() == Inserted(old(State()), Draft(itemName, quantity, unit, pricePerUnit, warehouseName))
    {
      InsertedValid(State(), Draft(itemName, quantity, unit, pricePerUnit, warehouseName));
      rows := rows + [StockEntry(nextId, itemName, quantity, unit, pricePerUnit, warehouseName)];
      nextId := nextId + 1;
    }

    method Update(id: int, f: FieldValue)
      requires Valid()
      modifies this
      ensures Valid()
      ensures rows == UpdateById(old(rows), id, f) && nextId == old(nextId)
    {
      UpdateValid(State(), id, f);
      rows := UpdateById(rows, id, f);
    }

    /** `updateStockItemName`: the item name of the row with this id, and nothing else. */
    method UpdateStockItemName(id: int, newItemName: string)
      requires Valid()
      modifies this
      ensures Valid()
      ensures rows == UpdateById(old(rows), id, NewItemName(newItemName)) && nextId == old(nextId)
    {
      Update(id, NewItemName(newItemName));
    }

    /** `updateStockQuantity`: the quantity of the row with this id, and nothing else. */
    method UpdateStockQuantity(id: int, newQuantity: real)
      requires Valid()
      modifies this
      ensures Valid()
      ensures rows == UpdateById(old(rows), id, NewQuantity(newQuantity)) && nextId == old(nextId)
    {
      Update(id, NewQuantity(newQuantity));
    }

    /** `updateStockUnit`: the unit of the row with this id, and nothing else. */
    method UpdateStockUnit(id: int, newUnit: Unit)
      requires Valid()
      modifies this
      ensures Valid()
      ensures rows == UpdateById(old(rows), id, NewUnit(newUnit)) && nextId == old(nextId)
    {
      Update(id, NewUnit(newUnit));
    }

    /** `updateStockPricePerUnit`: the price of the row with this id, and nothing else. */
    method UpdateStockPricePerUnit(id: int, newPrice: real)
      requires Valid()
      modifies this
      ensures Valid()
      ensures rows == UpdateById(old(rows), id, NewPricePerUnit(newPrice)) && nextId == old(nextId)
    {
      Update(id, NewPricePerUnit(newPrice));
    }

    /** `updateStockWarehouseName`: the warehouse of the row with this id, and nothing else. */
    method UpdateStockWarehouseName(id: int, newWarehouse: string)
      requires Valid()
      modifies this
      ensures Valid()
      ensures rows == UpdateById(old(rows), id, NewWarehouseName(newWarehouse)) && nextId == old(nextId)
    {
      Update(id, NewWarehouseName(newWarehouse));
    }

    /** `deleteStock`: removes every row with the entry's business key, whatever its id. */
    method DeleteStock(stockEntry: StockEntry)
      requires Valid()
      modifies this
      ensures Valid()
      ensures rows == WithoutKey(old(rows), KeyOf(stockEntry)) && nextId == old(nextId)
    {
      DeleteValid(State(), KeyOf(stockEntry));
      rows := WithoutKey(rows, KeyOf(stockEntry));
    }

    /** `upsertStock`: adds the quantity to the rows with this key, or inserts a row when there is none. */
    method UpsertStock(itemName: string, quantity: real, unit: Unit, pricePerUnit: real, warehouseName: string)
      requires Valid()
      modifies this
      ensures Valid()
      ensures State() == Upserted(old(State()), Draft(itemName, quantity, unit, pricePerUnit, warehouseName))
    {
      var d := Draft(itemName, quantity, unit, pricePerUnit, warehouseName);
      UpsertedValid(State(), d);
      var next := Upserted(State(), d);
      rows, nextId := next.rows, next.nextId;
    }
  }
}
