/**
 * The transaction ledger (src/main/java/com/inventory/repository/TransactionRepository.java):
 * an append-only table whose ids the store assigns. `getById` is a point lookup,
 * `createTransaction` an INSERT.
 */
module Transactions {
  import opened Wrappers
  import opened Units
  import opened Records

  /** The `transactions` table as a value: its rows in insertion order and the next id to hand out. */
  datatype Ledger = Ledger(rows: seq<Transaction>, nextId: int)

  /** Store-assigned ids: positive, strictly increasing in row order and below the next id. */
  ghost predicate LedgerValid(l: Ledger) {
    && 0 < l.nextId
    && (forall i :: 0 <= i < |l.rows| ==> 0 < l.rows[i].id < l.nextId)
    && (forall i, j :: 0 <= i < j < |l.rows| ==> l.rows[i].id < l.rows[j].id)
  }

  /** `SELECT * FROM transactions WHERE id = :id`, as an Optional. */
  function LookupId(rows: seq<Transaction>, id: int): (r: Option<Transaction>)
    ensures r.Some? ==> r.value in rows && r.value.id == id
    ensures r.None? <==> forall t :: t in rows ==> t.id != id
  {
    if rows == [] then None
    else if rows[0].id == id then Some(rows[0])
    else LookupId(rows[1..], id)
  }

  /** The INSERT of `createTransaction`: one row at the end, under the next id. */
  function Appended(l: Ledger, d: Draft): (r: Ledger)
    ensures |r.rows| == |l.rows| + 1 && r.rows[..|l.rows|] == l.rows
    ensures r.nextId > l.nextId
  {
    Ledger(l.rows + [TransactionRow(l.nextId, d)], l.nextId + 1)
  }

  /** Appending keeps the ids store-assigned. */
  lemma AppendedValid(l: Ledger, d: Draft)
    requires LedgerValid(l)
    ensures LedgerValid(Appended(l, d))
  {
  }

  /** With distinct ids, every row is what a lookup of its id returns. */
  lemma {:induction false} LookupFindsRow(l: Ledger, i: int)
    requires LedgerValid(l)
    requires 0 <= i < |l.rows|
    ensures LookupId(l.rows, l.rows[i].id) == Some(l.rows[i])
    decreases i
  {
    if i > 0 {
      var tail := Ledger(l.rows[1..], l.nextId);
      assert LedgerValid(tail) by {
        forall k | 0 <= k < |tail.rows| ensures 0 < tail.rows[k].id < tail.nextId {
          assert tail.rows[k] == l.rows[k + 1];
        }
        forall j, k | 0 <= j < k < |tail.rows| ensures tail.rows[j].id < tail.rows[k].id {
          assert tail.rows[j] == l.rows[j + 1] && tail.rows[k] == l.rows[k + 1];
        }
      }
      assert l.rows[0].id != l.rows[i].id;
      assert tail.rows[i - 1] == l.rows[i];
      LookupFindsRow(tail, i - 1);
    }
  }

  /** A lookup in a longer table finds the earlier rows first. */
  lemma {:induction false} LookupConcat(rows: seq<Transaction>, t: Transaction, id: int)
    ensures LookupId(rows + [t], id) ==
            if LookupId(rows, id).Some? then LookupId(rows, id)
            else if t.id == id then Some(t) else None
  {
    if rows != [] {
      assert (rows + [t])[1..] == rows[1..] + [t];
      LookupConcat(rows[1..], t, id);
    }
  }

  /** `getById` after `createTransaction`: the new id finds the new row, every other id finds what it found before. */
  lemma CreateThenGet(l: Ledger, d: Draft, id: int)
    requires LedgerValid(l)
    ensures LookupId(Appended(l, d).rows, id) ==
            if id == l.nextId then Some(TransactionRow(l.nextId, d)) else LookupId(l.rows, id)
  {
    LookupConcat(l.rows, TransactionRow(l.nextId, d), id);
  }

  class TransactionRepository {
    var rows: seq<Transaction>
    var nextId: int

    ghost predicate Valid()
      reads this
    {
      LedgerValid(Ledger(rows, nextId))
    }

    function State(): Ledger
      reads this
    {
      Ledger(rows, nextId)
    }

    /** An empty table whose identity column starts at 1. */
    constructor ()
      ensures Valid()
      ensures rows == [] && nextId == 1
    {
      rows := [];
      nextId := 1;
    }

    /** `getById`: the row with that id, or None; the table is only read. */
    method GetById(id: int) returns (r: Option<Transaction>)
      ensures r == LookupId(rows, id)
      ensures r.Some? ==> r.value in rows && r.value.id == id
      ensures r.None? <==> forall t :: t in rows ==> t.id != id
    {
      r := LookupId(rows, id);
    }

    /** `createTransaction`: appends one row with exactly the five given values; existing rows are kept. */
    method CreateTransaction(itemName: string, quantity: real, unit: Unit, pricePerUnit: real, warehouseName: string)
      requires Valid()
      modifies this
      ensures Valid()
      ensures State() == Appended(old(State()), Draft(itemName, quantity, unit, pricePerUnit, warehouseName))
      ensures rows == old(rows) + [Transaction(old(nextId), itemName, quantity, unit, pricePerUnit, warehouseName)]
    {
      AppendedValid(State(), Draft(itemName, quantity, unit, pricePerUnit, warehouseName));
      rows := rows + [Transaction(nextId, itemName, quantity, unit, pricePerUnit, warehouseName)];
      nextId := nextId + 1;
    }
  }
}
