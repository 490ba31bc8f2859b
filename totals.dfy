/**
 * The quantity held under a business key, summed over every row that carries it,
 * and how each table operation changes it.
 */
module Totals {
  import opened Records
  import opened Stocks

  /** The sum of the quantities of the rows with key k. */
  function Total(rows: seq<StockEntry>, k: StockKey): real {
    if rows == [] then 0.0
    else Share(rows[0], k) + Total(rows[1..], k)
  }

  /** What a quantity q booked under `key` contributes to the total under k. */
  function Contribution(key: StockKey, q: real, k: StockKey): real {
    if k == key then q else 0.0
  }

  /** What one row contributes to the total under k. */
  function Share(e: StockEntry, k: StockKey): real {
    Contribution(KeyOf(e), e.quantity, k)
  }

  /** A row appended at the end adds its share. */
  lemma {:induction false} TotalAppend(rows: seq<StockEntry>, x: StockEntry, k: StockKey)
    ensures Total(rows + [x], k) == Total(rows, k) + Share(x, k)
  {
    if rows != [] {
      assert (rows + [x])[1..] == rows[1..] + [x];
      TotalAppend(rows[1..], x, k);
    }
  }

  /** Replacing row i trades its share for the new row's. */
  lemma {:induction false} TotalReplace(rows: seq<StockEntry>, i: int, x: StockEntry, k: StockKey)
    requires 0 <= i < |rows|
    ensures Total(rows[i := x], k) == Total(rows, k) - Share(rows[i], k) + Share(x, k)
  {
    if i > 0 {
      assert rows[i := x][1..] == rows[1..][i - 1 := x];
      TotalReplace(rows[1..], i - 1, x, k);
    } else {
      assert rows[i := x][1..] == rows[1..];
    }
  }

  /** Deleting key k' empties k' and leaves every other key's total as it was. */
  lemma {:induction false} TotalWithoutKey(rows: seq<StockEntry>, k': StockKey, k: StockKey)
    ensures Total(WithoutKey(rows, k'), k) == if k == k' then 0.0 else Total(rows, k)
  {
    if rows != [] {
      TotalWithoutKey(rows[1..], k', k);
      if KeyOf(rows[0]) != k' {
        assert ([rows[0]] + WithoutKey(rows[1..], k'))[1..] == WithoutKey(rows[1..], k');
      }
    }
  }

  /** Without a row for k the total is zero. */
  lemma {:induction false} TotalAbsent(rows: seq<StockEntry>, k: StockKey)
    requires !HasKey(rows, k)
    ensures Total(rows, k) == 0.0
  {
    if rows != [] {
      assert KeyOf(rows[0]) != k;
      assert !HasKey(rows[1..], k) by {
        forall j | 0 <= j < |rows[1..]| ensures KeyOf(rows[1..][j]) != k {
          assert rows[1..][j] == rows[j + 1];
        }
      }
      TotalAbsent(rows[1..], k);
    }
  }

  /** With unique keys, the total under the key of row i is that row's quantity. */
  lemma {:induction false} TotalUnique(rows: seq<StockEntry>, i: int)
    requires KeysUnique(rows) && 0 <= i < |rows|
    ensures Total(rows, KeyOf(rows[i])) == rows[i].quantity
  {
    var k := KeyOf(rows[i]);
    if i == 0 {
      assert !HasKey(rows[1..], k) by {
        forall j | 0 <= j < |rows[1..]| ensures KeyOf(rows[1..][j]) != k {
          assert rows[1..][j] == rows[j + 1];
        }
      }
      TotalAbsent(rows[1..], k);
    } else {
      assert KeysUnique(rows[1..]) by {
        forall a, b | 0 <= a < b < |rows[1..]| ensures KeyOf(rows[1..][a]) != KeyOf(rows[1..][b]) {
          assert rows[1..][a] == rows[a + 1] && rows[1..][b] == rows[b + 1];
        }
      }
      assert rows[1..][i - 1] == rows[i];
      TotalUnique(rows[1..], i - 1);
    }
  }

  /** An upsert adds its quantity to the total under its key, and to no other, while keys are unique. */
  lemma UpsertedTotal(t: StockTable, d: Draft, k: StockKey)
    requires KeysUnique(t.rows)
    ensures Total(Upserted(t, d).rows, k) == Total(t.rows, k) + (if k == DraftKey(d) then d.quantity else 0.0)
  {
    if HasKey(t.rows, DraftKey(d)) {
      var i :| 0 <= i < |t.rows| && KeyOf(t.rows[i]) == DraftKey(d);
      UpsertExisting(t, d, i);
      TotalReplace(t.rows, i, t.rows[i].(quantity := t.rows[i].quantity + d.quantity), k);
    } else {
      TotalAppend(t.rows, StockRow(t.nextId, d), k);
    }
  }
}
