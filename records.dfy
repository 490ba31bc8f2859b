/**
 * The two row types of the system and the values derived from them.
 * `Transaction` is the record in src/main/java/com/inventory/model/Transaction.java;
 * `StockEntry` has the same six components (id, item name, quantity, unit,
 * price per unit, warehouse name). Java's `Double` becomes `real`, `Long` becomes `int`.
 */
module Records {
  import opened Units

  /** A ledger row. */
  datatype Transaction = Transaction(
    id: int,
    itemName: string,
    quantity: real,
    unit: Unit,
    pricePerUnit: real,
    warehouseName: string)

  /** A row of the stock aggregate. */
  datatype StockEntry = StockEntry(
    id: int,
    itemName: string,
    quantity: real,
    unit: Unit,
    pricePerUnit: real,
    warehouseName: string)

  /**
   * A transaction before the store has given it an id: the `Transaction`
   * the service builds with a null id, of which only the five values are used.
   */
  datatype Draft = Draft(
    itemName: string,
    quantity: real,
    unit: Unit,
    pricePerUnit: real,
    warehouseName: string)

  /** The business key of a stock row: (item name, warehouse name, price per unit). */
  datatype StockKey = StockKey(itemName: string, warehouseName: string, pricePerUnit: real)

  function KeyOf(e: StockEntry): StockKey {
    StockKey(e.itemName, e.warehouseName, e.pricePerUnit)
  }

  function DraftKey(d: Draft): StockKey {
    StockKey(d.itemName, d.warehouseName, d.pricePerUnit)
  }

  function TransactionKey(t: Transaction): StockKey {
    StockKey(t.itemName, t.warehouseName, t.pricePerUnit)
  }

  /** The row a store writes for `d` under the id it assigns. */
  function TransactionRow(id: int, d: Draft): Transaction {
    Transaction(id, d.itemName, d.quantity, d.unit, d.pricePerUnit, d.warehouseName)
  }

  function StockRow(id: int, d: Draft): StockEntry {
    StockEntry(id, d.itemName, d.quantity, d.unit, d.pricePerUnit, d.warehouseName)
  }
}
