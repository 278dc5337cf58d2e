/** The InventoryTransaction entity: one row of the stock ledger. */
module Transactions {
  import opened Common

  /** `TransactionType`. The engine writes only the first two. */
  datatype TransactionType = StockIn | StockOut | Adjustment

  /** `transactionDate`: an abstract creation instant. The store hands out
      increasing values, standing in for the clock behind `@CreationTimestamp`. */
  type Timestamp = nat

  /** A ledger row. `product`, `kind` and `quantity` are `NOT NULL` columns, so
      a stored row always has them; the remaining strings are nullable. The
      quantity is a magnitude: the direction of the movement is the kind. */
  datatype Transaction = Transaction(
    product: Id,
    kind: TransactionType,
    quantity: int,
    referenceNumber: Option<string>,
    notes: Option<string>,
    date: Timestamp,
    createdBy: Option<string>)

  /** The bean-validation constraints of a row: a quantity of at least 1, and
      reference number, notes and author within 50, 500 and 100 characters. */
  predicate Valid(t: Transaction)
    ensures Valid(t) ==> t.quantity > 0
    ensures Valid(t) && t.createdBy.Some? ==> |t.createdBy.value| <= 100
  {
    && t.quantity >= 1
    && AtMost(t.referenceNumber, 50)
    && AtMost(t.notes, 500)
    && AtMost(t.createdBy, 100)
  }
}
