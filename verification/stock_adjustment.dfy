/** StockAdjustmentDTO: the request body of a stock-in or stock-out call, and
    the validity the controller's `@Valid` enforces before the engine runs. */
module StockAdjustments {
  import opened Common

  /** The request. Every field is a nullable Java reference. */
  datatype StockAdjustment = StockAdjustment(
    productId: Option<Id>,
    quantity: Option<int>,
    referenceNumber: Option<string>,
    notes: Option<string>)

  /** Product id and quantity are required, the quantity is at least 1, the
      reference number is at most 50 characters and the notes at most 500. */
  predicate Valid(req: StockAdjustment)
    ensures Valid(req) ==> req.productId.Some? && req.quantity.Some? && req.quantity.value > 0
  {
    && req.productId.Some?
    && req.quantity.Some? && req.quantity.value >= 1
    && AtMost(req.referenceNumber, 50)
    && AtMost(req.notes, 500)
  }
}
