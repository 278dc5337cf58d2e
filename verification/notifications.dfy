/** The notification sink the stock engine calls after a write. The logging
    implementation only writes log lines; the model records each call, in the
    order made, so the order and the arguments of the notifications can be
    stated. */
module Notifications {
  import opened Common

  /** One call into the sink. */
  datatype Event =
    | StockUpdate(productId: Id, productName: string, previousStock: int, newStock: int, operationType: string)
    | LowStockAlert(productId: Id, productName: string, currentStock: int, reorderLevel: int)

  /** The sink: the calls made so far. */
  class NotificationLog {
    var events: seq<Event>

    constructor ()
      ensures events == []
    {
      events := [];
    }

    /** `notifyStockUpdate`. */
    method NotifyStockUpdate(productId: Id, productName: string, previousStock: int, newStock: int,
                             operationType: string)
      modifies this
      ensures events == old(events) + [StockUpdate(productId, productName, previousStock, newStock, operationType)]
    {
      events := events + [StockUpdate(productId, productName, previousStock, newStock, operationType)];
    }

    /** `notifyLowStock`. */
    method NotifyLowStock(productId: Id, productName: string, currentStock: int, reorderLevel: int)
      modifies this
      ensures events == old(events) + [LowStockAlert(productId, productName, currentStock, reorderLevel)]
    {
      events := events + [LowStockAlert(productId, productName, currentStock, reorderLevel)];
    }
  }
}
