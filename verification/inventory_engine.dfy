/** The stock ledger engine as a state transformer: what one `addStock` or
    `removeStock` call does to the product table, the ledger and the
    notification log, and what it returns. The service class in module
    `Inventory` performs the same calls step by step and is proved to agree
    with these functions. */
module InventoryEngine {
  import opened Common
  import opened Products
  import opened Transactions
  import opened StockAdjustments
  import opened Notifications
  import opened Store

  /** The part of the store the engine touches, plus the notifications sent. */
  datatype Engine = Engine(
    products: map<Id, Product>,
    ledger: seq<Transaction>,
    clock: Timestamp,
    events: seq<Event>)

  /** `getCurrentUsername`: the name of the authenticated principal, or
      "system" when nobody is authenticated (`actor` is `None`). */
  function CurrentUsername(actor: Option<string>): (u: string)
    ensures actor.Some? ==> u == actor.value
    ensures actor.None? ==> u == "system"
    ensures AtMost(actor, 100) ==> |u| <= 100
  {
    actor.GetOr("system")
  }

  /** The row both mutators build: the request's quantity, reference number and
      notes, the current user as author, and the given creation instant. */
  function BuildRow(productId: Id, kind: TransactionType, req: StockAdjustment, actor: Option<string>,
                    date: Timestamp): (r: Transaction)
    requires req.quantity.Some?
    ensures r.product == productId && r.kind == kind && r.date == date
    ensures r.quantity == req.quantity.value
    ensures r.referenceNumber == req.referenceNumber && r.notes == req.notes
    ensures r.createdBy == Some(CurrentUsername(actor))
    ensures StockAdjustments.Valid(req) && AtMost(actor, 100) ==> Transactions.Valid(r)
  {
    Transaction(productId, kind, req.quantity.value, req.referenceNumber, req.notes, date,
                Some(CurrentUsername(actor)))
  }

  /** `addStock`. A missing product raises NotFound before anything is written.
      Otherwise the stock grows by the quantity, one `STOCK_IN` row is saved,
      the product is saved, and one stock-update notification is sent. */
  function AddStockStep(e: Engine, req: StockAdjustment, actor: Option<string>): (r: (Engine, Result<ProductDto>))
    requires StockAdjustments.Valid(req)
    ensures r.1.Success? <==> req.productId.value in e.products
    ensures r.1.Failure? ==> r.0 == e
    ensures r.0.products.Keys == e.products.Keys
    ensures r.1.Success? ==> |r.0.ledger| == |e.ledger| + 1 && r.0.ledger[..|e.ledger|] == e.ledger
                             && r.0.clock == e.clock + 1
  {
    var id := req.productId.value;
    if id !in e.products then (e, Failure(NotFound("Product", id)))
    else
      var product := e.products[id];
      var previous := product.currentStock;
      var saved := product.(currentStock := previous + req.quantity.value);
      var row := BuildRow(id, StockIn, req, actor, e.clock);
      (Engine(e.products[id := saved], e.ledger + [row], e.clock + 1,
              e.events + [StockUpdate(id, product.name, previous, saved.currentStock, "STOCK_IN")]),
       Success(ToDto(id, saved)))
  }

  /** `removeStock`. A missing product raises NotFound, and a quantity above the
      current stock raises InsufficientStock with the stock available, both
      before anything is written. Otherwise the stock shrinks by the quantity,
      one `STOCK_OUT` row is saved, the product is saved, a stock-update
      notification is sent, and then a low-stock notification if the saved
      product is at or below its reorder level. */
  function RemoveStockStep(e: Engine, req: StockAdjustment, actor: Option<string>): (r: (Engine, Result<ProductDto>))
    requires StockAdjustments.Valid(req)
    ensures r.1.Success? <==> req.productId.value in e.products
                              && req.quantity.value <= e.products[req.productId.value].currentStock
    ensures r.1.Failure? ==> r.0 == e
    ensures r.0.products.Keys == e.products.Keys
    ensures r.1.Success? ==> r.0.products[req.productId.value].currentStock >= 0
    ensures r.1.Success? ==> |r.0.ledger| == |e.ledger| + 1 && r.0.ledger[..|e.ledger|] == e.ledger
                             && r.0.clock == e.clock + 1
  {
    var id := req.productId.value;
    var quantity := req.quantity.value;
    if id !in e.products then (e, Failure(NotFound("Product", id)))
    else
      var product := e.products[id];
      var previous := product.currentStock;
      if previous < quantity then (e, Failure(InsufficientStock(id, quantity, previous)))
      else
        var saved := product.(currentStock := previous - quantity);
        var row := BuildRow(id, StockOut, req, actor, e.clock);
        var alert := if LowStock(saved)
                     then [LowStockAlert(id, saved.name, saved.currentStock, saved.reorderLevel)]
                     else [];
        (Engine(e.products[id := saved], e.ledger + [row], e.clock + 1,
                e.events + [StockUpdate(id, product.name, previous, saved.currentStock, "STOCK_OUT")] + alert),
         Success(ToDto(id, saved)))
  }

  /** One stock call, as issued through the inventory endpoints. */
  datatype Call =
    | AddStock(req: StockAdjustment, actor: Option<string>)
    | RemoveStock(req: StockAdjustment, actor: Option<string>)

  /** A call the endpoints let through: a valid request, and an author name
      that fits the row's `createdBy` column. */
  predicate CallValid(c: Call) {
    StockAdjustments.Valid(c.req) && AtMost(c.actor, 100)
  }

  /** The engine after one call (failed calls leave it as it was). */
  function Apply(e: Engine, c: Call): Engine
    requires CallValid(c)
  {
    match c
    case AddStock(req, actor) => AddStockStep(e, req, actor).0
    case RemoveStock(req, actor) => RemoveStockStep(e, req, actor).0
  }

  /** The engine after a sequence of calls, made one after another. */
  function Run(e: Engine, calls: seq<Call>): Engine
    requires forall i :: 0 <= i < |calls| ==> CallValid(calls[i])
    decreases |calls|
  {
    if calls == [] then e else Run(Apply(e, calls[0]), calls[1..])
  }
}
