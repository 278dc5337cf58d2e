/** What the stock engine promises: the effect of each call, its error cases,
    the order of its notifications, and the ledger-consistency invariant that
    every sequence of calls keeps. */
module InventoryProperties {
  import opened Common
  import opened Products
  import opened Transactions
  import opened StockAdjustments
  import opened TransactionQueries
  import opened Notifications
  import opened Store
  import opened InventoryEngine

  /** Both mutators reject an unknown product with NotFound, and the product
      table, the ledger and the notification log are left as they were. */
  lemma UnknownProductFails(e: Engine, req: StockAdjustment, actor: Option<string>)
    requires StockAdjustments.Valid(req) && req.productId.value !in e.products
    ensures AddStockStep(e, req, actor) == (e, Failure(NotFound("Product", req.productId.value)))
    ensures RemoveStockStep(e, req, actor) == (e, Failure(NotFound("Product", req.productId.value)))
  {
  }

  /** `addStock` of a known product: the stock grows by exactly the quantity and
      nothing else in the table changes; exactly one `STOCK_IN` row is appended,
      carrying the request's quantity, reference and notes and the current user
      ("system" when unauthenticated); exactly one stock-update notification is
      sent and never a low-stock one; the returned product is the saved one. */
  lemma AddStockEffect(e: Engine, req: StockAdjustment, actor: Option<string>)
    requires StockAdjustments.Valid(req) && req.productId.value in e.products
    ensures var id := req.productId.value;
            var quantity := req.quantity.value;
            var p := e.products[id];
            var after := AddStockStep(e, req, actor).0;
            && after.products == e.products[id := p.(currentStock := p.currentStock + quantity)]
            && after.ledger == e.ledger + [Transaction(id, StockIn, quantity, req.referenceNumber, req.notes,
                                                       e.clock, Some(if actor.None? then "system" else actor.value))]
            && after.events == e.events + [StockUpdate(id, p.name, p.currentStock, p.currentStock + quantity, "STOCK_IN")]
            && AddStockStep(e, req, actor).1 == Success(ToDto(id, after.products[id]))
    ensures forall ev :: ev in AddStockStep(e, req, actor).0.events[|e.events|..] ==> !ev.LowStockAlert?
  {
  }

  /** `removeStock` of more than the current stock: InsufficientStock carrying
      the product id, the quantity requested and the stock available, with no
      stock change, no ledger row and no notification. */
  lemma RemoveStockInsufficient(e: Engine, req: StockAdjustment, actor: Option<string>)
    requires StockAdjustments.Valid(req) && req.productId.value in e.products
    requires e.products[req.productId.value].currentStock < req.quantity.value
    ensures var id := req.productId.value;
            RemoveStockStep(e, req, actor)
              == (e, Failure(InsufficientStock(id, req.quantity.value, e.products[id].currentStock)))
  {
  }

  /** `removeStock` of at most the current stock: the stock shrinks by exactly
      the quantity (so it stays at or above zero, and removing all of it leaves
      zero), exactly one `STOCK_OUT` row is appended, the stock-update
      notification comes first, and a low-stock notification with the new stock
      and the reorder level follows exactly when the new stock is at or below
      the reorder level. */
  lemma RemoveStockEffect(e: Engine, req: StockAdjustment, actor: Option<string>)
    requires StockAdjustments.Valid(req) && req.productId.value in e.products
    requires req.quantity.value <= e.products[req.productId.value].currentStock
    ensures var id := req.productId.value;
            var quantity := req.quantity.value;
            var p := e.products[id];
            var newStock := p.currentStock - quantity;
            var after := RemoveStockStep(e, req, actor).0;
            && newStock >= 0
            && after.products == e.products[id := p.(currentStock := newStock)]
            && after.ledger == e.ledger + [Transaction(id, StockOut, quantity, req.referenceNumber, req.notes,
                                                       e.clock, Some(if actor.None? then "system" else actor.value))]
            && after.events == e.events + [StockUpdate(id, p.name, p.currentStock, newStock, "STOCK_OUT")]
                               + (if newStock <= p.reorderLevel then [LowStockAlert(id, p.name, newStock, p.reorderLevel)] else [])
            && RemoveStockStep(e, req, actor).1 == Success(ToDto(id, after.products[id]))
  {
  }

  /** A successful removal raises a low-stock notification if and only if the
      new stock is at or below the reorder level; the stock-update notification
      is always the first one sent. */
  lemma {:induction false} LowStockAlertIff(e: Engine, req: StockAdjustment, actor: Option<string>)
    requires StockAdjustments.Valid(req) && req.productId.value in e.products
    requires req.quantity.value <= e.products[req.productId.value].currentStock
    ensures var p := e.products[req.productId.value];
            var sent := RemoveStockStep(e, req, actor).0.events[|e.events|..];
            && |sent| >= 1 && sent[0].StockUpdate?
            && ((exists ev :: ev in sent && ev.LowStockAlert?) <==> p.currentStock - req.quantity.value <= p.reorderLevel)
  {
    RemoveStockEffect(e, req, actor);
    var p := e.products[req.productId.value];
    var newStock := p.currentStock - req.quantity.value;
    var after := RemoveStockStep(e, req, actor).0;
    var first := StockUpdate(req.productId.value, p.name, p.currentStock, newStock, "STOCK_OUT");
    var alert := if newStock <= p.reorderLevel then [LowStockAlert(req.productId.value, p.name, newStock, p.reorderLevel)] else [];
    assert after.events[|e.events|..] == [first] + alert;
    if newStock <= p.reorderLevel {
      assert ([first] + alert)[1] in [first] + alert;
    }
  }

  /** `addStock(q)` followed by `removeStock(q)` on the same product succeeds,
      restores the product table exactly, keeps the earlier rows, and appends
      exactly two rows: a `STOCK_IN` and then a `STOCK_OUT` of `q`. */
  lemma AddThenRemoveRestores(e: Engine, req: StockAdjustment, actor: Option<string>)
    requires StockAdjustments.Valid(req) && req.productId.value in e.products
    requires e.products[req.productId.value].currentStock >= 0
    ensures var mid := AddStockStep(e, req, actor).0;
            var last := RemoveStockStep(mid, req, actor);
            && last.1.Success?
            && last.0.products == e.products
            && |last.0.ledger| == |e.ledger| + 2
            && last.0.ledger[..|e.ledger|] == e.ledger
            && last.0.ledger[|e.ledger|].kind == StockIn && last.0.ledger[|e.ledger| + 1].kind == StockOut
            && last.0.ledger[|e.ledger|].quantity == req.quantity.value == last.0.ledger[|e.ledger| + 1].quantity
  {
    var id := req.productId.value;
    AddStockEffect(e, req, actor);
    var mid := AddStockStep(e, req, actor).0;
    RemoveStockEffect(mid, req, actor);
    var p := e.products[id];
    assert p.(currentStock := p.currentStock + req.quantity.value).(currentStock := p.currentStock) == p;
    assert mid.products[id := p] == e.products;
  }

  /** The row either mutator builds from a valid request, with an author of at
      most 100 characters, satisfies the row constraints. */
  lemma BuildRowValid(productId: Id, kind: TransactionType, req: StockAdjustment, actor: Option<string>,
                      date: Timestamp)
    requires StockAdjustments.Valid(req) && AtMost(actor, 100)
    ensures Transactions.Valid(BuildRow(productId, kind, req, actor, date))
  {
    assert |"system"| == 6;
  }

  /** A successful `addStock` moves its product by the row it appends. */
  lemma AddStockMoves(e: Engine, req: StockAdjustment, actor: Option<string>)
    requires StockAdjustments.Valid(req) && req.productId.value in e.products
    ensures var row := BuildRow(req.productId.value, StockIn, req, actor, e.clock);
            var after := AddStockStep(e, req, actor).0;
            after.products == Moved(e.products, row) && after.ledger == e.ledger + [row] && after.clock == e.clock + 1
  {
  }

  /** A successful `removeStock` moves its product by the row it appends. */
  lemma RemoveStockMoves(e: Engine, req: StockAdjustment, actor: Option<string>)
    requires StockAdjustments.Valid(req) && req.productId.value in e.products
    requires req.quantity.value <= e.products[req.productId.value].currentStock
    ensures var row := BuildRow(req.productId.value, StockOut, req, actor, e.clock);
            var after := RemoveStockStep(e, req, actor).0;
            after.products == Moved(e.products, row) && after.ledger == e.ledger + [row] && after.clock == e.clock + 1
  {
  }

  /** `addStock` keeps the product table valid and the ledger consistent with
      the cached stock. */
  lemma AddStockKeepsInvariants(e: Engine, req: StockAdjustment, actor: Option<string>, opening: map<Id, int>,
                                suppliers: map<Id, Catalog.Supplier>, nextProductId: Id)
    requires StockAdjustments.Valid(req) && AtMost(actor, 100)
    requires ProductsValid(e.products, suppliers, nextProductId)
    requires LedgerValid(e.products, e.ledger, e.clock, opening)
    ensures var after := AddStockStep(e, req, actor).0;
            ProductsValid(after.products, suppliers, nextProductId)
            && LedgerValid(after.products, after.ledger, after.clock, opening)
  {
    var id := req.productId.value;
    if id in e.products {
      var row := BuildRow(id, StockIn, req, actor, e.clock);
      BuildRowValid(id, StockIn, req, actor, e.clock);
      AddStockMoves(e, req, actor);
      MoveKeepsLedgerValid(e.products, e.ledger, e.clock, opening, row);
      MoveKeepsProductsValid(e.products, suppliers, nextProductId, row);
    }
  }

  /** `removeStock` keeps the product table valid and the ledger consistent
      with the cached stock. */
  lemma RemoveStockKeepsInvariants(e: Engine, req: StockAdjustment, actor: Option<string>, opening: map<Id, int>,
                                   suppliers: map<Id, Catalog.Supplier>, nextProductId: Id)
    requires StockAdjustments.Valid(req) && AtMost(actor, 100)
    requires ProductsValid(e.products, suppliers, nextProductId)
    requires LedgerValid(e.products, e.ledger, e.clock, opening)
    ensures var after := RemoveStockStep(e, req, actor).0;
            ProductsValid(after.products, suppliers, nextProductId)
            && LedgerValid(after.products, after.ledger, after.clock, opening)
  {
    var id := req.productId.value;
    if id in e.products && req.quantity.value <= e.products[id].currentStock {
      var row := BuildRow(id, StockOut, req, actor, e.clock);
      BuildRowValid(id, StockOut, req, actor, e.clock);
      RemoveStockMoves(e, req, actor);
      MoveKeepsLedgerValid(e.products, e.ledger, e.clock, opening, row);
      MoveKeepsProductsValid(e.products, suppliers, nextProductId, row);
    }
  }

  /** One call keeps the ledger consistent, keeps the set of products, and only
      appends to the ledger, at most one row. */
  lemma ApplyKeepsLedgerValid(e: Engine, c: Call, opening: map<Id, int>)
    requires CallValid(c)
    requires LedgerValid(e.products, e.ledger, e.clock, opening)
    ensures var after := Apply(e, c);
            && LedgerValid(after.products, after.ledger, after.clock, opening)
            && after.products.Keys == e.products.Keys
            && e.ledger <= after.ledger && |after.ledger| <= |e.ledger| + 1
  {
    var id := c.req.productId.value;
    if id in e.products {
      var kind := if c.AddStock? then StockIn else StockOut;
      var row := BuildRow(id, kind, c.req, c.actor, e.clock);
      BuildRowValid(id, kind, c.req, c.actor, e.clock);
      if c.AddStock? {
        AddStockMoves(e, c.req, c.actor);
        MoveKeepsLedgerValid(e.products, e.ledger, e.clock, opening, row);
      } else if c.req.quantity.value <= e.products[id].currentStock {
        RemoveStockMoves(e, c.req, c.actor);
        MoveKeepsLedgerValid(e.products, e.ledger, e.clock, opening, row);
      }
    }
  }

  /** Any sequence of calls keeps every product's stock equal to its opening
      stock plus its `STOCK_IN` quantities minus its `STOCK_OUT` quantities;
      the rows already in the ledger are never modified, and each call adds at
      most one row. */
  lemma {:induction false} RunKeepsLedgerValid(e: Engine, calls: seq<Call>, opening: map<Id, int>)
    requires forall i :: 0 <= i < |calls| ==> CallValid(calls[i])
    requires LedgerValid(e.products, e.ledger, e.clock, opening)
    ensures var after := Run(e, calls);
            && LedgerValid(after.products, after.ledger, after.clock, opening)
            && after.products.Keys == e.products.Keys
            && e.ledger <= after.ledger && |after.ledger| <= |e.ledger| + |calls|
    decreases |calls|
  {
    if calls != [] {
      ApplyKeepsLedgerValid(e, calls[0], opening);
      RunKeepsLedgerValid(Apply(e, calls[0]), calls[1..], opening);
    }
  }

  /** Starting from an empty ledger, after any sequence of calls each product's
      stock is its starting stock plus `sumQuantityByProductAndType(STOCK_IN)`
      minus `sumQuantityByProductAndType(STOCK_OUT)`. */
  lemma RunFromEmptyLedger(e: Engine, calls: seq<Call>)
    requires forall i :: 0 <= i < |calls| ==> CallValid(calls[i])
    requires e.ledger == []
    ensures var after := Run(e, calls);
            forall id :: id in e.products ==>
              && id in after.products
              && after.products[id].currentStock
                 == e.products[id].currentStock
                    + SumQuantityByProductAndType(after.ledger, id, StockIn)
                    - SumQuantityByProductAndType(after.ledger, id, StockOut)
  {
    var opening := map id | id in e.products :: e.products[id].currentStock;
    assert LedgerValid(e.products, e.ledger, e.clock, opening);
    RunKeepsLedgerValid(e, calls, opening);
    var after := Run(e, calls);
    forall id | id in e.products
      ensures after.products[id].currentStock
              == e.products[id].currentStock
                 + SumQuantityByProductAndType(after.ledger, id, StockIn)
                 - SumQuantityByProductAndType(after.ledger, id, StockOut)
    {
      NetMovementIsSums(after.ledger, id);
    }
  }

  /** The service's own test scenarios: 100 + 50 gives 150 with a stock-update
      notification (100, 150); 100 - 30 gives 70; removing 50 from 20 fails
      with 20 available; 15 - 10 gives 5 and a low-stock notification (5, 10). */
  lemma ServiceScenarios(e: Engine, id: Id, actor: Option<string>)
    requires id in e.products
    ensures var p := e.products[id];
            var in50 := StockAdjustment(Some(id), Some(50), Some("PO-001"), Some("Test stock in"));
            p.currentStock == 100 ==>
              && AddStockStep(e, in50, actor).0.products[id].currentStock == 150
              && AddStockStep(e, in50, actor).0.events == e.events + [StockUpdate(id, p.name, 100, 150, "STOCK_IN")]
    ensures var out30 := StockAdjustment(Some(id), Some(30), Some("SO-001"), Some("Test stock out"));
            e.products[id].currentStock == 100 ==> RemoveStockStep(e, out30, actor).0.products[id].currentStock == 70
    ensures var out50 := StockAdjustment(Some(id), Some(50), None, None);
            e.products[id].currentStock == 20 ==>
              RemoveStockStep(e, out50, actor) == (e, Failure(InsufficientStock(id, 50, 20)))
    ensures var p := e.products[id];
            var out10 := StockAdjustment(Some(id), Some(10), None, None);
            p.currentStock == 15 && p.reorderLevel == 10 ==>
              RemoveStockStep(e, out10, actor).0.events
                == e.events + [StockUpdate(id, p.name, 15, 5, "STOCK_OUT"), LowStockAlert(id, p.name, 5, 10)]
  {
  }
}
