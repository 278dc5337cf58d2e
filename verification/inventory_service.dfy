/** `InventoryServiceImpl`: the stock ledger engine over the shared database
    and the notification sink. */
module Inventory {
  import opened Common
  import opened Products
  import opened Transactions
  import opened StockAdjustments
  import opened TransactionQueries
  import opened ProductRepository
  import opened Notifications
  import opened Store
  import opened InventoryEngine
  import opened InventoryProperties

  /** The page size `getProductTransactions` asks for. */
  const RecentTransactionsLimit: nat := 100

  class InventoryService {
    const db: Database
    const notifier: NotificationLog

    ghost predicate Valid()
      reads db
    {
      db.Valid()
    }

    /** What the engine functions act on. */
    ghost function State(): Engine
      reads db, notifier
    {
      Engine(db.products, db.ledger, db.clock, notifier.events)
    }

    constructor (db: Database, notifier: NotificationLog)
      ensures this.db == db && this.notifier == notifier
    {
      this.db := db;
      this.notifier := notifier;
    }

    /** `addStock`, as `AddStockStep` describes it; the categories, suppliers
        and identity counters are not touched. */
    method AddStock(req: StockAdjustment, actor: Option<string>) returns (r: Result<ProductDto>)
      requires Valid() && StockAdjustments.Valid(req) && AtMost(actor, 100)
      modifies db, notifier
      ensures Valid()
      ensures (State(), r) == AddStockStep(old(State()), req, actor)
      ensures db.categories == old(db.categories) && db.suppliers == old(db.suppliers)
      ensures db.nextProductId == old(db.nextProductId) && db.nextCategoryId == old(db.nextCategoryId)
      ensures db.nextSupplierId == old(db.nextSupplierId) && db.opening == old(db.opening)
    {
      ghost var before := State();
      var id := req.productId.value;
      if id !in db.products {
        return Failure(NotFound("Product", id));
      }
      var product := db.products[id];
      var previous := product.currentStock;
      product := product.(currentStock := previous + req.quantity.value);
      var row := BuildRow(id, StockIn, req, actor, 0);
      var savedRow := db.SaveTransaction(row);
      db.products := db.products[id := product];
      notifier.NotifyStockUpdate(id, product.name, previous, product.currentStock, "STOCK_IN");
      r := Success(ToDto(id, product));
      AddStockEffect(before, req, actor);
      assert (State(), r) == AddStockStep(before, req, actor);
      AddStockKeepsInvariants(before, req, actor, db.opening, db.suppliers, db.nextProductId);
      assert ProductsValid(db.products, db.suppliers, db.nextProductId);
      assert LedgerValid(db.products, db.ledger, db.clock, db.opening);
      assert CategoriesValid(db.categories, db.nextCategoryId);
      assert SuppliersValid(db.suppliers, db.nextSupplierId);
    }

    /** `removeStock`, as `RemoveStockStep` describes it; the categories,
        suppliers and identity counters are not touched. */
    method RemoveStock(req: StockAdjustment, actor: Option<string>) returns (r: Result<ProductDto>)
      requires Valid() && StockAdjustments.Valid(req) && AtMost(actor, 100)
      modifies db, notifier
      ensures Valid()
      ensures (State(), r) == RemoveStockStep(old(State()), req, actor)
      ensures db.categories == old(db.categories) && db.suppliers == old(db.suppliers)
      ensures db.nextProductId == old(db.nextProductId) && db.nextCategoryId == old(db.nextCategoryId)
      ensures db.nextSupplierId == old(db.nextSupplierId) && db.opening == old(db.opening)
    {
      ghost var before := State();
      var id := req.productId.value;
      if id !in db.products {
        return Failure(NotFound("Product", id));
      }
      var product := db.products[id];
      var previous := product.currentStock;
      if previous < req.quantity.value {
        return Failure(InsufficientStock(id, req.quantity.value, previous));
      }
      product := product.(currentStock := previous - req.quantity.value);
      var row := BuildRow(id, StockOut, req, actor, 0);
      var savedRow := db.SaveTransaction(row);
      db.products := db.products[id := product];
      notifier.NotifyStockUpdate(id, product.name, previous, product.currentStock, "STOCK_OUT");
      if LowStock(product) {
        notifier.NotifyLowStock(id, product.name, product.currentStock, product.reorderLevel);
      } else {
        assert notifier.events == notifier.events + [];
      }
      r := Success(ToDto(id, product));
      RemoveStockEffect(before, req, actor);
      assert (State(), r) == RemoveStockStep(before, req, actor);
      RemoveStockKeepsInvariants(before, req, actor, db.opening, db.suppliers, db.nextProductId);
      assert ProductsValid(db.products, db.suppliers, db.nextProductId);
      assert LedgerValid(db.products, db.ledger, db.clock, db.opening);
      assert CategoriesValid(db.categories, db.nextCategoryId);
      assert SuppliersValid(db.suppliers, db.nextSupplierId);
    }

    /** `getLowStockProducts`: every product at or below its reorder level, and
        no other, each flagged low. */
    method GetLowStockProducts() returns (r: map<Id, ProductDto>)
      ensures r == LowStockDtos(db.products)
      ensures forall id :: id in r <==> id in db.products && db.products[id].currentStock <= db.products[id].reorderLevel
      ensures forall id :: id in r ==> r[id].lowStock && r[id].currentStock == db.products[id].currentStock
    {
      r := LowStockDtos(db.products);
    }

    /** `getProductTransactions`: NotFound for an unknown product; otherwise its
        100 newest rows, or all of them when it has fewer, newest first. */
    method GetProductTransactions(productId: Id) returns (r: Result<seq<Transaction>>)
      ensures productId !in db.products <==> r == Failure(NotFound("Product", productId))
      ensures productId in db.products ==> r.Success?
      ensures r.Success? ==>
                var mine := Where(db.ledger, OfProduct(productId));
                && |r.value| == (if |mine| <= RecentTransactionsLimit then |mine| else RecentTransactionsLimit)
                && multiset(r.value) <= multiset(mine)
                && (forall t, u :: t in r.value && u in mine && u !in r.value ==> u.date <= t.date)
                && (forall t :: t in r.value ==> t in db.ledger && t.product == productId)
                && NewestFirst(r.value)
                && (|Where(db.ledger, OfProduct(productId))| <= RecentTransactionsLimit ==>
                      multiset(r.value) == multiset(Where(db.ledger, OfProduct(productId))))
    {
      if productId !in db.products {
        return Failure(NotFound("Product", productId));
      }
      r := Success(FindRecentByProductId(db.ledger, productId, RecentTransactionsLimit));
    }

    /** `isLowStock`: NotFound for an unknown product; otherwise whether its
        stock is at or below its reorder level. */
    method IsLowStock(productId: Id) returns (r: Result<bool>)
      ensures productId !in db.products ==> r == Failure(NotFound("Product", productId))
      ensures productId in db.products ==>
                r == Success(db.products[productId].currentStock <= db.products[productId].reorderLevel)
    {
      if productId !in db.products {
        return Failure(NotFound("Product", productId));
      }
      r := Success(LowStock(db.products[productId]));
    }
  }
}
