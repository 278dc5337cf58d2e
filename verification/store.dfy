/** The persistent store behind the repositories: the product, category and
    supplier tables, the transaction ledger, and the invariants every service
    call keeps. */
module Store {
  import opened Common
  import opened Products
  import opened Transactions
  import opened TransactionQueries
  import opened Catalog
  import opened ProductRepository

  /** The signed effect of a row on its product's stock: `STOCK_IN` adds its
      quantity, `STOCK_OUT` subtracts it; the engine writes no other kind. */
  function Delta(t: Transaction): int {
    match t.kind
    case StockIn => t.quantity
    case StockOut => -t.quantity
    case Adjustment => 0
  }

  /** The net effect of the ledger on product `id`, row by row. */
  function NetMovement(ledger: seq<Transaction>, id: Id): int {
    if ledger == [] then 0
    else
      var last := ledger[|ledger| - 1];
      NetMovement(ledger[..|ledger| - 1], id) + (if last.product == id then Delta(last) else 0)
  }

  /** Appending a row changes only its own product's net movement, by its effect. */
  lemma NetMovementAppend(ledger: seq<Transaction>, t: Transaction, id: Id)
    ensures NetMovement(ledger + [t], id) == NetMovement(ledger, id) + (if t.product == id then Delta(t) else 0)
  {
    assert (ledger + [t])[..|ledger|] == ledger;
  }

  /** The net movement is what the repository's aggregate reports:
      `sumQuantityByProductAndType(STOCK_IN) - sumQuantityByProductAndType(STOCK_OUT)`. */
  lemma {:induction false} NetMovementIsSums(ledger: seq<Transaction>, id: Id)
    ensures NetMovement(ledger, id)
         == SumQuantityByProductAndType(ledger, id, StockIn) - SumQuantityByProductAndType(ledger, id, StockOut)
  {
    if ledger != [] {
      var init, last := ledger[..|ledger| - 1], ledger[|ledger| - 1];
      assert ledger == init + [last];
      NetMovementIsSums(init, id);
      SumAfterAppend(init, last, id, StockIn);
      SumAfterAppend(init, last, id, StockOut);
    }
  }

  /** A product no row refers to has not moved. */
  lemma {:induction false} NetMovementOfUnused(ledger: seq<Transaction>, id: Id)
    requires forall t :: t in ledger ==> t.product != id
    ensures NetMovement(ledger, id) == 0
  {
    if ledger != [] {
      var init := ledger[..|ledger| - 1];
      assert forall t :: t in init ==> t in ledger;
      NetMovementOfUnused(init, id);
    }
  }

  /** Dropping the rows of other products leaves a product's net movement alone. */
  lemma NetMovementWithout(ledger: seq<Transaction>, gone: set<Id>, id: Id)
    requires id !in gone
    ensures NetMovement(Where(ledger, NotOfProducts(gone)), id) == NetMovement(ledger, id)
  {
    NetMovementIsSums(ledger, id);
    NetMovementIsSums(Where(ledger, NotOfProducts(gone)), id);
    SumWithoutProducts(ledger, gone, id, StockIn);
    SumWithoutProducts(ledger, gone, id, StockOut);
  }

  /** No two products share a SKU (the `unique` column). */
  predicate SkusUnique(products: map<Id, Product>) {
    forall a, b :: a in products && b in products && products[a].sku == products[b].sku ==> a == b
  }

  /** The product table: valid rows, keys below the next identity value,
      unique SKUs, and supplier references that resolve. */
  predicate ProductsValid(products: map<Id, Product>, suppliers: map<Id, Supplier>, nextProductId: Id) {
    && (forall id :: id in products ==> Products.Valid(products[id]) && id < nextProductId)
    && (forall id :: id in products && products[id].supplier.Some? ==> products[id].supplier.value in suppliers)
    && SkusUnique(products)
  }

  /** The category table: valid rows, keys below the next identity value,
      names unique up to case. */
  predicate CategoriesValid(categories: map<Id, Category>, nextCategoryId: Id) {
    && (forall id :: id in categories ==> CategoryValid(categories[id]) && id < nextCategoryId)
    && CategoryNamesUnique(categories)
  }

  /** The supplier table: valid rows, keys below the next identity value,
      emails unique up to case. */
  predicate SuppliersValid(suppliers: map<Id, Supplier>, nextSupplierId: Id) {
    && (forall id :: id in suppliers ==> SupplierValid(suppliers[id]) && id < nextSupplierId)
    && SupplierEmailsUnique(suppliers)
  }

  /** A stored ledger row: it references a product that exists, satisfies the
      row constraints, was written by the stock engine (never `ADJUSTMENT`),
      and is older than the store's clock. */
  predicate RowValid(t: Transaction, products: map<Id, Product>, clock: Timestamp) {
    t.product in products && Transactions.Valid(t) && t.kind != Adjustment && t.date < clock
  }

  /** The ledger agrees with the cached stock: every row is stored validly, rows
      are in creation order, and each product's `currentStock` is the stock it
      was created with (`opening`) plus the net movement of its rows (by
      `NetMovementIsSums`, its `STOCK_IN` sum minus its `STOCK_OUT` sum). */
  predicate LedgerValid(products: map<Id, Product>, ledger: seq<Transaction>, clock: Timestamp,
                        opening: map<Id, int>) {
    && opening.Keys == products.Keys
    && (forall t :: t in ledger ==> RowValid(t, products, clock))
    && Chronological(ledger)
    && (forall id :: id in products ==> products[id].currentStock == opening[id] + NetMovement(ledger, id))
  }

  /** The database. The repositories' `save`, `deleteById` and queries read and
      write these fields. `opening` is bookkeeping only: the stock each product
      was created with. */
  class Database {
    var products: map<Id, Product>
    var categories: map<Id, Category>
    var suppliers: map<Id, Supplier>
    var ledger: seq<Transaction>
    var clock: Timestamp
    var nextProductId: Id
    var nextCategoryId: Id
    var nextSupplierId: Id
    ghost var opening: map<Id, int>

    ghost predicate Valid()
      reads this
    {
      && ProductsValid(products, suppliers, nextProductId)
      && CategoriesValid(categories, nextCategoryId)
      && SuppliersValid(suppliers, nextSupplierId)
      && LedgerValid(products, ledger, clock, opening)
    }

    /** An empty database; identity columns start at 1. */
    constructor ()
      ensures Valid()
      ensures products == map[] && categories == map[] && suppliers == map[] && ledger == []
      ensures nextProductId == 1 && nextCategoryId == 1 && nextSupplierId == 1
    {
      products, categories, suppliers := map[], map[], map[];
      ledger, clock := [], 0;
      nextProductId, nextCategoryId, nextSupplierId := 1, 1, 1;
      opening := map[];
    }

    /** `transactionRepository.save` of a new row: the row is appended, stamped
        with the current instant (`@CreationTimestamp`), and the clock moves on. */
    method SaveTransaction(t: Transaction) returns (saved: Transaction)
      modifies this
      ensures saved == t.(date := old(clock))
      ensures ledger == old(ledger) + [saved] && clock == old(clock) + 1
      ensures products == old(products) && categories == old(categories) && suppliers == old(suppliers)
      ensures nextProductId == old(nextProductId) && nextCategoryId == old(nextCategoryId)
      ensures nextSupplierId == old(nextSupplierId) && opening == old(opening)
    {
      saved := t.(date := clock);
      ledger := ledger + [saved];
      clock := clock + 1;
    }
  }

  /** The product table after `t`'s product has been moved by `t`'s effect. */
  function Moved(products: map<Id, Product>, t: Transaction): (r: map<Id, Product>)
    requires t.product in products
    ensures r.Keys == products.Keys
    ensures r[t.product].currentStock == products[t.product].currentStock + Delta(t)
    ensures forall id :: id in products && id != t.product ==> r[id] == products[id]
  {
    products[t.product := products[t.product].(currentStock := products[t.product].currentStock + Delta(t))]
  }

  /** Moving one product's stock to a value that is not negative keeps the
      product table valid. */
  lemma MoveKeepsProductsValid(products: map<Id, Product>, suppliers: map<Id, Supplier>, nextProductId: Id,
                               t: Transaction)
    requires ProductsValid(products, suppliers, nextProductId)
    requires t.product in products && products[t.product].currentStock + Delta(t) >= 0
    ensures ProductsValid(Moved(products, t), suppliers, nextProductId)
  {
  }

  /** Appending a row of product `t.product` and moving that product's stock
      by the row's effect keeps stock and ledger in agreement; no other
      product's movement changes. */
  lemma MoveKeepsBalances(products: map<Id, Product>, ledger: seq<Transaction>, opening: map<Id, int>,
                          t: Transaction)
    requires opening.Keys == products.Keys && t.product in products && t.kind != Adjustment
    requires forall id :: id in products ==> products[id].currentStock == opening[id] + NetMovement(ledger, id)
    ensures forall id :: id in products ==> Moved(products, t)[id].currentStock == opening[id] + NetMovement(ledger + [t], id)
  {
    var products' := Moved(products, t);
    forall id | id in products
      ensures products'[id].currentStock == opening[id] + NetMovement(ledger + [t], id)
    {
      NetMovementAppend(ledger, t, id);
    }
  }

  /** A row stamped with the current clock extends a chronological ledger. */
  lemma AppendKeepsChronological(ledger: seq<Transaction>, clock: Timestamp, t: Transaction)
    requires Chronological(ledger) && (forall u :: u in ledger ==> u.date < clock) && t.date == clock
    ensures Chronological(ledger + [t])
  {
    var ledger' := ledger + [t];
    forall i, j | 0 <= i < j < |ledger'| ensures ledger'[i].date < ledger'[j].date {
      assert ledger'[i] == ledger[i];
      if j < |ledger| {
        assert ledger'[j] == ledger[j];
      } else {
        assert ledger[i] in ledger;
      }
    }
  }

  /** Appending a valid row stamped with the current clock, and moving its
      product's stock by the row's effect, keeps the ledger consistent. */
  lemma MoveKeepsLedgerValid(products: map<Id, Product>, ledger: seq<Transaction>, clock: Timestamp,
                             opening: map<Id, int>, t: Transaction)
    requires LedgerValid(products, ledger, clock, opening)
    requires RowValid(t, products, clock + 1) && t.date == clock
    ensures LedgerValid(Moved(products, t), ledger + [t], clock + 1, opening)
  {
    forall u | u in ledger + [t] ensures RowValid(u, Moved(products, t), clock + 1) {
      if u in ledger {
        assert RowValid(u, products, clock);
      }
    }
    MoveKeepsBalances(products, ledger, opening, t);
    AppendKeepsChronological(ledger, clock, t);
  }

  /** Deleting the products in `gone` together with their ledger rows (the
      cascade) keeps the ledger consistent for the products that remain. */
  lemma DropKeepsLedgerValid(products: map<Id, Product>, ledger: seq<Transaction>, clock: Timestamp,
                             opening: map<Id, int>, gone: set<Id>)
    requires LedgerValid(products, ledger, clock, opening)
    ensures LedgerValid(products - gone, Where(ledger, NotOfProducts(gone)), clock, opening - gone)
  {
    var ledger' := Where(ledger, NotOfProducts(gone));
    WhereChronological(ledger, NotOfProducts(gone));
    forall id | id in products - gone
      ensures (products - gone)[id].currentStock == (opening - gone)[id] + NetMovement(ledger', id)
    {
      NetMovementWithout(ledger, gone, id);
    }
  }

  /** Inserting a product under a fresh key, with its stock as its opening
      stock, keeps the ledger consistent: no row refers to the new key yet. */
  lemma InsertKeepsLedgerValid(products: map<Id, Product>, ledger: seq<Transaction>, clock: Timestamp,
                               opening: map<Id, int>, id: Id, p: Product)
    requires LedgerValid(products, ledger, clock, opening) && id !in products
    ensures LedgerValid(products[id := p], ledger, clock, opening[id := p.currentStock])
  {
    forall t | t in ledger ensures t.product != id {
      assert RowValid(t, products, clock);
    }
    NetMovementOfUnused(ledger, id);
  }

  /** Replacing a product by one with the same stock keeps the ledger consistent. */
  lemma ReplaceKeepsLedgerValid(products: map<Id, Product>, ledger: seq<Transaction>, clock: Timestamp,
                                opening: map<Id, int>, id: Id, p: Product)
    requires LedgerValid(products, ledger, clock, opening)
    requires id in products && p.currentStock == products[id].currentStock
    ensures LedgerValid(products[id := p], ledger, clock, opening)
  {
    forall t | t in ledger ensures RowValid(t, products[id := p], clock) {
      assert RowValid(t, products, clock);
    }
  }

  /** Inserting a valid product under the next identity value, with a SKU no
      product has and a supplier that exists, keeps the product table valid. */
  lemma InsertKeepsProductsValid(products: map<Id, Product>, suppliers: map<Id, Supplier>, nextProductId: Id,
                                 p: Product)
    requires ProductsValid(products, suppliers, nextProductId)
    requires Products.Valid(p) && (forall id :: id in products ==> products[id].sku != p.sku)
    requires p.supplier.Some? ==> p.supplier.value in suppliers
    ensures nextProductId !in products
    ensures ProductsValid(products[nextProductId := p], suppliers, nextProductId + 1)
  {
  }

  /** Removing a supplier together with every product that references it (the
      supplier's `cascade = ALL`) keeps the product and supplier tables valid:
      no remaining product references the removed supplier. */
  lemma DropSupplierKeepsTablesValid(products: map<Id, Product>, suppliers: map<Id, Supplier>,
                                     nextProductId: Id, nextSupplierId: Id, id: Id)
    requires ProductsValid(products, suppliers, nextProductId)
    requires SuppliersValid(suppliers, nextSupplierId)
    ensures ProductsValid(products - ProductsOfSupplier(products, id), suppliers - {id}, nextProductId)
    ensures SuppliersValid(suppliers - {id}, nextSupplierId)
  {
  }
}
