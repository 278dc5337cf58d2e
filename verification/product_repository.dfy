/** The queries of the product repository that the services rely on, as
    functions over the product table (id to product). */
module ProductRepository {
  import opened Common
  import opened Products

  /** `existsBySku`: some product already has this SKU (exact match), that is,
      the SKU is among the values of the SKU column. */
  predicate ExistsBySku(products: map<Id, Product>, sku: string)
    ensures ExistsBySku(products, sku) <==> sku in (set id | id in products :: products[id].sku)
  {
    exists id :: id in products && products[id].sku == sku
  }

  /** `findLowStockProducts`: `WHERE p.currentStock <= p.reorderLevel`. The
      result holds exactly the products whose entity predicate `isLowStock()`
      is true, so the bulk query and the per-product check never drift. Order is
      left to the store, so the result is keyed by id. */
  function FindLowStockProducts(products: map<Id, Product>): (r: map<Id, Product>)
    ensures forall id :: id in r <==> id in products && LowStock(products[id])
    ensures forall id :: id in r ==> r[id] == products[id]
  {
    map id | id in products && products[id].currentStock <= products[id].reorderLevel :: products[id]
  }

  /** `findLowStockProducts` mapped to DTOs (as `getLowStockProducts` and
      `findLowStock` return it): exactly the low-stock products, each flagged
      low. */
  function LowStockDtos(products: map<Id, Product>): (r: map<Id, ProductDto>)
    ensures forall id :: id in r <==> id in products && products[id].currentStock <= products[id].reorderLevel
    ensures forall id :: id in r ==> r[id] == ToDto(id, products[id]) && r[id].lowStock
  {
    var low := FindLowStockProducts(products);
    map id | id in low :: ToDto(id, low[id])
  }

  /** The ids of the products that reference category `categoryId`. */
  function ProductsInCategory(products: map<Id, Product>, categoryId: Id): set<Id> {
    set id | id in products && products[id].category == Some(categoryId)
  }

  /** The ids of the products that reference supplier `supplierId`. */
  function ProductsOfSupplier(products: map<Id, Product>, supplierId: Id): set<Id> {
    set id | id in products && products[id].supplier == Some(supplierId)
  }

  /** `countByCategoryId`: how many products reference the category; never more
      than there are products, and zero only when no product references it. */
  function CountByCategoryId(products: map<Id, Product>, categoryId: Id): (n: nat)
    ensures n <= |products|
    ensures n == 0 ==> forall id :: id in products ==> products[id].category != Some(categoryId)
  {
    var ids := ProductsInCategory(products, categoryId);
    SubsetCard(ids, products.Keys);
    assert forall id :: id in products && products[id].category == Some(categoryId) ==> id in ids;
    |ids|
  }

  /** `countBySupplierId`: how many products reference the supplier. */
  function CountBySupplierId(products: map<Id, Product>, supplierId: Id): (n: nat)
    ensures n <= |products|
    ensures n == 0 ==> forall id :: id in products ==> products[id].supplier != Some(supplierId)
  {
    var ids := ProductsOfSupplier(products, supplierId);
    SubsetCard(ids, products.Keys);
    assert forall id :: id in products && products[id].supplier == Some(supplierId) ==> id in ids;
    |ids|
  }

  /** A subset is no larger than its superset. */
  lemma SubsetCard(a: set<Id>, b: set<Id>)
    requires a <= b
    ensures |a| <= |b|
  {
    assert b == a + (b - a);
  }

  /** Adding a product that references the category raises the count by one;
      adding one that does not leaves it alone. */
  lemma CountAfterInsert(products: map<Id, Product>, id: Id, p: Product, categoryId: Id)
    requires id !in products
    ensures CountByCategoryId(products[id := p], categoryId)
         == CountByCategoryId(products, categoryId) + (if p.category == Some(categoryId) then 1 else 0)
  {
    var before := ProductsInCategory(products, categoryId);
    var after := ProductsInCategory(products[id := p], categoryId);
    if p.category == Some(categoryId) {
      assert after == before + {id};
    } else {
      assert after == before;
    }
  }
}
