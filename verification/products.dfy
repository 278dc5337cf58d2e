/** The Product entity: the row whose `currentStock` the stock engine moves,
    its field constraints and defaults, the low-stock predicate, and the
    projection the services return to their callers. */
module Products {
  import opened Common

  /** `unitPrice` is a `BigDecimal` that no stock rule looks at; it is carried
      unchanged as its unscaled value and scale. */
  datatype Decimal = Decimal(unscaled: int, scale: nat)

  /** `@Builder.Default` values of `currentStock` and `reorderLevel`. */
  const DefaultCurrentStock: int := 0
  const DefaultReorderLevel: int := 10

  /** A persisted product. Its key lives in the product table; `category` and
      `supplier` hold the ids of the many-to-one references (null when unset).
      `currentStock` and `reorderLevel` are `NOT NULL` columns. */
  datatype Product = Product(
    name: string,
    sku: string,
    description: Option<string>,
    category: Option<Id>,
    supplier: Option<Id>,
    unitPrice: Decimal,
    currentStock: int,
    reorderLevel: int)

  /** `Product.isLowStock()` over the boxed `Integer` fields: false when either
      is null, otherwise `currentStock <= reorderLevel`. */
  predicate IsLowStock(currentStock: Option<int>, reorderLevel: Option<int>)
    ensures IsLowStock(currentStock, reorderLevel) ==> currentStock.Some? && reorderLevel.Some?
    ensures currentStock.Some? && reorderLevel.Some? && currentStock.value <= reorderLevel.value
            ==> IsLowStock(currentStock, reorderLevel)
  {
    currentStock != None && reorderLevel != None && currentStock.value <= reorderLevel.value
  }

  /** `isLowStock()` of a persisted product, whose two columns are never null. */
  predicate LowStock(p: Product) {
    IsLowStock(Some(p.currentStock), Some(p.reorderLevel))
  }

  /** The bean-validation constraints of the entity. A valid product has a
      name of 1 to 200 characters and a SKU of 1 to 50. */
  predicate Valid(p: Product)
    ensures Valid(p) ==> 1 <= |p.name| <= 200 && 1 <= |p.sku| <= 50
    ensures Valid(p) ==> p.currentStock >= 0 && p.reorderLevel >= 0
  {
    && NotBlank(p.name) && |p.name| <= 200
    && NotBlank(p.sku) && |p.sku| <= 50
    && AtMost(p.description, 1000)
    && p.unitPrice.unscaled >= 0
    && p.currentStock >= 0
    && p.reorderLevel >= 0
  }

  /** `ProductDTO` without the display names and timestamps. */
  datatype ProductDto = ProductDto(
    id: Id,
    name: string,
    sku: string,
    description: Option<string>,
    categoryId: Option<Id>,
    supplierId: Option<Id>,
    unitPrice: Decimal,
    currentStock: int,
    reorderLevel: int,
    lowStock: bool)

  /** `mapToProductDTO` / `mapToDTO`: copies the fields and computes the
      low-stock flag with the entity's own predicate. */
  function ToDto(id: Id, p: Product): (d: ProductDto)
    ensures d.id == id && d.sku == p.sku && d.currentStock == p.currentStock
    ensures d.lowStock <==> p.currentStock <= p.reorderLevel
  {
    ProductDto(id, p.name, p.sku, p.description, p.category, p.supplier,
               p.unitPrice, p.currentStock, p.reorderLevel, LowStock(p))
  }

  /** `isLowStock` is inclusive at the threshold and false when a field is null. */
  lemma IsLowStockCases(stock: int, level: int)
    ensures IsLowStock(Some(stock), Some(level)) <==> stock <= level
    ensures IsLowStock(Some(level), Some(level))
    ensures IsLowStock(Some(level - 1), Some(level))
    ensures !IsLowStock(Some(level + 1), Some(level))
    ensures !IsLowStock(None, Some(level)) && !IsLowStock(Some(stock), None)
  {
  }
}
