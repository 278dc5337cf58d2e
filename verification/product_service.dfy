/** `ProductServiceImpl`: creating, editing, deleting and reading products
    under the SKU-uniqueness rule, over the shared database. */
module ProductManagement {
  import opened Common
  import opened Products
  import opened Transactions
  import opened TransactionQueries
  import opened ProductRepository
  import opened Catalog
  import opened Store

  /** `ProductCreateDTO`. */
  datatype ProductCreateRequest = ProductCreateRequest(
    name: string,
    sku: string,
    description: Option<string>,
    categoryId: Option<Id>,
    supplierId: Option<Id>,
    unitPrice: Option<Decimal>,
    initialStock: Option<int>,
    reorderLevel: Option<int>)

  /** The request's bean-validation constraints, checked by the controller:
      a non-blank name of at most 200 characters, a non-blank SKU of at most
      50, a description of at most 1000, a unit price that is present and not
      negative, and initial stock and reorder level not negative when given. */
  predicate CreateRequestValid(req: ProductCreateRequest) {
    && NotBlank(req.name) && |req.name| <= 200
    && NotBlank(req.sku) && |req.sku| <= 50
    && AtMost(req.description, 1000)
    && req.unitPrice.Some? && req.unitPrice.value.unscaled >= 0
    && (req.initialStock.Some? ==> req.initialStock.value >= 0)
    && (req.reorderLevel.Some? ==> req.reorderLevel.value >= 0)
  }

  /** `ProductUpdateDTO`: no SKU and no stock. */
  datatype ProductUpdateRequest = ProductUpdateRequest(
    name: string,
    description: Option<string>,
    categoryId: Option<Id>,
    supplierId: Option<Id>,
    unitPrice: Option<Decimal>,
    reorderLevel: Option<int>)

  /** The update request's constraints: the create request's, for its fields. */
  predicate UpdateRequestValid(req: ProductUpdateRequest) {
    && NotBlank(req.name) && |req.name| <= 200
    && AtMost(req.description, 1000)
    && req.unitPrice.Some? && req.unitPrice.value.unscaled >= 0
    && (req.reorderLevel.Some? ==> req.reorderLevel.value >= 0)
  }

  /** The product a successful `create` saves: the request's fields, the
      initial stock or 0, the reorder level or 10, and the category and
      supplier references when given. */
  function NewProduct(req: ProductCreateRequest): Product
    requires req.unitPrice.Some?
  {
    Product(req.name, req.sku, req.description, req.categoryId, req.supplierId, req.unitPrice.value,
            req.initialStock.GetOr(DefaultCurrentStock), req.reorderLevel.GetOr(DefaultReorderLevel))
  }

  /** The product a successful `update` saves. */
  function Updated(p: Product, req: ProductUpdateRequest): Product
    requires req.unitPrice.Some?
  {
    p.(name := req.name, description := req.description, unitPrice := req.unitPrice.value,
       reorderLevel := req.reorderLevel.GetOr(p.reorderLevel),
       category := req.categoryId, supplier := req.supplierId)
  }

  /** `create` defaults a missing initial stock to 0 and a missing reorder
      level to 10, and builds a valid product from a valid request. */
  lemma NewProductDefaults(req: ProductCreateRequest)
    requires req.unitPrice.Some?
    ensures req.initialStock.None? ==> NewProduct(req).currentStock == 0
    ensures req.reorderLevel.None? ==> NewProduct(req).reorderLevel == 10
    ensures req.initialStock.Some? ==> NewProduct(req).currentStock == req.initialStock.value
    ensures req.reorderLevel.Some? ==> NewProduct(req).reorderLevel == req.reorderLevel.value
    ensures CreateRequestValid(req) ==> Products.Valid(NewProduct(req))
  {
  }

  /** `update` overwrites name, description and price, keeps the reorder level
      when none is given, sets or clears the category and supplier, and never
      changes the SKU or the stock; a valid request keeps a valid product valid. */
  lemma UpdatedFields(p: Product, req: ProductUpdateRequest)
    requires req.unitPrice.Some?
    ensures var q := Updated(p, req);
            && q.sku == p.sku && q.currentStock == p.currentStock
            && q.name == req.name && q.description == req.description && q.unitPrice == req.unitPrice.value
            && q.reorderLevel == (if req.reorderLevel.Some? then req.reorderLevel.value else p.reorderLevel)
            && q.category == req.categoryId && q.supplier == req.supplierId
    ensures Products.Valid(p) && UpdateRequestValid(req) ==> Products.Valid(Updated(p, req))
  {
  }

  class ProductService {
    const db: Database

    ghost predicate Valid()
      reads db
    {
      db.Valid()
    }

    constructor (db: Database)
      ensures this.db == db
    {
      this.db := db;
    }

    /** `findById`. */
    method FindById(id: Id) returns (r: Result<ProductDto>)
      ensures id !in db.products <==> r == Failure(NotFound("Product", id))
      ensures id in db.products ==> r.Success? && r.value.id == id && r.value.sku == db.products[id].sku
                                    && r.value == ToDto(id, db.products[id])
    {
      if id !in db.products {
        return Failure(NotFound("Product", id));
      }
      r := Success(ToDto(id, db.products[id]));
    }

    /** `findLowStock`: the same products as the inventory service's list. */
    method FindLowStock() returns (r: map<Id, ProductDto>)
      ensures r == LowStockDtos(db.products)
      ensures forall id :: id in r <==> id in db.products && LowStock(db.products[id])
    {
      r := LowStockDtos(db.products);
    }

    /** `create`. A SKU already in use raises Duplicate, before the category
        and supplier are looked up; a category or supplier id that does not
        exist raises NotFound; a failure saves nothing. Otherwise exactly one
        product, `NewProduct(req)`, is saved under a fresh key, so SKUs stay
        unique. */
    method Create(req: ProductCreateRequest) returns (r: Result<ProductDto>)
      requires Valid() && CreateRequestValid(req)
      modifies db
      ensures Valid()
      ensures ExistsBySku(old(db.products), req.sku) ==> r == Failure(Duplicate("Product", "sku", req.sku))
      ensures !ExistsBySku(old(db.products), req.sku) && req.categoryId.Some? && req.categoryId.value !in db.categories
              ==> r == Failure(NotFound("Category", req.categoryId.value))
      ensures !ExistsBySku(old(db.products), req.sku) && (req.categoryId.None? || req.categoryId.value in db.categories)
              && req.supplierId.Some? && req.supplierId.value !in db.suppliers
              ==> r == Failure(NotFound("Supplier", req.supplierId.value))
      ensures r.Failure? ==> unchanged(db)
      ensures r.Failure? ==> ExistsBySku(old(db.products), req.sku)
                             || (req.categoryId.Some? && req.categoryId.value !in db.categories)
                             || (req.supplierId.Some? && req.supplierId.value !in db.suppliers)
      ensures r.Success? ==>
                var id := old(db.nextProductId);
                && id !in old(db.products)
                && db.products == old(db.products)[id := NewProduct(req)]
                && r.value == ToDto(id, NewProduct(req))
                && db.nextProductId == id + 1
                && db.ledger == old(db.ledger) && db.clock == old(db.clock)
      ensures db.categories == old(db.categories) && db.suppliers == old(db.suppliers)
      ensures db.nextCategoryId == old(db.nextCategoryId) && db.nextSupplierId == old(db.nextSupplierId)
    {
      if ExistsBySku(db.products, req.sku) {
        return Failure(Duplicate("Product", "sku", req.sku));
      }
      var product := Product(req.name, req.sku, req.description, None, None, req.unitPrice.value,
                             if req.initialStock.Some? then req.initialStock.value else 0,
                             if req.reorderLevel.Some? then req.reorderLevel.value else 10);
      if req.categoryId.Some? {
        if req.categoryId.value !in db.categories {
          return Failure(NotFound("Category", req.categoryId.value));
        }
        product := product.(category := req.categoryId);
      }
      if req.supplierId.Some? {
        if req.supplierId.value !in db.suppliers {
          return Failure(NotFound("Supplier", req.supplierId.value));
        }
        product := product.(supplier := req.supplierId);
      }
      assert product == NewProduct(req);
      NewProductDefaults(req);
      InsertKeepsProductsValid(db.products, db.suppliers, db.nextProductId, product);
      InsertKeepsLedgerValid(db.products, db.ledger, db.clock, db.opening, db.nextProductId, product);
      var id := db.nextProductId;
      db.products := db.products[id := product];
      db.opening := db.opening[id := product.currentStock];
      db.nextProductId := id + 1;
      r := Success(ToDto(id, product));
      assert ProductsValid(db.products, db.suppliers, db.nextProductId);
      assert LedgerValid(db.products, db.ledger, db.clock, db.opening);
    }

    /** `update`. An unknown id raises NotFound, and so does a category or
        supplier id that does not exist; a failure saves nothing. Otherwise the
        product becomes `Updated(old, req)`: same key, SKU and stock. */
    method Update(id: Id, req: ProductUpdateRequest) returns (r: Result<ProductDto>)
      requires Valid() && UpdateRequestValid(req)
      modifies db
      ensures Valid()
      ensures id !in old(db.products) ==> r == Failure(NotFound("Product", id))
      ensures id in old(db.products) && req.categoryId.Some? && req.categoryId.value !in db.categories
              ==> r == Failure(NotFound("Category", req.categoryId.value))
      ensures id in old(db.products) && (req.categoryId.None? || req.categoryId.value in db.categories)
              && req.supplierId.Some? && req.supplierId.value !in db.suppliers
              ==> r == Failure(NotFound("Supplier", req.supplierId.value))
      ensures r.Failure? ==> unchanged(db)
      ensures r.Failure? ==> id !in old(db.products)
                             || (req.categoryId.Some? && req.categoryId.value !in db.categories)
                             || (req.supplierId.Some? && req.supplierId.value !in db.suppliers)
      ensures r.Success? ==>
                && id in old(db.products)
                && db.products == old(db.products)[id := Updated(old(db.products)[id], req)]
                && r.value == ToDto(id, db.products[id])
                && db.ledger == old(db.ledger) && db.clock == old(db.clock)
                && db.nextProductId == old(db.nextProductId)
      ensures db.categories == old(db.categories) && db.suppliers == old(db.suppliers)
      ensures db.nextCategoryId == old(db.nextCategoryId) && db.nextSupplierId == old(db.nextSupplierId)
    {
      if id !in db.products {
        return Failure(NotFound("Product", id));
      }
      var product := db.products[id];
      product := product.(name := req.name, description := req.description, unitPrice := req.unitPrice.value);
      if req.reorderLevel.Some? {
        product := product.(reorderLevel := req.reorderLevel.value);
      }
      if req.categoryId.Some? {
        if req.categoryId.value !in db.categories {
          return Failure(NotFound("Category", req.categoryId.value));
        }
        product := product.(category := req.categoryId);
      } else {
        product := product.(category := None);
      }
      if req.supplierId.Some? {
        if req.supplierId.value !in db.suppliers {
          return Failure(NotFound("Supplier", req.supplierId.value));
        }
        product := product.(supplier := req.supplierId);
      } else {
        product := product.(supplier := None);
      }
      assert product == Updated(db.products[id], req);
      UpdatedFields(db.products[id], req);
      ReplaceKeepsLedgerValid(db.products, db.ledger, db.clock, db.opening, id, product);
      db.products := db.products[id := product];
      r := Success(ToDto(id, product));
    }

    /** `delete`. An unknown id raises NotFound and changes nothing. Otherwise
        exactly that product is removed, together with its ledger rows (the
        entity's `cascade = ALL`). */
    method Delete(id: Id) returns (r: Outcome)
      requires Valid()
      modifies db
      ensures Valid()
      ensures id !in old(db.products) ==> r == Fail(NotFound("Product", id)) && unchanged(db)
      ensures id in old(db.products) ==>
                && r == Done
                && db.products == old(db.products) - {id}
                && db.ledger == Where(old(db.ledger), NotOfProducts({id}))
                && db.clock == old(db.clock) && db.nextProductId == old(db.nextProductId)
      ensures db.categories == old(db.categories) && db.suppliers == old(db.suppliers)
      ensures db.nextCategoryId == old(db.nextCategoryId) && db.nextSupplierId == old(db.nextSupplierId)
    {
      if id !in db.products {
        return Fail(NotFound("Product", id));
      }
      DropKeepsLedgerValid(db.products, db.ledger, db.clock, db.opening, {id});
      db.products := db.products - {id};
      db.ledger := Where(db.ledger, NotOfProducts({id}));
      db.opening := db.opening - {id};
      r := Done;
    }
  }
}
