/** `SupplierServiceImpl`: creating, editing, deleting and reading suppliers
    under the rule that emails are unique up to case, over the shared
    database. */
module SupplierManagement {
  import opened Common
  import opened TransactionQueries
  import opened ProductRepository
  import opened Catalog
  import opened Store

  /** `SupplierCreateDTO`, which carries the entity's five fields. The update
      request `SupplierUpdateDTO` is not part of this model; it is assumed to
      carry the same fields, since `update` copies exactly these five. */
  datatype SupplierRequest = SupplierRequest(
    companyName: string,
    contactPerson: Option<string>,
    email: string,
    phone: Option<string>,
    address: Option<string>)

  /** The supplier a request describes. */
  function SupplierOf(req: SupplierRequest): Supplier {
    Supplier(req.companyName, req.contactPerson, req.email, req.phone, req.address)
  }

  /** The request's bean-validation constraints, checked by the controller:
      those of the entity it becomes. */
  predicate RequestValid(req: SupplierRequest) {
    SupplierValid(SupplierOf(req))
  }

  /** `SupplierDTO`, without the audit timestamps. */
  datatype SupplierDto = SupplierDto(
    id: Id,
    companyName: string,
    contactPerson: Option<string>,
    email: string,
    phone: Option<string>,
    address: Option<string>,
    productCount: nat)

  /** `mapToDTO`: the supplier's fields and the number of products that
      reference it. */
  function SupplierToDto(id: Id, s: Supplier, products: map<Id, Products.Product>): (d: SupplierDto)
    ensures d.id == id && d.companyName == s.companyName && d.contactPerson == s.contactPerson
    ensures d.email == s.email && d.phone == s.phone && d.address == s.address
    ensures d.productCount == |ProductsOfSupplier(products, id)|
    ensures d.productCount == 0 <==> forall pid :: pid in products ==> products[pid].supplier != Some(id)
  {
    var n := CountBySupplierId(products, id);
    assert n == 0 <== forall pid :: pid in products ==> products[pid].supplier != Some(id) by {
      if forall pid :: pid in products ==> products[pid].supplier != Some(id) {
        assert ProductsOfSupplier(products, id) == {};
      }
    }
    SupplierDto(id, s.companyName, s.contactPerson, s.email, s.phone, s.address, n)
  }

  class SupplierService {
    const db: Database

    ghost predicate Valid()
      reads db
    {
      db.Valid()
    }

    constructor (db: Database)
      ensures this.db == db
    {
      this.db := db;
    }

    /** `findById`: NotFound for an unknown id, otherwise the supplier with its
        product count. */
    method FindById(id: Id) returns (r: Result<SupplierDto>)
      ensures id !in db.suppliers <==> r == Failure(NotFound("Supplier", id))
      ensures id in db.suppliers ==> r == Success(SupplierToDto(id, db.suppliers[id], db.products))
    {
      if id !in db.suppliers {
        return Failure(NotFound("Supplier", id));
      }
      r := Success(SupplierToDto(id, db.suppliers[id], db.products));
    }

    /** `create`. An email already held by a supplier, up to case, raises
        Duplicate and saves nothing; otherwise exactly one supplier is saved
        under a fresh key, so emails stay unique. A new supplier has no
        products. */
    method Create(req: SupplierRequest) returns (r: Result<SupplierDto>)
      requires Valid() && RequestValid(req)
      modifies db
      ensures Valid()
      ensures r.Failure? <==> ExistsByEmailIgnoreCase(old(db.suppliers), req.email)
      ensures r.Failure? ==> r.error == Duplicate("Supplier", "email", req.email) && unchanged(db)
      ensures r.Success? ==>
                var id := old(db.nextSupplierId);
                && id !in old(db.suppliers)
                && db.suppliers == old(db.suppliers)[id := SupplierOf(req)]
                && db.nextSupplierId == id + 1
                && r.value == SupplierToDto(id, SupplierOf(req), db.products)
                && r.value.productCount == 0
      ensures db.products == old(db.products) && db.categories == old(db.categories)
      ensures db.ledger == old(db.ledger) && db.clock == old(db.clock) && db.opening == old(db.opening)
      ensures db.nextProductId == old(db.nextProductId) && db.nextCategoryId == old(db.nextCategoryId)
    {
      if ExistsByEmailIgnoreCase(db.suppliers, req.email) {
        return Failure(Duplicate("Supplier", "email", req.email));
      }
      var supplier := Supplier(req.companyName, req.contactPerson, req.email, req.phone, req.address);
      var id := db.nextSupplierId;
      InsertKeepsEmailsUnique(db.suppliers, id, supplier);
      db.suppliers := db.suppliers[id := supplier];
      db.nextSupplierId := id + 1;
      r := Success(SupplierToDto(id, supplier, db.products));
      assert SuppliersValid(db.suppliers, db.nextSupplierId);
      assert ProductsValid(db.products, db.suppliers, db.nextProductId);
    }

    /** `update`. An unknown id raises NotFound; an email held by another
        supplier, up to case, raises Duplicate; a failure saves nothing.
        Otherwise all five fields are replaced, so emails stay unique. */
    method Update(id: Id, req: SupplierRequest) returns (r: Result<SupplierDto>)
      requires Valid() && RequestValid(req)
      modifies db
      ensures Valid()
      ensures id !in old(db.suppliers) ==> r == Failure(NotFound("Supplier", id))
      ensures id in old(db.suppliers) && ExistsByEmailIgnoreCaseAndIdNot(old(db.suppliers), req.email, id)
              ==> r == Failure(Duplicate("Supplier", "email", req.email))
      ensures r.Success? <==> id in old(db.suppliers) && !ExistsByEmailIgnoreCaseAndIdNot(old(db.suppliers), req.email, id)
      ensures r.Failure? ==> unchanged(db)
      ensures r.Success? ==>
                && db.suppliers == old(db.suppliers)[id := SupplierOf(req)]
                && r.value == SupplierToDto(id, SupplierOf(req), db.products)
      ensures db.nextSupplierId == old(db.nextSupplierId)
      ensures db.products == old(db.products) && db.categories == old(db.categories)
      ensures db.ledger == old(db.ledger) && db.clock == old(db.clock) && db.opening == old(db.opening)
      ensures db.nextProductId == old(db.nextProductId) && db.nextCategoryId == old(db.nextCategoryId)
    {
      if id !in db.suppliers {
        return Failure(NotFound("Supplier", id));
      }
      if ExistsByEmailIgnoreCaseAndIdNot(db.suppliers, req.email, id) {
        return Failure(Duplicate("Supplier", "email", req.email));
      }
      var supplier := db.suppliers[id].(companyName := req.companyName, contactPerson := req.contactPerson,
                                        email := req.email, phone := req.phone, address := req.address);
      RenameKeepsEmailsUnique(db.suppliers, id, supplier);
      db.suppliers := db.suppliers[id := supplier];
      r := Success(SupplierToDto(id, supplier, db.products));
      assert SuppliersValid(db.suppliers, db.nextSupplierId);
      assert ProductsValid(db.products, db.suppliers, db.nextProductId);
    }

    /** `delete`. An unknown id raises NotFound and changes nothing. Otherwise
        the supplier is removed together with every product that references
        it and those products' ledger rows (`cascade = ALL` on both
        associations); afterwards no product references it. */
    method Delete(id: Id) returns (r: Outcome)
      requires Valid()
      modifies db
      ensures Valid()
      ensures id !in old(db.suppliers) ==> r == Fail(NotFound("Supplier", id)) && unchanged(db)
      ensures id in old(db.suppliers) ==>
                var gone := ProductsOfSupplier(old(db.products), id);
                && r == Done
                && db.suppliers == old(db.suppliers) - {id}
                && db.products == old(db.products) - gone
                && db.ledger == Where(old(db.ledger), NotOfProducts(gone))
                && (forall pid :: pid in db.products ==> db.products[pid].supplier != Some(id))
      ensures db.nextSupplierId == old(db.nextSupplierId)
      ensures db.categories == old(db.categories) && db.clock == old(db.clock)
      ensures db.nextProductId == old(db.nextProductId) && db.nextCategoryId == old(db.nextCategoryId)
    {
      if id !in db.suppliers {
        return Fail(NotFound("Supplier", id));
      }
      var gone := ProductsOfSupplier(db.products, id);
      DropSupplierKeepsTablesValid(db.products, db.suppliers, db.nextProductId, db.nextSupplierId, id);
      DropKeepsLedgerValid(db.products, db.ledger, db.clock, db.opening, gone);
      db.products := db.products - gone;
      db.ledger := Where(db.ledger, NotOfProducts(gone));
      db.opening := db.opening - gone;
      db.suppliers := db.suppliers - {id};
      r := Done;
    }
  }
}
