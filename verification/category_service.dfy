/** `CategoryServiceImpl`: creating, renaming, deleting and reading categories
    under the rule that names are unique up to case, over the shared database. */
module CategoryManagement {
  import opened Common
  import opened ProductRepository
  import opened Catalog
  import opened Store

  /** `CategoryCreateDTO` and `CategoryUpdateDTO`, which carry the same fields. */
  datatype CategoryRequest = CategoryRequest(name: string, description: Option<string>)

  /** The request's bean-validation constraints, checked by the controller:
      those of the entity it becomes. */
  predicate RequestValid(req: CategoryRequest) {
    CategoryValid(Category(req.name, req.description))
  }

  /** `CategoryDTO`, without the audit timestamps. */
  datatype CategoryDto = CategoryDto(id: Id, name: string, description: Option<string>, productCount: nat)

  /** `mapToDTO`: the category's fields and the number of products that
      reference it. */
  function CategoryToDto(id: Id, c: Category, products: map<Id, Products.Product>): (d: CategoryDto)
    ensures d.id == id && d.name == c.name && d.description == c.description
    ensures d.productCount == |ProductsInCategory(products, id)|
    ensures d.productCount == 0 <==> forall pid :: pid in products ==> products[pid].category != Some(id)
  {
    var n := CountByCategoryId(products, id);
    assert n == 0 <== forall pid :: pid in products ==> products[pid].category != Some(id) by {
      if forall pid :: pid in products ==> products[pid].category != Some(id) {
        assert ProductsInCategory(products, id) == {};
      }
    }
    CategoryDto(id, c.name, c.description, n)
  }

  class CategoryService {
    const db: Database

    ghost predicate Valid()
      reads db
    {
      db.Valid()
    }

    constructor (db: Database)
      ensures this.db == db
    {
      this.db := db;
    }

    /** `findById`: NotFound for an unknown id, otherwise the category with its
        product count. */
    method FindById(id: Id) returns (r: Result<CategoryDto>)
      ensures id !in db.categories <==> r == Failure(NotFound("Category", id))
      ensures id in db.categories ==> r == Success(CategoryToDto(id, db.categories[id], db.products))
    {
      if id !in db.categories {
        return Failure(NotFound("Category", id));
      }
      r := Success(CategoryToDto(id, db.categories[id], db.products));
    }

    /** `create`. A name already held by a category, up to case, raises
        Duplicate and saves nothing; otherwise exactly one category is saved
        under a fresh key, so names stay unique. */
    method Create(req: CategoryRequest) returns (r: Result<CategoryDto>)
      requires Valid() && RequestValid(req)
      modifies db
      ensures Valid()
      ensures r.Failure? <==> ExistsByNameIgnoreCase(old(db.categories), req.name)
      ensures r.Failure? ==> r.error == Duplicate("Category", "name", req.name) && unchanged(db)
      ensures r.Success? ==>
                var id := old(db.nextCategoryId);
                && id !in old(db.categories)
                && db.categories == old(db.categories)[id := Category(req.name, req.description)]
                && db.nextCategoryId == id + 1
                && r.value == CategoryToDto(id, Category(req.name, req.description), db.products)
      ensures db.products == old(db.products) && db.suppliers == old(db.suppliers)
      ensures db.ledger == old(db.ledger) && db.clock == old(db.clock) && db.opening == old(db.opening)
      ensures db.nextProductId == old(db.nextProductId) && db.nextSupplierId == old(db.nextSupplierId)
    {
      if ExistsByNameIgnoreCase(db.categories, req.name) {
        return Failure(Duplicate("Category", "name", req.name));
      }
      var category := Category(req.name, req.description);
      var id := db.nextCategoryId;
      InsertKeepsNamesUnique(db.categories, id, category);
      db.categories := db.categories[id := category];
      db.nextCategoryId := id + 1;
      r := Success(CategoryToDto(id, category, db.products));
      assert CategoriesValid(db.categories, db.nextCategoryId);
    }

    /** `update`. An unknown id raises NotFound; a name held by another
        category, up to case, raises Duplicate; a failure saves nothing.
        Otherwise the category's name and description are replaced, so names
        stay unique. */
    method Update(id: Id, req: CategoryRequest) returns (r: Result<CategoryDto>)
      requires Valid() && RequestValid(req)
      modifies db
      ensures Valid()
      ensures id !in old(db.categories) ==> r == Failure(NotFound("Category", id))
      ensures id in old(db.categories) && ExistsByNameIgnoreCaseAndIdNot(old(db.categories), req.name, id)
              ==> r == Failure(Duplicate("Category", "name", req.name))
      ensures r.Success? <==> id in old(db.categories) && !ExistsByNameIgnoreCaseAndIdNot(old(db.categories), req.name, id)
      ensures r.Failure? ==> unchanged(db)
      ensures r.Success? ==>
                && db.categories == old(db.categories)[id := Category(req.name, req.description)]
                && r.value == CategoryToDto(id, Category(req.name, req.description), db.products)
      ensures db.nextCategoryId == old(db.nextCategoryId)
      ensures db.products == old(db.products) && db.suppliers == old(db.suppliers)
      ensures db.ledger == old(db.ledger) && db.clock == old(db.clock) && db.opening == old(db.opening)
      ensures db.nextProductId == old(db.nextProductId) && db.nextSupplierId == old(db.nextSupplierId)
    {
      if id !in db.categories {
        return Failure(NotFound("Category", id));
      }
      if ExistsByNameIgnoreCaseAndIdNot(db.categories, req.name, id) {
        return Failure(Duplicate("Category", "name", req.name));
      }
      var category := db.categories[id].(name := req.name, description := req.description);
      RenameKeepsNamesUnique(db.categories, id, category);
      db.categories := db.categories[id := category];
      r := Success(CategoryToDto(id, category, db.products));
      assert CategoriesValid(db.categories, db.nextCategoryId);
    }

    /** `delete`. An unknown id raises NotFound and changes nothing; otherwise
        exactly that category is removed. */
    method Delete(id: Id) returns (r: Outcome)
      requires Valid()
      modifies db
      ensures Valid()
      ensures id !in old(db.categories) ==> r == Fail(NotFound("Category", id)) && unchanged(db)
      ensures id in old(db.categories) ==> r == Done && db.categories == old(db.categories) - {id}
      ensures db.nextCategoryId == old(db.nextCategoryId)
      ensures db.products == old(db.products) && db.suppliers == old(db.suppliers)
      ensures db.ledger == old(db.ledger) && db.clock == old(db.clock) && db.opening == old(db.opening)
      ensures db.nextProductId == old(db.nextProductId) && db.nextSupplierId == old(db.nextSupplierId)
    {
      if id !in db.categories {
        return Fail(NotFound("Category", id));
      }
      db.categories := db.categories - {id};
      r := Done;
    }
  }
}
