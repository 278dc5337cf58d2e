/** Categories and suppliers: the catalog entities a product may reference,
    their field constraints, and the case-insensitive lookups their
    repositories offer. */
module Catalog {
  import opened Common

  /** A category; its fields are those the category requests carry. */
  datatype Category = Category(name: string, description: Option<string>)

  /** A supplier. */
  datatype Supplier = Supplier(
    companyName: string,
    contactPerson: Option<string>,
    email: string,
    phone: Option<string>,
    address: Option<string>)

  /** The constraints of the category requests: a non-blank name of at most
      100 characters, a description of at most 500. */
  predicate CategoryValid(c: Category) {
    NotBlank(c.name) && |c.name| <= 100 && AtMost(c.description, 500)
  }

  /** The constraints of the supplier entity: a non-blank company name of at
      most 200 characters, contact person at most 100, a non-blank email,
      phone at most 20, address at most 500. */
  predicate SupplierValid(s: Supplier) {
    && NotBlank(s.companyName) && |s.companyName| <= 200
    && AtMost(s.contactPerson, 100)
    && NotBlank(s.email)
    && AtMost(s.phone, 20)
    && AtMost(s.address, 500)
  }

  /** `existsByNameIgnoreCase`: an exact match is one, and an empty table has
      none. */
  predicate ExistsByNameIgnoreCase(categories: map<Id, Category>, name: string)
    ensures (exists id :: id in categories && categories[id].name == name) ==> ExistsByNameIgnoreCase(categories, name)
    ensures categories == map[] ==> !ExistsByNameIgnoreCase(categories, name)
  {
    exists id :: id in categories && Lower(categories[id].name) == Lower(name)
  }

  /** `findByNameIgnoreCaseAndIdNot(name, id).isPresent()`:
      `LOWER(c.name) = LOWER(:name) AND c.id != :id`. */
  predicate ExistsByNameIgnoreCaseAndIdNot(categories: map<Id, Category>, name: string, id: Id)
    ensures ExistsByNameIgnoreCaseAndIdNot(categories, name, id) ==> ExistsByNameIgnoreCase(categories, name)
    ensures id !in categories ==>
              (ExistsByNameIgnoreCaseAndIdNot(categories, name, id) <==> ExistsByNameIgnoreCase(categories, name))
  {
    exists other :: other in categories && other != id && Lower(categories[other].name) == Lower(name)
  }

  /** `existsByEmailIgnoreCase`: an exact match is one, and an empty table has
      none. */
  predicate ExistsByEmailIgnoreCase(suppliers: map<Id, Supplier>, email: string)
    ensures (exists id :: id in suppliers && suppliers[id].email == email) ==> ExistsByEmailIgnoreCase(suppliers, email)
    ensures suppliers == map[] ==> !ExistsByEmailIgnoreCase(suppliers, email)
  {
    exists id :: id in suppliers && Lower(suppliers[id].email) == Lower(email)
  }

  /** `findByEmailIgnoreCaseAndIdNot(email, id).isPresent()`. */
  predicate ExistsByEmailIgnoreCaseAndIdNot(suppliers: map<Id, Supplier>, email: string, id: Id)
    ensures ExistsByEmailIgnoreCaseAndIdNot(suppliers, email, id) ==> ExistsByEmailIgnoreCase(suppliers, email)
    ensures id !in suppliers ==>
              (ExistsByEmailIgnoreCaseAndIdNot(suppliers, email, id) <==> ExistsByEmailIgnoreCase(suppliers, email))
  {
    exists other :: other in suppliers && other != id && Lower(suppliers[other].email) == Lower(email)
  }

  /** No two categories have names equal up to case. */
  predicate CategoryNamesUnique(categories: map<Id, Category>) {
    forall a, b :: a in categories && b in categories && Lower(categories[a].name) == Lower(categories[b].name)
                   ==> a == b
  }

  /** No two suppliers have emails equal up to case. */
  predicate SupplierEmailsUnique(suppliers: map<Id, Supplier>) {
    forall a, b :: a in suppliers && b in suppliers && Lower(suppliers[a].email) == Lower(suppliers[b].email)
                   ==> a == b
  }

  /** A category may keep its own name, or change only its case: the update
      check ignores the category being updated. */
  lemma OwnNameIsNoDuplicate(categories: map<Id, Category>, id: Id, name: string)
    requires CategoryNamesUnique(categories) && id in categories
    requires Lower(name) == Lower(categories[id].name)
    ensures !ExistsByNameIgnoreCaseAndIdNot(categories, name, id)
    ensures ExistsByNameIgnoreCase(categories, name)
  {
  }

  /** Adding a category whose name is not taken, up to case, under a new key
      keeps names unique. */
  lemma InsertKeepsNamesUnique(categories: map<Id, Category>, id: Id, c: Category)
    requires CategoryNamesUnique(categories) && id !in categories
    requires !ExistsByNameIgnoreCase(categories, c.name)
    ensures CategoryNamesUnique(categories[id := c])
  {
  }

  /** Renaming a category to a name no other category holds, up to case,
      keeps names unique. */
  lemma RenameKeepsNamesUnique(categories: map<Id, Category>, id: Id, c: Category)
    requires CategoryNamesUnique(categories)
    requires !ExistsByNameIgnoreCaseAndIdNot(categories, c.name, id)
    ensures CategoryNamesUnique(categories[id := c])
  {
  }

  /** A supplier may keep its own email, or change only its case. */
  lemma OwnEmailIsNoDuplicate(suppliers: map<Id, Supplier>, id: Id, email: string)
    requires SupplierEmailsUnique(suppliers) && id in suppliers
    requires Lower(email) == Lower(suppliers[id].email)
    ensures !ExistsByEmailIgnoreCaseAndIdNot(suppliers, email, id)
    ensures ExistsByEmailIgnoreCase(suppliers, email)
  {
  }

  /** Adding a supplier whose email is not taken, up to case, under a new key
      keeps emails unique. */
  lemma InsertKeepsEmailsUnique(suppliers: map<Id, Supplier>, id: Id, s: Supplier)
    requires SupplierEmailsUnique(suppliers) && id !in suppliers
    requires !ExistsByEmailIgnoreCase(suppliers, s.email)
    ensures SupplierEmailsUnique(suppliers[id := s])
  {
  }

  /** Changing a supplier's email to one no other supplier holds, up to case,
      keeps emails unique. */
  lemma RenameKeepsEmailsUnique(suppliers: map<Id, Supplier>, id: Id, s: Supplier)
    requires SupplierEmailsUnique(suppliers)
    requires !ExistsByEmailIgnoreCaseAndIdNot(suppliers, s.email, id)
    ensures SupplierEmailsUnique(suppliers[id := s])
  {
  }
}
