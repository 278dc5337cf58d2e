# Inventory stock ledger, modelled in Dafny

This project models the core of a Spring Boot inventory service: the stock
ledger engine of `InventoryServiceImpl` and the catalog services around it.

The engine keeps a product table and an append-only ledger of
`InventoryTransaction` rows. `addStock` raises a product's `currentStock` by
a quantity. It appends one `STOCK_IN` row and sends one stock-update
notification. `removeStock` first rejects a quantity larger than the current
stock with `InsufficientStock`. Otherwise it lowers the stock, appends one
`STOCK_OUT` row and sends a stock-update notification. It then sends a
low-stock notification when the new stock is at or below the reorder level.
The catalog services create, edit and delete products, categories and
suppliers under three uniqueness rules: the product SKU, the category name up
to case, and the supplier email up to case.

Layout, one module per file:

- `common.dfy` (`Common`): `Option`, `Result`, `Outcome`, the service errors
  (`NotFound`, `Duplicate`, `InsufficientStock`), `NotBlank`, and ASCII
  lower-casing for the case-insensitive lookups.
- `products.dfy` (`Products`): the `Product` entity, its defaults and
  constraints, `isLowStock`, and the `ProductDTO` projection.
- `transactions.dfy` (`Transactions`): the ledger row, `TransactionType` and
  the row constraints.
- `stock_adjustment.dfy` (`StockAdjustments`): the stock request and the
  validity the controller enforces before the engine runs.
- `transaction_queries.dfy` (`TransactionQueries`): the transaction
  repository's queries as functions over the ledger sequence.
- `product_repository.dfy` (`ProductRepository`): the product repository's
  low-stock query and counts.
- `catalog.dfy` (`Catalog`): categories, suppliers and their
  case-insensitive lookups.
- `notifications.dfy` (`Notifications`): the notification sink as a class
  that records the calls made on it, in order.
- `store.dfy` (`Store`): the database as one class, and the invariants every
  service call keeps. The central one is `LedgerValid`: each product's cached
  stock equals the stock it was created with, plus its `STOCK_IN` quantities,
  minus its `STOCK_OUT` quantities.
- `inventory_engine.dfy` (`InventoryEngine`): `addStock` and `removeStock` as
  pure state transformers, and runs of many calls.
- `inventory_properties.dfy` (`InventoryProperties`): what the engine
  promises, proved about those transformers.
- `inventory_service.dfy` (`Inventory`): `InventoryServiceImpl` as a class
  whose methods update the database and the sink step by step. Each mutator
  is proved to agree with its transformer and to keep the invariants.
- `product_service.dfy`, `category_service.dfy`, `supplier_service.dfy`
  (`ProductManagement`, `CategoryManagement`, `SupplierManagement`): the three
  catalog services as classes over the same database.

The authenticated user is a parameter `actor: Option<string>`; `None` stands
for "nobody is authenticated" and yields `"system"`. The
`@CreationTimestamp` clock is a counter in the database. Every save of a row
reads it and advances it.

## Model

| member | source | states |
|---|---|---|
| Products.ToDto | src/main/java/com/inventory/service/impl/InventoryServiceImpl.java:150-167 | the returned product carries the id, SKU and stock, and its `lowStock` flag is true exactly when stock is at or below the reorder level |
| Products.IsLowStockCases | src/main/java/com/inventory/entity/Product.java:60-62 | `isLowStock` holds iff stock <= reorder level, inclusive at equality; it is false when either value is null |
| ProductRepository.FindLowStockProducts | src/main/java/com/inventory/repository/ProductRepository.java:55-56 | a product is in the low-stock result iff its own `isLowStock` holds, with its row unchanged |
| ProductRepository.LowStockDtos | src/main/java/com/inventory/service/impl/InventoryServiceImpl.java:95-98 | the low-stock list holds exactly the products with stock <= reorder level, each mapped and flagged low |
| ProductRepository.CountByCategoryId | src/main/java/com/inventory/repository/ProductRepository.java:67 | the count is at most the number of products, and zero only when no product references the category |
| ProductRepository.CountBySupplierId | src/main/java/com/inventory/repository/ProductRepository.java:72 | the count is at most the number of products, and zero only when no product references the supplier |
| ProductRepository.CountAfterInsert | src/main/java/com/inventory/repository/ProductRepository.java:67 | saving a new product raises its category's count by one and leaves every other category's count alone |
| Common.Lower | src/main/java/com/inventory/repository/CategoryRepository.java:29-30 | lower-casing keeps the length and folds each character on its own |
| TransactionQueries.Where | src/main/java/com/inventory/repository/InventoryTransactionRepository.java:34 | a filter keeps exactly the rows that match and is never longer than the ledger |
| TransactionQueries.WhereAppend | src/main/java/com/inventory/repository/InventoryTransactionRepository.java:34 | filtering a ledger with one more row gives the old result plus that row when it matches |
| TransactionQueries.FindByProductIdAndTransactionType | src/main/java/com/inventory/repository/InventoryTransactionRepository.java:34 | a row is returned iff it is in the ledger with that product and that type |
| TransactionQueries.SumQuantityByProductAndType | src/main/java/com/inventory/repository/InventoryTransactionRepository.java:54-55 | the sum is 0 when no row has that product and type; over valid rows it is 0 only then, and never negative |
| TransactionQueries.SumAfterAppend | src/main/java/com/inventory/repository/InventoryTransactionRepository.java:54-55 | appending a row adds its quantity to the sum of its own product and type, and changes no other sum |
| TransactionQueries.WhereWhere | src/main/java/com/inventory/repository/InventoryTransactionRepository.java:34 | filtering a filtered ledger by a narrower criterion equals filtering the ledger by it once |
| TransactionQueries.SumWithoutProducts | src/main/java/com/inventory/entity/Product.java:51-53 | dropping the rows of deleted products leaves every surviving product's sums unchanged |
| TransactionQueries.WhereChronological | src/main/java/com/inventory/entity/InventoryTransaction.java:38-40 | any filter of a ledger in creation order is still in creation order |
| TransactionQueries.InsertByDate | src/main/java/com/inventory/repository/InventoryTransactionRepository.java:48 | inserting a row into a newest-first list keeps it newest first and adds exactly that row |
| TransactionQueries.SortNewestFirst | src/main/java/com/inventory/repository/InventoryTransactionRepository.java:48 | `ORDER BY transactionDate DESC` gives a newest-first permutation of its input |
| TransactionQueries.SortedMembers | src/main/java/com/inventory/repository/InventoryTransactionRepository.java:48 | sorting keeps exactly the same rows |
| TransactionQueries.FirstPage | src/main/java/com/inventory/service/impl/InventoryServiceImpl.java:106 | page 0 of size n is the prefix of exactly min(n, row count) rows |
| TransactionQueries.FirstPageIsNewest | src/main/java/com/inventory/service/impl/InventoryServiceImpl.java:106 | the first page of a newest-first list is newest first, and every row left off it is no newer than every row on it |
| TransactionQueries.FindRecentByProductId | src/main/java/com/inventory/repository/InventoryTransactionRepository.java:48-49 | exactly min(`limit`, the product's row count) rows, each one of the product's own taken at most as often as it occurs, newest first; no row of the product that was left out is newer than one returned; all of them when they fit |
| TransactionQueries.FindByDateRange | src/main/java/com/inventory/repository/InventoryTransactionRepository.java:39-43 | a row is returned iff start <= date <= end (both ends inclusive), newest first, each matching row exactly once |
| Store.NetMovementAppend | src/main/java/com/inventory/service/impl/InventoryServiceImpl.java:40-49 | a new row changes only its own product's net movement, by +quantity for `STOCK_IN` and -quantity for `STOCK_OUT` |
| Store.NetMovementIsSums | src/main/java/com/inventory/repository/InventoryTransactionRepository.java:54-55 | a product's net movement equals its `STOCK_IN` sum minus its `STOCK_OUT` sum |
| Store.NetMovementOfUnused | src/main/java/com/inventory/service/impl/ProductServiceImpl.java:106-129 | a product with no rows has net movement 0 |
| Store.NetMovementWithout | src/main/java/com/inventory/entity/Product.java:51-53 | removing the rows of deleted products leaves every other product's net movement unchanged |
| Store.Database.constructor | src/main/java/com/inventory/entity/Product.java:19-21 | an empty database is valid and its identity counters start at 1 |
| Store.Database.SaveTransaction | src/main/java/com/inventory/entity/InventoryTransaction.java:38-40 | a saved row is appended, stamped with the current instant, and nothing else changes |
| Store.Moved | src/main/java/com/inventory/service/impl/InventoryServiceImpl.java:39-40 | moving a product by a row changes exactly that product's stock, by the row's signed quantity |
| Store.MoveKeepsProductsValid | src/main/java/com/inventory/entity/Product.java:43-46 | a move that leaves the stock non-negative keeps the product table valid |
| Store.MoveKeepsBalances | src/main/java/com/inventory/service/impl/InventoryServiceImpl.java:40-49 | after a move and its row, every product's stock is still its opening stock plus its net movement |
| Store.AppendKeepsChronological | src/main/java/com/inventory/entity/InventoryTransaction.java:38-40 | a row stamped with the current instant keeps the ledger in creation order |
| Store.MoveKeepsLedgerValid | src/main/java/com/inventory/service/impl/InventoryServiceImpl.java:39-50 | moving a product and appending its valid row, stamped now, keeps the ledger consistent with the cached stock |
| Store.DropKeepsLedgerValid | src/main/java/com/inventory/entity/Product.java:51-53 | deleting products together with their rows keeps the ledger consistent |
| Store.InsertKeepsLedgerValid | src/main/java/com/inventory/service/impl/ProductServiceImpl.java:106-129 | a new product, with its initial stock as opening stock, keeps the ledger consistent |
| Store.ReplaceKeepsLedgerValid | src/main/java/com/inventory/service/impl/ProductServiceImpl.java:138-164 | rewriting a product without touching its stock keeps the ledger consistent |
| Store.InsertKeepsProductsValid | src/main/java/com/inventory/service/impl/ProductServiceImpl.java:102-129 | a valid product with an unused SKU and an existing supplier, saved under the next key, keeps SKUs unique and the table valid |
| Store.DropSupplierKeepsTablesValid | src/main/java/com/inventory/entity/Supplier.java:53-55 | deleting a supplier together with its products leaves no dangling supplier reference |
| Catalog.OwnNameIsNoDuplicate | src/main/java/com/inventory/repository/CategoryRepository.java:29-30 | a category may keep or recase its own name: the update check finds no other holder |
| Catalog.InsertKeepsNamesUnique | src/main/java/com/inventory/service/impl/CategoryServiceImpl.java:38-45 | adding a category whose name is free, up to case, keeps names unique |
| Catalog.RenameKeepsNamesUnique | src/main/java/com/inventory/service/impl/CategoryServiceImpl.java:52-58 | renaming to a name no other category holds, up to case, keeps names unique |
| Catalog.OwnEmailIsNoDuplicate | src/main/java/com/inventory/repository/SupplierRepository.java:29-30 | a supplier may keep or recase its own email: the update check finds no other holder |
| Catalog.InsertKeepsEmailsUnique | src/main/java/com/inventory/service/impl/SupplierServiceImpl.java:51-63 | adding a supplier whose email is free, up to case, keeps emails unique |
| Catalog.RenameKeepsEmailsUnique | src/main/java/com/inventory/service/impl/SupplierServiceImpl.java:73-84 | changing to an email no other supplier holds, up to case, keeps emails unique |
| Notifications.NotificationLog.NotifyStockUpdate | src/main/java/com/inventory/service/interfaces/InventoryNotificationService.java:28-29 | a stock-update call is recorded after every earlier call |
| Notifications.NotificationLog.NotifyLowStock | src/main/java/com/inventory/service/interfaces/InventoryNotificationService.java:17 | a low-stock call is recorded after every earlier call |
| Products.IsLowStock | src/main/java/com/inventory/entity/Product.java:60-62 | low stock needs both values present, and holds whenever stock <= reorder level |
| Products.Valid | src/main/java/com/inventory/entity/Product.java:22-50 | a valid product has a name of 1 to 200 characters, a SKU of 1 to 50, and stock and reorder level not negative |
| Transactions.Valid | src/main/java/com/inventory/entity/InventoryTransaction.java:28-43 | a valid row has a positive quantity and an author of at most 100 characters |
| StockAdjustments.Valid | src/main/java/com/inventory/dto/StockAdjustmentDTO.java:12-20 | a valid request has a product id and a positive quantity |
| ProductRepository.ExistsBySku | src/main/java/com/inventory/repository/ProductRepository.java:28 | true iff the SKU is among the values of the SKU column |
| Catalog.ExistsByNameIgnoreCase | src/main/java/com/inventory/repository/CategoryRepository.java:24 | an exact name match counts as a case-insensitive one; an empty table has none |
| Catalog.ExistsByNameIgnoreCaseAndIdNot | src/main/java/com/inventory/repository/CategoryRepository.java:29-30 | a match on another id is a match; when the id is not in the table the two lookups agree |
| Catalog.ExistsByEmailIgnoreCase | src/main/java/com/inventory/repository/SupplierRepository.java:24 | an exact email match counts as a case-insensitive one; an empty table has none |
| Catalog.ExistsByEmailIgnoreCaseAndIdNot | src/main/java/com/inventory/repository/SupplierRepository.java:29-30 | a match on another id is a match; when the id is not in the table the two lookups agree |
| InventoryEngine.CurrentUsername | src/main/java/com/inventory/service/impl/InventoryServiceImpl.java:146-149 | the authenticated name, or "system" when nobody is authenticated; at most 100 characters when the name is |
| InventoryEngine.BuildRow | src/main/java/com/inventory/service/impl/InventoryServiceImpl.java:41-48 | the row carries the product, type, the request's quantity, reference and notes, the current user and the creation instant; from a valid request it meets the row constraints |
| InventoryEngine.AddStockStep | src/main/java/com/inventory/service/impl/InventoryServiceImpl.java:36-58 | succeeds iff the product exists; a failure changes nothing; the set of products stays the same; a success appends exactly one row after the old ones and advances the clock |
| InventoryEngine.RemoveStockStep | src/main/java/com/inventory/service/impl/InventoryServiceImpl.java:60-92 | succeeds iff the product exists and has at least the quantity; a failure changes nothing; the set of products stays the same; a success leaves the stock non-negative, appends exactly one row after the old ones and advances the clock |
| InventoryProperties.UnknownProductFails | src/main/java/com/inventory/service/impl/InventoryServiceImpl.java:37-38 | both mutators reject an unknown product with NotFound and leave the table, ledger and notifications unchanged |
| InventoryProperties.AddStockEffect | src/main/java/com/inventory/service/impl/InventoryServiceImpl.java:36-58 | `addStock` raises only that product's stock by the quantity, appends one `STOCK_IN` row with the request's fields and the user or "system", sends one stock-update and never a low-stock notification |
| InventoryProperties.RemoveStockInsufficient | src/main/java/com/inventory/service/impl/InventoryServiceImpl.java:63-66 | removing more than the stock fails with (product id, requested, available) and changes nothing |
| InventoryProperties.RemoveStockEffect | src/main/java/com/inventory/service/impl/InventoryServiceImpl.java:63-91 | removing at most the stock lowers it by the quantity (never below zero), appends one `STOCK_OUT` row, and sends the stock update, then a low-stock notification iff new stock <= reorder level |
| InventoryProperties.LowStockAlertIff | src/main/java/com/inventory/service/impl/InventoryServiceImpl.java:78-90 | after a removal the first notification is the stock update, and a low-stock one is sent iff the new stock is at or below the reorder level |
| InventoryProperties.AddThenRemoveRestores | src/main/java/com/inventory/service/impl/InventoryServiceImpl.java:40-76 | adding then removing the same quantity restores the whole table, keeps every earlier row, and appends exactly a `STOCK_IN` and a `STOCK_OUT` row |
| InventoryProperties.BuildRowValid | src/main/java/com/inventory/entity/InventoryTransaction.java:28-43 | the row built from a valid request, with an author of at most 100 characters, meets every row constraint |
| InventoryProperties.AddStockMoves | src/main/java/com/inventory/service/impl/InventoryServiceImpl.java:39-50 | a successful `addStock` moves its product by exactly the row it appends |
| InventoryProperties.RemoveStockMoves | src/main/java/com/inventory/service/impl/InventoryServiceImpl.java:63-77 | a successful `removeStock` moves its product by exactly the row it appends |
| InventoryProperties.AddStockKeepsInvariants | src/main/java/com/inventory/service/impl/InventoryServiceImpl.java:36-58 | `addStock` keeps the product table valid and the ledger consistent with the cached stock |
| InventoryProperties.RemoveStockKeepsInvariants | src/main/java/com/inventory/service/impl/InventoryServiceImpl.java:60-92 | `removeStock` keeps the product table valid (stock never negative) and the ledger consistent |
| InventoryProperties.ApplyKeepsLedgerValid | src/main/java/com/inventory/service/impl/InventoryServiceImpl.java:36-92 | one call keeps the ledger consistent and the set of products, and only appends, at most one row |
| InventoryProperties.RunKeepsLedgerValid | src/main/java/com/inventory/service/impl/InventoryServiceImpl.java:36-92 | any sequence of calls keeps the ledger consistent, never alters earlier rows, and adds at most one row per call |
| InventoryProperties.RunFromEmptyLedger | src/main/java/com/inventory/repository/InventoryTransactionRepository.java:54-55 | from an empty ledger, after any calls, each product's stock is its initial stock + sum of `STOCK_IN` - sum of `STOCK_OUT` |
| InventoryProperties.ServiceScenarios | src/test/java/com/inventory/service/InventoryServiceTest.java:85-191 | 100 + 50 gives 150 with update (100, 150); 100 - 30 gives 70; removing 50 from 20 fails with 20 available; 15 - 10 gives 5 with low-stock (5, 10) |
| Inventory.InventoryService.AddStock | src/main/java/com/inventory/service/impl/InventoryServiceImpl.java:36-58 | the method's new database, notifications and result are exactly `AddStockStep`'s, and the invariants hold afterwards |
| Inventory.InventoryService.RemoveStock | src/main/java/com/inventory/service/impl/InventoryServiceImpl.java:60-92 | the method's new database, notifications and result are exactly `RemoveStockStep`'s, and the invariants hold afterwards |
| Inventory.InventoryService.GetLowStockProducts | src/main/java/com/inventory/service/impl/InventoryServiceImpl.java:93-99 | exactly the products with stock <= reorder level, each flagged low |
| Inventory.InventoryService.GetProductTransactions | src/main/java/com/inventory/service/impl/InventoryServiceImpl.java:100-110 | NotFound iff the product is unknown, success otherwise; the result is exactly min(100, its row count) of its own rows, newest first, no left-out row newer than a returned one, and all of them when it has at most 100 |
| Inventory.InventoryService.IsLowStock | src/main/java/com/inventory/service/impl/InventoryServiceImpl.java:111-117 | NotFound for an unknown product; otherwise stock <= reorder level |
| ProductManagement.NewProductDefaults | src/main/java/com/inventory/service/impl/ProductServiceImpl.java:106-113 | a missing initial stock becomes 0 and a missing reorder level 10; a valid request gives a valid product |
| ProductManagement.UpdatedFields | src/main/java/com/inventory/service/impl/ProductServiceImpl.java:138-162 | update overwrites name, description and price, keeps the reorder level when none is given, sets or clears category and supplier, never changes SKU or stock |
| ProductManagement.ProductService.FindById | src/main/java/com/inventory/service/impl/ProductServiceImpl.java:41-47 | NotFound iff the id is unknown; otherwise the product's projection |
| ProductManagement.ProductService.FindLowStock | src/main/java/com/inventory/service/impl/ProductServiceImpl.java:91-97 | the same list as the inventory service: exactly the low-stock products |
| ProductManagement.ProductService.Create | src/main/java/com/inventory/service/impl/ProductServiceImpl.java:99-131 | Duplicate for a used SKU before any lookup, then NotFound for a missing category or supplier, nothing saved on failure; otherwise exactly one new product under a fresh key |
| ProductManagement.ProductService.Update | src/main/java/com/inventory/service/impl/ProductServiceImpl.java:133-166 | NotFound for an unknown product, category or supplier, nothing saved on failure; otherwise the product becomes `Updated(old, req)` |
| ProductManagement.ProductService.Delete | src/main/java/com/inventory/service/impl/ProductServiceImpl.java:168-174 | NotFound for an unknown id; otherwise exactly that product and its ledger rows are removed |
| CategoryManagement.CategoryToDto | src/main/java/com/inventory/service/impl/CategoryServiceImpl.java:73-83 | the category's fields, and a product count equal to the number of products referencing it, zero iff none does |
| CategoryManagement.CategoryService.FindById | src/main/java/com/inventory/service/impl/CategoryServiceImpl.java:23-29 | NotFound iff the id is unknown; otherwise the category with its product count |
| CategoryManagement.CategoryService.Create | src/main/java/com/inventory/service/impl/CategoryServiceImpl.java:36-47 | fails with Duplicate iff the name is taken up to case, saving nothing; otherwise one new category under a fresh key, names stay unique |
| CategoryManagement.CategoryService.Update | src/main/java/com/inventory/service/impl/CategoryServiceImpl.java:48-60 | NotFound for an unknown id; Duplicate iff another category holds the name up to case; otherwise only name and description change |
| CategoryManagement.CategoryService.Delete | src/main/java/com/inventory/service/impl/CategoryServiceImpl.java:61-67 | NotFound for an unknown id; otherwise exactly that category is removed |
| SupplierManagement.SupplierToDto | src/main/java/com/inventory/service/impl/SupplierServiceImpl.java:103-117 | the supplier's fields, and a product count equal to the number of products referencing it, zero iff none does |
| SupplierManagement.SupplierService.FindById | src/main/java/com/inventory/service/impl/SupplierServiceImpl.java:33-39 | NotFound iff the id is unknown; otherwise the supplier with its product count |
| SupplierManagement.SupplierService.Create | src/main/java/com/inventory/service/impl/SupplierServiceImpl.java:48-65 | fails with Duplicate iff the email is taken up to case, saving nothing; otherwise one new supplier under a fresh key, with no products |
| SupplierManagement.SupplierService.Update | src/main/java/com/inventory/service/impl/SupplierServiceImpl.java:67-86 | NotFound for an unknown id; Duplicate iff another supplier holds the email up to case; otherwise all five fields are replaced |
| SupplierManagement.SupplierService.Delete | src/main/java/com/inventory/service/impl/SupplierServiceImpl.java:88-94 | NotFound for an unknown id; otherwise the supplier, its products and their rows are removed, and no product references it |

## Left out

- HTTP controllers, routing and status codes. Their `@Valid` checks appear only as the `requires` of the service methods.
- Authentication: the current user is the `actor` parameter.
- Logging: the notification sink records calls and does not format log lines.
- Transactions and concurrency: calls run one after another, and every failure is raised before anything is written, so a failed call changes nothing.
- Pagination, `PagedResponse`, and the paged finders built on them (`findAll`, `findTransactionsByProduct`, `findTransactionsByType`, `findTransactionsByDateRange`, `findByCategory`, `findBySupplier`). `FindByDateRange` models the query that the last of these pages through.
- `findBySku`, `searchByName`, `existsBySku`, `existsByName` and `existsByEmail` as service operations: thin wrappers around the repository predicates that are modelled. The SQL `LIKE` name search is not modelled.
- DTO display names, audit timestamps and the mapping of a row to `InventoryTransactionDTO`.
- `unitPrice` arithmetic: the price is carried as an opaque decimal.
- Unicode case folding: lower-casing is ASCII-only.
- The `@Email` format check and the 100-character email column.
- Category references in products are not part of the store invariant. The Category entity is not part of this model, so what happens to products when their category is deleted is unknown; `CategoryService.Delete` removes only the category.
- `ADJUSTMENT` rows: no modelled operation writes one, and the ledger invariant assumes none are present.
- Inventory.InventoryService.AddStock: does not model 32-bit `Integer` overflow of `previousStock + quantity`; stock is an unbounded integer.
- Inventory.InventoryService.GetLowStockProducts: returns a map keyed by product id, so the order of the list is not modelled.
- Inventory.InventoryService.GetProductTransactions: returns the ledger rows themselves, not their DTOs.
- ProductManagement.ProductService.FindLowStock: returns a map keyed by product id, so the order of the list is not modelled.
- String lengths: `@Size` and the column lengths count UTF-16 code units, while the model counts characters. A string holding characters outside the Basic Multilingual Plane is therefore shorter in the model than in the source.
- TransactionQueries.SumQuantityByProductAndType: the sum is an unbounded integer; the narrowing of SQL `SUM` to a Java `Integer`, and its overflow, are not modelled.
