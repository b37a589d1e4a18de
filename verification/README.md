# Inventory stock ledger — a Dafny model

This project models the logic core of a small inventory-management web
application. Staff record stock movements against products; a dashboard
summarises the store; a product page filters the product list.

- **Stock-movement service** (`StockLedger`, from
  `backend/controllers/stockController.js`). `stockIn` adds a quantity to a
  product. `stockOut` first checks that enough stock is available and then
  subtracts. Each successful movement appends one immutable IN/OUT entry to
  the transaction ledger. A failed one ("Product not found", "Insufficient
  stock") changes nothing. `getStockTransactions` lists the ledger. The store
  is a `map` of products plus a `seq` ledger. Each operation is a pure
  function that returns either an error or the new store with the echoed
  product and entry. `Handle` serves one request and `Run` serves a sequence
  of them.
- **Dashboard** (`Dashboard`, from `backend/controllers/dashboardController.js`).
  It gives document counts, the low-stock products (`quantity <=
  minStockLevel`) and their count, per-type quantity totals, and the five
  newest ledger entries.
- **Product page** (`ProductsPage`, from `frontend/src/pages/Products.js`).
  It has the `lowStock=true` URL filter, the search / category / stock
  filters, the category select options and the low-stock row highlight.
- **Schemas** (`ProductSchema`, `TransactionSchema`, from
  `backend/models/*.js`). They give the record shapes, the required fields,
  the defaults (quantity 0, minimum stock level 5) and the IN/OUT enum.

Modelling choices:

- Quantities are unbounded `int`. The source never checks the sign of a
  requested quantity. So a negative IN can push stock below zero, and a
  negative OUT increases stock. `NegativeStockInUnderflows` and
  `NegativeStockOutIncreases` state both behaviours. Non-negativity is
  proved only for non-negative requests.
- Time is a natural-number clock held in the store. Each write takes an
  `elapsed` amount, which may be zero. So creation times are monotone, and
  two entries may share a timestamp, as millisecond timestamps can.
- A stored `minStockLevel` is `Option<int>`. `None` stands for a stored null.
  The schema default 5 fills only an absent field. An explicit null, or an
  empty number input cast to null, stays null.
- The dashboard and the product page treat a null level differently. The
  dashboard's database comparison `quantity <= null` is false, because null
  sorts below every number. The page's `quantity <= (minStockLevel || 0)`
  reads null as 0. So a product with a null level and quantity at most 0 is
  on the page's `lowStock=true` list but is not counted on the dashboard
  that links there. `ProductsPage.LowStockTestsDiffer` states exactly when
  the two tests differ.
- The database leaves some orders unspecified: the order of groups in the
  per-type summary, and the order of entries with equal timestamps in the
  recent list. The model fixes one order for each: IN before OUT, and an
  insertion sort. Its contracts state only what every order satisfies.
- Text search lower-cases ASCII letters only.

## Model

| member | source | states |
|---|---|---|
| ProductSchema.Create | backend/models/Product.js:3-29 | A product is created iff name and category are non-empty strings, quantity is not null and price is given. Every failing required path is reported. A missing quantity becomes 0, a missing level becomes 5, and an explicit null level stays null. createdBy holds the given user, or none when the field is absent or null. |
| TransactionSchema.ParseType | backend/models/StockTransaction.js:10-14 | A stored type is accepted iff it is exactly "IN" or "OUT", and it reads back as the string it came from. |
| TransactionSchema.TypeRoundTrip | backend/models/StockTransaction.js:10-14 | Each movement type's stored string parses back to the same type. |
| TransactionSchema.CreateTransaction | backend/models/StockTransaction.js:3-30 | An entry is created iff product, quantity and an enum type are present. On failure each failing path is reported: a missing product or quantity, a missing or empty type (TypeRequired), or a non-empty type outside the enum (TypeNotInEnum). Supplier and performedBy pass through as optional. The entry is stamped with the creation time. |
| StockLedger.StockIn | backend/controllers/stockController.js:5-23 | It fails with ProductNotFound iff the id is unknown. Otherwise the quantity becomes old + q, no other product and no other field changes, and exactly one IN entry {product, q, supplier, performedBy = user} is appended to the unchanged old ledger. |
| StockLedger.StockOut | backend/controllers/stockController.js:36-59 | It fails iff the id is unknown (ProductNotFound) or old < q (InsufficientStock). Otherwise the quantity becomes old − q, nothing else changes, and exactly one OUT entry with no supplier is appended. |
| StockLedger.Handle | backend/controllers/stockController.js:5-79 | A rejected request or a ledger listing leaves the store unchanged. The listing returns the whole ledger. An IN is created iff the product exists, an OUT iff it exists and holds at least the requested quantity. A refused IN answers ProductNotFound; a refused OUT answers ProductNotFound for an unknown id and InsufficientStock otherwise. The created entry carries the requested product, quantity and type, the acting user, and the supplier for an IN (none for an OUT), and the echoed product is the stored one after the write. A created movement changes only its product's quantity, by the entry's signed quantity. |
| StockLedger.MovementEntriesPassSchema | backend/controllers/stockController.js:17-59 | The entry a successful IN or OUT appends is exactly the entry the transaction schema creates from the product id, the type string, the quantity, the supplier (IN only) and the acting user, stamped with the write time; that creation succeeds. |
| StockLedger.Run | backend/controllers/stockController.js:14-23 | Any sequence of requests keeps the old ledger as a prefix and adds at most one entry per request. It leaves the product, category and supplier sets unchanged. |
| StockLedger.Reconciliation | backend/controllers/stockController.js:14-59 | After any sequence of requests, each product's quantity equals its initial quantity plus the IN total minus the OUT total recorded for it in the appended part of the ledger. |
| StockLedger.RunKeepsStockNonNegative | backend/controllers/stockController.js:45-51 | If every request quantity is ≥ 0 and every product starts at ≥ 0, then no product ever goes negative. |
| StockLedger.StockOutNeverOverdraws | backend/controllers/stockController.js:45-51 | A successful OUT of a non-negative amount leaves non-negative stock, whatever the stock was before. |
| StockLedger.NegativeStockInUnderflows | backend/controllers/stockController.js:7-14 | A negative IN larger than the stock is accepted and leaves the product below zero. |
| StockLedger.NegativeStockOutIncreases | backend/controllers/stockController.js:38-51 | A negative OUT on non-negative stock passes the sufficiency check and increases the stock. |
| StockLedger.RunKeepsLedgerWellFormed | backend/controllers/stockController.js:17-59 | In every reachable store the entries are in creation-time order and no newer than the clock. Each names a known product and an acting user, and OUT entries carry no supplier. |
| Dashboard.LowStockProducts | backend/controllers/dashboardController.js:13-15 | A product is in the low-stock result iff quantity ≤ its non-null level. The result is a sub-map of the products and no larger than them. |
| Dashboard.DefaultLevelLowStock | backend/models/Product.js:12-24 | A product created without a level is low stock iff its quantity ≤ 5. One created without a quantity as well starts out low. |
| Dashboard.StockSummary | backend/controllers/dashboardController.js:17-24 | There is at most one entry per type. Each entry's total is the sum of that type's quantities. A type appears iff the ledger holds an entry of that type. |
| Dashboard.HandleMovesTypeTotal | backend/controllers/dashboardController.js:17-24 | A served movement raises its own type's total by its quantity and leaves the other type's total unchanged. A rejected request or a listing changes neither. |
| Dashboard.SortNewestFirst | backend/controllers/dashboardController.js:26-27 | The sorted ledger is a permutation of the ledger, ordered by createdAt non-increasing. |
| Dashboard.RecentTransactions | backend/controllers/dashboardController.js:26-30 | The result has length min(5, ledger length), newest first, and its entries are drawn from the ledger. No left-out entry is strictly newer than a kept one. |
| Dashboard.GetDashboardStats | backend/controllers/dashboardController.js:7-42 | The counts equal the sizes of the product, category and supplier collections. lowStockCount is the low-stock list's size and is ≤ totalProducts. The low-stock list holds exactly the low products. The per-type summary has one entry per type present in the ledger, each with that type's total. The recent list has length min(5, ledger length), is newest first, is drawn from the ledger, and leaves out no entry newer than one it keeps. |
| Dashboard.DrawDownScenario | backend/controllers/stockController.js:45-59 | Start at 10 units with level 5. OUT 4 leaves 6 with one OUT entry, not low. OUT 5 leaves 1, low. OUT 2 is refused and the stock stays 1. |
| ProductsPage.LowStockTestsDiffer | frontend/src/pages/Products.js:41-43 | The page's low-stock test and the dashboard's differ exactly when the level is null and quantity ≤ 0. |
| ProductsPage.ApplyLowStockFilter | frontend/src/pages/Products.js:35-48 | With lowStock=true the result keeps exactly the products with quantity ≤ (level or 0), each as many times as it occurs in the input. Any other value leaves the list unchanged. The result preserves order. |
| SeqFacts.FilterKeepsCounts | frontend/src/pages/Products.js:41-43 | The list filter keeps each passing value as many times as the list holds it, duplicates included, and drops every other value. |
| ProductsPage.IncludesAtOffset | frontend/src/pages/Products.js:52-54 | The search test holds iff the needle occurs at some offset of the text. |
| ProductsPage.FinalProducts | frontend/src/pages/Products.js:51-67 | The result is an order-preserving subsequence of the input. A product is in it iff it is in the input, matches search, category and stock, and is low when lowStock=true. A shown product occurs as many times as in the input, and a hidden one not at all. |
| ProductsPage.DefaultQueryShowsAll | frontend/src/pages/Products.js:51-66 | Empty search, "all" in both selects and no lowStock=true give back the whole list in order. |
| ProductsPage.CategoryFilterIsExact | frontend/src/pages/Products.js:56-57 | With a specific category, every shown product has exactly that category string. |
| ProductsPage.StockFiltersPartition | frontend/src/pages/Products.js:59-64 | Exactly one of "low" and "ok" holds for each product, so those two filters split any list without loss or overlap. |
| ProductsPage.LowStockLinkWithOkIsEmpty | frontend/src/pages/Products.js:41-64 | lowStock=true together with stock filter "ok" shows nothing. |
| ProductsPage.UnknownStockFilterIsEmpty | frontend/src/pages/Products.js:59-64 | A stock filter other than "all", "low" or "ok" shows nothing. |
| ProductsPage.FinalProductsIdempotent | frontend/src/pages/Products.js:51-67 | Filtering the shown list again with the same query returns it unchanged. |
| ProductsPage.DangerRowIsLowFilter | frontend/src/pages/Products.js:212-219 | A row is highlighted iff the "low" stock filter keeps that product. Everything lowStock=true shows is highlighted. |
| ProductsPage.Distinct | frontend/src/pages/Products.js:172 | Each value of the input appears exactly once, the values are listed in the order of their first occurrences in the input, and the result is a subsequence of the input. |
| ProductsPage.CategoryOptions | frontend/src/pages/Products.js:172-174 | The options are the categories of the listed products, each exactly once, in the order in which they first occur in the list. |

## Left out

- Database I/O (`findById`, `save`, `create`, `countDocuments`, the
  `aggregate` engine). Its effect is modelled over an in-memory map and
  sequence instead.
- `populate` of product, supplier and user names in the listing and the
  recent list: it only annotates entries with display names.
- Concurrency. Two overlapping `stockOut` requests can both pass the
  sufficiency check, because the read-check-write is not isolated. Each
  request is modelled as one atomic step, and no claim about races is made.
- Partial failure between `product.save()` and `StockTransaction.create`.
  The two writes are treated as one atomic step.
- JavaScript dynamic typing: a string or missing `quantity` in a request
  body (concatenation, NaN). Quantities are modelled as `int`.
- Unicode lower-casing in the search filter. Only ASCII letters are folded.
- `price` as a floating-point number. It is a `real` that nothing computes
  with.
- Authentication, role checks, password reset, routing, React rendering,
  styling and the seed scripts.
- HTTP status codes. They appear only as error variants: 404 is
  ProductNotFound and 400 is InsufficientStock. Generic 500 faults are not
  modelled.
- Category and supplier documents. They are sets of identities, used only
  for the dashboard counts.
- Product create, update and delete handlers. `productController` is not
  part of this model. Product creation is modelled only as the schema's
  validation and defaults.
- The order of the dashboard's low-stock list. It is returned as a map
  keyed by product identity.
- Dashboard.StockSummary: the group order is fixed (IN before OUT), while
  the database leaves it unspecified. The contract speaks only of the
  order-independent content.
- The order of the ledger listing. The listing query has no sort, so the
  database leaves the order open; the model returns the entries in append
  order.
- Dashboard.RecentTransactions: among entries with equal timestamps, the
  model picks one order, while the database may return any. The contract
  states only what every tie order satisfies.
- The automatic `createdAt` / `updatedAt` timestamps of product documents.
  Saving a moved product also refreshes its `updatedAt`; the model's
  product record has no timestamp fields, so `MovedOnly` says nothing
  about them.
- Editing a product from the page's form. Its update request sends the
  form's quantity, so an edit can change stock without a ledger entry.
  The product update handler is not part of this model, and
  `StockLedger.Reconciliation` covers only stores changed through the
  stock routes.
