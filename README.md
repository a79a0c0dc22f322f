# Sale recording and the sales ledger, in Dafny

This project models the core of a small inventory and sales back end: recording a sale of a product, and the read-only queries over the sales ledger. The system keeps four SQLite tables that matter here: `products`, `sales`, `income` and `expenses`.

- **Recording a sale** (`SalesController.createSale`). It checks the request in a fixed order: missing fields, then a non-positive quantity, then an unknown product, then insufficient stock. It then prices the sale. In one transaction it inserts the sale row, deducts the stock, posts an `auto` income row and posts an `auto` "Product Cost" expense row. It answers with the sale and four figures: income generated, cost recorded, profit generated and remaining stock.
- **The older variant** (`Sale.create`). It makes the same checks, but writes only three effects: it posts no expense row.
- **Queries**: `findAll`, `findByProductId`, `findById`, `getStats` (with its seven-day window), `getProductsForSale`, and the `Sale` object's constructor and `toJSON`.

Layout, one module per file:

- `Wrappers`: `Option` and `Result`.
- `Decimal`: how a template literal writes an integer, and the parser that reads it back.
- `Query`: `WHERE` as an order-keeping filter and `ORDER BY` as a stable insertion sort. Also SQLite's BINARY text collation and table-scan key order.
- `Schema`: the rows and the request. Also the validation that both variants share, one function per SQL write statement, and the invariants of the tables.
- `Database`: the class `Db`. Its fields are the four tables. Each of its methods is one prepared statement.
- `SaleModel`: `backend/models/Sale.js`.
- `SalesController`: `backend/controllers/SalesController.js`.

Both sale-recording operations are methods over a `Db` object. They perform the writes in place, statement by statement. Each is proved against a pure transition function: `RecordSale` for the controller and `CreateSpec` for the model. The properties of the workflow are lemmas about those functions.

Other modelling choices:

- Money is an integer in minor currency units.
- Timestamps are integer seconds, passed in as `now`.
- The AUTOINCREMENT ids are per-table counters.
- A `ghost const` on `Db` records each product's initial stock, so that `Valid()` can state the stock-conservation invariant. The invariant is broken inside the transaction, between the sale insert and the stock deduction, and holds again at commit.

## Model

| member | source | states |
|---|---|---|
| Schema.Validate | backend/controllers/SalesController.js:13-35 | Exactly one outcome per request, in the source's order. A falsy product id or quantity (absent, null or 0) gives MissingFields. Otherwise a quantity ≤ 0 gives NonPositiveQuantity. Otherwise an unknown id gives ProductNotFound. Otherwise stock below the quantity gives InsufficientStock carrying exactly (stock, quantity). On success the request is accepted with the stored product row |
| SalesController.RecordSaleKeepsDescription | backend/controllers/SalesController.js:49 | The recorded sale has no description exactly when the request's is absent or empty; otherwise it has the request's description unchanged |
| Schema.InsufficientStockMessageExact | backend/controllers/SalesController.js:31-35 | The insufficient-stock message determines both the available and the requested amount |
| Schema.DeductStock | backend/controllers/SalesController.js:54-58 | The stock update changes only the named product, and in it only the quantity (lowered by the amount) and the update time (set to now). Id, name and both prices stay as they were; an unknown id changes nothing; the ledgers are untouched |
| Schema.QuantitySoldAppend | backend/controllers/SalesController.js:44-58 | Appending a sale adds its quantity to its own product's units sold and nothing to any other product's |
| Decimal.ParseIntToString | backend/controllers/SalesController.js:64 | Reading back the numeral that a template literal writes for a quantity gives the number again |
| Decimal.IntToStringInjective | backend/controllers/SalesController.js:70 | Different quantities are written as different numerals in the descriptions |
| Query.Where | backend/models/Sale.js:108-112 | A WHERE clause keeps exactly the rows that satisfy it, each with its multiplicity, and nothing else |
| Query.SortBySorted | backend/models/Sale.js:91-94 | The ORDER BY sort puts adjacent rows in order, for any total preorder |
| Query.TextLeTransitive | backend/controllers/SalesController.js:166 | The BINARY collation used by ORDER BY name is transitive |
| Query.AscendingKeys | backend/controllers/SalesController.js:162-167 | The table scan visits every product key exactly once, in ascending order |
| Database.Db.FindProduct | backend/controllers/SalesController.js:25 | The lookup finds a row exactly when the id is a key, and returns a stored row. In a catalog keyed by id, the row it returns has that id, and it returns nothing exactly when no product has that id |
| Database.Db.InsertSaleRow | backend/controllers/SalesController.js:46-51 | Appends one sale row with the next id and the current time, and returns that id; nothing else changes |
| Database.Db.DeductStockRow | backend/controllers/SalesController.js:54-58 | Lowers only that product's quantity by the amount and stamps its update time; an unknown id changes nothing |
| Database.Db.InsertIncomeRow | backend/controllers/SalesController.js:61-64 | Appends one income row of type 'auto' with the next id; nothing else changes |
| Database.Db.InsertExpenseRow | backend/controllers/SalesController.js:67-70 | Appends one expense row of type 'auto' with the given category and the next id; nothing else changes |
| SalesController.RecordSale | backend/controllers/SalesController.js:8-92 | Fails exactly when validation fails, with the same error, and then leaves every table untouched. On success the sales ledger grows by exactly the returned sale, and income and expenses each grow by exactly one row with the old rows untouched. The sold product's row changes only in its stock, which drops by exactly the quantity and stays ≥ 0, and in its update time, which becomes now. Every other product is unchanged |
| SalesController.RecordSaleEntries | backend/controllers/SalesController.js:38-87 | The sale row has the next id, the request's product id, the product's name, the quantity, unit_price = selling price, total = unit_price × quantity, the stored note and the current time. The income row is `Sale of <name> (<q> units)` for the total. The expense row is `Cost of <name> (<q> units)` for cost × quantity, category 'Product Cost'. income_generated and cost_recorded equal those amounts, profit_generated is their difference, and stock_remaining (pre-sale stock − quantity) equals the stock now stored |
| SalesController.RecordSaleKeepsInvariants | backend/controllers/SalesController.js:44-75 | A committed sale preserves two invariants. First, products keyed by id with non-negative stock, positive sale quantities with consistent totals, and increasing ids in every ledger. Second, initial stock = current stock + units sold, for every product |
| SalesController.Transaction | backend/controllers/SalesController.js:43-74 | The transaction callback performs the sale insert, the stock update, the income insert and the expense insert in place, in that order. Its new state is exactly Commit's, and it returns the new sale's id (the previous last id + 1) |
| SalesController.CreateSale | backend/controllers/SalesController.js:8-92 | The imperative handler: checks the request, runs the transaction and re-reads the sale by id. Its new state and result are exactly those of RecordSale, and it keeps the database valid |
| SalesController.StatusOfRecordSale | backend/controllers/SalesController.js:13-87 | The status is 201 exactly when every check passes, 404 exactly for an unknown product with valid fields, and 400 for every other refusal |
| SalesController.RecordSaleKeepsPairing | backend/controllers/SalesController.js:44-73 | If every sale so far has its own income row and its own expense row, position by position, then that still holds after the next request |
| SalesController.IncomeMatchesRevenue | backend/controllers/SalesController.js:61-64 | Income rows posted for the sales, amount for total price, add up to the sales' revenue |
| SalesController.RevenueStatMatchesIncome | backend/models/Sale.js:148 | In paired ledgers, getStats' total revenue equals the income ledger's total |
| SalesController.StatsAfterRecordSale | backend/models/Sale.js:142-151 | A recorded sale raises the sale count by 1, the quantity sold by its quantity and the revenue by its income. It raises the distinct-product count by 1 exactly when the product had no sale yet |
| SalesController.RecordSaleNotIdempotent | backend/controllers/SalesController.js:44-75 | The same request twice, with stock for both, records two sales with different ids and deducts the stock twice |
| SalesController.UnitSalesSerialise | backend/controllers/SalesController.js:31-58 | n one-unit requests in a row against stock S: exactly min(n, S) succeed. Each of the other n − min(n, S) fails with InsufficientStock(0, 1). The stock ends at S − min(n, S) |
| SalesController.CreateIsRecordSaleWithoutExpense | backend/models/Sale.js:49-72 | Sale.create ends in the state createSale ends in, minus the expense row and the expense counter. It succeeds exactly when createSale does, with the same sale or the same error |
| SalesController.CreateBreaksPairing | backend/models/Sale.js:49-72 | A successful Sale.create leaves a sale without its expense row |
| SalesController.OrderByName | backend/controllers/SalesController.js:166 | ORDER BY name returns a permutation of its rows, ordered by name under the BINARY collation |
| SalesController.ProductsForSale | backend/controllers/SalesController.js:156-174 | Exactly one listing (id, name, selling price, quantity) per product with quantity > 0, no other rows, ordered by name |
| SalesController.ExampleSale | backend/controllers/SalesController.js:38-41 | Price 100, cost 60, stock 10, selling 3: total 300, income 300, cost 180, profit 120, stock remaining 7 |
| SalesController.ExampleRefusal | backend/controllers/SalesController.js:31-35 | On the same product, requesting 15 fails with InsufficientStock(10, 15) and changes nothing |
| SalesController.ExampleStats | backend/models/Sale.js:142-151 | After those two requests the statistics are 1 sale, 3 units, revenue 300 and 1 distinct product |
| SaleModel.NewSaleToJson | backend/models/Sale.js:4-13 | Constructing a Sale from its own toJSON output gives back the same object |
| SaleModel.ToJsonNewSale | backend/models/Sale.js:175-186 | toJSON of `new Sale(d)` has exactly the eight sale fields, each as `d` has it (undefined where `d` lacks it) |
| SaleModel.ToJsonNewSaleExact | backend/models/Sale.js:175-186 | An object with exactly the eight fields comes back unchanged from `toJSON(new Sale(d))` |
| SaleModel.RowRoundTrip | backend/controllers/SalesController.js:100 | Every ledger row, wrapped and serialised for the API, is reproduced field for field |
| SaleModel.FindAll | backend/models/Sale.js:88-100 | A permutation of all sales, newest first |
| SaleModel.FindByProductId | backend/models/Sale.js:105-118 | Only sales of that product, and every such sale with its multiplicity, newest first |
| SaleModel.FindById | backend/models/Sale.js:123-132 | A sale with that id from the ledger, or none exactly when no sale has that id |
| SaleModel.FindByIdAppended | backend/models/Sale.js:74-77 | Re-reading by the id just inserted returns the inserted row |
| SaleModel.StatsTotalsAreSums | backend/models/Sale.js:145-148 | `SUM(…) \|\| 0` makes total quantity and total revenue the plain sums of their columns for every ledger, and 0 for an empty one |
| SaleModel.RecentSales | backend/models/Sale.js:154-158 | Exactly the sales created at or after now − 7 days, each with its multiplicity, newest first |
| SaleModel.StatsAppend | backend/models/Sale.js:142-151 | Appending a sale moves count, quantity, revenue and distinct-product count by exactly that sale |
| SaleModel.DistinctAtMostTotal | backend/models/Sale.js:151 | The number of distinct products sold is at most the number of sales, and positive when there is a sale |
| SaleModel.CreateSpec | backend/models/Sale.js:18-83 | Fails exactly when validation fails, with the same error, and changes nothing. On success it appends the returned sale and exactly one income row for its total. In the sold product's row only the stock (down by exactly the quantity, still ≥ 0) and the update time (now) change. Every other product, the expense ledger and its counter are untouched |
| SaleModel.CreateSpecKeepsInvariants | backend/models/Sale.js:49-72 | Sale.create preserves well-formedness and the stock-conservation invariant |
| SaleModel.Create | backend/models/Sale.js:18-83 | The imperative Sale.create: performs the three writes in place and re-reads the sale. Its new state and result are exactly those of CreateSpec, and it keeps the database valid |

## Left out

- Storage failures are not modelled. This covers the `catch` branches, the 500 responses and a transaction that fails part-way. Every write here succeeds, so "all four writes or none" reduces to "the method either returns before any write or performs all of them".
- Concurrency and SQLite's locking and isolation are not modelled. Two concurrent sales on one product are modelled only in their serialised order (`UnitSalesSerialise`).
- `CURRENT_TIMESTAMP` and `datetime('now', '-7 days')` are not modelled. Time is an integer parameter. The source compares `created_at` as text in `YYYY-MM-DD HH:MM:SS` form, which orders like the integer seconds used here.
- Request and stock numbers are taken to be safe integers (|n| ≤ 2^53). Above 2^53 a JavaScript number loses exactness. At |n| ≥ 10^21 JavaScript writes a number in exponent form (`1e+21`) in the messages and descriptions; this form is not modelled.
- Floating-point prices and non-integer or string-typed request fields are not modelled. Prices are integers in minor units, and `product_id` and `quantity` are JSON integers or absent.
- Ties in ORDER BY are not modelled as SQLite leaves them. SQLite leaves the order of rows with equal `created_at` or equal names unspecified. The model breaks ties by insertion order (a stable sort).
- `getAllSales`, `getSaleById`, `getSalesByProduct` and `getSalesStats` (SalesController.js:97-151) are not modelled separately. They only call the model queries and map `toJSON` over the result; `RowRoundTrip` covers that mapping.
- The constant `message` field of the 201 response and `console.error` logging are not modelled.
- Restocking, product creation and deletion, and manual income or expense entries belong to other components and are not part of this model. `Paired` therefore describes a database where only sales write the income and expense ledgers.
- SaleModel.Create: returns the ledger row rather than a `Sale` object. `RowRoundTrip` shows that wrapping the row and serialising it reproduces the row.
- Column defaults of `income` and `expenses` that the workflow does not set, such as creation dates, are not part of this model. The database schema is not part of this model either.
