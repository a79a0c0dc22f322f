/**
 * The sales controller: recording a sale as one transaction over four tables
 * (sale row, stock deduction, automatic income, automatic product-cost
 * expense), its response, and the list of products that can be sold.
 */
module SalesController {
  import opened Wrappers
  import opened Query
  import opened Schema
  import opened Database
  import opened SaleModel

  /** The body of a 201 response: the sale row re-read after commit and the derived amounts. */
  datatype Receipt = Receipt(
    sale: Sale,
    incomeGenerated: int,
    costRecorded: int,
    profitGenerated: int,
    stockRemaining: int)

  /**
   * `createSale`: the four checks, then in one transaction the sale row, the
   * stock deduction, the income row and the product-cost expense row. The
   * remaining stock is computed from the product row read before the
   * transaction.
   */
  function RecordSale(t: Tables, req: SaleRequest, now: int): (r: Transition<Receipt>)
    ensures r.result.Err? <==> Validate(req, t.products).Err?
    ensures r.result.Err? ==> r.result.error == Validate(req, t.products).error && r.after == t
    ensures r.result.Ok? ==>
      var a := Validate(req, t.products).value;
      && r.after.sales == t.sales + [r.result.value.sale]
      && |r.after.income| == |t.income| + 1 && r.after.income[..|t.income|] == t.income
      && |r.after.expenses| == |t.expenses| + 1 && r.after.expenses[..|t.expenses|] == t.expenses
      && r.after.products.Keys == t.products.Keys
      && r.after.products[a.productId] == a.product.(quantity := a.product.quantity - a.quantity, updatedAt := now)
      && r.after.products[a.productId].quantity >= 0
      && (forall k :: k in t.products && k != a.productId ==> r.after.products[k] == t.products[k])
  {
    match Validate(req, t.products)
    case Err(e) => Transition(t, Err(e))
    case Ok(a) =>
      var price := PriceSale(a.product, a.quantity);
      var after := Commit(t, a, now);
      Transition(after, Ok(Receipt(after.sales[|t.sales|], price.totalPrice, price.totalCost, price.profit,
                                   a.product.quantity - a.quantity)))
  }

  /** The transaction of an accepted sale: the four writes, in the handler's order. */
  function Commit(t: Tables, a: Accepted, now: int): (r: Tables)
    ensures |r.sales| == |t.sales| + 1
  {
    var id, p, q := a.productId, a.product, a.quantity;
    var price := PriceSale(p, q);
    var t1 := InsertSale(t, id, p.name, q, price.unitPrice, price.totalPrice, a.note, now);
    var t2 := DeductStock(t1, id, q, now);
    var t3 := InsertAutoIncome(t2, IncomeDescription(p.name, q), price.totalPrice, id);
    InsertAutoExpense(t3, CostDescription(p.name, q), price.totalCost, ProductCostCategory, id)
  }

  /** What each new row holds, and how the response's amounts relate to them. */
  lemma RecordSaleEntries(t: Tables, req: SaleRequest, now: int)
    requires RecordSale(t, req, now).result.Ok?
    ensures
      var r := RecordSale(t, req, now);
      var pid, q := req.productId.value, req.quantity.value;
      var p := t.products[pid];
      var receipt := r.result.value;
      var sale := receipt.sale;
      var inc := r.after.income[|t.income|];
      var exp := r.after.expenses[|t.expenses|];
      && sale == Sale(t.lastSaleId + 1, pid, p.name, q, p.sellingPrice, p.sellingPrice * q, StoredNote(req.description), now)
      && inc == Income(t.lastIncomeId + 1, IncomeDescription(p.name, q), sale.totalPrice, AutoKind, pid)
      && exp == Expense(t.lastExpenseId + 1, CostDescription(p.name, q), p.costPrice * q, AutoKind, ProductCostCategory, pid)
      && receipt.incomeGenerated == inc.amount
      && receipt.costRecorded == exp.amount
      && receipt.profitGenerated == receipt.incomeGenerated - receipt.costRecorded
      && receipt.stockRemaining == p.quantity - q == r.after.products[pid].quantity
  {
  }

  /** `description || null`: the sale keeps the request's description unless it is absent or empty. */
  lemma RecordSaleKeepsDescription(t: Tables, req: SaleRequest, now: int)
    requires RecordSale(t, req, now).result.Ok?
    ensures
      var d := RecordSale(t, req, now).result.value.sale.description;
      && (d.None? <==> req.description.None? || req.description == Some(""))
      && (d.Some? ==> d == req.description)
  {
    RecordSaleEntries(t, req, now);
  }

  /** A committed state stays committed: well-formed, and stock conserved. */
  lemma RecordSaleKeepsInvariants(initial: map<int, int>, t: Tables, req: SaleRequest, now: int)
    requires WellFormed(t) && StockConserved(initial, t)
    ensures WellFormed(RecordSale(t, req, now).after)
    ensures StockConserved(initial, RecordSale(t, req, now).after)
  {
    var r := RecordSale(t, req, now);
    if r.result.Ok? {
      var s := r.result.value.sale;
      forall k | k in initial
        ensures initial[k] == r.after.products[k].quantity + QuantitySold(r.after.sales, k)
      {
        QuantitySoldAppend(t.sales, s, k);
      }
    }
  }

  /** `db.transaction(…)`: the four statements in place; returns the new sale's id. */
  method Transaction(db: Db, a: Accepted, now: int) returns (saleId: int)
    modifies db
    ensures db.State() == Commit(old(db.State()), a, now)
    ensures saleId == old(db.lastSaleId) + 1
  {
    var p, q := a.product, a.quantity;
    var unitPrice := p.sellingPrice;
    var totalPrice := unitPrice * q;
    var totalCost := p.costPrice * q;
    saleId := db.InsertSaleRow(a.productId, p.name, q, unitPrice, totalPrice, a.note, now);
    db.DeductStockRow(a.productId, q, now);
    db.InsertIncomeRow(IncomeDescription(p.name, q), totalPrice, a.productId);
    db.InsertExpenseRow(CostDescription(p.name, q), totalCost, ProductCostCategory, a.productId);
  }

  /** The 201 response, or the error for the 400 and 404 responses. */
  method CreateSale(db: Db, req: SaleRequest, now: int) returns (r: Result<Receipt, SaleError>)
    requires db.Valid()
    modifies db
    ensures db.Valid()
    ensures db.State() == RecordSale(old(db.State()), req, now).after
    ensures r == RecordSale(old(db.State()), req, now).result
  {
    ghost var before := db.State();
    if !Truthy(req.productId) || !Truthy(req.quantity) {
      return Err(MissingFields);
    }
    var productId, quantity := req.productId.value, req.quantity.value;
    if quantity <= 0 {
      return Err(NonPositiveQuantity);
    }
    var found := db.FindProduct(productId);
    if found.None? {
      return Err(ProductNotFound);
    }
    var product := found.value;
    if product.quantity < quantity {
      return Err(InsufficientStock(product.quantity, quantity));
    }
    var unitPrice := product.sellingPrice;
    var totalPrice := unitPrice * quantity;
    var totalCost := product.costPrice * quantity;
    var profit := totalPrice - totalCost;
    var accepted := Accepted(productId, product, quantity, StoredNote(req.description));
    assert Validate(req, before.products) == Ok(accepted);

    // The transaction: all four writes, with nothing in between that can fail.
    var saleId := Transaction(db, accepted, now);

    ghost var spec := RecordSale(before, req, now);
    assert db.State() == spec.after;
    var newSale := FindById(db.sales, saleId);
    FindByIdAppended(before.sales, db.sales[|before.sales|]);
    assert newSale == Some(spec.result.value.sale);
    assert spec.result == Ok(Receipt(spec.result.value.sale, totalPrice, totalCost, profit, product.quantity - quantity));
    RecordSaleKeepsInvariants(db.initialStock, before, req, now);
    r := Ok(Receipt(newSale.value, totalPrice, totalCost, profit, product.quantity - quantity));
  }

  /** The HTTP status of the response. */
  function Status(r: Result<Receipt, SaleError>): int {
    match r
    case Ok(_) => 201
    case Err(ProductNotFound) => 404
    case Err(_) => 400
  }

  /** 201 exactly when every check passes, 404 exactly for an unknown product, 400 otherwise. */
  lemma StatusOfRecordSale(t: Tables, req: SaleRequest, now: int)
    ensures var v := Validate(req, t.products);
      && (Status(RecordSale(t, req, now).result) == 201 <==> v.Ok?)
      && (Status(RecordSale(t, req, now).result) == 404 <==>
            Truthy(req.productId) && Truthy(req.quantity) && req.quantity.value > 0 && req.productId.value !in t.products)
      && (Status(RecordSale(t, req, now).result) == 400 <==> v.Err? && v.error != ProductNotFound)
  {
  }

  // How the ledgers stay linked to each other.

  /** The income and expense rows that a sale posts. */
  predicate Linked(s: Sale, i: Income, e: Expense) {
    && i.amount == s.totalPrice && i.kind == AutoKind && i.productId == s.productId
    && i.description == IncomeDescription(s.productName, s.quantity)
    && e.kind == AutoKind && e.category == ProductCostCategory && e.productId == s.productId
    && e.description == CostDescription(s.productName, s.quantity)
  }

  /** Position by position, each sale has exactly its one income row and its one expense row. */
  predicate Paired(t: Tables) {
    && |t.sales| == |t.income| == |t.expenses|
    && forall i :: 0 <= i < |t.sales| ==> Linked(t.sales[i], t.income[i], t.expenses[i])
  }

  /** Every recorded sale yields one income and one expense row, so the pairing persists. */
  lemma RecordSaleKeepsPairing(t: Tables, req: SaleRequest, now: int)
    requires Paired(t)
    ensures Paired(RecordSale(t, req, now).after)
  {
    var r := RecordSale(t, req, now);
    if r.result.Ok? {
      RecordSaleEntries(t, req, now);
      var n := |t.sales|;
      forall i | 0 <= i < |r.after.sales|
        ensures Linked(r.after.sales[i], r.after.income[i], r.after.expenses[i])
      {
        if i < n {
          assert r.after.sales[i] == t.sales[i];
          assert r.after.income[i] == r.after.income[..n][i];
          assert r.after.expenses[i] == r.after.expenses[..n][i];
        }
      }
    }
  }

  function Amounts(income: seq<Income>): (r: seq<int>)
    ensures |r| == |income| && forall i :: 0 <= i < |income| ==> r[i] == income[i].amount
  {
    seq(|income|, i requires 0 <= i < |income| => income[i].amount)
  }

  /** Income posted position by position for the sales adds up to their revenue. */
  lemma {:induction false} IncomeMatchesRevenue(sales: seq<Sale>, income: seq<Income>)
    requires |sales| == |income|
    requires forall i :: 0 <= i < |sales| ==> income[i].amount == sales[i].totalPrice
    ensures Sum(Amounts(income)) == Sum(Revenues(sales))
  {
    if sales != [] {
      var n := |sales| - 1;
      IncomeMatchesRevenue(sales[..n], income[..n]);
      assert Amounts(income)[..n] == Amounts(income[..n]);
      assert Revenues(sales)[..n] == Revenues(sales[..n]);
    }
  }

  /** In paired ledgers the revenue statistic equals the total of the income ledger. */
  lemma RevenueStatMatchesIncome(t: Tables, now: int)
    requires Paired(t)
    ensures GetStats(t.sales, now).totalRevenue == Sum(Amounts(t.income))
  {
    IncomeMatchesRevenue(t.sales, t.income);
  }

  /** A recorded sale moves every statistic by exactly that sale. */
  lemma StatsAfterRecordSale(t: Tables, req: SaleRequest, now: int, asOf: int)
    requires RecordSale(t, req, now).result.Ok?
    ensures
      var before := GetStats(t.sales, asOf);
      var after := GetStats(RecordSale(t, req, now).after.sales, asOf);
      && after.totalSales == before.totalSales + 1
      && after.totalQuantitySold == before.totalQuantitySold + req.quantity.value
      && after.totalRevenue == before.totalRevenue + RecordSale(t, req, now).result.value.incomeGenerated
      && after.distinctProductsSold
         == before.distinctProductsSold + (if req.productId.value in ProductIds(t.sales) then 0 else 1)
  {
    var r := RecordSale(t, req, now);
    RecordSaleEntries(t, req, now);
    StatsAppend(t.sales, r.result.value.sale, asOf);
  }

  /** The same request twice is two sales: two rows with different ids, stock deducted twice. */
  lemma RecordSaleNotIdempotent(t: Tables, req: SaleRequest, now: int, later: int)
    requires RecordSale(t, req, now).result.Ok?
    requires t.products[req.productId.value].quantity >= 2 * req.quantity.value
    ensures
      var first := RecordSale(t, req, now);
      var second := RecordSale(first.after, req, later);
      && second.result.Ok?
      && |second.after.sales| == |t.sales| + 2
      && second.result.value.sale.id != first.result.value.sale.id
      && second.after.products[req.productId.value].quantity
         == t.products[req.productId.value].quantity - 2 * req.quantity.value
  {
    RecordSaleEntries(t, req, now);
    var first := RecordSale(t, req, now);
    RecordSaleEntries(first.after, req, later);
  }

  /** `Sale.create` does what `createSale` does, except that it posts no expense row. */
  lemma CreateIsRecordSaleWithoutExpense(t: Tables, req: SaleRequest, now: int)
    ensures
      var legacy := CreateSpec(t, req, now);
      var full := RecordSale(t, req, now);
      && legacy.after == full.after.(expenses := t.expenses, lastExpenseId := t.lastExpenseId)
      && legacy.result.Ok? == full.result.Ok?
      && (legacy.result.Ok? ==> legacy.result.value == full.result.value.sale)
      && (legacy.result.Err? ==> legacy.result.error == full.result.error)
  {
  }

  /** Hence the older variant breaks the one-expense-per-sale pairing. */
  lemma CreateBreaksPairing(t: Tables, req: SaleRequest, now: int)
    requires Paired(t) && CreateSpec(t, req, now).result.Ok?
    ensures !Paired(CreateSpec(t, req, now).after)
  {
  }

  /** The outcome of a run of requests: the final tables, the sales recorded and the refusals, in order. */
  datatype Run = Run(after: Tables, sold: nat, refusals: seq<SaleError>)

  /** Applies the same request `n` times in a row. */
  function Repeat(t: Tables, req: SaleRequest, n: nat, now: int): Run
    decreases n
  {
    if n == 0 then Run(t, 0, [])
    else
      var step := RecordSale(t, req, now);
      var rest := Repeat(step.after, req, n - 1, now);
      match step.result
      case Ok(_) => rest.(sold := rest.sold + 1)
      case Err(e) => rest.(refusals := [e] + rest.refusals)
  }

  function Min(a: int, b: int): int {
    if a <= b then a else b
  }

  /**
   * Serialised one-unit sales against stock S: exactly min(n, S) of n
   * succeed, every other one is refused for insufficient stock with nothing
   * available, and the stock ends at S - min(n, S).
   */
  lemma {:induction false} UnitSalesSerialise(t: Tables, productId: int, n: nat, now: int)
    requires productId != 0 && productId in t.products && t.products[productId].quantity >= 0
    ensures
      var run := Repeat(t, SaleRequest(Some(productId), Some(1), None), n, now);
      && run.sold == Min(n, t.products[productId].quantity)
      && |run.refusals| == n - run.sold
      && (forall i :: 0 <= i < |run.refusals| ==> run.refusals[i] == InsufficientStock(0, 1))
      && productId in run.after.products
      && run.after.products[productId].quantity == t.products[productId].quantity - run.sold
    decreases n
  {
    if n > 0 {
      var req := SaleRequest(Some(productId), Some(1), None);
      var step := RecordSale(t, req, now);
      UnitSalesSerialise(step.after, productId, n - 1, now);
    }
  }

  // The products that can be sold.

  /** A row of `SELECT id, name, selling_price, quantity FROM products`. */
  datatype Listing = Listing(id: int, name: string, sellingPrice: int, quantity: int)

  function ListingOf(p: Product): Listing {
    Listing(p.id, p.name, p.sellingPrice, p.quantity)
  }

  /** `ORDER BY name`. */
  predicate ByName(a: Listing, b: Listing) {
    TextLe(a.name, b.name)
  }

  lemma ByNameOrder()
    ensures Total(ByName) && Transitive(ByName)
  {
    forall a: Listing, b: Listing ensures ByName(a, b) || ByName(b, a) {
      TextLeTotal(a.name, b.name);
    }
    forall a: Listing, b: Listing, c: Listing | ByName(a, b) && ByName(b, c) ensures ByName(a, c) {
      TextLeTransitive(a.name, b.name, c.name);
    }
  }

  /** `WHERE quantity > 0`. */
  function InStock(products: map<int, Product>): set<int> {
    set k | k in products && products[k].quantity > 0
  }

  /** `ORDER BY name` applied to `rows`. */
  function OrderByName(rows: seq<Listing>): (r: seq<Listing>)
    ensures multiset(r) == multiset(rows)
    ensures forall x :: x in r <==> x in rows
    ensures forall i, j :: 0 <= i < j < |r| ==> TextLe(r[i].name, r[j].name)
  {
    var r := SortBy(rows, ByName);
    ByNameOrder();
    SortBySorted(rows, ByName);
    forall i, j | 0 <= i < j < |r| ensures TextLe(r[i].name, r[j].name) {
      SortedPairwise(r, ByName, i, j);
    }
    assert forall x :: x in r <==> x in multiset(rows);
    r
  }

  /** The listings of the rows with the given keys, in the order of the keys. */
  function ScanListings(products: map<int, Product>, keys: seq<int>): (rows: seq<Listing>)
    requires forall i :: 0 <= i < |keys| ==> keys[i] in products
    ensures |rows| == |keys|
    ensures forall i :: 0 <= i < |keys| ==> rows[i] == ListingOf(products[keys[i]])
  {
    seq(|keys|, i requires 0 <= i < |keys| => ListingOf(products[keys[i]]))
  }

  /** `getProductsForSale`: one listing per product in stock, ordered by name. */
  function ProductsForSale(products: map<int, Product>): (r: seq<Listing>)
    ensures |r| == |InStock(products)|
    ensures forall k :: k in InStock(products) ==> ListingOf(products[k]) in r
    ensures forall x :: x in r ==> exists k :: k in InStock(products) && x == ListingOf(products[k])
    ensures forall x :: x in r ==> x.quantity > 0
    ensures forall i, j :: 0 <= i < j < |r| ==> TextLe(r[i].name, r[j].name)
  {
    var keys := AscendingKeys(InStock(products));
    assert forall i :: 0 <= i < |keys| ==> keys[i] in InStock(products);
    var rows := ScanListings(products, keys);
    forall k | k in InStock(products) ensures ListingOf(products[k]) in rows {
      assert k in keys;
      var i :| 0 <= i < |keys| && keys[i] == k;
      assert rows[i] == ListingOf(products[k]);
    }
    forall x | x in rows ensures exists k :: k in InStock(products) && x == ListingOf(products[k]) {
      var i :| 0 <= i < |rows| && rows[i] == x;
      assert keys[i] in InStock(products);
    }
    OrderByName(rows)
  }

  /** The worked example: one product with price 100, cost 60 and stock 10. */
  function ExampleTables(): Tables {
    Tables(map[1 := Product(1, "Widget", 100, 60, 10, 0)], [], [], [], 0, 0, 0)
  }

  /** Selling 3 records a total of 300, a cost of 180, a profit of 120 and leaves 7. */
  lemma ExampleSale()
    ensures
      var sold := RecordSale(ExampleTables(), SaleRequest(Some(1), Some(3), None), 1000);
      && sold.result == Ok(Receipt(Sale(1, 1, "Widget", 3, 100, 300, None, 1000), 300, 180, 120, 7))
      && sold.after.income[0].amount == 300 && sold.after.expenses[0].amount == 180
      && sold.after.products[1].quantity == 7
  {
    RecordSaleEntries(ExampleTables(), SaleRequest(Some(1), Some(3), None), 1000);
  }

  /** Asking for 15 is refused with the exact shortfall, and nothing changes. */
  lemma ExampleRefusal()
    ensures
      var refused := RecordSale(ExampleTables(), SaleRequest(Some(1), Some(15), None), 1001);
      && refused.result == Err(InsufficientStock(10, 15))
      && refused.after == ExampleTables()
  {
  }

  /** After the sale and the refusal the statistics show one sale of 3 units for 300. */
  lemma ExampleStats()
    ensures
      var sold := RecordSale(ExampleTables(), SaleRequest(Some(1), Some(3), None), 1000);
      var refused := RecordSale(sold.after, SaleRequest(Some(1), Some(15), None), 1001);
      var stats := GetStats(refused.after.sales, 1002);
      && stats.totalSales == 1 && stats.totalQuantitySold == 3 && stats.totalRevenue == 300
      && stats.distinctProductsSold == 1
  {
    var sold := RecordSale(ExampleTables(), SaleRequest(Some(1), Some(3), None), 1000);
    ExampleSale();
    var s := Sale(1, 1, "Widget", 3, 100, 300, None, 1000);
    assert sold.after.sales == [s];
    var refused := RecordSale(sold.after, SaleRequest(Some(1), Some(15), None), 1001);
    assert refused.after == sold.after;
    StatsAppend([], s, 1002);
    assert ProductIds([]) == {};
  }
}
