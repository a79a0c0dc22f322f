/**
 * The four tables the sale workflow touches (products, sales, income,
 * expenses), the request it accepts, the validation both sale-recording
 * variants share, and one function per SQL write statement.
 */
module Schema {
  import opened Wrappers
  import opened Decimal

  /** A row of `products`, as far as the sale workflow reads and writes it; money in minor units. */
  datatype Product = Product(
    id: int,
    name: string,
    sellingPrice: int,
    costPrice: int,
    quantity: int,
    updatedAt: int)

  /** A row of `sales`: a ledger entry with snapshots of the product's name and price. */
  datatype Sale = Sale(
    id: int,
    productId: int,
    productName: string,
    quantity: int,
    unitPrice: int,
    totalPrice: int,
    description: Option<string>,
    createdAt: int)

  /** A row of `income`; `kind` is the `type` column. */
  datatype Income = Income(id: int, description: string, amount: int, kind: string, productId: int)

  /** A row of `expenses`; `kind` is the `type` column. */
  datatype Expense = Expense(
    id: int,
    description: string,
    amount: int,
    kind: string,
    category: string,
    productId: int)

  /**
   * The database as the workflow sees it. The `last…Id` fields are the
   * AUTOINCREMENT counters: the next row of a table gets the counter plus one.
   */
  datatype Tables = Tables(
    products: map<int, Product>,
    sales: seq<Sale>,
    income: seq<Income>,
    expenses: seq<Expense>,
    lastSaleId: int,
    lastIncomeId: int,
    lastExpenseId: int)

  const AutoKind := "auto"
  const ProductCostCategory := "Product Cost"

  /**
   * The request body. `None` stands for a field that is absent or null; the
   * numbers are JSON integers.
   */
  datatype SaleRequest = SaleRequest(productId: Option<int>, quantity: Option<int>, description: Option<string>)

  /** Why a sale is refused; the first two are both "invalid request". */
  datatype SaleError =
    | MissingFields
    | NonPositiveQuantity
    | ProductNotFound
    | InsufficientStock(available: int, requested: int)

  /** The tables after a request, and what the request returned. */
  datatype Transition<R> = Transition(after: Tables, result: Result<R, SaleError>)

  /** A request that passed validation, with the product row read for it. */
  datatype Accepted = Accepted(productId: int, product: Product, quantity: int, note: Option<string>)

  /** JavaScript truthiness of an optional number: absent, null and 0 are falsy. */
  predicate Truthy(v: Option<int>) {
    v.Some? && v.value != 0
  }

  /** `description || null`: an absent or empty description is stored as NULL. */
  function StoredNote(d: Option<string>): (r: Option<string>)
    ensures r.Some? <==> d.Some? && d.value != ""
    ensures r.Some? ==> r == d
  {
    if d.Some? && d.value != "" then d else None
  }

  /**
   * The four checks, in the order the handler checks them: both fields present,
   * quantity positive, product known, enough stock.
   */
  function Validate(req: SaleRequest, products: map<int, Product>): (r: Result<Accepted, SaleError>)
    ensures r == Err(MissingFields) <==> !Truthy(req.productId) || !Truthy(req.quantity)
    ensures r == Err(NonPositiveQuantity) <==>
      Truthy(req.productId) && Truthy(req.quantity) && req.quantity.value <= 0
    ensures r == Err(ProductNotFound) <==>
      Truthy(req.productId) && Truthy(req.quantity) && req.quantity.value > 0
      && req.productId.value !in products
    ensures r.Err? && r.error.InsufficientStock? <==>
      Truthy(req.productId) && Truthy(req.quantity) && req.quantity.value > 0
      && req.productId.value in products && products[req.productId.value].quantity < req.quantity.value
    ensures r.Err? && r.error.InsufficientStock? ==>
      r.error == InsufficientStock(products[req.productId.value].quantity, req.quantity.value)
    ensures r.Ok? ==>
      && req.productId.Some? && req.quantity.Some?
      && req.productId.value in products
      && r.value.productId == req.productId.value
      && r.value.product == products[req.productId.value]
      && r.value.quantity == req.quantity.value
      && 0 < r.value.quantity <= r.value.product.quantity
      && r.value.note == StoredNote(req.description)
  {
    if !Truthy(req.productId) || !Truthy(req.quantity) then Err(MissingFields)
    else if req.quantity.value <= 0 then Err(NonPositiveQuantity)
    else if req.productId.value !in products then Err(ProductNotFound)
    else
      var product := products[req.productId.value];
      if product.quantity < req.quantity.value then
        Err(InsufficientStock(product.quantity, req.quantity.value))
      else
        Ok(Accepted(req.productId.value, product, req.quantity.value, StoredNote(req.description)))
  }

  /** The error text both variants produce for a refused request. */
  function Message(e: SaleError): string {
    match e
    case MissingFields => "Product ID and quantity are required"
    case NonPositiveQuantity => "Quantity must be greater than 0"
    case ProductNotFound => "Product not found"
    case InsufficientStock(available, requested) =>
      "Insufficient stock. Available: " + IntToString(available) + ", Requested: " + IntToString(requested)
  }

  /** The position of the first comma in `s`, or its length when there is none. */
  function FirstComma(s: string): (n: nat)
    ensures n <= |s|
  {
    if s == [] || s[0] == ',' then 0 else 1 + FirstComma(s[1..])
  }

  /** Only minus signs and digits: no comma. */
  predicate NumeralChars(s: string) {
    forall i :: 0 <= i < |s| ==> s[i] == '-' || IsDigit(s[i])
  }

  lemma NumeralHasNumeralChars(s: string)
    requires IsNumeral(s)
    ensures NumeralChars(s)
  {
    if s[0] == '-' {
      assert forall i :: 1 <= i < |s| ==> s[i] == s[1..][i - 1];
    }
  }

  /** A numeral holds no comma, so the first comma after it is found right behind it. */
  lemma {:induction false} FirstCommaAfterNumber(a: string, rest: string)
    requires NumeralChars(a)
    requires |rest| > 0 && rest[0] == ','
    ensures FirstComma(a + rest) == |a|
  {
    if a != [] {
      assert (a + rest)[1..] == a[1..] + rest;
      FirstCommaAfterNumber(a[1..], rest);
    }
  }

  /** Equal strings with a common prefix have equal remainders. */
  lemma StripPrefix(prefix: string, x: string, y: string)
    requires prefix + x == prefix + y
    ensures x == y
  {
    assert x == (prefix + x)[|prefix|..];
    assert y == (prefix + y)[|prefix|..];
  }

  /** Two numerals separated by text that starts with a comma can be split apart again. */
  lemma SplitAtComma(a: string, middle: string, r: string, a': string, r': string)
    requires NumeralChars(a) && NumeralChars(a')
    requires |middle| > 0 && middle[0] == ','
    requires a + (middle + r) == a' + (middle + r')
    ensures a == a' && r == r'
  {
    var tail := a + (middle + r);
    FirstCommaAfterNumber(a, middle + r);
    FirstCommaAfterNumber(a', middle + r');
    assert a == tail[..|a|] && a' == tail[..|a'|];
    assert a + middle + r == a + (middle + r);
    assert a' + middle + r' == a' + (middle + r');
    StripPrefix(a + middle, r, r');
  }

  /** The insufficient-stock message as the fixed text around two numerals. */
  lemma InsufficientStockMessageShape(available: int, requested: int)
    ensures Message(InsufficientStock(available, requested))
      == "Insufficient stock. Available: " + (IntToString(available) + (", Requested: " + IntToString(requested)))
  {
  }

  /** The insufficient-stock message states the two amounts exactly: it determines them. */
  lemma InsufficientStockMessageExact(available: int, requested: int, available': int, requested': int)
    requires Message(InsufficientStock(available, requested)) == Message(InsufficientStock(available', requested'))
    ensures available == available' && requested == requested'
  {
    var middle := ", Requested: ";
    var a, r, a', r' := IntToString(available), IntToString(requested), IntToString(available'), IntToString(requested');
    InsufficientStockMessageShape(available, requested);
    InsufficientStockMessageShape(available', requested');
    StripPrefix("Insufficient stock. Available: ", a + (middle + r), a' + (middle + r'));
    NumeralHasNumeralChars(a);
    NumeralHasNumeralChars(a');
    SplitAtComma(a, middle, r, a', r');
    IntToStringInjective(available, available');
    IntToStringInjective(requested, requested');
  }

  /** The amounts derived from a sale, before anything is written. */
  datatype Pricing = Pricing(unitPrice: int, totalPrice: int, totalCost: int, profit: int)

  function PriceSale(product: Product, quantity: int): Pricing {
    var totalPrice := product.sellingPrice * quantity;
    var totalCost := product.costPrice * quantity;
    Pricing(product.sellingPrice, totalPrice, totalCost, totalPrice - totalCost)
  }

  function IncomeDescription(name: string, quantity: int): string {
    "Sale of " + name + " (" + IntToString(quantity) + " units)"
  }

  function CostDescription(name: string, quantity: int): string {
    "Cost of " + name + " (" + IntToString(quantity) + " units)"
  }

  // One function per SQL write statement of the workflow.

  /** `INSERT INTO sales (…)`; created_at takes the current time. */
  function InsertSale(
    t: Tables, productId: int, productName: string, quantity: int,
    unitPrice: int, totalPrice: int, description: Option<string>, now: int): Tables
  {
    var id := t.lastSaleId + 1;
    t.(sales := t.sales + [Sale(id, productId, productName, quantity, unitPrice, totalPrice, description, now)],
       lastSaleId := id)
  }

  /** `UPDATE products SET quantity = quantity - ?, updated_at = … WHERE id = ?`. */
  function DeductStock(t: Tables, productId: int, quantity: int, now: int): (r: Tables)
    ensures r.(products := t.products) == t
    ensures r.products.Keys == t.products.Keys
    ensures forall k :: k in t.products && k != productId ==> r.products[k] == t.products[k]
    ensures productId in t.products ==>
      var p, p' := t.products[productId], r.products[productId];
      && p'.id == p.id && p'.name == p.name
      && p'.sellingPrice == p.sellingPrice && p'.costPrice == p.costPrice
      && p'.quantity == p.quantity - quantity && p'.updatedAt == now
  {
    if productId in t.products then
      var p := t.products[productId];
      t.(products := t.products[productId := p.(quantity := p.quantity - quantity, updatedAt := now)])
    else t
  }

  /** `INSERT INTO income (description, amount, type, product_id) VALUES (?, ?, 'auto', ?)`. */
  function InsertAutoIncome(t: Tables, description: string, amount: int, productId: int): Tables {
    var id := t.lastIncomeId + 1;
    t.(income := t.income + [Income(id, description, amount, AutoKind, productId)], lastIncomeId := id)
  }

  /** `INSERT INTO expenses (…) VALUES (?, ?, 'auto', ?, ?)`. */
  function InsertAutoExpense(t: Tables, description: string, amount: int, category: string, productId: int): Tables {
    var id := t.lastExpenseId + 1;
    t.(expenses := t.expenses + [Expense(id, description, amount, AutoKind, category, productId)],
       lastExpenseId := id)
  }

  // Invariants of the tables.

  /** Units of `productId` recorded in the sales ledger. */
  function QuantitySold(sales: seq<Sale>, productId: int): int {
    if sales == [] then 0
    else
      var last := sales[|sales| - 1];
      QuantitySold(sales[..|sales| - 1], productId) + (if last.productId == productId then last.quantity else 0)
  }

  /** Ids in a ledger are increasing in insertion order and none exceeds the counter. */
  predicate IdsIncreasing(ids: seq<int>, last: int) {
    && (forall i :: 0 < i < |ids| ==> ids[i - 1] < ids[i])
    && (forall i :: 0 <= i < |ids| ==> ids[i] <= last)
  }

  /** The id column of a ledger, in insertion order. */
  function IdsOf<R>(rows: seq<R>, id: R -> int): (r: seq<int>)
    ensures |r| == |rows| && forall i :: 0 <= i < |rows| ==> r[i] == id(rows[i])
  {
    seq(|rows|, i requires 0 <= i < |rows| => id(rows[i]))
  }

  /**
   * What every committed state satisfies: products are keyed by their id and
   * never hold negative stock, every recorded sale has a positive quantity and
   * a consistent total, and every ledger's ids increase.
   */
  predicate WellFormed(t: Tables) {
    && (forall k :: k in t.products ==> t.products[k].id == k && t.products[k].quantity >= 0)
    && (forall s :: s in t.sales ==> s.quantity > 0 && s.totalPrice == s.unitPrice * s.quantity)
    && IdsIncreasing(IdsOf(t.sales, (s: Sale) => s.id), t.lastSaleId)
    && IdsIncreasing(IdsOf(t.income, (i: Income) => i.id), t.lastIncomeId)
    && IdsIncreasing(IdsOf(t.expenses, (e: Expense) => e.id), t.lastExpenseId)
  }

  /**
   * The cross-table invariant: for every product, its initial stock equals
   * its current stock plus the units sold of it.
   */
  predicate StockConserved(initial: map<int, int>, t: Tables) {
    && initial.Keys == t.products.Keys
    && forall k :: k in initial ==> initial[k] == t.products[k].quantity + QuantitySold(t.sales, k)
  }

  /** Appending a sale adds its quantity to its product's total and nothing to the others. */
  lemma QuantitySoldAppend(sales: seq<Sale>, s: Sale, productId: int)
    ensures QuantitySold(sales + [s], productId)
         == QuantitySold(sales, productId) + (if s.productId == productId then s.quantity else 0)
  {
    assert (sales + [s])[..|sales|] == sales;
  }
}
