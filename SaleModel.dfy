/**
 * The `Sale` model: the object that wraps a row of `sales` (its constructor
 * and `toJSON`), the read-only queries over the sales ledger and their
 * statistics, and the older three-effect `create`.
 */
module SaleModel {
  import opened Wrappers
  import opened Decimal
  import opened Query
  import opened Schema
  import opened Database

  // The Sale object.

  /** A JavaScript value as the database driver returns it in a row object. */
  datatype Value = Undefined | Null | Number(n: int) | Text(s: string)

  /** A plain JavaScript object: property names to values. */
  type Record = map<string, Value>

  const SaleFields: set<string> :=
    {"id", "product_id", "product_name", "quantity", "unit_price", "total_price", "description", "created_at"}

  /** An instance of the Sale class: its eight own properties. */
  datatype SaleObject = SaleObject(
    id: Value,
    productId: Value,
    productName: Value,
    quantity: Value,
    unitPrice: Value,
    totalPrice: Value,
    description: Value,
    createdAt: Value)

  /** `data.key`: undefined when the object has no such property. */
  function Field(data: Record, key: string): (v: Value)
    ensures key !in data ==> v == Undefined
    ensures key in data ==> v == data[key]
  {
    if key in data then data[key] else Undefined
  }

  /** `new Sale(data)`: copies the eight fields; `new Sale()` is `new Sale({})`. */
  function NewSale(data: Record): SaleObject {
    SaleObject(
      Field(data, "id"), Field(data, "product_id"), Field(data, "product_name"), Field(data, "quantity"),
      Field(data, "unit_price"), Field(data, "total_price"), Field(data, "description"), Field(data, "created_at"))
  }

  /** `sale.toJSON()`: the eight fields under their column names. */
  function ToJson(o: SaleObject): (r: Record)
    ensures r.Keys == SaleFields
  {
    map[
      "id" := o.id, "product_id" := o.productId, "product_name" := o.productName, "quantity" := o.quantity,
      "unit_price" := o.unitPrice, "total_price" := o.totalPrice, "description" := o.description,
      "created_at" := o.createdAt]
  }

  /** Wrapping any object and serialising it again keeps exactly its eight sale fields. */
  lemma ToJsonNewSale(data: Record)
    ensures ToJson(NewSale(data)) == map k | k in SaleFields :: Field(data, k)
  {
  }

  /** An object with exactly the eight columns comes back unchanged. */
  lemma ToJsonNewSaleExact(data: Record)
    requires data.Keys == SaleFields
    ensures ToJson(NewSale(data)) == data
  {
    ToJsonNewSale(data);
    var m := map k | k in SaleFields :: Field(data, k);
    assert forall k :: k in m ==> m[k] == data[k];
  }

  /** Wrapping the serialised form of an object gives the object back. */
  lemma NewSaleToJson(o: SaleObject)
    ensures NewSale(ToJson(o)) == o
  {
  }

  /** The row object `SELECT * FROM sales` yields for a ledger entry. */
  function RowOf(s: Sale): (r: Record)
    ensures r.Keys == SaleFields
  {
    map[
      "id" := Number(s.id), "product_id" := Number(s.productId), "product_name" := Text(s.productName),
      "quantity" := Number(s.quantity), "unit_price" := Number(s.unitPrice), "total_price" := Number(s.totalPrice),
      "description" := (match s.description case Some(d) => Text(d) case None => Null),
      "created_at" := Number(s.createdAt)]
  }

  /** The API response for a ledger entry is its row, field for field. */
  lemma RowRoundTrip(s: Sale)
    ensures ToJson(NewSale(RowOf(s))) == RowOf(s)
  {
    ToJsonNewSaleExact(RowOf(s));
  }

  // Queries over the ledger.

  /** `ORDER BY created_at DESC`: `a` may come before `b`. */
  predicate NewerOrSame(a: Sale, b: Sale) {
    a.createdAt >= b.createdAt
  }

  lemma NewestFirstOrder()
    ensures Total(NewerOrSame) && Transitive(NewerOrSame)
  {
  }

  /** `ORDER BY created_at DESC` applied to `rows`. */
  function NewestFirst(rows: seq<Sale>): (r: seq<Sale>)
    ensures multiset(r) == multiset(rows)
    ensures forall s :: s in r <==> s in rows
    ensures forall i, j :: 0 <= i < j < |r| ==> r[i].createdAt >= r[j].createdAt
  {
    var r := SortBy(rows, NewerOrSame);
    NewestFirstOrder();
    SortBySorted(rows, NewerOrSame);
    forall i, j | 0 <= i < j < |r| ensures r[i].createdAt >= r[j].createdAt {
      SortedPairwise(r, NewerOrSame, i, j);
    }
    assert forall s :: s in r <==> s in multiset(rows);
    r
  }

  /** `findAll`: every sale, newest first. */
  function FindAll(sales: seq<Sale>): (r: seq<Sale>)
    ensures multiset(r) == multiset(sales)
    ensures forall i, j :: 0 <= i < j < |r| ==> r[i].createdAt >= r[j].createdAt
  {
    NewestFirst(sales)
  }

  /** `findByProductId`: the sales of one product, newest first. */
  function FindByProductId(sales: seq<Sale>, productId: int): (r: seq<Sale>)
    ensures forall s :: s in r ==> s.productId == productId
    ensures forall s :: s in sales && s.productId == productId ==> multiset(r)[s] == multiset(sales)[s]
    ensures multiset(r) <= multiset(sales)
    ensures forall i, j :: 0 <= i < j < |r| ==> r[i].createdAt >= r[j].createdAt
  {
    NewestFirst(Where(sales, (s: Sale) => s.productId == productId))
  }

  /** `findById`: the row with that id, or null. */
  function FindById(sales: seq<Sale>, id: int): (r: Option<Sale>)
    ensures r.Some? ==> r.value in sales && r.value.id == id
    ensures r.None? ==> forall s :: s in sales ==> s.id != id
  {
    if sales == [] then None
    else if sales[0].id == id then Some(sales[0])
    else FindById(sales[1..], id)
  }

  /** A row appended with an id no earlier row has is what findById then returns. */
  lemma {:induction false} FindByIdAppended(sales: seq<Sale>, s: Sale)
    requires forall x :: x in sales ==> x.id < s.id
    ensures FindById(sales + [s], s.id) == Some(s)
  {
    if sales == [] {
      assert sales + [s] == [s];
    } else {
      assert (sales + [s])[1..] == sales[1..] + [s];
      FindByIdAppended(sales[1..], s);
    }
  }

  // Statistics.

  /** Seven days, in seconds. */
  const Week := 7 * 24 * 60 * 60

  function Sum(xs: seq<int>): int {
    if xs == [] then 0 else Sum(xs[..|xs| - 1]) + xs[|xs| - 1]
  }

  /** `SUM(…)`, which is NULL over no rows. */
  function SqlSum(xs: seq<int>): (r: Option<int>)
    ensures r.None? <==> xs == []
  {
    if xs == [] then None else Some(Sum(xs))
  }

  function Quantities(sales: seq<Sale>): (r: seq<int>)
    ensures |r| == |sales| && forall i :: 0 <= i < |sales| ==> r[i] == sales[i].quantity
  {
    seq(|sales|, i requires 0 <= i < |sales| => sales[i].quantity)
  }

  function Revenues(sales: seq<Sale>): (r: seq<int>)
    ensures |r| == |sales| && forall i :: 0 <= i < |sales| ==> r[i] == sales[i].totalPrice
  {
    seq(|sales|, i requires 0 <= i < |sales| => sales[i].totalPrice)
  }

  function ProductIds(sales: seq<Sale>): set<int> {
    set s | s in sales :: s.productId
  }

  /** `created_at >= datetime('now', '-7 days')`. */
  predicate IsRecent(s: Sale, now: int) {
    s.createdAt >= now - Week
  }

  /** The sales of the trailing seven days, newest first. */
  function RecentSales(sales: seq<Sale>, now: int): (r: seq<Sale>)
    ensures forall s :: s in r ==> s in sales && s.createdAt >= now - Week
    ensures forall s :: s in sales && s.createdAt >= now - Week ==> multiset(r)[s] == multiset(sales)[s]
    ensures multiset(r) <= multiset(sales)
    ensures forall i, j :: 0 <= i < j < |r| ==> r[i].createdAt >= r[j].createdAt
  {
    NewestFirst(Where(sales, (s: Sale) => IsRecent(s, now)))
  }

  datatype SalesStats = SalesStats(
    totalSales: nat,
    totalQuantitySold: int,
    totalRevenue: int,
    distinctProductsSold: nat,
    recentSales: seq<Sale>)

  /** `getStats`; each `SUM(…) || 0` reads 0 over an empty ledger. */
  function GetStats(sales: seq<Sale>, now: int): SalesStats {
    SalesStats(
      |sales|,
      SqlSum(Quantities(sales)).GetOr(0),
      SqlSum(Revenues(sales)).GetOr(0),
      |ProductIds(sales)|,
      RecentSales(sales, now))
  }

  lemma SumAppend(xs: seq<int>, x: int)
    ensures Sum(xs + [x]) == Sum(xs) + x
  {
    assert (xs + [x])[..|xs|] == xs;
  }

  /** Each `SUM(…) || 0` of getStats is the plain sum of the column, 0 over no sales. */
  lemma StatsTotalsAreSums(sales: seq<Sale>, now: int)
    ensures GetStats(sales, now).totalQuantitySold == Sum(Quantities(sales))
    ensures GetStats(sales, now).totalRevenue == Sum(Revenues(sales))
    ensures sales == [] ==> GetStats(sales, now).totalQuantitySold == 0 && GetStats(sales, now).totalRevenue == 0
  {
  }

  /** Recording one more sale moves every statistic by exactly that sale. */
  lemma StatsAppend(sales: seq<Sale>, s: Sale, now: int)
    ensures GetStats(sales + [s], now).totalSales == GetStats(sales, now).totalSales + 1
    ensures GetStats(sales + [s], now).totalQuantitySold == GetStats(sales, now).totalQuantitySold + s.quantity
    ensures GetStats(sales + [s], now).totalRevenue == GetStats(sales, now).totalRevenue + s.totalPrice
    ensures GetStats(sales + [s], now).distinctProductsSold
         == GetStats(sales, now).distinctProductsSold + (if s.productId in ProductIds(sales) then 0 else 1)
  {
    assert Quantities(sales + [s]) == Quantities(sales) + [s.quantity];
    assert Revenues(sales + [s]) == Revenues(sales) + [s.totalPrice];
    SumAppend(Quantities(sales), s.quantity);
    SumAppend(Revenues(sales), s.totalPrice);
    assert ProductIds(sales + [s]) == ProductIds(sales) + {s.productId};
  }

  /** No more distinct products than sales, and at least one when there is a sale. */
  lemma {:induction false} DistinctAtMostTotal(sales: seq<Sale>)
    ensures |ProductIds(sales)| <= |sales|
    ensures |sales| > 0 ==> |ProductIds(sales)| > 0
  {
    if sales != [] {
      var init := sales[..|sales| - 1];
      var s := sales[|sales| - 1];
      assert sales == init + [s];
      DistinctAtMostTotal(init);
      assert ProductIds(sales) == ProductIds(init) + {s.productId};
    }
  }

  // The older sale-recording variant: validation, then three writes.

  /**
   * `Sale.create`: the same checks in the same order as the controller, then
   * in one transaction the sale row, the stock deduction and the income row.
   * It returns the sale row just inserted.
   */
  function CreateSpec(t: Tables, req: SaleRequest, now: int): (r: Transition<Sale>)
    ensures r.result.Err? <==> Validate(req, t.products).Err?
    ensures r.result.Err? ==> r.result.error == Validate(req, t.products).error && r.after == t
    ensures r.result.Ok? ==>
      var a := Validate(req, t.products).value;
      && r.after.sales == t.sales + [r.result.value]
      && |r.after.income| == |t.income| + 1 && r.after.income[..|t.income|] == t.income
      && r.after.income[|t.income|].amount == r.result.value.totalPrice
      && r.after.expenses == t.expenses && r.after.lastExpenseId == t.lastExpenseId
      && r.after.products.Keys == t.products.Keys
      && r.after.products[a.productId] == a.product.(quantity := a.product.quantity - a.quantity, updatedAt := now)
      && r.after.products[a.productId].quantity >= 0
      && (forall k :: k in t.products && k != a.productId ==> r.after.products[k] == t.products[k])
  {
    match Validate(req, t.products)
    case Err(e) => Transition(t, Err(e))
    case Ok(a) =>
      var id, p, q := a.productId, a.product, a.quantity;
      var price := PriceSale(p, q);
      var t1 := InsertSale(t, id, p.name, q, price.unitPrice, price.totalPrice, a.note, now);
      var t2 := DeductStock(t1, id, q, now);
      var t3 := InsertAutoIncome(t2, IncomeDescription(p.name, q), price.totalPrice, id);
      Transition(t3, Ok(t1.sales[|t.sales|]))
  }

  /** A committed state stays committed: well-formed, and stock conserved. */
  lemma CreateSpecKeepsInvariants(initial: map<int, int>, t: Tables, req: SaleRequest, now: int)
    requires WellFormed(t) && StockConserved(initial, t)
    ensures WellFormed(CreateSpec(t, req, now).after)
    ensures StockConserved(initial, CreateSpec(t, req, now).after)
  {
    var r := CreateSpec(t, req, now);
    if r.result.Ok? {
      var a := Validate(req, t.products).value;
      var s := r.result.value;
      forall k | k in initial
        ensures initial[k] == r.after.products[k].quantity + QuantitySold(r.after.sales, k)
      {
        QuantitySoldAppend(t.sales, s, k);
      }
    }
  }

  /** The sale row as `Sale.create` re-reads it after the commit, or the error it throws. */
  method Create(db: Db, req: SaleRequest, now: int) returns (r: Result<Sale, SaleError>)
    requires db.Valid()
    modifies db
    ensures db.Valid()
    ensures db.State() == CreateSpec(old(db.State()), req, now).after
    ensures r == CreateSpec(old(db.State()), req, now).result
  {
    ghost var before := db.State();
    if !Truthy(req.productId) || !Truthy(req.quantity) {
      return Err(MissingFields);
    }
    var productId, quantity := req.productId.value, req.quantity.value;
    if quantity <= 0 {
      return Err(NonPositiveQuantity);
    }
    var found := db.FindProduct(productId);
    if found.None? {
      return Err(ProductNotFound);
    }
    var product := found.value;
    if product.quantity < quantity {
      return Err(InsufficientStock(product.quantity, quantity));
    }
    var unitPrice := product.sellingPrice;
    var totalPrice := unitPrice * quantity;

    // The transaction: all three writes, with nothing in between that can fail.
    var saleId := db.InsertSaleRow(productId, product.name, quantity, unitPrice, totalPrice, StoredNote(req.description), now);
    db.DeductStockRow(productId, quantity, now);
    db.InsertIncomeRow(IncomeDescription(product.name, quantity), totalPrice, productId);

    var newSale := FindById(db.sales, saleId);
    FindByIdAppended(before.sales, db.sales[|before.sales|]);
    assert db.sales == before.sales + [db.sales[|before.sales|]];
    CreateSpecKeepsInvariants(db.initialStock, before, req, now);
    r := Ok(newSale.value);
  }
}
