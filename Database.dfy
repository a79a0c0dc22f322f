/**
 * The SQLite database handle as the sale workflow uses it: the four tables
 * are fields that its write statements update in place. Each method is one
 * prepared statement's `run`.
 */
module Database {
  import opened Wrappers
  import opened Schema

  /** Products are keyed by their own id and hold no negative stock. */
  predicate CatalogOk(catalog: map<int, Product>) {
    forall k :: k in catalog ==> catalog[k].id == k && catalog[k].quantity >= 0
  }

  class Db {
    var products: map<int, Product>
    var sales: seq<Sale>
    var income: seq<Income>
    var expenses: seq<Expense>
    var lastSaleId: int
    var lastIncomeId: int
    var lastExpenseId: int

    /** The stock each product had when the ledgers were empty. */
    ghost const initialStock: map<int, int>

    function State(): Tables
      reads this
    {
      Tables(products, sales, income, expenses, lastSaleId, lastIncomeId, lastExpenseId)
    }

    /**
     * The state between transactions. Inside a sale transaction it is broken
     * (the sale is recorded before the stock is deducted) and restored at commit.
     */
    ghost predicate Valid()
      reads this
    {
      WellFormed(State()) && StockConserved(initialStock, State())
    }

    /** A database whose catalog is `catalog` and whose ledgers are empty. */
    constructor (catalog: map<int, Product>)
      requires CatalogOk(catalog)
      ensures Valid()
      ensures State() == Tables(catalog, [], [], [], 0, 0, 0)
      ensures initialStock == map k | k in catalog :: catalog[k].quantity
    {
      products, sales, income, expenses := catalog, [], [], [];
      lastSaleId, lastIncomeId, lastExpenseId := 0, 0, 0;
      initialStock := map k | k in catalog :: catalog[k].quantity;
    }

    /** `SELECT * FROM products WHERE id = ?`. */
    function FindProduct(id: int): (r: Option<Product>)
      reads this
      ensures r.Some? <==> id in products
      ensures r.Some? ==> r.value == products[id]
      ensures r.Some? ==> r.value in products.Values
      ensures CatalogOk(products) ==>
        && (r.Some? ==> r.value.id == id)
        && (r.None? <==> forall k :: k in products ==> products[k].id != id)
    {
      if id in products then Some(products[id]) else None
    }

    /** `INSERT INTO sales …`; returns `lastInsertRowid`. */
    method InsertSaleRow(
      productId: int, productName: string, quantity: int,
      unitPrice: int, totalPrice: int, description: Option<string>, now: int)
      returns (id: int)
      modifies this
      ensures State() == InsertSale(old(State()), productId, productName, quantity, unitPrice, totalPrice, description, now)
      ensures id == lastSaleId
    {
      id := lastSaleId + 1;
      sales := sales + [Sale(id, productId, productName, quantity, unitPrice, totalPrice, description, now)];
      lastSaleId := id;
    }

    /** `UPDATE products SET quantity = quantity - ?, updated_at = CURRENT_TIMESTAMP WHERE id = ?`. */
    method DeductStockRow(productId: int, quantity: int, now: int)
      modifies this
      ensures State() == DeductStock(old(State()), productId, quantity, now)
    {
      if productId in products {
        var p := products[productId];
        products := products[productId := p.(quantity := p.quantity - quantity, updatedAt := now)];
      }
    }

    /** `INSERT INTO income (description, amount, type, product_id) VALUES (?, ?, 'auto', ?)`. */
    method InsertIncomeRow(description: string, amount: int, productId: int)
      modifies this
      ensures State() == InsertAutoIncome(old(State()), description, amount, productId)
    {
      lastIncomeId := lastIncomeId + 1;
      income := income + [Income(lastIncomeId, description, amount, AutoKind, productId)];
    }

    /** `INSERT INTO expenses (description, amount, type, category, product_id) VALUES (?, ?, 'auto', ?, ?)`. */
    method InsertExpenseRow(description: string, amount: int, category: string, productId: int)
      modifies this
      ensures State() == InsertAutoExpense(old(State()), description, amount, category, productId)
    {
      lastExpenseId := lastExpenseId + 1;
      expenses := expenses + [Expense(lastExpenseId, description, amount, AutoKind, category, productId)];
    }
  }
}
