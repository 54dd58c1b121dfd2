/**
 * The catalog and the ledger of the pharmacy stock tracker
 * (src/utils/inventoryService.js).
 *
 * The two stored collections, the product catalog and the transaction
 * ledger, are the fields of `InventoryStore`. Every operation of the
 * service reloads them, changes its copy and writes the copies back, so a
 * field changes exactly when the corresponding save succeeds; whether a save
 * succeeds is a parameter. Clock readings (`lastUpdated`, transaction dates)
 * are integers supplied by the caller.
 */
module InventoryService {
  import opened Common

  /** A catalog entry; `stock` is the quantity on hand. */
  datatype Product = Product(
    id: int,
    name: string,
    category: string,
    description: string,
    unit: string,
    stock: int,
    reorderLevel: int,
    lastUpdated: int)

  /** A ledger entry: one stock movement with the stock before and after it. */
  datatype Transaction = Transaction(
    id: int,
    productId: int,
    kind: string,
    quantity: int,
    previousStock: int,
    newStock: int,
    date: int,
    userId: int,
    notes: string)

  /** The object handed to `addTransaction`; a `userId` of 0 stands for a missing or falsy one. */
  datatype TransactionRequest = TransactionRequest(
    productId: int,
    kind: string,
    quantity: int,
    notes: string,
    userId: int)

  /** The errors the service throws. */
  datatype ServiceError =
    | ProductNotFound                  // updateProduct on an absent id
    | UnknownProduct(productId: int)   // addTransaction on an absent product
    | InsufficientStock                // an `out` that would make the stock negative
    | SaveFailed                       // a save to storage reported failure

  /** The user recorded on a transaction: `transaction.userId || 1`. */
  const DefaultUserId := 1

  // ---------------------------------------------------------------------
  // Catalog queries
  // ---------------------------------------------------------------------

  /** `products.find(p => p.id === id)`: the first product with that id. */
  function FindProduct(products: seq<Product>, id: int): (r: Option<Product>)
    ensures r.Some? ==> r.value in products && r.value.id == id
    ensures r.None? <==> forall p :: p in products ==> p.id != id
  {
    if products == [] then None
    else if products[0].id == id then Some(products[0])
    else FindProduct(products[1..], id)
  }

  /** `products.findIndex(p => p.id === id)`: the first index with that id, or -1. */
  function IndexOf(products: seq<Product>, id: int): (i: int)
    ensures -1 <= i < |products|
    ensures i == -1 <==> forall k :: 0 <= k < |products| ==> products[k].id != id
    ensures 0 <= i ==> products[i].id == id && forall k :: 0 <= k < i ==> products[k].id != id
  {
    if products == [] then -1
    else if products[0].id == id then 0
    else
      var k := IndexOf(products[1..], id);
      if k == -1 then -1 else k + 1
  }

  /** `find` and `findIndex` pick the same product. */
  lemma {:induction false} FindProductAtIndex(products: seq<Product>, id: int)
    ensures FindProduct(products, id) ==
      if IndexOf(products, id) == -1 then None else Some(products[IndexOf(products, id)])
  {
    if products != [] && products[0].id != id {
      FindProductAtIndex(products[1..], id);
    }
  }

  /** No two products share an id. */
  ghost predicate UniqueIds(products: seq<Product>)
  {
    forall i, j :: 0 <= i < j < |products| ==> products[i].id != products[j].id
  }

  /** `Math.max(...products.map(p => p.id), 0)`. */
  function MaxProductId(products: seq<Product>): (m: int)
    ensures m >= 0
    ensures forall p :: p in products ==> p.id <= m
    ensures m == 0 || exists p :: p in products && p.id == m
  {
    if products == [] then 0
    else
      var rest := MaxProductId(products[1..]);
      if products[0].id > rest then products[0].id else rest
  }

  /** `Math.max(...transactions.map(t => t.id))` of a non-empty ledger. */
  function MaxTransactionId(transactions: seq<Transaction>): (m: int)
    requires transactions != []
    ensures forall t :: t in transactions ==> t.id <= m
    ensures exists t :: t in transactions && t.id == m
  {
    if |transactions| == 1 then transactions[0].id
    else
      var rest := MaxTransactionId(transactions[1..]);
      if transactions[0].id > rest then transactions[0].id else rest
  }

  /** The id `addTransaction` gives the next entry: max + 1, or 1 for an empty ledger. */
  function NextTransactionId(transactions: seq<Transaction>): (n: int)
    ensures forall t :: t in transactions ==> t.id < n
    ensures transactions == [] ==> n == 1
    ensures transactions != [] ==> exists t :: t in transactions && n == t.id + 1
  {
    if transactions == [] then 1 else MaxTransactionId(transactions) + 1
  }

  /** The low-stock test shared by `getLowStockProducts` and the product table. */
  predicate IsLowStock(p: Product)
  {
    p.stock <= p.reorderLevel
  }

  /** `getLowStockProducts`: `products.filter(p => p.stock <= p.reorderLevel)`. */
  function LowStock(products: seq<Product>): seq<Product>
  {
    Filter(IsLowStock, products)
  }

  /** `getLowStockProducts` returns, in catalog order, exactly the products at or below their reorder level. */
  lemma LowStockExact(products: seq<Product>)
    ensures forall p :: p in LowStock(products) <==> p in products && p.stock <= p.reorderLevel
    ensures IsSubsequence(LowStock(products), products)
    ensures forall p :: multiset(LowStock(products))[p] ==
                        (if p.stock <= p.reorderLevel then multiset(products)[p] else 0)
  {
    FilterIsSubsequence(IsLowStock, products);
    forall p
      ensures multiset(LowStock(products))[p] ==
        if p.stock <= p.reorderLevel then multiset(products)[p] else 0
    {
      FilterCount(IsLowStock, products, p);
    }
  }

  /** `p.category` of every product, in catalog order. */
  function CategoriesOf(products: seq<Product>): (r: seq<string>)
    ensures |r| == |products|
    ensures forall i :: 0 <= i < |products| ==> r[i] == products[i].category
  {
    seq(|products|, i requires 0 <= i < |products| => products[i].category)
  }

  // ---------------------------------------------------------------------
  // Catalog updates, as values
  // ---------------------------------------------------------------------

  /** `products.filter(p => p.id !== id)`. */
  function RemoveProduct(products: seq<Product>, id: int): seq<Product>
  {
    Filter((p: Product) => p.id != id, products)
  }

  /** Deleting leaves no product with that id and keeps every other product, in order and as often as it occurred. */
  lemma RemoveProductSpec(products: seq<Product>, id: int)
    ensures forall p :: p in RemoveProduct(products, id) ==> p.id != id
    ensures forall p :: p in products && p.id != id ==> p in RemoveProduct(products, id)
    ensures IsSubsequence(RemoveProduct(products, id), products)
    ensures FindProduct(products, id).None? ==> RemoveProduct(products, id) == products
    ensures forall p :: multiset(RemoveProduct(products, id))[p] ==
                        (if p.id != id then multiset(products)[p] else 0)
  {
    FilterIsSubsequence((p: Product) => p.id != id, products);
    forall p
      ensures multiset(RemoveProduct(products, id))[p] ==
        if p.id != id then multiset(products)[p] else 0
    {
      FilterCount((p: Product) => p.id != id, products, p);
    }
    if FindProduct(products, id).None? {
      FilterAll((p: Product) => p.id != id, products);
    }
  }

  /** The catalog after a transaction wrote `newStock` to the first product with `id`. */
  function SetStock(products: seq<Product>, id: int, newStock: int, today: int): seq<Product>
  {
    var i := IndexOf(products, id);
    if i == -1 then products
    else products[i := products[i].(stock := newStock, lastUpdated := today)]
  }

  /** Writing a stock value changes that product's stock and date and nothing else. */
  lemma SetStockSpec(products: seq<Product>, id: int, newStock: int, today: int)
    ensures |SetStock(products, id, newStock, today)| == |products|
    ensures forall k :: 0 <= k < |products| ==> SetStock(products, id, newStock, today)[k].id == products[k].id
    ensures FindProduct(products, id).Some? ==>
      FindProduct(SetStock(products, id, newStock, today), id) ==
        Some(FindProduct(products, id).value.(stock := newStock, lastUpdated := today))
    ensures forall q :: q != id ==>
      FindProduct(SetStock(products, id, newStock, today), q) == FindProduct(products, q)
  {
    SetStockTarget(products, id, newStock, today);
    forall q | q != id
      ensures FindProduct(SetStock(products, id, newStock, today), q) == FindProduct(products, q)
    {
      SetStockOther(products, id, newStock, today, q);
    }
  }

  lemma SetStockTarget(products: seq<Product>, id: int, newStock: int, today: int)
    ensures |SetStock(products, id, newStock, today)| == |products|
    ensures forall k :: 0 <= k < |products| ==> SetStock(products, id, newStock, today)[k].id == products[k].id
    ensures FindProduct(products, id).Some? ==>
      FindProduct(SetStock(products, id, newStock, today), id) ==
        Some(FindProduct(products, id).value.(stock := newStock, lastUpdated := today))
  {
    var after := SetStock(products, id, newStock, today);
    var i := IndexOf(products, id);
    FindProductAtIndex(products, id);
    if i != -1 {
      SameIdsSameIndex(products, after, id);
      FindProductAtIndex(after, id);
    }
  }

  lemma SetStockOther(products: seq<Product>, id: int, newStock: int, today: int, q: int)
    requires q != id
    ensures FindProduct(SetStock(products, id, newStock, today), q) == FindProduct(products, q)
  {
    var after := SetStock(products, id, newStock, today);
    var i := IndexOf(products, id);
    if i != -1 {
      FindProductAtIndex(products, q);
      FindProductAtIndex(after, q);
      SameIdsSameIndex(products, after, q);
      assert IndexOf(products, q) != i;
    }
  }

  lemma SameIdsSameIndex(a: seq<Product>, b: seq<Product>, id: int)
    requires |a| == |b| && forall k :: 0 <= k < |a| ==> a[k].id == b[k].id
    ensures IndexOf(a, id) == IndexOf(b, id)
  {
    var i, j := IndexOf(a, id), IndexOf(b, id);
    if i != -1 && j != -1 {
      assert !(i < j) && !(j < i);
    }
  }

  /** A product appended with an id above every existing id is what a lookup of that id finds. */
  lemma {:induction false} FindAppended(products: seq<Product>, p: Product)
    requires forall q :: q in products ==> q.id < p.id
    ensures FindProduct(products + [p], p.id) == Some(p)
    ensures forall id :: id != p.id ==> FindProduct(products + [p], id) == FindProduct(products, id)
  {
    if products != [] {
      assert (products + [p])[1..] == products[1..] + [p];
      FindAppended(products[1..], p);
    } else {
      assert products + [p] == [p];
    }
  }

  /** What appending a product whose id is above the maximum does to lookups and to id uniqueness. */
  lemma AddedProductFacts(products: seq<Product>, p: Product)
    requires p.id == MaxProductId(products) + 1
    ensures forall q :: q in products ==> q.id < p.id
    ensures FindProduct(products + [p], p.id) == Some(p)
    ensures UniqueIds(products) ==> UniqueIds(products + [p])
  {
    FindAppended(products, p);
    if UniqueIds(products) {
      AppendKeepsUniqueIds(products, p);
    }
  }

  /** Appending a product whose id exceeds the current maximum keeps ids unique. */
  lemma AppendKeepsUniqueIds(products: seq<Product>, p: Product)
    requires UniqueIds(products) && p.id > MaxProductId(products)
    ensures UniqueIds(products + [p])
  {
    var r := products + [p];
    forall i, j | 0 <= i < j < |r|
      ensures r[i].id != r[j].id
    {
      if j == |products| {
        assert r[i] in products;
      }
    }
  }

  // ---------------------------------------------------------------------
  // The ledger step
  // ---------------------------------------------------------------------

  /** The stock after a movement: `in` adds, `out` subtracts, any other type leaves it. */
  function StockAfter(previous: int, kind: string, quantity: int): int
  {
    if kind == "in" then previous + quantity
    else if kind == "out" then previous - quantity
    else previous
  }

  /**
   * What `addTransaction` decides before writing anything: the entry it
   * appends, or the error it throws.
   */
  function Prepare(products: seq<Product>, transactions: seq<Transaction>,
                   request: TransactionRequest, now: int): Result<Transaction, ServiceError>
  {
    var newId := NextTransactionId(transactions);
    match FindProduct(products, request.productId)
    case None => Err(UnknownProduct(request.productId))
    case Some(product) =>
      var newStock := StockAfter(product.stock, request.kind, request.quantity);
      if request.kind == "out" && newStock < 0 then Err(InsufficientStock)
      else
        Ok(Transaction(newId, request.productId, request.kind, request.quantity,
                       product.stock, newStock, now,
                       if request.userId != 0 then request.userId else DefaultUserId,
                       request.notes))
  }

  /** The errors of `addTransaction`, both ways round. */
  lemma PrepareErrors(products: seq<Product>, transactions: seq<Transaction>,
                      request: TransactionRequest, now: int)
    ensures Prepare(products, transactions, request, now) == Err(UnknownProduct(request.productId))
      <==> forall p :: p in products ==> p.id != request.productId
    ensures Prepare(products, transactions, request, now) == Err(InsufficientStock)
      <==> exists p :: p == FindProduct(products, request.productId) && p.Some?
             && request.kind == "out" && p.value.stock - request.quantity < 0
  {
  }

  /** The entry appended by a successful `addTransaction`. */
  lemma PrepareEntry(products: seq<Product>, transactions: seq<Transaction>,
                     request: TransactionRequest, now: int)
    requires Prepare(products, transactions, request, now).Ok?
    ensures var tx := Prepare(products, transactions, request, now).value;
      var product := FindProduct(products, request.productId).value;
      && product in products
      && tx.id == NextTransactionId(transactions)
      && (forall t :: t in transactions ==> t.id < tx.id)
      && tx.productId == request.productId && tx.kind == request.kind
      && tx.quantity == request.quantity && tx.notes == request.notes && tx.date == now
      && tx.previousStock == product.stock
      && (request.kind == "in" ==> tx.newStock == product.stock + request.quantity)
      && (request.kind == "out" ==> tx.newStock == product.stock - request.quantity && tx.newStock >= 0)
      && (request.kind != "in" && request.kind != "out" ==> tx.newStock == product.stock)
      && tx.userId == (if request.userId == 0 then DefaultUserId else request.userId)
  {
  }

  /**
   * The stored collections and the outcome of `addTransaction`: on a thrown
   * lookup or stock error nothing is written; otherwise the catalog holds the
   * new stock if its save succeeded, the ledger holds the new entry if its
   * save succeeded, and the call succeeds only if both did.
   */
  ghost predicate AddTransactionEffect(
    products0: seq<Product>, transactions0: seq<Transaction>,
    request: TransactionRequest, now: int, today: int,
    inventorySaved: bool, ledgerSaved: bool,
    products1: seq<Product>, transactions1: seq<Transaction>, r: Result<(), ServiceError>)
  {
    match Prepare(products0, transactions0, request, now)
    case Err(e) =>
      r == Err(e) && products1 == products0 && transactions1 == transactions0
    case Ok(tx) =>
      && products1 == (if inventorySaved
                       then SetStock(products0, request.productId, tx.newStock, today)
                       else products0)
      && transactions1 == (if ledgerSaved then transactions0 + [tx] else transactions0)
      && r == (if inventorySaved && ledgerSaved then Ok(()) else Err(SaveFailed))
  }

  // ---------------------------------------------------------------------
  // The stored state
  // ---------------------------------------------------------------------

  class InventoryStore {
    /** The stored catalog, `{ products: [...] }`. */
    var products: seq<Product>
    /** The stored ledger, `{ transactions: [...] }`. */
    var transactions: seq<Transaction>

    constructor (products: seq<Product>, transactions: seq<Transaction>)
      ensures this.products == products && this.transactions == transactions
    {
      this.products := products;
      this.transactions := transactions;
    }

    /** `getProductById`. */
    function GetProductById(id: int): Option<Product>
      reads this
    {
      FindProduct(products, id)
    }

    /** `getLowStockProducts`. */
    function GetLowStockProducts(): seq<Product>
      reads this
    {
      LowStock(products)
    }

    /**
     * `addProduct`: appends the product under id max(ids, 0) + 1 with today's
     * date; the catalog changes only if the save succeeds.
     */
    method AddProduct(data: Product, today: int, saved: bool) returns (r: Result<Product, ServiceError>)
      modifies this
      ensures var created := data.(id := MaxProductId(old(products)) + 1, lastUpdated := today);
        if saved then r == Ok(created) && products == old(products) + [created]
        else r == Err(SaveFailed) && products == old(products)
      ensures r.Ok? ==> forall p :: p in old(products) ==> p.id < r.value.id
      ensures r.Ok? ==> FindProduct(products, r.value.id) == Some(r.value)
      ensures UniqueIds(old(products)) ==> UniqueIds(products)
      ensures transactions == old(transactions)
    {
      var newId := MaxProductId(products) + 1;
      var created := data.(id := newId, lastUpdated := today);
      if saved {
        AddedProductFacts(products, created);
        products := products + [created];
        r := Ok(created);
      } else {
        r := Err(SaveFailed);
      }
    }

    /**
     * `updateProduct`: replaces the first product with `id` by `data`, keeping
     * `id` and stamping today's date; an absent id throws and changes nothing.
     */
    method UpdateProduct(id: int, data: Product, today: int, saved: bool) returns (r: Result<Product, ServiceError>)
      modifies this
      ensures var i := IndexOf(old(products), id);
        var updated := data.(id := id, lastUpdated := today);
        if i == -1 then r == Err(ProductNotFound) && products == old(products)
        else if saved then r == Ok(updated) && products == old(products)[i := updated]
        else r == Err(SaveFailed) && products == old(products)
      ensures |products| == |old(products)|
      ensures forall k :: 0 <= k < |products| ==> products[k].id == old(products)[k].id
      ensures forall k :: 0 <= k < |products| && products[k] != old(products)[k] ==> k == IndexOf(old(products), id)
      ensures r.Ok? ==> FindProduct(products, id) == Some(r.value)
      ensures transactions == old(transactions)
    {
      var catalog := products;
      var index := IndexOf(catalog, id);
      if index == -1 {
        return Err(ProductNotFound);
      }
      var updated := data.(id := id, lastUpdated := today);
      catalog := catalog[index := updated];
      if saved {
        products := catalog;
        r := Ok(updated);
        SameIdsSameIndex(old(products), products, id);
        FindProductAtIndex(products, id);
      } else {
        r := Err(SaveFailed);
      }
    }

    /**
     * `deleteProduct`: keeps the products whose id differs; an absent id is
     * not an error and leaves the catalog as it is.
     */
    method DeleteProduct(id: int, saved: bool) returns (r: Result<(), ServiceError>)
      modifies this
      ensures if saved then r == Ok(()) && products == RemoveProduct(old(products), id)
              else r == Err(SaveFailed) && products == old(products)
      ensures forall p :: p in products && saved ==> p.id != id
      ensures FindProduct(old(products), id).None? ==> products == old(products)
      ensures transactions == old(transactions)
    {
      var catalog := RemoveProduct(products, id);
      RemoveProductSpec(products, id);
      if saved {
        products := catalog;
        r := Ok(());
      } else {
        r := Err(SaveFailed);
      }
    }

    /**
     * `addTransaction`: reads both collections, finds the product, computes
     * the stock before and after, refuses an `out` below zero, appends the
     * entry, writes the new stock back, and then saves the catalog before the
     * ledger. Each collection changes only if its own save succeeds; the call
     * reports success only if both do.
     */
    method AddTransaction(request: TransactionRequest, now: int, today: int,
                          inventorySaved: bool, ledgerSaved: bool)
      returns (r: Result<(), ServiceError>)
      modifies this
      ensures AddTransactionEffect(old(products), old(transactions), request, now, today,
                                   inventorySaved, ledgerSaved, products, transactions, r)
    {
      var catalog := products;
      var ledger := transactions;
      var newId := NextTransactionId(ledger);

      var found := FindProduct(catalog, request.productId);
      if found.None? {
        return Err(UnknownProduct(request.productId));
      }
      var product := found.value;

      var previousStock := product.stock;
      var newStock := previousStock;
      if request.kind == "in" {
        newStock := previousStock + request.quantity;
      } else if request.kind == "out" {
        newStock := previousStock - request.quantity;
        if newStock < 0 {
          return Err(InsufficientStock);
        }
      }

      var entry := Transaction(newId, request.productId, request.kind, request.quantity,
                               previousStock, newStock, now,
                               if request.userId != 0 then request.userId else DefaultUserId,
                               request.notes);
      ledger := ledger + [entry];

      var index := IndexOf(catalog, request.productId);
      if index != -1 {
        catalog := catalog[index := catalog[index].(stock := newStock, lastUpdated := today)];
      }

      if inventorySaved {
        products := catalog;
      }
      if ledgerSaved {
        transactions := ledger;
      }
      r := if inventorySaved && ledgerSaved then Ok(()) else Err(SaveFailed);
    }
  }
}
