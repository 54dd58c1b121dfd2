/**
 * The stock transaction form (src/pages/inventory/components/TransactionForm.js):
 * the submit handler's early exits, its call of `addTransaction`, and what
 * the form does with the outcome. The product and quantity fields arrive as
 * integers, 0 standing for a value `parseInt` turns into 0 or NaN.
 */
module TransactionForm {
  import opened Common
  import opened InventoryService

  /** The alerts the submit handler ends with. */
  datatype SubmitOutcome =
    | MissingFields                  // "Please select a product and enter a quantity"
    | NotEnoughStock(available: int) // "Not enough stock available. Current stock: ..."
    | Recorded                       // "Transaction recorded successfully"
    | ErrorOccurred                  // the catch: "An error occurred while recording the transaction"

  /**
   * The handler's decision before `addTransaction`: an early outcome, or None
   * to go on. For an `out`, reading the stock of a product that does not
   * exist throws, which the handler's catch turns into ErrorOccurred.
   */
  function Guard(kind: string, productId: int, quantity: int, product: Option<Product>): Option<SubmitOutcome>
  {
    if productId == 0 || quantity == 0 then Some(MissingFields)
    else if kind == "out" then
      match product
      case None => Some(ErrorOccurred)
      case Some(p) => if quantity > p.stock then Some(NotEnoughStock(p.stock)) else None
    else None
  }

  /** The request the handler passes on: product, quantity, type and notes, and no user. */
  function RequestOf(kind: string, productId: int, quantity: int, notes: string): TransactionRequest
  {
    TransactionRequest(productId, kind, quantity, notes, 0)
  }

  /**
   * For an existing product the form's stock check refuses an `out` exactly
   * when the service would throw "Cannot remove more stock than available",
   * and never refuses an `in`.
   */
  lemma GuardMirrorsService(products: seq<Product>, transactions: seq<Transaction>,
                            productId: int, quantity: int, notes: string, now: int)
    requires productId != 0 && quantity != 0
    requires FindProduct(products, productId).Some?
    ensures Guard("out", productId, quantity, FindProduct(products, productId)).Some?
      <==> Prepare(products, transactions, RequestOf("out", productId, quantity, notes), now) == Err(InsufficientStock)
    ensures Guard("in", productId, quantity, FindProduct(products, productId)).None?
  {
  }

  /**
   * With no product of that id, every submission that gets past the field
   * check ends in ErrorOccurred: for an `out` the guard throws, for any other
   * type the service throws "not found".
   */
  lemma UnknownProductFails(products: seq<Product>, transactions: seq<Transaction>,
                            kind: string, productId: int, quantity: int, notes: string, now: int)
    requires productId != 0 && quantity != 0
    requires forall p :: p in products ==> p.id != productId
    ensures var g := Guard(kind, productId, quantity, FindProduct(products, productId));
      g == Some(ErrorOccurred)
      || (g.None? && Prepare(products, transactions, RequestOf(kind, productId, quantity, notes), now)
                     == Err(UnknownProduct(productId)))
  {
  }

  class TransactionFormView {
    /** `formContainer.style.display` is "block". */
    var visible: bool
    /** The value of the transaction-type select. */
    var kind: string
    /** How many times the `onTransactionComplete` callback has run. */
    var completions: nat
    /** Whether a callback function was passed to `addTransactionFormListeners`. */
    const hasCallback: bool

    /** `createTransactionForm`: hidden, with the type select on its first option. */
    constructor (hasCallback: bool)
      ensures !visible && kind == "in" && completions == 0 && this.hasCallback == hasCallback
    {
      visible := false;
      kind := "in";
      completions := 0;
      this.hasCallback := hasCallback;
    }

    /** `showForm(type)`. */
    method ShowForm(kind: string)
      modifies this
      ensures visible && this.kind == kind && completions == old(completions)
    {
      this.kind := kind;
      visible := true;
    }

    /** The cancel handler: `form.reset()` and hide. */
    method Cancel()
      modifies this
      ensures !visible && kind == "in" && completions == old(completions)
    {
      kind := "in";
      visible := false;
    }

    /**
     * The submit handler. An early outcome leaves the store and the form as
     * they are; otherwise the service runs on the request built from the
     * fields, and only its success resets and hides the form and runs the
     * callback.
     */
    method Submit(store: InventoryStore, productId: int, quantity: int, notes: string,
                  now: int, today: int, inventorySaved: bool, ledgerSaved: bool)
      returns (outcome: SubmitOutcome)
      modifies this, store
      ensures var g := Guard(old(kind), productId, quantity, FindProduct(old(store.products), productId));
        g.Some? ==> outcome == g.value
                    && store.products == old(store.products) && store.transactions == old(store.transactions)
      ensures var g := Guard(old(kind), productId, quantity, FindProduct(old(store.products), productId));
        g.None? ==> exists sr: Result<(), ServiceError> ::
          && AddTransactionEffect(old(store.products), old(store.transactions),
                                  RequestOf(old(kind), productId, quantity, notes), now, today,
                                  inventorySaved, ledgerSaved, store.products, store.transactions, sr)
          && outcome == (if sr.Ok? then Recorded else ErrorOccurred)
      ensures outcome == Recorded ==>
        !visible && kind == "in" && completions == old(completions) + (if hasCallback then 1 else 0)
      ensures outcome != Recorded ==>
        visible == old(visible) && kind == old(kind) && completions == old(completions)
    {
      if productId == 0 || quantity == 0 {
        return MissingFields;
      }
      var product := store.GetProductById(productId);
      if kind == "out" {
        if product.None? {
          return ErrorOccurred;
        }
        if quantity > product.value.stock {
          return NotEnoughStock(product.value.stock);
        }
      }
      var request := RequestOf(kind, productId, quantity, notes);
      var result := store.AddTransaction(request, now, today, inventorySaved, ledgerSaved);
      if result.Err? {
        return ErrorOccurred;
      }
      kind := "in";
      visible := false;
      if hasCallback {
        completions := completions + 1;
      }
      outcome := Recorded;
    }
  }
}
