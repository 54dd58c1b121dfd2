/**
 * Sequences of `addTransaction` calls (src/utils/inventoryService.js) and what
 * they leave behind: the ledger only grows, its ids ascend, every product's
 * entries chain (each starts from the stock the previous one left), and the
 * stored stock equals the starting stock replayed through its entries.
 */
module Replay {
  import opened Common
  import opened InventoryService

  /** The two stored collections. */
  datatype Snapshot = Snapshot(products: seq<Product>, transactions: seq<Transaction>)

  /** One call of `addTransaction` with the clock readings it takes. */
  datatype Call = Call(request: TransactionRequest, now: int, today: int)

  /** One call whose two saves succeed. */
  function Step(s: Snapshot, c: Call): Result<Snapshot, ServiceError>
  {
    match Prepare(s.products, s.transactions, c.request, c.now)
    case Err(e) => Err(e)
    case Ok(tx) =>
      Ok(Snapshot(SetStock(s.products, c.request.productId, tx.newStock, c.today),
                  s.transactions + [tx]))
  }

  /** The calls in order; the first error stops the run. */
  function Run(s: Snapshot, calls: seq<Call>): Result<Snapshot, ServiceError>
    decreases |calls|
  {
    if calls == [] then Ok(s)
    else
      match Step(s, calls[0])
      case Err(e) => Err(e)
      case Ok(next) => Run(next, calls[1..])
  }

  /** A successful step is exactly what `InventoryStore.AddTransaction` does when both saves succeed. */
  method StepByStore(store: InventoryStore, c: Call) returns (r: Result<(), ServiceError>)
    modifies store
    ensures match Step(Snapshot(old(store.products), old(store.transactions)), c)
      case Err(e) => r == Err(e) && store.products == old(store.products)
                                 && store.transactions == old(store.transactions)
      case Ok(next) => r == Ok(()) && store.products == next.products
                                   && store.transactions == next.transactions
  {
    r := store.AddTransaction(c.request, c.now, c.today, true, true);
  }

  // ---------------------------------------------------------------------
  // Replaying a product's entries
  // ---------------------------------------------------------------------

  /** `initial` folded through the entries of `ledger` that concern product `q`. */
  function ReplayFor(q: int, initial: int, ledger: seq<Transaction>): int
    decreases |ledger|
  {
    if ledger == [] then initial
    else
      var t := ledger[0];
      ReplayFor(q, if t.productId == q then StockAfter(initial, t.kind, t.quantity) else initial, ledger[1..])
  }

  /** Total quantity taken in for `q`. */
  function InFor(q: int, ledger: seq<Transaction>): int
    decreases |ledger|
  {
    if ledger == [] then 0
    else (if ledger[0].productId == q && ledger[0].kind == "in" then ledger[0].quantity else 0) + InFor(q, ledger[1..])
  }

  /** Total quantity taken out for `q`. */
  function OutFor(q: int, ledger: seq<Transaction>): int
    decreases |ledger|
  {
    if ledger == [] then 0
    else (if ledger[0].productId == q && ledger[0].kind == "out" then ledger[0].quantity else 0) + OutFor(q, ledger[1..])
  }

  /** The entries for `q` chain from `initial`: each starts where the previous one ended, and ends at its own movement. */
  ghost predicate Chained(q: int, initial: int, ledger: seq<Transaction>)
    decreases |ledger|
  {
    if ledger == [] then true
    else
      var t := ledger[0];
      if t.productId == q then
        t.previousStock == initial && t.newStock == StockAfter(initial, t.kind, t.quantity)
        && Chained(q, t.newStock, ledger[1..])
      else Chained(q, initial, ledger[1..])
  }

  /** Ledger ids strictly ascend in ledger order. */
  ghost predicate IdsAscending(ledger: seq<Transaction>)
  {
    forall i, j :: 0 <= i < j < |ledger| ==> ledger[i].id < ledger[j].id
  }

  /** Replaying is adding the "in" quantities and subtracting the "out" ones. */
  lemma {:induction false} ReplayIsNetChange(q: int, initial: int, ledger: seq<Transaction>)
    ensures ReplayFor(q, initial, ledger) == initial + InFor(q, ledger) - OutFor(q, ledger)
    decreases |ledger|
  {
    if ledger != [] {
      var t := ledger[0];
      ReplayIsNetChange(q, if t.productId == q then StockAfter(initial, t.kind, t.quantity) else initial, ledger[1..]);
    }
  }

  /** A successful run's first call succeeds and the rest of the run starts from its result. */
  lemma RunCons(s: Snapshot, calls: seq<Call>, s1: Snapshot)
    requires calls != [] && Run(s, calls) == Ok(s1)
    ensures Step(s, calls[0]).Ok? && Run(Step(s, calls[0]).value, calls[1..]) == Ok(s1)
  {
  }

  /** A step appends one entry, for the requested product and movement, with an id above every earlier one. */
  lemma StepLedger(s: Snapshot, c: Call)
    requires Step(s, c).Ok?
    ensures var tx := Prepare(s.products, s.transactions, c.request, c.now).value;
      && Step(s, c).value.transactions == s.transactions + [tx]
      && tx.productId == c.request.productId && tx.kind == c.request.kind && tx.quantity == c.request.quantity
      && (forall t :: t in s.transactions ==> t.id < tx.id)
  {
    PrepareEntry(s.products, s.transactions, c.request, c.now);
  }

  /**
   * A step moves the requested product's stock from the entry's previous
   * stock to its new stock, and no other product's.
   */
  lemma StepStock(s: Snapshot, c: Call, q: int)
    requires Step(s, c).Ok? && FindProduct(s.products, q).Some?
    ensures var tx := Prepare(s.products, s.transactions, c.request, c.now).value;
      var before := FindProduct(s.products, q).value;
      var after := FindProduct(Step(s, c).value.products, q);
      && after.Some?
      && (q == c.request.productId ==>
            tx.previousStock == before.stock && tx.newStock == StockAfter(before.stock, tx.kind, tx.quantity)
            && after.value.stock == tx.newStock)
      && (q != c.request.productId ==> after == Some(before))
  {
    var tx := Prepare(s.products, s.transactions, c.request, c.now).value;
    PrepareEntry(s.products, s.transactions, c.request, c.now);
    SetStockSpec(s.products, c.request.productId, tx.newStock, c.today);
  }

  /** Entry `t` records the movement requested by call `c`. */
  predicate Records(t: Transaction, c: Call)
  {
    t.productId == c.request.productId && t.kind == c.request.kind && t.quantity == c.request.quantity
  }

  /** One appended entry in front of the entries appended by the rest of the calls. */
  lemma AppendsCons(ledger0: seq<Transaction>, tx: Transaction, calls: seq<Call>, ledger1: seq<Transaction>)
    requires calls != [] && Records(tx, calls[0])
    requires |ledger1| == |ledger0| + 1 + |calls[1..]|
    requires ledger1 == (ledger0 + [tx]) + ledger1[|ledger0| + 1..]
    requires forall k :: 0 <= k < |calls[1..]| ==> Records(ledger1[|ledger0 + [tx]| + k], calls[1..][k])
    ensures |ledger1| == |ledger0| + |calls|
    ensures ledger1 == ledger0 + ledger1[|ledger0|..]
    ensures forall k :: 0 <= k < |calls| ==> Records(ledger1[|ledger0| + k], calls[k])
  {
    var n := |ledger0|;
    assert ledger1[n] == tx;
    forall k | 0 < k < |calls|
      ensures Records(ledger1[n + k], calls[k])
    {
      assert calls[1..][k - 1] == calls[k];
      assert Records(ledger1[|ledger0 + [tx]| + (k - 1)], calls[1..][k - 1]);
    }
  }

  /**
   * After a successful run the old ledger is a prefix of the new one and one
   * entry was appended per call, in call order.
   */
  lemma {:induction false} RunAppends(s0: Snapshot, calls: seq<Call>, s1: Snapshot)
    requires Run(s0, calls) == Ok(s1)
    ensures |s1.transactions| == |s0.transactions| + |calls|
    ensures s1.transactions == s0.transactions + s1.transactions[|s0.transactions|..]
    ensures forall k :: 0 <= k < |calls| ==> Records(s1.transactions[|s0.transactions| + k], calls[k])
    decreases |calls|
  {
    if calls != [] {
      RunCons(s0, calls, s1);
      var next := Step(s0, calls[0]).value;
      StepLedger(s0, calls[0]);
      RunAppends(next, calls[1..], s1);
      var tx := Prepare(s0.products, s0.transactions, calls[0].request, calls[0].now).value;
      AppendsCons(s0.transactions, tx, calls, s1.transactions);
    }
  }

  /**
   * After a successful run, for every product that existed, the new entries
   * for it chain from its old stock and replay to its new stock.
   */
  lemma {:induction false} RunStock(s0: Snapshot, calls: seq<Call>, s1: Snapshot, q: int)
    requires Run(s0, calls) == Ok(s1)
    requires FindProduct(s0.products, q).Some?
    ensures |s0.transactions| <= |s1.transactions|
    ensures FindProduct(s1.products, q).Some?
    ensures var initial := FindProduct(s0.products, q).value.stock;
      var added := s1.transactions[|s0.transactions|..];
      Chained(q, initial, added) && FindProduct(s1.products, q).value.stock == ReplayFor(q, initial, added)
    decreases |calls|
  {
    RunAppends(s0, calls, s1);
    if calls == [] {
      assert s1 == s0;
    } else {
      RunCons(s0, calls, s1);
      var next := Step(s0, calls[0]).value;
      StepLedger(s0, calls[0]);
      StepStock(s0, calls[0], q);
      RunStock(next, calls[1..], s1, q);
      RunAppends(next, calls[1..], s1);
      var n := |s0.transactions|;
      assert s1.transactions[..n + 1] == next.transactions;
      var added := s1.transactions[n..];
      assert added[0] == next.transactions[n];
      assert added[1..] == s1.transactions[n + 1..];
    }
  }

  /** Every successful step keeps ledger ids ascending. */
  lemma StepKeepsIdsAscending(s: Snapshot, c: Call)
    requires Step(s, c).Ok? && IdsAscending(s.transactions)
    ensures IdsAscending(Step(s, c).value.transactions)
  {
    StepLedger(s, c);
    var r := Step(s, c).value.transactions;
    forall i, j | 0 <= i < j < |r|
      ensures r[i].id < r[j].id
    {
      if j == |s.transactions| {
        assert r[i] in s.transactions;
      }
    }
  }

  /** Hence ledger order is id order after any run, and folding by ascending id is folding in ledger order. */
  lemma {:induction false} RunKeepsIdsAscending(s0: Snapshot, calls: seq<Call>, s1: Snapshot)
    requires Run(s0, calls) == Ok(s1) && IdsAscending(s0.transactions)
    ensures IdsAscending(s1.transactions)
    decreases |calls|
  {
    if calls != [] {
      RunCons(s0, calls, s1);
      StepKeepsIdsAscending(s0, calls[0]);
      RunKeepsIdsAscending(Step(s0, calls[0]).value, calls[1..], s1);
    }
  }

  /** For entries that all concern `q`, chaining says each entry starts from the previous one's new stock. */
  lemma {:induction false} ChainedSingle(q: int, initial: int, ledger: seq<Transaction>)
    requires forall k :: 0 <= k < |ledger| ==> ledger[k].productId == q
    requires Chained(q, initial, ledger)
    ensures |ledger| > 0 ==> ledger[0].previousStock == initial
    ensures forall k :: 0 < k < |ledger| ==> ledger[k].previousStock == ledger[k - 1].newStock
    ensures forall k :: 0 <= k < |ledger| ==>
      ledger[k].newStock == StockAfter(ledger[k].previousStock, ledger[k].kind, ledger[k].quantity)
    decreases |ledger|
  {
    if ledger != [] {
      var rest := ledger[1..];
      ChainedSingle(q, ledger[0].newStock, rest);
      forall k | 0 < k < |ledger|
        ensures ledger[k].previousStock == ledger[k - 1].newStock
      {
        if k > 1 {
          assert rest[k - 1] == ledger[k] && rest[k - 2] == ledger[k - 1];
        }
      }
      forall k | 0 <= k < |ledger|
        ensures ledger[k].newStock == StockAfter(ledger[k].previousStock, ledger[k].kind, ledger[k].quantity)
      {
        if k > 0 {
          assert rest[k - 1] == ledger[k];
        }
      }
    }
  }

  /**
   * Calls that all concern one existing product: the ledger is the old one
   * plus one entry per call, the first new entry starts from the old stock,
   * each later one from the stock the previous one left, and the stored stock
   * is the old stock plus the "in" total minus the "out" total.
   */
  lemma SingleProductRun(s0: Snapshot, calls: seq<Call>, s1: Snapshot, q: int)
    requires Run(s0, calls) == Ok(s1)
    requires FindProduct(s0.products, q).Some?
    requires forall k :: 0 <= k < |calls| ==> calls[k].request.productId == q
    ensures |s1.transactions| == |s0.transactions| + |calls|
    ensures s1.transactions == s0.transactions + s1.transactions[|s0.transactions|..]
    ensures var added := s1.transactions[|s0.transactions|..];
      |added| > 0 ==> added[0].previousStock == FindProduct(s0.products, q).value.stock
    ensures var added := s1.transactions[|s0.transactions|..];
      forall k :: 0 < k < |added| ==> added[k].previousStock == added[k - 1].newStock
    ensures FindProduct(s1.products, q).Some?
    ensures var added := s1.transactions[|s0.transactions|..];
      FindProduct(s1.products, q).value.stock
        == FindProduct(s0.products, q).value.stock + InFor(q, added) - OutFor(q, added)
  {
    RunAppends(s0, calls, s1);
    RunStock(s0, calls, s1, q);
    NewEntriesFor(s0, calls, s1, q);
    var added := s1.transactions[|s0.transactions|..];
    var initial := FindProduct(s0.products, q).value.stock;
    ChainedSingle(q, initial, added);
    ReplayIsNetChange(q, initial, added);
  }

  lemma NewEntriesFor(s0: Snapshot, calls: seq<Call>, s1: Snapshot, q: int)
    requires |s1.transactions| == |s0.transactions| + |calls|
    requires forall k :: 0 <= k < |calls| ==> Records(s1.transactions[|s0.transactions| + k], calls[k])
    requires forall k :: 0 <= k < |calls| ==> calls[k].request.productId == q
    ensures var added := s1.transactions[|s0.transactions|..];
      forall k :: 0 <= k < |added| ==> added[k].productId == q
  {
    var n := |s0.transactions|;
    var added := s1.transactions[n..];
    forall k | 0 <= k < |added|
      ensures added[k].productId == q
    {
      assert added[k] == s1.transactions[n + k];
      assert Records(s1.transactions[n + k], calls[k]);
    }
  }

  // ---------------------------------------------------------------------
  // Stock sign
  // ---------------------------------------------------------------------

  ghost predicate StocksNonNegative(products: seq<Product>)
  {
    forall p :: p in products ==> p.stock >= 0
  }

  /** With non-negative stocks, a step keeps them non-negative unless it takes in a negative quantity. */
  lemma StepKeepsStockNonNegative(s: Snapshot, c: Call)
    requires Step(s, c).Ok? && StocksNonNegative(s.products)
    requires c.request.kind == "in" ==> c.request.quantity >= 0
    ensures StocksNonNegative(Step(s, c).value.products)
  {
    var tx := Prepare(s.products, s.transactions, c.request, c.now).value;
    var i := IndexOf(s.products, c.request.productId);
    FindProductAtIndex(s.products, c.request.productId);
    assert s.products[i] in s.products;
    var after := Step(s, c).value.products;
    forall p | p in after
      ensures p.stock >= 0
    {
      var k :| 0 <= k < |after| && after[k] == p;
      if k != i {
        assert s.products[k] in s.products;
      }
    }
  }

  /** The service does not check the quantity: taking in -5 units of a product with 3 in stock leaves -2. */
  lemma NegativeInboundMakesStockNegative()
    ensures var p := Product(1, "Aspirin", "Analgesics", "", "box", 3, 10, 0);
      var s := Snapshot([p], []);
      var c := Call(TransactionRequest(1, "in", -5, "", 0), 100, 100);
      Step(s, c).Ok? && StocksNonNegative(s.products)
      && Step(s, c).value.products[0].stock == -2
  {
  }
}
