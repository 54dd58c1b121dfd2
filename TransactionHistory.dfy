/**
 * The transaction history view (src/pages/inventory/components/TransactionHistory.js):
 * the ledger sorted newest first, the AND-combined optional filters, the page
 * count with its clamping of the current page, the visible page, the
 * add/remove stock form flags, and the validation in front of the service.
 */
module TransactionHistory {
  import opened Common
  import opened InventoryService

  // ---------------------------------------------------------------------
  // Newest-first order
  // ---------------------------------------------------------------------

  /** Dates never increase along `s`. */
  ghost predicate NewestFirst(s: seq<Transaction>)
  {
    forall i, j :: 0 <= i < j < |s| ==> s[i].date >= s[j].date
  }

  /** Places `t` in front of the first entry that is not newer than it. */
  function InsertByDate(t: Transaction, s: seq<Transaction>): (r: seq<Transaction>)
    ensures multiset(r) == multiset(s) + multiset{t}
  {
    if s == [] then [t]
    else if s[0].date <= t.date then [t] + s
    else
      assert s == [s[0]] + s[1..];
      [s[0]] + InsertByDate(t, s[1..])
  }

  /** An insertion introduces no date above a common bound of `t` and `s`. */
  lemma {:induction false} InsertBelow(t: Transaction, s: seq<Transaction>, d: int)
    requires t.date <= d && forall i :: 0 <= i < |s| ==> s[i].date <= d
    ensures forall i :: 0 <= i < |InsertByDate(t, s)| ==> InsertByDate(t, s)[i].date <= d
  {
    if s != [] && s[0].date > t.date {
      InsertBelow(t, s[1..], d);
      var rest := InsertByDate(t, s[1..]);
      assert forall i :: 0 < i < |rest| + 1 ==> ([s[0]] + rest)[i] == rest[i - 1];
    }
  }

  /** Inserting into a newest-first list keeps it newest first. */
  lemma {:induction false} InsertKeepsNewestFirst(t: Transaction, s: seq<Transaction>)
    requires NewestFirst(s)
    ensures NewestFirst(InsertByDate(t, s))
  {
    if s != [] && s[0].date > t.date {
      var tail := s[1..];
      assert forall i :: 0 <= i < |tail| ==> tail[i] == s[i + 1];
      InsertKeepsNewestFirst(t, tail);
      InsertBelow(t, tail, s[0].date);
      var rest := InsertByDate(t, tail);
      var r := [s[0]] + rest;
      assert forall i :: 0 < i < |r| ==> r[i] == rest[i - 1];
    }
  }

  /**
   * `transactions.sort((a, b) => new Date(b.date) - new Date(a.date))`:
   * a stable sort, newest first.
   */
  function SortByDateDesc(s: seq<Transaction>): (r: seq<Transaction>)
    ensures multiset(r) == multiset(s)
    ensures NewestFirst(r)
  {
    if s == [] then []
    else
      assert s == [s[0]] + s[1..];
      var rest := SortByDateDesc(s[1..]);
      InsertKeepsNewestFirst(s[0], rest);
      InsertByDate(s[0], rest)
  }

  /** Entries of one date keep their relative order through an insertion. */
  lemma {:induction false} InsertKeepsSameDateOrder(keep: Transaction -> bool, d: int, t: Transaction, s: seq<Transaction>)
    requires forall x :: keep(x) <==> x.date == d
    ensures Filter(keep, InsertByDate(t, s)) == (if t.date == d then [t] else []) + Filter(keep, s)
  {
    if s != [] && s[0].date > t.date {
      InsertKeepsSameDateOrder(keep, d, t, s[1..]);
      assert ([s[0]] + InsertByDate(t, s[1..]))[1..] == InsertByDate(t, s[1..]);
    } else if s != [] {
      assert ([t] + s)[1..] == s;
    }
  }

  /** The sort is stable: entries of any one date appear in their stored order. */
  lemma {:induction false} SortIsStable(keep: Transaction -> bool, d: int, s: seq<Transaction>)
    requires forall x :: keep(x) <==> x.date == d
    ensures Filter(keep, SortByDateDesc(s)) == Filter(keep, s)
  {
    if s != [] {
      SortIsStable(keep, d, s[1..]);
      InsertKeepsSameDateOrder(keep, d, s[0], SortByDateDesc(s[1..]));
    }
  }

  /** Deleting entries from a newest-first list leaves it newest first. */
  lemma {:induction false} SubsequenceNewestFirst(r: seq<Transaction>, s: seq<Transaction>)
    requires IsSubsequence(r, s) && NewestFirst(s)
    ensures NewestFirst(r)
    decreases |s|
  {
    if r != [] && s != [] {
      assert NewestFirst(s[1..]) by {
        forall i, j | 0 <= i < j < |s[1..]|
          ensures s[1..][i].date >= s[1..][j].date
        {
          assert s[1..][i] == s[i + 1] && s[1..][j] == s[j + 1];
        }
      }
      if r[0] == s[0] && IsSubsequence(r[1..], s[1..]) {
        SubsequenceNewestFirst(r[1..], s[1..]);
        SubsequenceElements(r[1..], s[1..]);
        forall i, j | 0 <= i < j < |r|
          ensures r[i].date >= r[j].date
        {
          if i == 0 {
            assert r[j] == r[1..][j - 1];
            assert r[j] in s[1..];
          } else {
            assert r[i] == r[1..][i - 1] && r[j] == r[1..][j - 1];
          }
        }
      } else {
        SubsequenceNewestFirst(r, s[1..]);
      }
    }
  }

  lemma {:induction false} SubsequenceElements<T(!new)>(r: seq<T>, s: seq<T>)
    requires IsSubsequence(r, s)
    ensures forall x :: x in r ==> x in s
    decreases |s|
  {
    if r != [] && s != [] {
      if r[0] == s[0] && IsSubsequence(r[1..], s[1..]) {
        SubsequenceElements(r[1..], s[1..]);
        assert r == [r[0]] + r[1..];
      } else {
        SubsequenceElements(r, s[1..]);
      }
    }
  }

  lemma {:induction false} SubsequenceOfItself<T(!new)>(s: seq<T>)
    ensures IsSubsequence(s, s)
  {
    if s != [] {
      SubsequenceOfItself(s[1..]);
    }
  }

  // ---------------------------------------------------------------------
  // Filters
  // ---------------------------------------------------------------------

  /**
   * The filter object handed to `filterTransactions`. A numeric criterion of
   * 0 and a type of "" stand for a missing, null, empty or NaN criterion,
   * which the source's truthiness tests skip; dates are clock values.
   */
  datatype Filters = Filters(
    transactionId: int,
    productId: int,
    kind: string,
    userId: int,
    dateFrom: Option<int>,
    dateTo: Option<int>)

  /** `filterTransactions()` with no argument. */
  const NoFilters := Filters(0, 0, "", 0, None, None)

  /** The test applied to each entry: every supplied criterion must hold. */
  predicate Matches(f: Filters, t: Transaction)
  {
    && (f.transactionId == 0 || t.id == f.transactionId)
    && (f.productId == 0 || t.productId == f.productId)
    && (f.kind == "" || t.kind == f.kind)
    && (f.userId == 0 || t.userId == f.userId)
    && (f.dateFrom.None? || !(t.date < f.dateFrom.value))
    && (f.dateTo.None? || !(t.date > f.dateTo.value))
  }

  /** `this.transactions.filter(...)` with the criteria of `f`. */
  function FilterHistory(s: seq<Transaction>, f: Filters): seq<Transaction>
  {
    Filter((t: Transaction) => Matches(f, t), s)
  }

  /**
   * The filtered list holds, in stored order and with their multiplicities,
   * exactly the entries meeting every supplied criterion; date bounds are
   * inclusive.
   */
  lemma FilterHistoryExact(s: seq<Transaction>, f: Filters)
    ensures IsSubsequence(FilterHistory(s, f), s)
    ensures forall t :: t in FilterHistory(s, f) <==>
      && t in s
      && (f.transactionId != 0 ==> t.id == f.transactionId)
      && (f.productId != 0 ==> t.productId == f.productId)
      && (f.kind != "" ==> t.kind == f.kind)
      && (f.userId != 0 ==> t.userId == f.userId)
      && (f.dateFrom.Some? ==> f.dateFrom.value <= t.date)
      && (f.dateTo.Some? ==> t.date <= f.dateTo.value)
    ensures forall t :: multiset(FilterHistory(s, f))[t] == if Matches(f, t) then multiset(s)[t] else 0
  {
    FilterIsSubsequence((t: Transaction) => Matches(f, t), s);
    forall t
      ensures multiset(FilterHistory(s, f))[t] == if Matches(f, t) then multiset(s)[t] else 0
    {
      FilterCount((t: Transaction) => Matches(f, t), s, t);
    }
  }

  /** With no criteria every entry is kept, so the result is the stored list itself. */
  lemma NoFiltersKeepAll(s: seq<Transaction>)
    ensures FilterHistory(s, NoFilters) == s
  {
    FilterAll((t: Transaction) => Matches(NoFilters, t), s);
  }

  /** Filtering again with the same criteria changes nothing. */
  lemma FilterHistoryIdempotent(s: seq<Transaction>, f: Filters)
    ensures FilterHistory(FilterHistory(s, f), f) == FilterHistory(s, f)
  {
    FilterIdempotent((t: Transaction) => Matches(f, t), s);
  }

  // ---------------------------------------------------------------------
  // Paging
  // ---------------------------------------------------------------------

  /** `this.itemsPerPage`. */
  const ItemsPerPage := 10

  /** `Math.ceil(n / size)`, replaced by 1 when that is 0. */
  function PageCount(n: nat, size: nat): (r: nat)
    requires size > 0
    ensures r >= 1
  {
    var c := CeilDiv(n, size);
    if c == 0 then 1 else c
  }

  /** The history page count is one for an empty list and otherwise the number of pages that partition it. */
  lemma PageCountPartitions(s: seq<Transaction>)
    ensures |s| == 0 ==> PageCount(|s|, ItemsPerPage) == 1
    ensures |s| > 0 ==> Pages(s, ItemsPerPage, PageCount(|s|, ItemsPerPage)) == s
    ensures |s| > 0 ==> forall p :: 1 <= p <= PageCount(|s|, ItemsPerPage) ==>
      0 < |Page(s, p, ItemsPerPage)| <= ItemsPerPage
  {
    PagesPartition(s, ItemsPerPage);
  }

  /** The slice `render` shows is the page of the filtered list; it is non-empty when that list is, and newest first. */
  lemma VisiblePage(filtered: seq<Transaction>, all: seq<Transaction>, page: int, count: int)
    requires IsSubsequence(filtered, all) && NewestFirst(all)
    requires count == PageCount(|filtered|, ItemsPerPage) && 1 <= page <= count
    ensures var start := (page - 1) * ItemsPerPage;
      JsSlice(filtered, start, Min(start + ItemsPerPage, |filtered|)) == Page(filtered, page, ItemsPerPage)
    ensures |Page(filtered, page, ItemsPerPage)| <= ItemsPerPage
    ensures filtered != [] ==> |Page(filtered, page, ItemsPerPage)| > 0
    ensures NewestFirst(Page(filtered, page, ItemsPerPage))
  {
    var start := (page - 1) * ItemsPerPage;
    JsSliceClipped(filtered, start, start + ItemsPerPage);
    if filtered != [] {
      PageNonEmpty(filtered, ItemsPerPage, count, page);
    }
    SubsequenceNewestFirst(filtered, all);
    var p := Page(filtered, page, ItemsPerPage);
    forall i, j | 0 <= i < j < |p|
      ensures p[i].date >= p[j].date
    {
      assert p[i] == filtered[Min(start, |filtered|) + i];
      assert p[j] == filtered[Min(start, |filtered|) + j];
    }
  }

  /** Outcomes of `recordStockTransaction` other than success. */
  datatype RecordError =
    | InvalidProduct          // "Invalid product"
    | InvalidQuantity         // "Invalid quantity"
    | Failed(cause: ServiceError)

  class TransactionHistory {
    /** The stored ledger, newest first. */
    var transactions: seq<Transaction>
    var filteredTransactions: seq<Transaction>
    var isAddingStock: bool
    var isRemovingStock: bool
    var currentPage: int
    var totalPages: int
    const itemsPerPage: int

    /**
     * The view's invariant: the ledger is newest first, the filtered list is
     * drawn from it in order, the page count fits the filtered list, the
     * current page lies within it, and at most one stock form is open.
     */
    ghost predicate Valid()
      reads this
    {
      && itemsPerPage == ItemsPerPage
      && NewestFirst(transactions)
      && IsSubsequence(filteredTransactions, transactions)
      && totalPages == PageCount(|filteredTransactions|, itemsPerPage)
      && 1 <= currentPage <= totalPages
      && !(isAddingStock && isRemovingStock)
    }

    constructor ()
      ensures Valid()
      ensures transactions == [] && filteredTransactions == []
      ensures !isAddingStock && !isRemovingStock
      ensures currentPage == 1 && totalPages == 1
    {
      transactions := [];
      filteredTransactions := [];
      isAddingStock := false;
      isRemovingStock := false;
      currentPage := 1;
      itemsPerPage := ItemsPerPage;
      totalPages := 1;
    }

    /** `calculateTotalPages`: the page count for the filtered list, and the current page clamped down to it. */
    method CalculateTotalPages()
      requires itemsPerPage == ItemsPerPage
      modifies this
      ensures totalPages == PageCount(|filteredTransactions|, itemsPerPage)
      ensures currentPage == if old(currentPage) > totalPages then totalPages else old(currentPage)
      ensures old(currentPage) >= 1 ==> 1 <= currentPage <= totalPages
      ensures transactions == old(transactions) && filteredTransactions == old(filteredTransactions)
      ensures isAddingStock == old(isAddingStock) && isRemovingStock == old(isRemovingStock)
    {
      totalPages := CeilDiv(|filteredTransactions|, itemsPerPage);
      if totalPages == 0 {
        totalPages := 1;
      }
      if currentPage > totalPages {
        currentPage := totalPages;
      }
    }

    /**
     * `loadTransactions`: the stored ledger sorted newest first (a
     * permutation of it, stable per date) and an unfiltered copy of it.
     */
    method LoadTransactions(store: InventoryStore)
      requires Valid()
      modifies this
      ensures Valid()
      ensures transactions == SortByDateDesc(store.transactions)
      ensures multiset(transactions) == multiset(store.transactions)
      ensures filteredTransactions == transactions
      ensures currentPage == if old(currentPage) > totalPages then totalPages else old(currentPage)
      ensures isAddingStock == old(isAddingStock) && isRemovingStock == old(isRemovingStock)
    {
      transactions := SortByDateDesc(store.transactions);
      filteredTransactions := transactions;
      SubsequenceOfItself(transactions);
      CalculateTotalPages();
    }

    /** `goToPage`: pages outside 1..totalPages are ignored. */
    method GoToPage(page: int)
      requires Valid()
      modifies this
      ensures Valid()
      ensures currentPage == if 1 <= page <= totalPages then page else old(currentPage)
      ensures totalPages == old(totalPages)
      ensures transactions == old(transactions) && filteredTransactions == old(filteredTransactions)
      ensures isAddingStock == old(isAddingStock) && isRemovingStock == old(isRemovingStock)
    {
      if page < 1 || page > totalPages {
        return;
      }
      currentPage := page;
    }

    /**
     * `filterTransactions`: filters the whole stored ledger (never the
     * previous result), returns to page 1 and recomputes the page count.
     */
    method FilterTransactions(filters: Filters) returns (shown: seq<Transaction>)
      requires Valid()
      modifies this
      ensures Valid()
      ensures filteredTransactions == FilterHistory(transactions, filters) && shown == filteredTransactions
      ensures currentPage == 1
      ensures transactions == old(transactions)
      ensures isAddingStock == old(isAddingStock) && isRemovingStock == old(isRemovingStock)
    {
      filteredTransactions := FilterHistory(transactions, filters);
      FilterIsSubsequence((t: Transaction) => Matches(filters, t), transactions);
      currentPage := 1;
      CalculateTotalPages();
      shown := filteredTransactions;
    }

    /** The reset-filters handler: an unfiltered copy, page 1, page count recomputed. */
    method ResetFilters()
      requires Valid()
      modifies this
      ensures Valid()
      ensures filteredTransactions == transactions == old(transactions)
      ensures currentPage == 1
      ensures isAddingStock == old(isAddingStock) && isRemovingStock == old(isRemovingStock)
    {
      filteredTransactions := transactions;
      SubsequenceOfItself(transactions);
      currentPage := 1;
      CalculateTotalPages();
    }

    /** The entries of the visible page, in `render`. */
    function CurrentPageTransactions(): (page: seq<Transaction>)
      requires Valid()
      reads this
      ensures page == Page(filteredTransactions, currentPage, itemsPerPage)
      ensures |page| <= itemsPerPage
      ensures filteredTransactions != [] ==> |page| > 0
      ensures NewestFirst(page)
    {
      var startIndex := (currentPage - 1) * itemsPerPage;
      var endIndex := Min(startIndex + itemsPerPage, |filteredTransactions|);
      VisiblePage(filteredTransactions, transactions, currentPage, totalPages);
      JsSlice(filteredTransactions, startIndex, endIndex)
    }

    /** The pagination controls are drawn only when there is more than one page. */
    predicate PaginationShown()
      reads this
    {
      totalPages > 1
    }

    predicate PreviousDisabled()
      reads this
    {
      currentPage == 1
    }

    predicate NextDisabled()
      reads this
    {
      currentPage == totalPages
    }

    /**
     * The controls appear exactly when the filtered list needs more than one
     * page of ten. Each button is disabled exactly when the page its click
     * asks `goToPage` for would be ignored, so the two are never disabled
     * together while shown.
     */
    lemma PaginationButtons()
      requires Valid()
      ensures PaginationShown() <==> |filteredTransactions| > ItemsPerPage
      ensures PreviousDisabled() <==> !(1 <= currentPage - 1 <= totalPages)
      ensures NextDisabled() <==> !(1 <= currentPage + 1 <= totalPages)
      ensures PaginationShown() ==> !(PreviousDisabled() && NextDisabled())
    {
      var n := |filteredTransactions|;
      assert CeilDiv(n, ItemsPerPage) == (n + 9) / 10;
      if n > ItemsPerPage {
        assert (n + 9) / 10 >= 2;
      } else {
        assert (n + 9) / 10 <= 1;
      }
    }

    /** `showAddStockForm`. */
    method ShowAddStockForm()
      requires Valid()
      modifies this
      ensures Valid() && isAddingStock && !isRemovingStock
      ensures transactions == old(transactions) && filteredTransactions == old(filteredTransactions)
      ensures currentPage == old(currentPage) && totalPages == old(totalPages)
    {
      isAddingStock := true;
      isRemovingStock := false;
    }

    /** `showRemoveStockForm`. */
    method ShowRemoveStockForm()
      requires Valid()
      modifies this
      ensures Valid() && !isAddingStock && isRemovingStock
      ensures transactions == old(transactions) && filteredTransactions == old(filteredTransactions)
      ensures currentPage == old(currentPage) && totalPages == old(totalPages)
    {
      isAddingStock := false;
      isRemovingStock := true;
    }

    /** `cancelForm`. */
    method CancelForm()
      requires Valid()
      modifies this
      ensures Valid() && !isAddingStock && !isRemovingStock
      ensures transactions == old(transactions) && filteredTransactions == old(filteredTransactions)
      ensures currentPage == old(currentPage) && totalPages == old(totalPages)
    {
      isAddingStock := false;
      isRemovingStock := false;
    }

    /**
     * `recordStockTransaction`: a zero product id or a quantity that is not
     * positive is refused before the service is called. Otherwise one `in`
     * or `out` request without a user goes to the service; only on its
     * success is the view reloaded from the store.
     */
    method RecordStockTransaction(store: InventoryStore, kind: string, productId: int, quantity: int,
                                  notes: string, now: int, today: int,
                                  inventorySaved: bool, ledgerSaved: bool)
      returns (r: Result<(), RecordError>)
      requires Valid()
      modifies this, store
      ensures Valid()
      ensures productId == 0 ==> r == Err(InvalidProduct)
      ensures productId != 0 && quantity <= 0 ==> r == Err(InvalidQuantity)
      ensures (productId == 0 || quantity <= 0) ==>
        store.products == old(store.products) && store.transactions == old(store.transactions)
      ensures productId != 0 && quantity > 0 ==>
        exists sr: Result<(), ServiceError> ::
          && AddTransactionEffect(old(store.products), old(store.transactions),
                                  TransactionRequest(productId, kind, quantity, notes, 0), now, today,
                                  inventorySaved, ledgerSaved, store.products, store.transactions, sr)
          && r == (if sr.Ok? then Ok(()) else Err(Failed(sr.error)))
      ensures r.Ok? ==> transactions == SortByDateDesc(store.transactions) && filteredTransactions == transactions
      ensures r.Err? ==> transactions == old(transactions) && filteredTransactions == old(filteredTransactions)
                         && currentPage == old(currentPage)
      ensures isAddingStock == old(isAddingStock) && isRemovingStock == old(isRemovingStock)
    {
      if productId == 0 {
        return Err(InvalidProduct);
      }
      if quantity <= 0 {
        return Err(InvalidQuantity);
      }
      var request := TransactionRequest(productId, kind, quantity, notes, 0);
      var sr := store.AddTransaction(request, now, today, inventorySaved, ledgerSaved);
      if sr.Err? {
        return Err(Failed(sr.error));
      }
      LoadTransactions(store);
      r := Ok(());
    }
  }

  /** Filtering the sorted ledger keeps it newest first, so every visible list is newest first. */
  lemma FilteredNewestFirst(s: seq<Transaction>, f: Filters)
    requires NewestFirst(s)
    ensures NewestFirst(FilterHistory(s, f))
  {
    FilterIsSubsequence((t: Transaction) => Matches(f, t), s);
    SubsequenceNewestFirst(FilterHistory(s, f), s);
  }
}
