/**
 * The dashboard's low-stock alert list
 * (src/pages/dashboard/components/LowStockAlerts.js): `renderLowStockProducts`
 * shows five products per page with Previous/Next buttons whose click
 * handlers move the closure's `currentPage`.
 */
module LowStockAlerts {
  import opened Common
  import opened InventoryService

  /** `itemsPerPage`. */
  const ItemsPerPage := 5

  /** What the table body holds. */
  datatype AlertBody = NoLowStockItems | Items(products: seq<Product>)

  /** The slice `renderPage(page)` shows. */
  function PageItems(items: seq<Product>, page: int): seq<Product>
  {
    var startIndex := (page - 1) * ItemsPerPage;
    var endIndex := Min(startIndex + ItemsPerPage, |items|);
    JsSlice(items, startIndex, endIndex)
  }

  /**
   * For pages 1..ceil(n/5) the shown slice is page `page` of the list: never
   * empty and at most five items; together these pages give back the list.
   */
  lemma PageItemsPartition(items: seq<Product>, page: int)
    requires 1 <= page <= CeilDiv(|items|, ItemsPerPage)
    ensures PageItems(items, page) == Page(items, page, ItemsPerPage)
    ensures 0 < |PageItems(items, page)| <= ItemsPerPage
    ensures Pages(items, ItemsPerPage, CeilDiv(|items|, ItemsPerPage)) == items
  {
    var start := (page - 1) * ItemsPerPage;
    JsSliceClipped(items, start, start + ItemsPerPage);
    PagesPartition(items, ItemsPerPage);
  }

  class LowStockAlerts {
    /** `lowStockProducts`. */
    const items: seq<Product>
    /** `Math.ceil(lowStockProducts.length / itemsPerPage)`, 0 for an empty list. */
    const totalPages: int
    /** The closure variable `currentPage`. */
    var currentPage: int
    /** The text of the current-page element. */
    var shownPage: int
    var previousDisabled: bool
    var nextDisabled: bool
    var body: AlertBody
    /** Whether the click handlers were attached; the empty list returns before attaching them. */
    const listening: bool

    /**
     * The state `renderLowStockProducts` leaves and each click keeps: with
     * items, the current page lies in 1..totalPages, the body shows its
     * slice, Previous is disabled exactly on page 1 and Next exactly on the
     * last page; without items, the empty message with both buttons disabled.
     */
    ghost predicate Valid()
      reads this
    {
      && totalPages == CeilDiv(|items|, ItemsPerPage)
      && (listening <==> items != [])
      && shownPage == currentPage
      && (listening ==>
            && 1 <= currentPage <= totalPages
            && body == Items(PageItems(items, currentPage))
            && previousDisabled == (currentPage == 1)
            && nextDisabled == (currentPage == totalPages))
      && (!listening ==>
            currentPage == 1 && body == NoLowStockItems && previousDisabled && nextDisabled)
    }

    /** `renderLowStockProducts(container, lowStockProducts)`. */
    constructor (lowStockProducts: seq<Product>)
      ensures Valid()
      ensures items == lowStockProducts && currentPage == 1
      ensures totalPages == CeilDiv(|lowStockProducts|, ItemsPerPage)
      ensures lowStockProducts == [] ==> totalPages == 0 && body == NoLowStockItems && nextDisabled && !listening
      ensures lowStockProducts != [] ==> body == Items(Page(lowStockProducts, 1, ItemsPerPage)) && listening
    {
      items := lowStockProducts;
      var pages := CeilDiv(|lowStockProducts|, ItemsPerPage);
      totalPages := pages;
      currentPage := 1;
      shownPage := 1;
      previousDisabled := true;
      nextDisabled := 1 == pages || pages == 0;
      if |lowStockProducts| == 0 {
        body := NoLowStockItems;
        listening := false;
      } else {
        // renderPage(currentPage)
        body := Items(PageItems(lowStockProducts, 1));
        previousDisabled := true;
        nextDisabled := 1 == pages;
        listening := true;
        PageItemsPartition(lowStockProducts, 1);
      }
    }

    /** `renderPage(page)`: the page's slice, its number, and the two buttons. */
    method RenderPage(page: int)
      modifies this
      ensures body == Items(PageItems(items, page)) && shownPage == page
      ensures previousDisabled == (page == 1) && nextDisabled == (page == totalPages)
      ensures currentPage == old(currentPage)
    {
      body := Items(PageItems(items, page));
      shownPage := page;
      previousDisabled := page == 1;
      nextDisabled := page == totalPages;
    }

    /** The Previous click handler: back one page unless on the first. */
    method PreviousClicked()
      requires Valid()
      modifies this
      ensures Valid()
      ensures currentPage == if listening && old(currentPage) > 1 then old(currentPage) - 1 else old(currentPage)
      ensures !listening ==> body == old(body)
    {
      if !listening {
        return;
      }
      if currentPage > 1 {
        currentPage := currentPage - 1;
        RenderPage(currentPage);
      }
    }

    /** The Next click handler: forward one page unless on the last. */
    method NextClicked()
      requires Valid()
      modifies this
      ensures Valid()
      ensures currentPage == if listening && old(currentPage) < totalPages then old(currentPage) + 1 else old(currentPage)
      ensures !listening ==> body == old(body)
    {
      if !listening {
        return;
      }
      if currentPage < totalPages {
        currentPage := currentPage + 1;
        RenderPage(currentPage);
      }
    }

    /** Whatever page is shown, it holds one to five items of the list, in list order. */
    lemma ShownPageSpec()
      requires Valid() && listening
      ensures body == Items(Page(items, currentPage, ItemsPerPage))
      ensures 0 < |body.products| <= ItemsPerPage
    {
      PageItemsPartition(items, currentPage);
    }
  }
}
