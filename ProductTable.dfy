/**
 * The product table body (src/pages/products/components/ProductTable.js):
 * which products `renderProductRows` shows and which rows carry the
 * low-stock class.
 */
module ProductTable {
  import opened Common
  import opened InventoryService

  /** A table row: the "No products found" row, or a product row with its low-stock class. */
  datatype Row = NoProductsRow | ProductRow(product: Product, lowStock: bool)

  /** The defaults of `renderProductRows`. */
  const DefaultPage := 1
  const DefaultLimit := 10

  /**
   * `renderProductRows(container, products, page, limit)`: the slice
   * `products.slice((page - 1) * limit, (page - 1) * limit + limit)` row by
   * row, or the empty-table row when that slice is empty.
   */
  method RenderProductRows(products: seq<Product>, page: int, limit: int) returns (rows: seq<Row>)
    ensures Page(products, page, limit) == [] ==> rows == [NoProductsRow]
    ensures Page(products, page, limit) != [] ==>
      && |rows| == |Page(products, page, limit)|
      && forall i :: 0 <= i < |rows| ==>
           rows[i] == ProductRow(Page(products, page, limit)[i], IsLowStock(Page(products, page, limit)[i]))
  {
    var startIndex := (page - 1) * limit;
    var paginatedProducts := JsSlice(products, startIndex, startIndex + limit);

    if |paginatedProducts| == 0 {
      return [NoProductsRow];
    }

    rows := [];
    for i := 0 to |paginatedProducts|
      invariant |rows| == i
      invariant forall k :: 0 <= k < i ==>
        rows[k] == ProductRow(paginatedProducts[k], IsLowStock(paginatedProducts[k]))
    {
      var product := paginatedProducts[i];
      var lowStock := false;
      if product.stock <= product.reorderLevel {
        lowStock := true;
      }
      rows := rows + [ProductRow(product, lowStock)];
    }
  }

  /** Called with its defaults, `renderProductRows` shows the first ten products, or all of them when there are fewer. */
  lemma DefaultsShowFirstTen(products: seq<Product>)
    ensures Page(products, DefaultPage, DefaultLimit) == products[..Min(10, |products|)]
  {
    JsSliceClipped(products, 0, 10);
  }

  /**
   * For a page from 1 on, the rows shown are a contiguous run of the input
   * in input order, at most `limit` of them, and the pages 1..ceil(n/limit)
   * together show every product exactly once.
   */
  lemma ProductPageSpec(products: seq<Product>, page: int, limit: nat)
    requires page >= 1
    ensures Page(products, page, limit)
      == products[Min((page - 1) * limit, |products|)..Min((page - 1) * limit + limit, |products|)]
    ensures |Page(products, page, limit)| <= limit
    ensures limit > 0 ==> Pages(products, limit, CeilDiv(|products|, limit)) == products
  {
    var start := (page - 1) * limit;
    MulNonNegative(page - 1, limit);
    JsSliceClipped(products, start, start + limit);
    if limit > 0 {
      PagesPartition(products, limit);
    }
  }

  lemma MulNonNegative(a: nat, b: nat)
    ensures a * b >= 0
  {
  }

  /** The low-stock rows of a page are exactly its products that `getLowStockProducts` reports. */
  lemma LowStockRowsAgree(products: seq<Product>, rows: seq<Row>, page: int, limit: int)
    requires Page(products, page, limit) != []
    requires |rows| == |Page(products, page, limit)|
    requires forall i :: 0 <= i < |rows| ==>
      rows[i] == ProductRow(Page(products, page, limit)[i], IsLowStock(Page(products, page, limit)[i]))
    ensures forall i :: 0 <= i < |rows| ==>
      (rows[i].lowStock <==> rows[i].product in LowStock(Page(products, page, limit)))
  {
  }
}
