/**
 * Product search (src/pages/products/components/ProductSearch.js): the
 * case-insensitive term filter on name and description, the exact category
 * filter, and the distinct categories offered in the category select.
 */
module ProductSearch {
  import opened Common
  import opened Text
  import opened InventoryService

  /** The lower-cased name or the lower-cased description includes `term`. */
  predicate MatchesTerm(p: Product, term: string)
  {
    Contains(ToLower(p.name), term) || Contains(ToLower(p.description), term)
  }

  /** The term filter's callback. */
  function TermTest(term: string): Product -> bool
  {
    (p: Product) => MatchesTerm(p, term)
  }

  /** The category filter's callback. */
  function CategoryTest(category: string): Product -> bool
  {
    (p: Product) => p.category == category
  }

  /** `filterProducts(products, searchTerm, category)`; "" is the default and the falsy value of both. */
  function FilterProducts(products: seq<Product>, searchTerm: string, category: string): seq<Product>
  {
    var byTerm :=
      if searchTerm != "" then Filter(TermTest(ToLower(searchTerm)), products)
      else products;
    if category != "" then Filter(CategoryTest(category), byTerm)
    else byTerm
  }

  /** The condition a product must meet to be kept: both supplied filters hold. */
  predicate Kept(p: Product, searchTerm: string, category: string)
  {
    (searchTerm == "" || MatchesTerm(p, ToLower(searchTerm))) && (category == "" || p.category == category)
  }

  /** `Kept` as a filter callback. */
  function KeptTest(searchTerm: string, category: string): Product -> bool
  {
    (p: Product) => Kept(p, searchTerm, category)
  }

  /**
   * The two chained filters are one filter by the conjunction of their
   * conditions, so the result is an order-preserving subsequence holding
   * exactly the products that meet both.
   */
  lemma FilterProductsSpec(products: seq<Product>, searchTerm: string, category: string)
    ensures FilterProducts(products, searchTerm, category) == Filter(KeptTest(searchTerm, category), products)
    ensures IsSubsequence(FilterProducts(products, searchTerm, category), products)
    ensures forall p :: p in FilterProducts(products, searchTerm, category) <==>
      p in products && Kept(p, searchTerm, category)
  {
    var byTerm := TermTest(ToLower(searchTerm));
    var byCategory := CategoryTest(category);
    var kept := KeptTest(searchTerm, category);
    if searchTerm != "" && category != "" {
      FilterFilter(byTerm, byCategory, products);
      FilterCongruent((p: Product) => byTerm(p) && byCategory(p), kept, products);
    } else if searchTerm != "" {
      FilterCongruent(byTerm, kept, products);
    } else if category != "" {
      FilterCongruent(byCategory, kept, products);
    } else {
      FilterAll(kept, products);
    }
    FilterIsSubsequence(kept, products);
  }

  /** With neither a term nor a category the input is returned unchanged. */
  lemma NoSearchKeepsAll(products: seq<Product>)
    ensures FilterProducts(products, "", "") == products
  {
  }

  /** Search terms that differ only in letter case give the same result. */
  lemma SearchIgnoresCase(products: seq<Product>, a: string, b: string, category: string)
    requires ToLower(a) == ToLower(b)
    ensures FilterProducts(products, a, category) == FilterProducts(products, b, category)
  {
    assert |a| == |ToLower(a)| == |ToLower(b)| == |b|;
    FilterProductsSpec(products, a, category);
    FilterProductsSpec(products, b, category);
    FilterCongruent(KeptTest(a, category), KeptTest(b, category), products);
  }

  /** Lower-casing keeps an occurrence where it is. */
  lemma ContainsLower(hay: string, needle: string)
    requires Contains(hay, needle)
    ensures Contains(ToLower(hay), ToLower(needle))
  {
    var i: nat :| i <= |hay| && OccursAt(hay, needle, i);
    assert ToLower(hay)[i..i + |needle|] == ToLower(needle) by {
      forall k | 0 <= k < |needle|
        ensures ToLower(hay)[i..i + |needle|][k] == ToLower(needle)[k]
      {
        assert hay[i + k] == needle[k];
      }
    }
    assert OccursAt(ToLower(hay), ToLower(needle), i);
  }

  /** A product whose name contains the search term as typed, in any case, is found. */
  lemma NameMatchIsFound(products: seq<Product>, p: Product, searchTerm: string)
    requires p in products && Contains(p.name, searchTerm)
    ensures p in FilterProducts(products, searchTerm, "")
  {
    FilterProductsSpec(products, searchTerm, "");
    if searchTerm != "" {
      ContainsLower(p.name, searchTerm);
    }
  }

  /** `[...new Set(products.map(p => p.category))]`. */
  function CategoryOptions(products: seq<Product>): seq<string>
  {
    Distinct(CategoriesOf(products))
  }

  /**
   * The category list has no duplicates, holds exactly the categories of the
   * products, and lists them in the order of their first product.
   */
  lemma CategoryOptionsSpec(products: seq<Product>)
    ensures NoDuplicates(CategoryOptions(products))
    ensures forall c :: c in CategoryOptions(products) <==> exists p :: p in products && p.category == c
    ensures forall i, j :: 0 <= i < j < |CategoryOptions(products)| ==>
      FirstIndex(CategoriesOf(products), CategoryOptions(products)[i])
        < FirstIndex(CategoriesOf(products), CategoryOptions(products)[j])
  {
    var cs := CategoriesOf(products);
    DistinctFirstOccurrenceOrder(cs);
    forall c
      ensures c in cs <==> exists p :: p in products && p.category == c
    {
      if c in cs {
        var k :| 0 <= k < |cs| && cs[k] == c;
        assert products[k] in products;
      }
      if exists p :: p in products && p.category == c {
        var p :| p in products && p.category == c;
        var k :| 0 <= k < |products| && products[k] == p;
        assert cs[k] == c;
      }
    }
  }
}
