/**
 * The stock-by-category chart (src/pages/dashboard/components/DashboardCharts.js):
 * the per-category stock totals accumulated by `reduce`, their labels in key
 * order, and the colours derived from each label's position.
 */
module DashboardCharts {
  import opened Common
  import opened Text
  import opened InventoryService

  // ---------------------------------------------------------------------
  // Totals
  // ---------------------------------------------------------------------

  /** The summed stock of the products in category `c`. */
  function CategoryStock(products: seq<Product>, c: string): int
  {
    if products == [] then 0
    else
      var last := products[|products| - 1];
      CategoryStock(products[..|products| - 1], c) + (if last.category == c then last.stock else 0)
  }

  /** A category no product has totals zero. */
  lemma {:induction false} CategoryStockAbsent(products: seq<Product>, c: string)
    requires c !in CategoriesOf(products)
    ensures CategoryStock(products, c) == 0
  {
    if products != [] {
      var init := products[..|products| - 1];
      assert CategoriesOf(products)[..|init|] == CategoriesOf(init);
      assert CategoriesOf(products)[|init|] == products[|init|].category;
      CategoryStockAbsent(init, c);
    }
  }

  /** The summed stock of all products. */
  function TotalStock(products: seq<Product>): int
  {
    if products == [] then 0
    else TotalStock(products[..|products| - 1]) + products[|products| - 1].stock
  }

  function Sum(xs: seq<int>): int
  {
    if xs == [] then 0 else Sum(xs[..|xs| - 1]) + xs[|xs| - 1]
  }

  /** The total of each of `keys`, index-aligned with them. */
  function Totals(keys: seq<string>, products: seq<Product>): (r: seq<int>)
    ensures |r| == |keys|
    ensures forall j :: 0 <= j < |keys| ==> r[j] == CategoryStock(products, keys[j])
  {
    if keys == [] then []
    else Totals(keys[..|keys| - 1], products) + [CategoryStock(products, keys[|keys| - 1])]
  }

  /** One more product adds its stock to the total of its own category, if that is one of `keys`. */
  lemma {:induction false} TotalsAppend(keys: seq<string>, products: seq<Product>, p: Product)
    requires NoDuplicates(keys)
    ensures Sum(Totals(keys, products + [p])) == Sum(Totals(keys, products)) + (if p.category in keys then p.stock else 0)
  {
    if keys != [] {
      var init := keys[..|keys| - 1];
      var k := keys[|keys| - 1];
      assert NoDuplicates(init);
      assert keys == init + [k];
      assert p.category in keys <==> p.category in init || p.category == k;
      assert p.category in init ==> p.category != k;
      TotalsAppend(init, products, p);
      assert (products + [p])[..|products|] == products;
      var a, b := Totals(init, products + [p]), Totals(init, products);
      assert (a + [CategoryStock(products + [p], k)])[..|a|] == a;
      assert (b + [CategoryStock(products, k)])[..|b|] == b;
    }
  }

  /** Over a duplicate-free list of keys covering every category, the totals add up to the total stock. */
  lemma {:induction false} TotalsSumToTotalStock(keys: seq<string>, products: seq<Product>)
    requires NoDuplicates(keys)
    requires forall i :: 0 <= i < |products| ==> products[i].category in keys
    ensures Sum(Totals(keys, products)) == TotalStock(products)
  {
    if products == [] {
      ZeroTotals(keys);
    } else {
      var init := products[..|products| - 1];
      var p := products[|products| - 1];
      assert products == init + [p];
      TotalsSumToTotalStock(keys, init);
      TotalsAppend(keys, init, p);
    }
  }

  lemma {:induction false} ZeroTotals(keys: seq<string>)
    ensures Sum(Totals(keys, [])) == 0
  {
    if keys != [] {
      ZeroTotals(keys[..|keys| - 1]);
      var a := Totals(keys[..|keys| - 1], []);
      assert (a + [0])[..|a|] == a;
    }
  }

  // ---------------------------------------------------------------------
  // Colours
  // ---------------------------------------------------------------------

  /** `(210 + i * 40) % 360`. */
  function Hue(i: nat): (h: int)
    ensures 0 <= h < 360
  {
    (210 + i * 40) % 360
  }

  /** `hsla(${hue}, 70%, 60%, ${alpha})`. */
  function Hsla(hue: int, alpha: string): string
  {
    "hsla(" + IntToString(hue) + ", 70%, 60%, " + alpha + ")"
  }

  /** The first index from `from` on where `pattern` occurs in `s`. */
  function FirstOccurrence(s: string, pattern: string, from: nat): (r: Option<nat>)
    ensures r.Some? ==> from <= r.value && OccursAt(s, pattern, r.value)
    ensures r.Some? ==> forall j :: from <= j < r.value ==> !OccursAt(s, pattern, j)
    ensures r.None? ==> forall j :: from <= j ==> !OccursAt(s, pattern, j)
    decreases |s| - from
  {
    if from + |pattern| > |s| then None
    else if OccursAt(s, pattern, from) then Some(from)
    else FirstOccurrence(s, pattern, from + 1)
  }

  /** `s.replace(pattern, replacement)` with a string pattern: only the first occurrence is replaced. */
  function ReplaceFirst(s: string, pattern: string, replacement: string): string
  {
    match FirstOccurrence(s, pattern, 0)
    case None => s
    case Some(i) => s[..i] + replacement + s[i + |pattern|..]
  }

  lemma {:induction false} FirstOccurrenceAt(s: string, pattern: string, from: nat, k: nat)
    requires from <= k && OccursAt(s, pattern, k)
    requires forall j :: from <= j < k ==> !OccursAt(s, pattern, j)
    ensures FirstOccurrence(s, pattern, from) == Some(k)
    decreases k - from
  {
    if from < k {
      FirstOccurrenceAt(s, pattern, from + 1, k);
    }
  }

  /** The border colour of each bar: the background colour with alpha 1 instead of 0.7. */
  lemma BorderColour(hue: int)
    ensures ReplaceFirst(Hsla(hue, "0.7"), "0.7", "1") == Hsla(hue, "1")
  {
    var prefix := "hsla(" + IntToString(hue) + ", 70%, 60%, ";
    var s := Hsla(hue, "0.7");
    assert s == prefix + "0.7" + ")";
    assert forall k :: 0 <= k < |prefix| ==> prefix[k] != '.';
    forall j | 0 <= j < |prefix|
      ensures !OccursAt(s, "0.7", j)
    {
      assert s[j..j + 3][1] == s[j + 1];
      if j + 1 < |prefix| {
        assert s[j + 1] == prefix[j + 1];
      } else {
        assert s[j + 1] == '0';
      }
    }
    assert s[|prefix|..|prefix| + 3] == "0.7";
    FirstOccurrenceAt(s, "0.7", 0, |prefix|);
    assert s[..|prefix|] == prefix && s[|prefix| + 3..] == ")";
  }

  /** `labels.map((_, i) => hsla(...))`: one background colour per bar, 0.7 opaque. */
  function BackgroundColors(n: nat): (r: seq<string>)
    ensures |r| == n
  {
    seq(n, i requires 0 <= i < n => Hsla(Hue(i), "0.7"))
  }

  /** `backgroundColors.map(color => color.replace('0.7', '1'))`. */
  function BorderColors(backgroundColors: seq<string>): (r: seq<string>)
    ensures |r| == |backgroundColors|
  {
    seq(|backgroundColors|, i requires 0 <= i < |backgroundColors| => ReplaceFirst(backgroundColors[i], "0.7", "1"))
  }

  /** Each bar's border has the hue of its background at full opacity. */
  lemma BordersAreOpaque(n: nat)
    ensures forall i :: 0 <= i < n ==>
      && BackgroundColors(n)[i] == Hsla(Hue(i), "0.7")
      && BorderColors(BackgroundColors(n))[i] == Hsla(Hue(i), "1")
  {
    forall i | 0 <= i < n
      ensures BorderColors(BackgroundColors(n))[i] == Hsla(Hue(i), "1")
    {
      BorderColour(Hue(i));
    }
  }

  // ---------------------------------------------------------------------
  // The chart data
  // ---------------------------------------------------------------------

  /**
   * The accumulator after the first `n` products: its keys in insertion order
   * are the distinct categories met so far, each mapped to its stock total.
   */
  ghost predicate Accumulated(products: seq<Product>, n: nat, keys: seq<string>, totals: map<string, int>)
  {
    && n <= |products|
    && keys == Distinct(CategoriesOf(products[..n]))
    && (forall c :: c in totals <==> c in keys)
    && (forall c :: c in totals ==> totals[c] == CategoryStock(products[..n], c))
  }

  /** The key order after one more product: its category joins the end when it is new. */
  lemma AccumulateKeys(products: seq<Product>, i: nat, keys: seq<string>)
    requires i < |products| && keys == Distinct(CategoriesOf(products[..i]))
    ensures var c := products[i].category;
      Distinct(CategoriesOf(products[..i + 1])) == if c in keys then keys else keys + [c]
  {
    var pre, post := products[..i], products[..i + 1];
    assert CategoriesOf(post)[..|post| - 1] == CategoriesOf(pre);
    assert CategoriesOf(post)[|post| - 1] == products[i].category;
  }

  /** The stock totals after one more product: only its own category grows, by its stock. */
  lemma AccumulateTotal(products: seq<Product>, i: nat, k: string)
    requires i < |products|
    ensures CategoryStock(products[..i + 1], k) ==
      CategoryStock(products[..i], k) + (if products[i].category == k then products[i].stock else 0)
  {
    var post := products[..i + 1];
    assert post[..|post| - 1] == products[..i] && post[|post| - 1] == products[i];
  }

  /** The keys of the accumulator after `acc[c]` is (re)set, in step with the key order. */
  lemma UpdatedDomain(keys: seq<string>, totals: map<string, int>, keys': seq<string>,
                      reset: map<string, int>, c: string, v: int)
    requires forall k :: k in totals <==> k in keys
    requires keys' == (if c in totals then keys else keys + [c])
    requires c in reset
    requires forall k :: k != c ==> (k in reset <==> k in totals)
    ensures forall k :: k in reset[c := v] <==> k in keys'
  {
    forall k
      ensures k in reset[c := v] <==> k in keys'
    {
      if k == c {
        assert c in keys';
      } else {
        assert k in keys' <==> k in keys;
      }
    }
  }

  /** The totals of the accumulator after `acc[c] += product.stock`, against the products seen so far. */
  lemma UpdatedTotals(products: seq<Product>, i: nat, keys: seq<string>, totals: map<string, int>,
                      reset: map<string, int>)
    requires i < |products| && Accumulated(products, i, keys, totals)
    requires var c := products[i].category;
      && c in reset && reset[c] == (if c in totals then totals[c] else 0)
      && (forall k :: k != c ==> (k in reset <==> k in totals))
      && (forall k :: k != c && k in totals ==> k in reset && reset[k] == totals[k])
    ensures var c := products[i].category;
      var m := reset[c := reset[c] + products[i].stock];
      forall k :: k in m ==> m[k] == CategoryStock(products[..i + 1], k)
  {
    var c := products[i].category;
    var m := reset[c := reset[c] + products[i].stock];
    forall k | k in m
      ensures m[k] == CategoryStock(products[..i + 1], k)
    {
      AccumulateTotal(products, i, k);
      if k == c && c !in totals {
        CategoryStockAbsent(products[..i], c);
      }
    }
  }

  /**
   * One step of the `reduce`: `if (!acc[c]) acc[c] = 0` leaves `reset`, which
   * holds the old total of `c` (zero for a new key) and agrees with `totals`
   * elsewhere; then `acc[c] += product.stock`.
   */
  lemma AccumulateStep(products: seq<Product>, i: nat, keys: seq<string>, totals: map<string, int>,
                       keys': seq<string>, reset: map<string, int>)
    requires i < |products| && Accumulated(products, i, keys, totals)
    requires var c := products[i].category;
      && keys' == (if c in totals then keys else keys + [c])
      && c in reset && reset[c] == (if c in totals then totals[c] else 0)
      && (forall k :: k != c ==> (k in reset <==> k in totals))
      && (forall k :: k != c && k in totals ==> k in reset && reset[k] == totals[k])
    ensures var c := products[i].category;
      Accumulated(products, i + 1, keys', reset[c := reset[c] + products[i].stock])
  {
    var c := products[i].category;
    AccumulateKeys(products, i, keys);
    UpdatedDomain(keys, totals, keys', reset, c, reset[c] + products[i].stock);
    UpdatedTotals(products, i, keys, totals, reset);
  }

  /** What `createCategoryChart` hands to the chart: labels, values and one colour pair per bar. */
  datatype ChartData = ChartData(
    labels: seq<string>,
    data: seq<int>,
    backgroundColors: seq<string>,
    borderColors: seq<string>)

  /**
   * The `products.reduce(...)` of `createCategoryChart`: the accumulator
   * object, as its keys in insertion order and the map they index.
   */
  method AccumulateByCategory(products: seq<Product>) returns (keys: seq<string>, totals: map<string, int>)
    ensures keys == Distinct(CategoriesOf(products))
    ensures forall c :: c in totals <==> c in keys
    ensures forall c :: c in totals ==> totals[c] == CategoryStock(products, c)
  {
    totals := map[];
    keys := [];
    for i := 0 to |products|
      invariant Accumulated(products, i, keys, totals)
    {
      var product := products[i];
      var category := product.category;
      ghost var keys0, totals0 := keys, totals;
      if category !in totals || totals[category] == 0 {
        if category !in totals {
          // a new property joins the end of the key order
          keys := keys + [category];
        }
        totals := totals[category := 0];
      }
      AccumulateStep(products, i, keys0, totals0, keys, totals);
      totals := totals[category := totals[category] + product.stock];
    }
    assert products[..|products|] == products;
  }

  /**
   * `createCategoryChart(container, products)`: the per-category totals,
   * `Object.keys`/`Object.values` of them, and the colours.
   */
  method CreateCategoryChart(products: seq<Product>) returns (chart: ChartData)
    ensures chart.labels == Distinct(CategoriesOf(products))
    ensures chart.data == Totals(chart.labels, products)
    ensures Sum(chart.data) == TotalStock(products)
    ensures |chart.backgroundColors| == |chart.labels| && |chart.borderColors| == |chart.labels|
    ensures forall i :: 0 <= i < |chart.labels| ==>
      && chart.backgroundColors[i] == Hsla(Hue(i), "0.7")
      && chart.borderColors[i] == Hsla(Hue(i), "1")
  {
    var keys, totals := AccumulateByCategory(products);

    var stockData := seq(|keys|, j requires 0 <= j < |keys| => totals[keys[j]]);
    assert stockData == Totals(keys, products);

    var backgroundColors := BackgroundColors(|keys|);
    var borderColors := BorderColors(backgroundColors);
    BordersAreOpaque(|keys|);

    assert Sum(stockData) == TotalStock(products) by {
      var cs := CategoriesOf(products);
      forall i | 0 <= i < |products|
        ensures products[i].category in keys
      {
        assert cs[i] == products[i].category;
      }
      TotalsSumToTotalStock(keys, products);
    }
    chart := ChartData(keys, stockData, backgroundColors, borderColors);
  }

  /** There is exactly one bar per distinct category. */
  lemma OneBarPerCategory(products: seq<Product>, labels: seq<string>)
    requires labels == Distinct(CategoriesOf(products))
    ensures NoDuplicates(labels)
    ensures forall c :: c in labels <==> exists p :: p in products && p.category == c
  {
    var cs := CategoriesOf(products);
    forall c
      ensures c in cs <==> exists p :: p in products && p.category == c
    {
      if c in cs {
        var k :| 0 <= k < |cs| && cs[k] == c;
        assert products[k] in products;
      }
      if exists p :: p in products && p.category == c {
        var p :| p in products && p.category == c;
        var k :| 0 <= k < |products| && products[k] == p;
        assert cs[k] == c;
      }
    }
  }
}
