/**
 * The admin catalogue screen (src/components/admin/ProductsManagement.tsx): products joined
 * with their variants, the price range shown for each, the search filter and the summary
 * figures.
 */
module ProductsAdmin {
  import opened Collections
  import opened Records
  import opened Text
  import SearchBox

  /** A product together with the variants that belong to it (`ProductWithVariants`). */
  datatype ProductWithVariants = ProductWithVariants(product: Product, variants: seq<Variant>)

  function Group(variants: seq<Variant>): Product -> ProductWithVariants
  {
    (p: Product) => ProductWithVariants(p, VariantsOf(variants, p.id))
  }

  /**
   * `productsWithVariants`: one entry per product, in order, each holding exactly the
   * variants whose product id is that product's id.
   */
  function WithVariants(products: seq<Product>, variants: seq<Variant>): (r: seq<ProductWithVariants>)
    ensures |r| == |products|
    ensures forall i :: 0 <= i < |r| ==> r[i].product == products[i]
    ensures forall i, j :: 0 <= i < |r| && 0 <= j < |r[i].variants| ==>
              r[i].variants[j] in variants && r[i].variants[j].productId == products[i].id
    ensures forall i, j :: 0 <= i < |r| && 0 <= j < |variants| && variants[j].productId == products[i].id ==>
              variants[j] in r[i].variants
  {
    if products == [] then []
    else [Group(variants)(products[0])] + WithVariants(products[1..], variants)
  }

  /** No two products share an id. */
  predicate UniqueIds(products: seq<Product>)
  {
    forall i, j :: 0 <= i < j < |products| ==> products[i].id != products[j].id
  }

  /** Every variant belongs to one of the listed products. */
  predicate AllOwned(products: seq<Product>, variants: seq<Variant>)
  {
    forall j :: 0 <= j < |variants| ==> exists i :: 0 <= i < |products| && products[i].id == variants[j].productId
  }

  function VariantCount(g: ProductWithVariants): int { |g.variants| }

  /** Number of listed products with the given id. */
  function IdCount(products: seq<Product>, id: string): nat
  {
    if products == [] then 0 else (if products[0].id == id then 1 else 0) + IdCount(products[1..], id)
  }

  /** With unique ids, an id that is listed is listed once. */
  lemma {:induction false} IdCountOne(products: seq<Product>, k: int)
    requires UniqueIds(products) && 0 <= k < |products|
    ensures IdCount(products, products[k].id) == 1
  {
    var id := products[k].id;
    if k == 0 {
      IdCountAbsent(products[1..], id);
    } else {
      assert products[1..][k - 1] == products[k];
      IdCountOne(products[1..], k - 1);
    }
  }

  lemma {:induction false} IdCountAbsent(products: seq<Product>, id: string)
    requires forall i :: 0 <= i < |products| ==> products[i].id != id
    ensures IdCount(products, id) == 0
  {
    if products != [] {
      IdCountAbsent(products[1..], id);
    }
  }

  /** Adding a variant in front adds one to the group of every product with its product id. */
  lemma {:induction false} GroupSizesCons(products: seq<Product>, v: Variant, rest: seq<Variant>)
    ensures Sum(WithVariants(products, [v] + rest), VariantCount) ==
            Sum(WithVariants(products, rest), VariantCount) + IdCount(products, v.productId)
  {
    if products != [] {
      var p := products[0];
      assert ([v] + rest)[1..] == rest;
      assert |VariantsOf([v] + rest, p.id)| == (if v.productId == p.id then 1 else 0) + |VariantsOf(rest, p.id)|;
      GroupSizesCons(products[1..], v, rest);
    }
  }

  /**
   * When product ids are unique and every variant belongs to a listed product, the variant
   * counts of the rows add up to "Total SKUs": the grouping loses and duplicates nothing.
   */
  lemma {:induction false} GroupedSkusAddUp(products: seq<Product>, variants: seq<Variant>)
    requires UniqueIds(products) && AllOwned(products, variants)
    ensures Sum(WithVariants(products, variants), VariantCount) == SkuCount(variants)
    decreases |variants|
  {
    if variants == [] {
      ZeroGroups(products);
    } else {
      var v := variants[0];
      assert variants == [v] + variants[1..];
      assert AllOwned(products, variants[1..]) by {
        forall j | 0 <= j < |variants[1..]|
          ensures exists i :: 0 <= i < |products| && products[i].id == variants[1..][j].productId
        {
          assert variants[1..][j] == variants[j + 1];
        }
      }
      GroupedSkusAddUp(products, variants[1..]);
      GroupSizesCons(products, v, variants[1..]);
      var k :| 0 <= k < |products| && products[k].id == v.productId;
      IdCountOne(products, k);
    }
  }

  lemma {:induction false} ZeroGroups(products: seq<Product>)
    ensures Sum(WithVariants(products, []), VariantCount) == 0
  {
    if products != [] {
      ZeroGroups(products[1..]);
    }
  }

  /** What the price column shows for a product: nothing, one price, or a range. */
  datatype PriceLabel = NoVariants | Single(price: int) | Between(low: int, high: int)

  /** `Math.min(...prices)`. */
  function MinPrice(variants: seq<Variant>): (m: int)
    requires |variants| > 0
    ensures forall i :: 0 <= i < |variants| ==> m <= variants[i].price
    ensures exists i :: 0 <= i < |variants| && variants[i].price == m
  {
    if |variants| == 1 then variants[0].price
    else
      var rest := MinPrice(variants[1..]);
      assert forall i :: 1 <= i < |variants| ==> variants[i] == variants[1..][i - 1];
      if variants[0].price <= rest then variants[0].price else rest
  }

  /** `Math.max(...prices)`. */
  function MaxPrice(variants: seq<Variant>): (m: int)
    requires |variants| > 0
    ensures forall i :: 0 <= i < |variants| ==> variants[i].price <= m
    ensures exists i :: 0 <= i < |variants| && variants[i].price == m
  {
    if |variants| == 1 then variants[0].price
    else
      var rest := MaxPrice(variants[1..]);
      assert forall i :: 1 <= i < |variants| ==> variants[i] == variants[1..][i - 1];
      if variants[0].price >= rest then variants[0].price else rest
  }

  /**
   * `getPriceRange`: no variants; one price when all variants cost the same; otherwise the
   * cheapest and the dearest price, the first strictly below the second.
   */
  function PriceRange(variants: seq<Variant>): (r: PriceLabel)
    ensures r == NoVariants <==> variants == []
    ensures r.Single? ==> forall i :: 0 <= i < |variants| ==> variants[i].price == r.price
    ensures r.Single? ==> variants[0].price == r.price
    ensures r.Between? ==> r.low < r.high
    ensures r.Between? ==> forall i :: 0 <= i < |variants| ==> r.low <= variants[i].price <= r.high
    ensures r.Between? ==> (exists i :: 0 <= i < |variants| && variants[i].price == r.low) &&
                           (exists i :: 0 <= i < |variants| && variants[i].price == r.high)
  {
    if |variants| == 0 then NoVariants
    else
      var lo, hi := MinPrice(variants), MaxPrice(variants);
      if lo == hi then Single(lo) else Between(lo, hi)
  }

  /** Two variants at different prices always show a range. */
  lemma DifferentPricesShowRange(variants: seq<Variant>, i: int, j: int)
    requires 0 <= i < |variants| && 0 <= j < |variants| && variants[i].price != variants[j].price
    ensures PriceRange(variants).Between?
  {
  }

  /** The search test: the lower-cased name, or the lower-cased description when there is one, includes the lower-cased query. */
  predicate Matches(query: string, p: ProductWithVariants)
  {
    Contains(ToLower(p.product.name), ToLower(query)) ||
    (p.product.description.Some? && Contains(ToLower(p.product.description.value), ToLower(query)))
  }

  /** The fields the catalogue screen searches: the name, then the description when there is one. */
  function ProductFields(p: ProductWithVariants): (r: seq<string>)
    ensures |r| > 0 && r[0] == p.product.name
  {
    [p.product.name] + (if p.product.description.Some? then [p.product.description.value] else [])
  }

  /** The shared search over these fields is this screen's test. */
  lemma HitIsMatch(query: string)
    ensures forall p :: SearchBox.Hit(ProductFields, query, p) <==> Matches(query, p)
  {
    forall p
      ensures SearchBox.Hit(ProductFields, query, p) <==> Matches(query, p)
    {
      var f := ProductFields(p);
      if p.product.description.Some? {
        assert f[1] == p.product.description.value;
      }
    }
  }

  /** `filteredProducts`: in their original order, exactly the products that match the query. */
  function FilterProducts(products: seq<ProductWithVariants>, query: string): (r: seq<ProductWithVariants>)
    ensures |r| <= |products|
    ensures forall i :: 0 <= i < |r| ==> r[i] in products && Matches(query, r[i])
    ensures forall i :: 0 <= i < |products| && Matches(query, products[i]) ==> products[i] in r
  {
    HitIsMatch(query);
    SearchBox.Search(products, ProductFields, query)
  }

  /** The filter keeps the products' order: a split list is filtered part by part, and one product is kept exactly when it matches. */
  lemma FilterProductsKeepsOrder(a: seq<ProductWithVariants>, b: seq<ProductWithVariants>, p: ProductWithVariants, query: string)
    ensures FilterProducts(a + b, query) == FilterProducts(a, query) + FilterProducts(b, query)
    ensures FilterProducts([p], query) == if Matches(query, p) then [p] else []
  {
    SearchBox.SearchConcat(a, b, ProductFields, query);
    SearchBox.SearchOne(p, ProductFields, query);
    HitIsMatch(query);
  }

  /** An empty query keeps every product in its order: every product has a name to search. */
  lemma EmptyQueryKeepsAll(products: seq<ProductWithVariants>)
    ensures FilterProducts(products, "") == products
  {
    SearchBox.EmptyQueryKeepsAll(products, ProductFields);
  }

  /** Filtering keeps each product's variants with it. */
  lemma FilterKeepsGroups(products: seq<Product>, variants: seq<Variant>, query: string)
    ensures forall i :: 0 <= i < |FilterProducts(WithVariants(products, variants), query)| ==>
              FilterProducts(WithVariants(products, variants), query)[i].variants ==
              VariantsOf(variants, FilterProducts(WithVariants(products, variants), query)[i].product.id)
  {
    var g := WithVariants(products, variants);
    var r := FilterProducts(g, query);
    forall i | 0 <= i < |r|
      ensures r[i].variants == VariantsOf(variants, r[i].product.id)
    {
      var k :| 0 <= k < |g| && g[k] == r[i];
      GroupAt(products, variants, k);
    }
  }

  lemma {:induction false} GroupAt(products: seq<Product>, variants: seq<Variant>, k: int)
    requires 0 <= k < |products|
    ensures WithVariants(products, variants)[k] == ProductWithVariants(products[k], VariantsOf(variants, products[k].id))
  {
    var r := WithVariants(products, variants);
    assert r == [Group(variants)(products[0])] + WithVariants(products[1..], variants);
    if k > 0 {
      GroupAt(products[1..], variants, k - 1);
      assert r[k] == WithVariants(products[1..], variants)[k - 1];
      assert products[1..][k - 1] == products[k];
    }
  }

  predicate Published(p: ProductWithVariants) { p.product.isPublished }

  /** "Published": how many products are published. */
  function PublishedCount(products: seq<ProductWithVariants>): (n: nat)
    ensures n <= |products|
    ensures n == |Filter(products, Published)|
    ensures n == |products| <==> forall i :: 0 <= i < |products| ==> products[i].product.isPublished
  {
    CountIsFilterLength(products, Published);
    CountAll(products, Published);
    Count(products, Published)
  }

  /** "Total SKUs": every loaded variant, whichever product it belongs to. */
  function SkuCount(variants: seq<Variant>): nat
  {
    |variants|
  }
}
