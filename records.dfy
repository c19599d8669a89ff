/**
 * The records the storefront exchanges with its table store (the interfaces of
 * src/lib/api.ts), and the lookups every screen performs on them. Prices are integer
 * cents; timestamps are not modelled.
 */
module Records {
  import opened Collections

  /** A row of `products`; `availability` is one of IN_STOCK, OUT_OF_STOCK, DISCONTINUED. */
  datatype Product = Product(id: string, name: string, description: Option<string>,
                             isPublished: bool, availability: string, tags: Option<string>)

  /** A row of `product_variants`: one purchasable SKU of a product. */
  datatype Variant = Variant(id: string, productId: string, title: Option<string>,
                             sku: Option<string>, price: int, compareAtPrice: Option<int>,
                             taxable: bool)

  /** A row of `cart_items`: one line of a cart. */
  datatype CartItem = CartItem(id: string, cartId: string, variantId: string, quantity: int)

  /** A row of `carts`. */
  datatype Cart = Cart(id: string, customerId: Option<string>, sessionId: Option<string>,
                       status: string)

  /** A row of `orders`. */
  datatype Order = Order(id: string, customerId: Option<string>, cartId: Option<string>,
                         status: string, currency: string, subtotalPrice: int,
                         totalDiscounts: int, totalTax: int, shippingPrice: int,
                         totalPrice: int, notes: Option<string>)

  /** A cart line joined with the catalogue records it refers to (`CartItemWithDetails`). */
  datatype DetailedItem = DetailedItem(item: CartItem, variant: Option<Variant>,
                                       product: Option<Product>)

  function VariantHasId(id: string): Variant -> bool { (v: Variant) => v.id == id }

  function ProductHasId(id: string): Product -> bool { (p: Product) => p.id == id }

  function BelongsTo(productId: string): Variant -> bool { (v: Variant) => v.productId == productId }

  /** `variants.find(v => v.id === id)`: the first variant with that id, if any. */
  function FindVariant(variants: seq<Variant>, id: string): (r: Option<Variant>)
    ensures r.None? <==> forall i :: 0 <= i < |variants| ==> variants[i].id != id
    ensures r.Some? ==> exists k :: 0 <= k < |variants| && variants[k] == r.value &&
                                    r.value.id == id &&
                                    forall j :: 0 <= j < k ==> variants[j].id != id
  {
    FindWhere(variants, VariantHasId(id))
  }

  /** `products.find(p => p.id === id)`: the first product with that id, if any. */
  function FindProduct(products: seq<Product>, id: string): (r: Option<Product>)
    ensures r.None? <==> forall i :: 0 <= i < |products| ==> products[i].id != id
    ensures r.Some? ==> exists k :: 0 <= k < |products| && products[k] == r.value &&
                                    r.value.id == id &&
                                    forall j :: 0 <= j < k ==> products[j].id != id
  {
    FindWhere(products, ProductHasId(id))
  }

  /** `variants.filter(v => v.product_id === productId)`, in their original order. */
  function VariantsOf(variants: seq<Variant>, productId: string): (r: seq<Variant>)
    ensures |r| <= |variants|
    ensures forall i :: 0 <= i < |r| ==> r[i] in variants && r[i].productId == productId
    ensures forall i :: 0 <= i < |variants| && variants[i].productId == productId ==>
              variants[i] in r
  {
    FilterComplete(variants, BelongsTo(productId));
    Filter(variants, BelongsTo(productId))
  }

  /** The filter keeps the variants' order: a split list is filtered part by part, and one variant is kept exactly when it belongs. */
  lemma VariantsOfKeepsOrder(a: seq<Variant>, b: seq<Variant>, v: Variant, productId: string)
    ensures VariantsOf(a + b, productId) == VariantsOf(a, productId) + VariantsOf(b, productId)
    ensures VariantsOf([v], productId) == if v.productId == productId then [v] else []
  {
    FilterConcat(a, b, BelongsTo(productId));
    FilterOne(v, BelongsTo(productId));
  }
}
