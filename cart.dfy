/**
 * The shopper's cart kept in memory by the storefront page (src/pages/Index.tsx): adding a
 * variant merges it into an existing line, an update to a quantity of 0 or less deletes
 * the line, and the lines are joined with the catalogue for display.
 */
module CartLines {
  import opened Collections
  import opened Records
  import opened Pricing

  function HasVariant(variantId: string): CartItem -> bool
  {
    (it: CartItem) => it.variantId == variantId
  }

  function LacksVariant(variantId: string): CartItem -> bool
  {
    (it: CartItem) => it.variantId != variantId
  }

  function ItemQuantity(it: CartItem): int { it.quantity }

  function QuantityFor(variantId: string): CartItem -> int
  {
    (it: CartItem) => if it.variantId == variantId then it.quantity else 0
  }

  /** Some line of the cart holds the variant. */
  predicate HasLine(items: seq<CartItem>, variantId: string)
  {
    exists i :: 0 <= i < |items| && items[i].variantId == variantId
  }

  /** At most one line per variant. */
  predicate UniqueVariants(items: seq<CartItem>)
  {
    forall i, j :: 0 <= i < j < |items| ==> items[i].variantId != items[j].variantId
  }

  /** The sum of all line quantities. */
  function TotalQuantity(items: seq<CartItem>): int
  {
    Sum(items, ItemQuantity)
  }

  /** The quantity the cart holds of one variant, over all its lines. */
  function QuantityOf(items: seq<CartItem>, variantId: string): int
  {
    Sum(items, QuantityFor(variantId))
  }

  /** `cartItems.findIndex(item => item.variant_id === variantId)`. */
  function LineIndex(items: seq<CartItem>, variantId: string): (k: int)
    ensures -1 <= k < |items|
    ensures k == -1 <==> !HasLine(items, variantId)
    ensures k >= 0 ==> items[k].variantId == variantId &&
                       forall j :: 0 <= j < k ==> items[j].variantId != variantId
  {
    IndexWhere(items, HasVariant(variantId))
  }

  /**
   * The cart after `handleAddToCart(variantId, quantity)`: the first line holding the
   * variant gets `quantity` more, otherwise a line with the fresh id `freshId` is appended.
   */
  function AddLine(items: seq<CartItem>, cartId: string, variantId: string, quantity: int,
                   freshId: string): (r: seq<CartItem>)
    ensures HasLine(items, variantId) ==> |r| == |items|
    ensures !HasLine(items, variantId) ==>
              |r| == |items| + 1 && r[|items|] == CartItem(freshId, cartId, variantId, quantity)
    ensures forall i :: 0 <= i < |items| ==>
              r[i].id == items[i].id && r[i].cartId == items[i].cartId &&
              r[i].variantId == items[i].variantId
    ensures forall i :: 0 <= i < |items| && i != LineIndex(items, variantId) ==> r[i] == items[i]
    ensures HasLine(r, variantId)
  {
    var k := LineIndex(items, variantId);
    if k >= 0 then items[k := items[k].(quantity := items[k].quantity + quantity)]
    else
      var r := items + [CartItem(freshId, cartId, variantId, quantity)];
      assert r[|items|].variantId == variantId;
      r
  }

  /** Adding raises the quantity held of that variant by exactly the amount added, and no other. */
  lemma {:induction false} AddLineQuantityOf(items: seq<CartItem>, cartId: string, variantId: string,
                                             quantity: int, freshId: string, other: string)
    ensures QuantityOf(AddLine(items, cartId, variantId, quantity, freshId), other) ==
            QuantityOf(items, other) + (if other == variantId then quantity else 0)
  {
    var k := LineIndex(items, variantId);
    if k >= 0 {
      SumUpdate(items, k, items[k].(quantity := items[k].quantity + quantity), QuantityFor(other));
    } else {
      var line := CartItem(freshId, cartId, variantId, quantity);
      SumConcat(items, [line], QuantityFor(other));
      SumSingleton(line, QuantityFor(other));
    }
  }

  /** Adding raises the badge count by exactly the amount added. */
  lemma {:induction false} AddLineTotalQuantity(items: seq<CartItem>, cartId: string, variantId: string,
                                                quantity: int, freshId: string)
    ensures TotalQuantity(AddLine(items, cartId, variantId, quantity, freshId)) ==
            TotalQuantity(items) + quantity
  {
    var k := LineIndex(items, variantId);
    if k >= 0 {
      SumUpdate(items, k, items[k].(quantity := items[k].quantity + quantity), ItemQuantity);
    } else {
      var line := CartItem(freshId, cartId, variantId, quantity);
      SumConcat(items, [line], ItemQuantity);
      SumSingleton(line, ItemQuantity);
    }
  }

  /** A cart with at most one line per variant keeps that shape through any add. */
  lemma AddLineKeepsUnique(items: seq<CartItem>, cartId: string, variantId: string,
                           quantity: int, freshId: string)
    requires UniqueVariants(items)
    ensures UniqueVariants(AddLine(items, cartId, variantId, quantity, freshId))
  {
    var r := AddLine(items, cartId, variantId, quantity, freshId);
    forall i, j | 0 <= i < j < |r|
      ensures r[i].variantId != r[j].variantId
    {
      if j == |items| {
        assert items[i].variantId != variantId;
      }
    }
  }

  /** Adding the same variant twice to a cart without it yields one line with both amounts. */
  lemma AddTwiceMerges(items: seq<CartItem>, cartId: string, variantId: string,
                       q1: int, q2: int, id1: string, id2: string)
    requires !HasLine(items, variantId)
    ensures AddLine(AddLine(items, cartId, variantId, q1, id1), cartId, variantId, q2, id2) ==
            items + [CartItem(id1, cartId, variantId, q1 + q2)]
  {
    var once := AddLine(items, cartId, variantId, q1, id1);
    assert LineIndex(once, variantId) == |items|;
  }

  /** Every line of the cart gets `quantity`, when it holds the variant. */
  function SetQuantity(items: seq<CartItem>, variantId: string, quantity: int): (r: seq<CartItem>)
    ensures |r| == |items|
    ensures forall i :: 0 <= i < |items| ==>
              r[i] == if items[i].variantId == variantId then items[i].(quantity := quantity) else items[i]
  {
    if items == [] then []
    else
      [if items[0].variantId == variantId then items[0].(quantity := quantity) else items[0]] +
      SetQuantity(items[1..], variantId, quantity)
  }

  /** The cart after `handleUpdateCartQuantity(variantId, newQuantity)`. */
  function UpdateQuantity(items: seq<CartItem>, variantId: string, newQuantity: int): seq<CartItem>
  {
    if newQuantity <= 0 then Filter(items, LacksVariant(variantId))
    else SetQuantity(items, variantId, newQuantity)
  }

  /**
   * A quantity of 0 or less deletes every line of the variant and keeps the other lines:
   * the result is the cart with those lines dropped, in order.
   */
  lemma {:induction false} UpdateToZeroRemoves(items: seq<CartItem>, variantId: string, newQuantity: int)
    requires newQuantity <= 0
    ensures var r := UpdateQuantity(items, variantId, newQuantity);
            !HasLine(r, variantId) &&
            (forall i :: 0 <= i < |items| && items[i].variantId != variantId ==> items[i] in r) &&
            (forall i :: 0 <= i < |r| ==> r[i] in items) &&
            |r| == |items| - Count(items, HasVariant(variantId)) &&
            QuantityOf(r, variantId) == 0
    decreases |items|
  {
    if items != [] {
      UpdateToZeroRemoves(items[1..], variantId, newQuantity);
      var head := if items[0].variantId != variantId then [items[0]] else [];
      var rest := UpdateQuantity(items[1..], variantId, newQuantity);
      SumConcat(head, rest, QuantityFor(variantId));
      if head != [] {
        SumSingleton(items[0], QuantityFor(variantId));
      }
    }
  }

  /** A variant the cart does not hold has quantity 0. */
  lemma {:induction false} QuantityOfAbsent(items: seq<CartItem>, variantId: string)
    requires !HasLine(items, variantId)
    ensures QuantityOf(items, variantId) == 0
    decreases |items|
  {
    if items != [] {
      assert !HasLine(items[1..], variantId) by {
        forall i | 0 <= i < |items[1..]| ensures items[1..][i].variantId != variantId {
          assert items[1..][i] == items[i + 1];
        }
      }
      QuantityOfAbsent(items[1..], variantId);
    }
  }

  /**
   * A positive quantity overwrites, rather than adds to, what a cart with one line per
   * variant holds of that variant.
   */
  lemma {:induction false} UpdatePositiveSetsLine(items: seq<CartItem>, variantId: string, newQuantity: int)
    requires UniqueVariants(items) && HasLine(items, variantId) && newQuantity > 0
    ensures QuantityOf(UpdateQuantity(items, variantId, newQuantity), variantId) == newQuantity
    decreases |items|
  {
    var r := UpdateQuantity(items, variantId, newQuantity);
    var rest := UpdateQuantity(items[1..], variantId, newQuantity);
    assert r[1..] == rest;
    if items[0].variantId == variantId {
      assert !HasLine(rest, variantId) by {
        forall i | 0 <= i < |rest| ensures rest[i].variantId != variantId {
          assert rest[i].variantId == items[i + 1].variantId;
        }
      }
      QuantityOfAbsent(rest, variantId);
    } else {
      var k :| 0 <= k < |items| && items[k].variantId == variantId;
      assert items[1..][k - 1].variantId == variantId;
      UpdatePositiveSetsLine(items[1..], variantId, newQuantity);
    }
  }

  /** Repeating an update changes nothing more. */
  lemma UpdateIdempotent(items: seq<CartItem>, variantId: string, newQuantity: int)
    ensures var once := UpdateQuantity(items, variantId, newQuantity);
            UpdateQuantity(once, variantId, newQuantity) == once
  {
    var once := UpdateQuantity(items, variantId, newQuantity);
    if newQuantity <= 0 {
      FilterKeepsAll(once, LacksVariant(variantId));
    }
  }

  /** An update keeps a cart at one line per variant. */
  lemma UpdateKeepsUnique(items: seq<CartItem>, variantId: string, newQuantity: int)
    requires UniqueVariants(items)
    ensures UniqueVariants(UpdateQuantity(items, variantId, newQuantity))
  {
    if newQuantity <= 0 {
      FilterKeepsUnique(items, LacksVariant(variantId));
    }
  }

  /** Dropping lines cannot create two lines of one variant. */
  lemma {:induction false} FilterKeepsUnique(items: seq<CartItem>, keep: CartItem -> bool)
    requires UniqueVariants(items)
    ensures UniqueVariants(Filter(items, keep))
    decreases |items|
  {
    if items != [] {
      FilterKeepsUnique(items[1..], keep);
      var rest := Filter(items[1..], keep);
      forall i | 0 <= i < |rest| ensures rest[i].variantId != items[0].variantId {
        var j :| 0 <= j < |items[1..]| && items[1..][j] == rest[i];
        assert items[j + 1] == rest[i];
      }
    }
  }

  /** One cart line joined with the catalogue, as `cartItemsWithDetails` does. */
  function Detail(it: CartItem, variants: seq<Variant>, products: seq<Product>): DetailedItem
  {
    var v := FindVariant(variants, it.variantId);
    DetailedItem(it, v, if v.Some? then FindProduct(products, v.value.productId) else None)
  }

  /**
   * `cartItemsWithDetails`: one entry per line, in cart order; the variant is the first
   * catalogue variant with the line's id, and the product the first whose id is that
   * variant's product id (none when the variant is missing).
   */
  function WithDetails(items: seq<CartItem>, variants: seq<Variant>, products: seq<Product>): (r: seq<DetailedItem>)
    ensures |r| == |items|
    ensures forall i :: 0 <= i < |items| ==>
              r[i].item == items[i] && r[i].variant == FindVariant(variants, items[i].variantId)
    ensures forall i :: 0 <= i < |items| ==>
              (r[i].variant.None? ==> r[i].product.None?) &&
              (r[i].variant.Some? ==> r[i].product == FindProduct(products, r[i].variant.value.productId))
  {
    if items == [] then []
    else [Detail(items[0], variants, products)] + WithDetails(items[1..], variants, products)
  }

  /** The header badge (`totalCartItems`) is the sum of the cart's line quantities. */
  lemma {:induction false} BadgeIsTotalQuantity(items: seq<CartItem>, variants: seq<Variant>, products: seq<Product>)
    ensures TotalItems(WithDetails(items, variants, products)) == TotalQuantity(items)
    decreases |items|
  {
    if items != [] {
      var r := WithDetails(items, variants, products);
      assert r[1..] == WithDetails(items[1..], variants, products);
      BadgeIsTotalQuantity(items[1..], variants, products);
    }
  }

  /** The storefront page's cart state: the catalogue it loaded, the cart id and the lines. */
  class Storefront {
    var products: seq<Product>
    var variants: seq<Variant>
    var cartId: string
    var cartItems: seq<CartItem>

    /** The page after its start-up effect: catalogue loaded, cart `demo-cart-<session>`, no lines. */
    constructor (sessionId: string, catalogue: seq<Product>, skus: seq<Variant>)
      ensures products == catalogue && variants == skus
      ensures cartId == "demo-cart-" + sessionId && cartItems == []
    {
      products := catalogue;
      variants := skus;
      cartId := "demo-cart-" + sessionId;
      cartItems := [];
    }

    /** `handleAddToCart`; `freshId` stands for the random `item-…` id. */
    method HandleAddToCart(variantId: string, quantity: int, freshId: string)
      modifies this`cartItems
      ensures cartItems == AddLine(old(cartItems), cartId, variantId, quantity, freshId)
    {
      var existing := LineIndex(cartItems, variantId);
      if existing >= 0 {
        var updated := cartItems;
        updated := updated[existing := updated[existing].(quantity := updated[existing].quantity + quantity)];
        cartItems := updated;
      } else {
        var line := CartItem(freshId, cartId, variantId, quantity);
        cartItems := cartItems + [line];
      }
    }

    /** `handleUpdateCartQuantity`. */
    method HandleUpdateCartQuantity(variantId: string, newQuantity: int)
      modifies this`cartItems
      ensures cartItems == UpdateQuantity(old(cartItems), variantId, newQuantity)
    {
      if newQuantity <= 0 {
        cartItems := Filter(cartItems, LacksVariant(variantId));
      } else {
        cartItems := SetQuantity(cartItems, variantId, newQuantity);
      }
    }

    /** `handleCompleteOrder` after its delay: the cart is emptied. */
    method HandleCompleteOrder()
      modifies this`cartItems
      ensures cartItems == []
      ensures TotalQuantity(cartItems) == 0
    {
      cartItems := [];
    }

    /** The header badge. */
    method TotalCartItems() returns (n: int)
      ensures n == TotalQuantity(cartItems)
    {
      BadgeIsTotalQuantity(cartItems, variants, products);
      n := TotalItems(WithDetails(cartItems, variants, products));
    }
  }
}
