/**
 * The storefront's client of the hosted table store (src/lib/api.ts), over an in-memory
 * copy of the tables. Each call issues one or two requests; a request that fails (the
 * exception `executeRequest` raises on a transport error or a non-2xx status) is a
 * `false` in the call's `...Ok` parameters, and the call then returns `Failed`. Every call
 * writes at most once and only as its last request, so a failed call leaves the tables
 * as they were.
 */
module Store {
  import opened Collections
  import opened Records
  import CartLines

  /** The response's data, or the failure `executeRequest` throws. */
  datatype Outcome<T> = Ok(value: T) | Failed

  /** `where cart_id = cartId and variant_id = variantId`. */
  function InCartWithVariant(cartId: string, variantId: string): CartItem -> bool
  {
    (it: CartItem) => it.cartId == cartId && it.variantId == variantId
  }

  function NotInCartWithVariant(cartId: string, variantId: string): CartItem -> bool
  {
    (it: CartItem) => !(it.cartId == cartId && it.variantId == variantId)
  }

  /** `where cart_id = cartId`. */
  function InCart(cartId: string): CartItem -> bool
  {
    (it: CartItem) => it.cartId == cartId
  }

  /** `where session_id = sessionId and status = 'OPEN'`. */
  function OpenCartOf(sessionId: string): Cart -> bool
  {
    (c: Cart) => c.sessionId == Some(sessionId) && c.status == "OPEN"
  }

  /** `where is_published = true and availability_status = 'IN_STOCK'`. */
  predicate Listed(p: Product)
  {
    p.isPublished && p.availability == "IN_STOCK"
  }

  /** The rows an `addToCart` or `updateCartItemQuantity` request selects, in table order. */
  function MatchingRows(rows: seq<CartItem>, cartId: string, variantId: string): seq<CartItem>
  {
    Filter(rows, InCartWithVariant(cartId, variantId))
  }

  /** `update cart_items set quantity = q where cart_id = … and variant_id = …`. */
  function SetRowQuantity(rows: seq<CartItem>, cartId: string, variantId: string, q: int): (r: seq<CartItem>)
    ensures |r| == |rows|
    ensures forall i :: 0 <= i < |rows| ==>
              r[i] == if rows[i].cartId == cartId && rows[i].variantId == variantId
                      then rows[i].(quantity := q) else rows[i]
  {
    if rows == [] then []
    else
      [if rows[0].cartId == cartId && rows[0].variantId == variantId then rows[0].(quantity := q) else rows[0]] +
      SetRowQuantity(rows[1..], cartId, variantId, q)
  }

  /**
   * `cart_items` after a successful `addToCart`: when rows match both keys, all of them get
   * the first one's quantity plus `quantity`; otherwise one row is inserted.
   */
  function AddRows(rows: seq<CartItem>, cartId: string, variantId: string, quantity: int,
                   freshId: string): seq<CartItem>
  {
    var existing := MatchingRows(rows, cartId, variantId);
    if |existing| > 0 then SetRowQuantity(rows, cartId, variantId, existing[0].quantity + quantity)
    else rows + [CartItem(freshId, cartId, variantId, quantity)]
  }

  /** `cart_items` after a successful `updateCartItemQuantity`. */
  function UpdateRows(rows: seq<CartItem>, cartId: string, variantId: string, quantity: int): seq<CartItem>
  {
    if quantity <= 0 then Filter(rows, NotInCartWithVariant(cartId, variantId))
    else SetRowQuantity(rows, cartId, variantId, quantity)
  }

  /**
   * With a matching row, every matching row ends with the first one's quantity plus the
   * amount added; no row is inserted and the other rows are untouched.
   */
  lemma AddRowsExisting(rows: seq<CartItem>, cartId: string, variantId: string, quantity: int,
                        freshId: string)
    requires MatchingRows(rows, cartId, variantId) != []
    ensures var k := IndexWhere(rows, InCartWithVariant(cartId, variantId));
            var r := AddRows(rows, cartId, variantId, quantity, freshId);
            0 <= k && |r| == |rows| &&
            (forall i :: 0 <= i < |rows| && rows[i].cartId == cartId && rows[i].variantId == variantId ==>
               r[i] == rows[i].(quantity := rows[k].quantity + quantity)) &&
            (forall i :: 0 <= i < |rows| && !(rows[i].cartId == cartId && rows[i].variantId == variantId) ==>
               r[i] == rows[i])
  {
    FilterHeadIsFirstMatch(rows, InCartWithVariant(cartId, variantId));
  }

  /** Without a matching row, exactly one row with the two keys and the quantity is appended. */
  lemma AddRowsAbsent(rows: seq<CartItem>, cartId: string, variantId: string, quantity: int,
                      freshId: string)
    requires MatchingRows(rows, cartId, variantId) == []
    ensures AddRows(rows, cartId, variantId, quantity, freshId) == rows + [CartItem(freshId, cartId, variantId, quantity)]
    ensures MatchingRows(AddRows(rows, cartId, variantId, quantity, freshId), cartId, variantId) ==
            [CartItem(freshId, cartId, variantId, quantity)]
  {
    var row := CartItem(freshId, cartId, variantId, quantity);
    FilterConcat(rows, [row], InCartWithVariant(cartId, variantId));
    assert Filter([row], InCartWithVariant(cartId, variantId)) == [row] by {
      assert [row][1..] == [];
    }
  }

  /** The row `addToCart` reports: the first matching row with its new quantity, or the inserted row. */
  function AddedRow(rows: seq<CartItem>, cartId: string, variantId: string, quantity: int,
                    freshId: string): CartItem
  {
    var existing := MatchingRows(rows, cartId, variantId);
    if existing != [] then existing[0].(quantity := existing[0].quantity + quantity)
    else CartItem(freshId, cartId, variantId, quantity)
  }

  /** The row a successful `addToCart` returns is the first stored row with both keys. */
  lemma AddRowsReturned(rows: seq<CartItem>, cartId: string, variantId: string,
                        quantity: int, freshId: string)
    ensures FindWhere(AddRows(rows, cartId, variantId, quantity, freshId), InCartWithVariant(cartId, variantId)) ==
            Some(AddedRow(rows, cartId, variantId, quantity, freshId))
  {
    var p := InCartWithVariant(cartId, variantId);
    FilterHeadIsFirstMatch(rows, p);
    var k := IndexWhere(rows, p);
    var existing := MatchingRows(rows, cartId, variantId);
    if k >= 0 {
      assert existing != [] && existing[0] == rows[k];
      assert AddRows(rows, cartId, variantId, quantity, freshId) ==
             SetRowQuantity(rows, cartId, variantId, rows[k].quantity + quantity);
      SetRowQuantityKeepsFirst(rows, cartId, variantId, rows[k].quantity + quantity, k);
    } else {
      AddRowsAbsent(rows, cartId, variantId, quantity, freshId);
      var r := rows + [CartItem(freshId, cartId, variantId, quantity)];
      assert p(r[|rows|]);
      assert forall j :: 0 <= j < |rows| ==> r[j] == rows[j];
      IndexWhereAt(r, p, |rows|);
    }
  }

  /** Overwriting the quantity keeps the first matching row first. */
  lemma SetRowQuantityKeepsFirst(rows: seq<CartItem>, cartId: string, variantId: string, q: int, k: int)
    requires k == IndexWhere(rows, InCartWithVariant(cartId, variantId)) && k >= 0
    ensures FindWhere(SetRowQuantity(rows, cartId, variantId, q), InCartWithVariant(cartId, variantId)) ==
            Some(rows[k].(quantity := q))
  {
    var p := InCartWithVariant(cartId, variantId);
    var r := SetRowQuantity(rows, cartId, variantId, q);
    assert forall j :: 0 <= j < k ==> r[j] == rows[j];
    assert p(r[k]);
    IndexWhereAt(r, p, k);
  }

  /**
   * After the quantity of the rows with both keys is overwritten, the first such row is
   * found exactly when one was there before, and it carries the new quantity.
   */
  lemma SetRowQuantityFound(rows: seq<CartItem>, cartId: string, variantId: string, q: int)
    ensures var f := FindWhere(SetRowQuantity(rows, cartId, variantId, q), InCartWithVariant(cartId, variantId));
            (f.None? <==> MatchingRows(rows, cartId, variantId) == []) && (f.Some? ==> f.value.quantity == q)
  {
    var p := InCartWithVariant(cartId, variantId);
    var r := SetRowQuantity(rows, cartId, variantId, q);
    FilterHeadIsFirstMatch(rows, p);
    FilterHeadIsFirstMatch(r, p);
    assert forall i :: 0 <= i < |rows| ==> p(rows[i]) == p(r[i]);
  }

  /** Rows of every other cart, or of another variant, are never changed by an add. */
  lemma AddRowsKeepsOthers(rows: seq<CartItem>, cartId: string, variantId: string, quantity: int,
                           freshId: string)
    ensures var r := AddRows(rows, cartId, variantId, quantity, freshId);
            |rows| <= |r| &&
            forall i :: 0 <= i < |rows| && !(rows[i].cartId == cartId && rows[i].variantId == variantId) ==>
              r[i] == rows[i]
  {
  }

  /** Every row of the table belongs to one cart. */
  predicate AllInCart(rows: seq<CartItem>, cartId: string)
  {
    forall i :: 0 <= i < |rows| ==> rows[i].cartId == cartId
  }

  /**
   * On one cart's rows with at most one row per variant, the store's add is the page's
   * in-memory add: the two implementations of cart consolidation agree.
   */
  lemma AddRowsAgreesWithPage(rows: seq<CartItem>, cartId: string, variantId: string, quantity: int,
                              freshId: string)
    requires AllInCart(rows, cartId) && CartLines.UniqueVariants(rows)
    ensures AddRows(rows, cartId, variantId, quantity, freshId) ==
            CartLines.AddLine(rows, cartId, variantId, quantity, freshId)
  {
    var p := InCartWithVariant(cartId, variantId);
    FilterSameOn(rows, p, CartLines.HasVariant(variantId));
    FilterHeadIsFirstMatch(rows, CartLines.HasVariant(variantId));
    var k := CartLines.LineIndex(rows, variantId);
    if k >= 0 {
      var a := AddRows(rows, cartId, variantId, quantity, freshId);
      var b := CartLines.AddLine(rows, cartId, variantId, quantity, freshId);
      assert |a| == |b|;
      forall i | 0 <= i < |a| ensures a[i] == b[i] {
        if i != k {
          assert rows[i].variantId != rows[k].variantId;
        }
      }
    }
  }

  /**
   * On one cart's rows the store's update is the page's in-memory update: a quantity of 0
   * or less deletes the lines of the variant, a positive one overwrites their quantity.
   */
  lemma UpdateRowsAgreesWithPage(rows: seq<CartItem>, cartId: string, variantId: string, quantity: int)
    requires AllInCart(rows, cartId)
    ensures UpdateRows(rows, cartId, variantId, quantity) == CartLines.UpdateQuantity(rows, variantId, quantity)
  {
    if quantity <= 0 {
      FilterSameOn(rows, NotInCartWithVariant(cartId, variantId), CartLines.LacksVariant(variantId));
    } else {
      var a := UpdateRows(rows, cartId, variantId, quantity);
      var b := CartLines.UpdateQuantity(rows, variantId, quantity);
      assert |a| == |b|;
      assert forall i :: 0 <= i < |a| ==> a[i] == b[i];
    }
  }

  /** `update orders set status = … where id = orderId`. */
  function SetOrderStatus(orders: seq<Order>, orderId: string, status: string): (r: seq<Order>)
    ensures |r| == |orders|
    ensures forall i :: 0 <= i < |orders| ==>
              r[i] == if orders[i].id == orderId then orders[i].(status := status) else orders[i]
  {
    if orders == [] then []
    else
      [if orders[0].id == orderId then orders[0].(status := status) else orders[0]] +
      SetOrderStatus(orders[1..], orderId, status)
  }

  function HasOrderId(orderId: string): Order -> bool
  {
    (o: Order) => o.id == orderId
  }

  /** The fields of an order a caller may supply (`Partial<Order>`); `None` is an absent key. */
  datatype OrderFields = OrderFields(customerId: Option<string>, cartId: Option<string>,
                                     status: Option<string>, currency: Option<string>,
                                     subtotalPrice: Option<int>, totalDiscounts: Option<int>,
                                     totalTax: Option<int>, shippingPrice: Option<int>,
                                     totalPrice: Option<int>, notes: Option<string>)

  function OrElse<T>(o: Option<T>, fallback: T): T
  {
    if o.Some? then o.value else fallback
  }

  /**
   * The row `createOrder` sends: customer, cart, status 'PENDING' and currency 'USD', each
   * replaced by the caller's value when `orderData` has one (its spread comes last).
   */
  function OrderPayload(customerId: string, cartId: string, orderData: OrderFields): (r: OrderFields)
    ensures r.customerId == Some(OrElse(orderData.customerId, customerId))
    ensures r.cartId == Some(OrElse(orderData.cartId, cartId))
    ensures r.status == Some(OrElse(orderData.status, "PENDING"))
    ensures r.currency == Some(OrElse(orderData.currency, "USD"))
    ensures r.(customerId := orderData.customerId, cartId := orderData.cartId,
               status := orderData.status, currency := orderData.currency) == orderData
  {
    orderData.(customerId := Some(OrElse(orderData.customerId, customerId)),
               cartId := Some(OrElse(orderData.cartId, cartId)),
               status := Some(OrElse(orderData.status, "PENDING")),
               currency := Some(OrElse(orderData.currency, "USD")))
  }

  /** A payload already naming the four defaulted fields is sent as it is, whatever the arguments. */
  lemma OrderPayloadStable(customerId: string, cartId: string, c2: string, k2: string, orderData: OrderFields)
    ensures OrderPayload(c2, k2, OrderPayload(customerId, cartId, orderData)) ==
            OrderPayload(customerId, cartId, orderData)
  {
  }

  /** The stored row for an inserted payload; absent amounts are stored as 0. */
  function OrderRow(id: string, payload: OrderFields): Order
  {
    Order(id, payload.customerId, payload.cartId, OrElse(payload.status, "PENDING"),
          OrElse(payload.currency, "USD"), OrElse(payload.subtotalPrice, 0),
          OrElse(payload.totalDiscounts, 0), OrElse(payload.totalTax, 0),
          OrElse(payload.shippingPrice, 0), OrElse(payload.totalPrice, 0), payload.notes)
  }

  /** The tables the storefront reads and writes. */
  class TableStore {
    var carts: seq<Cart>
    var cartItems: seq<CartItem>
    var products: seq<Product>
    var variants: seq<Variant>
    var orders: seq<Order>

    constructor (carts0: seq<Cart>, items0: seq<CartItem>, products0: seq<Product>,
                 variants0: seq<Variant>, orders0: seq<Order>)
      ensures carts == carts0 && cartItems == items0 && products == products0
      ensures variants == variants0 && orders == orders0
    {
      carts := carts0;
      cartItems := items0;
      products := products0;
      variants := variants0;
      orders := orders0;
    }

    /** `getProducts`: the published, in-stock products, and all of them. */
    method GetProducts(ok: bool) returns (r: Outcome<seq<Product>>)
      ensures !ok <==> r.Failed?
      ensures r.Ok? ==> forall i :: 0 <= i < |r.value| ==>
                          r.value[i] in products && r.value[i].isPublished && r.value[i].availability == "IN_STOCK"
      ensures r.Ok? ==> forall i :: (0 <= i < |products| && products[i].isPublished &&
                                     products[i].availability == "IN_STOCK") ==> products[i] in r.value
    {
      if !ok {
        return Failed;
      }
      FilterComplete(products, Listed);
      r := Ok(Filter(products, Listed));
    }

    /** `getProductVariants(productId?)`: one product's variants, or every variant when no (or an empty) id is given. */
    method GetProductVariants(productId: Option<string>, ok: bool) returns (r: Outcome<seq<Variant>>)
      ensures !ok <==> r.Failed?
      ensures r.Ok? && (productId.None? || productId.value == "") ==> r.value == variants
      ensures r.Ok? && productId.Some? && productId.value != "" ==>
                r.value == VariantsOf(variants, productId.value)
    {
      if !ok {
        return Failed;
      }
      if productId.Some? && productId.value != "" {
        r := Ok(VariantsOf(variants, productId.value));
      } else {
        r := Ok(variants);
      }
    }

    /** `createCart`: inserts an OPEN cart for the session. */
    method CreateCart(sessionId: string, freshId: string, ok: bool) returns (r: Outcome<Cart>)
      modifies this`carts
      ensures ok ==> r == Ok(Cart(freshId, None, Some(sessionId), "OPEN")) && carts == old(carts) + [r.value]
      ensures !ok ==> r == Failed && carts == old(carts)
    {
      if !ok {
        return Failed;
      }
      var cart := Cart(freshId, None, Some(sessionId), "OPEN");
      carts := carts + [cart];
      r := Ok(cart);
    }

    /** `getCart`: the first OPEN cart of the session, or none. */
    method GetCart(sessionId: string, ok: bool) returns (r: Outcome<Option<Cart>>)
      ensures !ok <==> r.Failed?
      ensures r.Ok? && r.value.None? ==>
                forall i :: 0 <= i < |carts| ==> !(carts[i].sessionId == Some(sessionId) && carts[i].status == "OPEN")
      ensures r.Ok? && r.value.Some? ==>
                exists k :: 0 <= k < |carts| && carts[k] == r.value.value &&
                            carts[k].sessionId == Some(sessionId) && carts[k].status == "OPEN" &&
                            forall j :: 0 <= j < k ==> !(carts[j].sessionId == Some(sessionId) && carts[j].status == "OPEN")
    {
      if !ok {
        return Failed;
      }
      var found := Filter(carts, OpenCartOf(sessionId));
      FilterHeadIsFirstMatch(carts, OpenCartOf(sessionId));
      if |found| > 0 {
        r := Ok(Some(found[0]));
      } else {
        r := Ok(None);
      }
    }

    /** `addToCart`: select the rows with both keys, then update them or insert one. */
    method AddToCart(cartId: string, variantId: string, quantity: int, freshId: string,
                     selectOk: bool, writeOk: bool) returns (r: Outcome<CartItem>)
      modifies this`cartItems
      ensures selectOk && writeOk ==>
                cartItems == AddRows(old(cartItems), cartId, variantId, quantity, freshId) &&
                r == Ok(AddedRow(old(cartItems), cartId, variantId, quantity, freshId))
      ensures !(selectOk && writeOk) ==> r == Failed && cartItems == old(cartItems)
    {
      if !selectOk {
        return Failed;
      }
      var existing := MatchingRows(cartItems, cartId, variantId);
      if |existing| > 0 {
        var newQuantity := existing[0].quantity + quantity;
        if !writeOk {
          return Failed;
        }
        r := Ok(existing[0].(quantity := newQuantity));
        assert r == Ok(AddedRow(cartItems, cartId, variantId, quantity, freshId));
        cartItems := SetRowQuantity(cartItems, cartId, variantId, newQuantity);
      } else {
        if !writeOk {
          return Failed;
        }
        var row := CartItem(freshId, cartId, variantId, quantity);
        r := Ok(row);
        assert r == Ok(AddedRow(cartItems, cartId, variantId, quantity, freshId));
        cartItems := cartItems + [row];
      }
    }

    /** `getCartItems`: the cart's rows, in table order. */
    method GetCartItems(cartId: string, ok: bool) returns (r: Outcome<seq<CartItem>>)
      ensures !ok <==> r.Failed?
      ensures r.Ok? ==> forall i :: 0 <= i < |r.value| ==> r.value[i] in cartItems && r.value[i].cartId == cartId
      ensures r.Ok? ==> forall i :: 0 <= i < |cartItems| && cartItems[i].cartId == cartId ==> cartItems[i] in r.value
    {
      if !ok {
        return Failed;
      }
      FilterComplete(cartItems, InCart(cartId));
      r := Ok(Filter(cartItems, InCart(cartId)));
    }

    /**
     * `updateCartItemQuantity`: a quantity of 0 or less deletes the rows with both keys and
     * returns null without any update; a positive one overwrites their quantity and returns
     * the first updated row, if any.
     */
    method UpdateCartItemQuantity(cartId: string, variantId: string, quantity: int, ok: bool)
      returns (r: Outcome<Option<CartItem>>)
      modifies this`cartItems
      ensures ok ==> cartItems == UpdateRows(old(cartItems), cartId, variantId, quantity)
      ensures ok && quantity <= 0 ==> r == Ok(None)
      ensures ok && quantity > 0 ==>
                r == Ok(FindWhere(cartItems, InCartWithVariant(cartId, variantId))) &&
                (r.value.None? <==> MatchingRows(old(cartItems), cartId, variantId) == []) &&
                (r.value.Some? ==> r.value.value.quantity == quantity)
      ensures !ok ==> r == Failed && cartItems == old(cartItems)
    {
      if !ok {
        return Failed;
      }
      if quantity <= 0 {
        cartItems := Filter(cartItems, NotInCartWithVariant(cartId, variantId));
        return Ok(None);
      }
      SetRowQuantityFound(cartItems, cartId, variantId, quantity);
      cartItems := SetRowQuantity(cartItems, cartId, variantId, quantity);
      r := Ok(FindWhere(cartItems, InCartWithVariant(cartId, variantId)));
    }

    /** `getAllProducts`: every product, drafts included (the `created_at` ordering is not modelled). */
    method GetAllProducts(ok: bool) returns (r: Outcome<seq<Product>>)
      ensures ok ==> r == Ok(products)
      ensures !ok ==> r == Failed
    {
      if !ok {
        return Failed;
      }
      r := Ok(products);
    }

    /** `getOrders`: every order (the `created_at` ordering is not modelled). */
    method GetOrders(ok: bool) returns (r: Outcome<seq<Order>>)
      ensures ok ==> r == Ok(orders)
      ensures !ok ==> r == Failed
    {
      if !ok {
        return Failed;
      }
      r := Ok(orders);
    }

    /** `updateOrderStatus`: sets the status of the order with that id, returns it if present. */
    method UpdateOrderStatus(orderId: string, status: string, ok: bool) returns (r: Outcome<Option<Order>>)
      modifies this`orders
      ensures ok ==> orders == SetOrderStatus(old(orders), orderId, status)
      ensures ok ==> r.Ok? && (r.value.Some? <==> exists i :: 0 <= i < |orders| && orders[i].id == orderId)
      ensures ok && r.Ok? && r.value.Some? ==> r.value.value.id == orderId && r.value.value.status == status
      ensures !ok ==> r == Failed && orders == old(orders)
    {
      if !ok {
        return Failed;
      }
      orders := SetOrderStatus(orders, orderId, status);
      r := Ok(FindWhere(orders, HasOrderId(orderId)));
    }

    /** `createOrder`: inserts the payload of `OrderPayload` as a new order row. */
    method CreateOrder(customerId: string, cartId: string, orderData: OrderFields, freshId: string, ok: bool)
      returns (r: Outcome<Order>)
      modifies this`orders
      ensures ok ==> r == Ok(OrderRow(freshId, OrderPayload(customerId, cartId, orderData))) &&
                     orders == old(orders) + [r.value]
      ensures ok && orderData.status.None? ==> r.value.status == "PENDING"
      ensures ok && orderData.currency.None? ==> r.value.currency == "USD"
      ensures !ok ==> r == Failed && orders == old(orders)
    {
      if !ok {
        return Failed;
      }
      var row := OrderRow(freshId, OrderPayload(customerId, cartId, orderData));
      orders := orders + [row];
      r := Ok(row);
    }
  }

  /** After `createCart`, `getCart` for the same session finds an OPEN cart of that session. */
  lemma CreatedCartIsFound(carts: seq<Cart>, sessionId: string, freshId: string)
    ensures FindWhere(carts + [Cart(freshId, None, Some(sessionId), "OPEN")], OpenCartOf(sessionId)).Some?
  {
    var all := carts + [Cart(freshId, None, Some(sessionId), "OPEN")];
    assert OpenCartOf(sessionId)(all[|carts|]);
  }
}
