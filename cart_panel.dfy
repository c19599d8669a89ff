/**
 * The cart side panel (src/components/ShoppingCart.tsx): its totals, the quantity requests
 * its three per-line buttons send to the page, and when its checkout button is enabled.
 */
module CartPanel {
  import opened Collections
  import opened Records
  import opened Pricing
  import CartLines

  /** The per-line buttons: minus, plus and trash. */
  datatype Control = Minus | Plus | Trash

  /** The quantity a button asks the page to set for the line's variant. */
  function RequestedQuantity(line: CartItem, c: Control): int
  {
    match c
    case Minus => line.quantity - 1
    case Plus => line.quantity + 1
    case Trash => 0
  }

  /** The cart after pressing a button on one of its lines (`onUpdateQuantity` is the page's). */
  function Press(items: seq<CartItem>, line: CartItem, c: Control): seq<CartItem>
  {
    CartLines.UpdateQuantity(items, line.variantId, RequestedQuantity(line, c))
  }

  /** Every line has a quantity of at least 1. */
  predicate PositiveQuantities(items: seq<CartItem>)
  {
    forall i :: 0 <= i < |items| ==> items[i].quantity >= 1
  }

  /** No update can leave a line with quantity 0 or less: such an update deletes the line. */
  lemma UpdateKeepsPositive(items: seq<CartItem>, variantId: string, n: int)
    requires PositiveQuantities(items)
    ensures PositiveQuantities(CartLines.UpdateQuantity(items, variantId, n))
  {
  }

  /** Trash deletes the line's variant from the cart, and so does minus on a line holding 1. */
  lemma RemovingControls(items: seq<CartItem>, line: CartItem, c: Control)
    requires c == Trash || (c == Minus && line.quantity <= 1)
    ensures !CartLines.HasLine(Press(items, line, c), line.variantId)
    ensures CartLines.QuantityOf(Press(items, line, c), line.variantId) == 0
  {
    CartLines.UpdateToZeroRemoves(items, line.variantId, RequestedQuantity(line, c));
  }

  /**
   * In a cart with one line per variant, plus holds one more of the line's variant and
   * minus one fewer, whenever that leaves at least one.
   */
  lemma StepControls(items: seq<CartItem>, i: int, c: Control)
    requires CartLines.UniqueVariants(items) && 0 <= i < |items|
    requires c == Plus || (c == Minus && items[i].quantity > 1)
    requires items[i].quantity >= 1
    ensures CartLines.QuantityOf(Press(items, items[i], c), items[i].variantId) ==
            items[i].quantity + (if c == Plus then 1 else -1)
  {
    CartLines.UpdatePositiveSetsLine(items, items[i].variantId, RequestedQuantity(items[i], c));
  }

  /** Plus on a line and adding one more of its variant on the product page agree on the quantity. */
  lemma PlusAgreesWithAdd(items: seq<CartItem>, i: int, cartId: string, freshId: string)
    requires CartLines.UniqueVariants(items) && 0 <= i < |items| && items[i].quantity >= 1
    ensures CartLines.QuantityOf(Press(items, items[i], Plus), items[i].variantId) ==
            CartLines.QuantityOf(CartLines.AddLine(items, cartId, items[i].variantId, 1, freshId), items[i].variantId)
  {
    StepControls(items, i, Plus);
    CartLines.AddLineQuantityOf(items, cartId, items[i].variantId, 1, freshId, items[i].variantId);
    OneLineQuantity(items, i);
  }

  /** In a cart with one line per variant, the quantity held of a line's variant is that line's. */
  lemma {:induction false} OneLineQuantity(items: seq<CartItem>, i: int)
    requires CartLines.UniqueVariants(items) && 0 <= i < |items|
    ensures CartLines.QuantityOf(items, items[i].variantId) == items[i].quantity
    decreases |items|
  {
    var v := items[i].variantId;
    if i == 0 {
      assert !CartLines.HasLine(items[1..], v) by {
        forall j | 0 <= j < |items[1..]| ensures items[1..][j].variantId != v {
          assert items[1..][j] == items[j + 1];
        }
      }
      CartLines.QuantityOfAbsent(items[1..], v);
    } else {
      assert items[1..][i - 1] == items[i];
      OneLineQuantity(items[1..], i - 1);
    }
  }

  /** The two figures of the panel's footer, "Subtotal" and "Total". */
  datatype Footer = Footer(subtotal: int, total: int)

  /** Both figures are the subtotal: the panel adds neither shipping nor tax. */
  function FooterOf(ds: seq<DetailedItem>): (f: Footer)
    ensures f.subtotal == f.total
    ensures f.total == ComputeBreakdown(ds).subtotal
  {
    var totalPrice := Subtotal(ds);
    Footer(totalPrice, totalPrice)
  }

  /** The checkout dialog's total exceeds the panel's by exactly the shipping and the tax. */
  lemma CheckoutAddsShippingAndTax(ds: seq<DetailedItem>)
    ensures ComputeBreakdown(ds).total - FooterOf(ds).total as real ==
            ShippingCents as real + FooterOf(ds).total as real * TaxRate
  {
  }

  /** The cart icon shows a count badge only when the cart holds something. */
  predicate BadgeShown(ds: seq<DetailedItem>)
  {
    TotalItems(ds) > 0
  }

  /** With quantities of at least 1, the badge is shown exactly when the cart has a line. */
  lemma {:induction false} BadgeShownIffLines(ds: seq<DetailedItem>)
    requires forall i :: 0 <= i < |ds| ==> ds[i].item.quantity >= 1
    ensures BadgeShown(ds) <==> |ds| > 0
    ensures TotalItems(ds) >= |ds|
    decreases |ds|
  {
    if ds != [] {
      BadgeShownIffLines(ds[1..]);
    }
  }

  /** "Proceed to Checkout" is enabled. */
  predicate CheckoutEnabled(isLoading: bool, ds: seq<DetailedItem>)
  {
    !isLoading && |ds| > 0
  }

  /** When nothing is loading, checkout is offered exactly when the cart icon shows a badge. */
  lemma CheckoutEnabledIffBadge(ds: seq<DetailedItem>)
    requires forall i :: 0 <= i < |ds| ==> ds[i].item.quantity >= 1
    ensures CheckoutEnabled(false, ds) <==> BadgeShown(ds)
  {
    BadgeShownIffLines(ds);
  }
}
