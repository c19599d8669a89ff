/**
 * The price breakdown shown by the checkout dialog (src/components/CheckoutForm.tsx) and the
 * cart panel (src/components/ShoppingCart.tsx). Amounts are integer cents. The 8 % tax is
 * kept exact as a `real`; the only rounding is the one `Math.round` applies to the payment
 * amount, which rounds half-way values up.
 */
module Pricing {
  import opened Collections
  import opened Records

  /** The flat shipping charge of 15.00, for every cart, an empty one included. */
  const ShippingCents: int := 1500

  /** The flat tax rate of 8 %. */
  const TaxRate: real := 0.08

  function LineQuantity(d: DetailedItem): int { d.item.quantity }

  /** What one line adds to the subtotal: price × quantity, or 0 when its variant is unresolved. */
  function LineValue(d: DetailedItem): int
  {
    if d.variant.Some? then d.variant.value.price * d.item.quantity else 0
  }

  /** The amount shown next to a line: present exactly when its variant is resolved ('N/A' otherwise). */
  function LineTotal(d: DetailedItem): (r: Option<int>)
    ensures r.Some? <==> d.variant.Some?
    ensures r.Some? ==> r.value == LineValue(d)
    ensures r.None? ==> LineValue(d) == 0
  {
    match d.variant
    case Some(v) => Some(v.price * d.item.quantity)
    case None => None
  }

  /** `items.reduce((sum, item) => sum + item.quantity, 0)`. */
  function TotalItems(ds: seq<DetailedItem>): int
  {
    Sum(ds, LineQuantity)
  }

  /** `items.reduce((sum, item) => item.variant ? sum + price * quantity : sum, 0)`. */
  function Subtotal(ds: seq<DetailedItem>): int
  {
    Sum(ds, LineValue)
  }

  predicate Resolved(d: DetailedItem) { d.variant.Some? }

  /** The subtotal of a concatenation is the sum of the subtotals. */
  lemma SubtotalConcat(a: seq<DetailedItem>, b: seq<DetailedItem>)
    ensures Subtotal(a + b) == Subtotal(a) + Subtotal(b)
  {
    SumConcat(a, b, LineValue);
  }

  /** Lines whose variant is unresolved contribute nothing: dropping them keeps the subtotal. */
  lemma {:induction false} SubtotalIgnoresUnresolved(ds: seq<DetailedItem>)
    ensures Subtotal(Filter(ds, Resolved)) == Subtotal(ds)
  {
    if ds != [] {
      SubtotalIgnoresUnresolved(ds[1..]);
      var head := if Resolved(ds[0]) then [ds[0]] else [];
      SubtotalConcat(head, Filter(ds[1..], Resolved));
    }
  }

  /** With non-negative prices and quantities the subtotal is non-negative. */
  lemma {:induction false} SubtotalNonNegative(ds: seq<DetailedItem>)
    requires forall i :: 0 <= i < |ds| ==> ds[i].item.quantity >= 0
    requires forall i :: 0 <= i < |ds| && ds[i].variant.Some? ==> ds[i].variant.value.price >= 0
    ensures Subtotal(ds) >= 0
  {
    if ds != [] {
      SubtotalNonNegative(ds[1..]);
      assert LineValue(ds[0]) >= 0;
    }
  }

  /** The four figures of the checkout summary; `tax` and `total` are exact. */
  datatype Breakdown = Breakdown(subtotal: int, shipping: int, tax: real, total: real)

  /**
   * `totalPrice`, `shippingCost`, `tax` and `finalTotal`, in cents. The source's promise is
   * these formulas themselves, so the contract states them; what they imply is proved in
   * `SubtotalConcat`, `SubtotalIgnoresUnresolved` and `PaymentAmount`.
   */
  function ComputeBreakdown(ds: seq<DetailedItem>): (b: Breakdown)
    ensures b.subtotal == Subtotal(ds)
    ensures b.shipping == ShippingCents
    ensures b.tax == b.subtotal as real * TaxRate
    ensures b.total == b.subtotal as real + b.shipping as real + b.tax
  {
    var sub := Subtotal(ds);
    var tax := sub as real * TaxRate;
    Breakdown(sub, ShippingCents, tax, sub as real + ShippingCents as real + tax)
  }

  /** `Math.round`: the nearest integer, half-way values going up. */
  function RoundHalfUp(x: real): (n: int)
    ensures n as real - 0.5 <= x < n as real + 0.5
  {
    (x + 0.5).Floor
  }

  /** Rounding `k / 100` half up is integer division of `k + 50` by 100. */
  lemma RoundHundredths(k: int)
    ensures RoundHalfUp(k as real / 100.0) == (k + 50) / 100
  {
    var q, m := (k + 50) / 100, (k + 50) % 100;
    assert k + 50 == 100 * q + m && 0 <= m < 100;
    assert k as real / 100.0 + 0.5 == q as real + m as real / 100.0;
  }

  /** `Math.round(finalTotal * 100)`: the amount handed to the payment form, in cents. */
  function PaymentAmount(ds: seq<DetailedItem>): (cents: int)
    ensures cents as real - 0.5 <= ComputeBreakdown(ds).total < cents as real + 0.5
    ensures cents == Subtotal(ds) + ShippingCents + (8 * Subtotal(ds) + 50) / 100
  {
    var b := ComputeBreakdown(ds);
    RoundHundredths(8 * b.subtotal);
    assert b.total == (b.subtotal + ShippingCents) as real + (8 * b.subtotal) as real / 100.0;
    assert RoundHalfUp(b.total) == b.subtotal + ShippingCents + RoundHalfUp((8 * b.subtotal) as real / 100.0);
    RoundHalfUp(b.total)
  }

  /**
   * Example: the cart with lines (299.99 × 1) and (189.99 × 2): subtotal 679.97, tax 54.3976,
   * total 749.3676, charged as 74937 cents.
   */
  lemma PaymentAmountExample()
    ensures var ds := [DetailedItem(CartItem("a", "c", "1-s", 1), Some(Variant("1-s", "1", None, None, 29999, None, true)), None),
                       DetailedItem(CartItem("b", "c", "2-s", 2), Some(Variant("2-s", "2", None, None, 18999, None, true)), None)];
            Subtotal(ds) == 67997 && PaymentAmount(ds) == 74937
  {
    var ds := [DetailedItem(CartItem("a", "c", "1-s", 1), Some(Variant("1-s", "1", None, None, 29999, None, true)), None),
               DetailedItem(CartItem("b", "c", "2-s", 2), Some(Variant("2-s", "2", None, None, 18999, None, true)), None)];
    assert ds[1..][1..] == [];
    assert LineValue(ds[1]) == 37998;
    assert Sum(ds[1..], LineValue) == LineValue(ds[1]) + Sum(ds[1..][1..], LineValue);
    assert Subtotal(ds) == LineValue(ds[0]) + Subtotal(ds[1..]);
  }
}
