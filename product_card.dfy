/**
 * The storefront's product card (src/components/ProductCard.tsx): the selected variant and
 * quantity, the add-to-cart guard, when the compare-at price is struck through, and the
 * tag badges.
 */
module ProductView {
  import opened Collections
  import opened Records
  import opened Text

  /** The selection a card starts with: the first variant, or none when there is none. */
  function InitialSelection(variants: seq<Variant>): (r: Option<Variant>)
    ensures r.None? <==> variants == []
    ensures r.Some? ==> r.value == variants[0]
  {
    if |variants| > 0 then Some(variants[0]) else None
  }

  /** The variant select is rendered. */
  predicate ChooserShown(variants: seq<Variant>)
  {
    |variants| > 1
  }

  /** Without the select there is at most one variant, and the card starts on it. */
  lemma NoChooserMeansOnlyVariant(variants: seq<Variant>)
    requires !ChooserShown(variants)
    ensures forall i :: 0 <= i < |variants| ==> InitialSelection(variants) == Some(variants[i])
  {
  }

  /** The label of a variant in the select: its title, or Default when it has none. */
  function VariantLabel(v: Variant): (s: string)
    ensures s != ""
    ensures v.title.Some? && v.title.value != "" ==> s == v.title.value
  {
    if v.title.Some? && v.title.value != "" then v.title.value else "Default"
  }

  /** The quantities the quantity select offers. */
  const QuantityOptions: seq<int> := [1, 2, 3, 4, 5]

  /**
   * The compare-at price is struck through: it is present, not zero (zero is falsy), and
   * strictly above the price.
   */
  predicate CompareAtShown(v: Variant)
  {
    v.compareAtPrice.Some? && v.compareAtPrice.value != 0 && v.compareAtPrice.value > v.price
  }

  /** For a price that is not negative, the zero test is redundant: shown exactly when defined and above the price. */
  lemma CompareAtShownIff(v: Variant)
    requires v.price >= 0
    ensures CompareAtShown(v) <==> v.compareAtPrice.Some? && v.compareAtPrice.value > v.price
  {
  }

  /**
   * Example: a negative price with a compare-at price of zero, the one case where "above the
   * price" is not enough, because zero is falsy.
   */
  lemma ZeroCompareAtHidden()
    ensures var v := Variant("v", "p", None, None, -100, Some(0), true);
            v.compareAtPrice.value > v.price && !CompareAtShown(v)
  {
  }

  /** Each piece trimmed, in order. */
  function TrimAll(parts: seq<string>): (r: seq<string>)
    ensures |r| == |parts|
    ensures forall i :: 0 <= i < |parts| ==> r[i] == Trim(parts[i])
  {
    if parts == [] then [] else [Trim(parts[0])] + TrimAll(parts[1..])
  }

  /** The tag badges: the comma-separated pieces of the tags string, each trimmed, in order; none without tags. */
  function Tags(tags: Option<string>): (r: seq<string>)
    ensures tags.None? || tags.value == "" ==> r == []
    ensures tags.Some? && tags.value != "" ==> r == TrimAll(Split(tags.value, ','))
  {
    if tags.Some? && tags.value != "" then TrimAll(Split(tags.value, ',')) else []
  }

  /**
   * A non-empty tags string gives one badge more than it has commas; no badge holds a
   * comma or starts or ends with whitespace, and each is a piece of the string.
   */
  lemma TagsShape(s: string)
    requires s != ""
    ensures |Tags(Some(s))| == Occurrences(s, ',') + 1
    ensures forall i :: 0 <= i < |Tags(Some(s))| ==> ',' !in Tags(Some(s))[i]
    ensures forall i :: 0 <= i < |Tags(Some(s))| ==>
              var t := Tags(Some(s))[i];
              t == [] || (!IsJsWhitespace(t[0]) && !IsJsWhitespace(t[|t| - 1]))
    ensures Join(Split(s, ','), ',') == s
  {
    SplitLength(s, ',');
    JoinSplit(s, ',');
    var parts := Split(s, ',');
    forall i | 0 <= i < |parts|
      ensures ',' !in Trim(parts[i])
    {
      var t := Trim(parts[i]);
      var k := TrimStartLength(parts[i]);
      forall j | 0 <= j < |t| ensures t[j] != ',' {
        assert t[j] == parts[i][k + j];
      }
    }
  }

  /** What the card hands to the page's `onAddToCart`. */
  datatype AddRequest = AddRequest(variantId: string, quantity: int)

  /** The card's state; the product and its variants are fixed props. */
  class ProductCard {
    const product: Product
    const variants: seq<Variant>
    var selected: Option<Variant>
    var quantity: int
    var isAdding: bool

    /** The selection is one of the card's variants, and the quantity one the select offers. */
    predicate Valid()
      reads this
    {
      (selected.Some? ==> selected.value in variants) && quantity in QuantityOptions
    }

    /** First variant selected, quantity 1, not adding. */
    constructor (p: Product, vs: seq<Variant>)
      ensures product == p && variants == vs
      ensures selected == InitialSelection(vs) && quantity == 1 && !isAdding
      ensures Valid()
    {
      product := p;
      variants := vs;
      selected := if |vs| > 0 then Some(vs[0]) else None;
      quantity := 1;
      isAdding := false;
    }

    /** The variant select: the first variant with the chosen id, or none when no variant has it. */
    method ChooseVariant(value: string)
      requires Valid()
      modifies this`selected
      ensures selected == FindVariant(variants, value)
      ensures selected.None? <==> forall i :: 0 <= i < |variants| ==> variants[i].id != value
      ensures Valid()
    {
      selected := FindWhere(variants, VariantHasId(value));
    }

    /** The quantity select. */
    method ChooseQuantity(value: int)
      requires Valid() && value in QuantityOptions
      modifies this`quantity
      ensures quantity == value && Valid()
    {
      quantity := value;
    }

    /** "Add to Cart" is enabled. */
    predicate AddEnabled()
      reads this
    {
      selected.Some? && !isAdding
    }

    /**
     * The first half of `handleAddToCart`: nothing happens without a selection; otherwise
     * the card is marked adding and the request carries the selected id and quantity.
     */
    method StartAdd() returns (req: Option<AddRequest>)
      requires Valid()
      modifies this`isAdding
      ensures selected.None? ==> req.None? && isAdding == old(isAdding)
      ensures selected.Some? ==> req == Some(AddRequest(selected.value.id, quantity)) && isAdding
      ensures req.Some? ==> 1 <= req.value.quantity <= 5 && !AddEnabled()
      ensures req.Some? ==> exists i :: 0 <= i < |variants| && variants[i].id == req.value.variantId
    {
      if selected.None? {
        return None;
      }
      isAdding := true;
      req := Some(AddRequest(selected.value.id, quantity));
    }

    /** The `finally` of `handleAddToCart`, whether the page's add succeeded or not. */
    method FinishAdd()
      modifies this`isAdding
      ensures !isAdding
    {
      isAdding := false;
    }
  }
}
