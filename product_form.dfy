/**
 * The admin product editor (src/components/admin/ProductForm.tsx): the editable variant
 * list, its add / remove / update operations, and `onSubmit`, which validates every variant
 * before saving anything and then saves the product and each variant in list order.
 * The product fields themselves (checked by a schema library) are not modelled; the
 * requests are described by what they write and to which row.
 */
module ProductEditor {
  import opened Collections
  import opened Records
  import opened Text

  /** A variant being edited; `isNew` marks one that has no row yet. */
  datatype Draft = Draft(id: string, productId: string, title: Option<string>, sku: Option<string>,
                         price: int, compareAtPrice: Option<int>, taxable: bool, isNew: bool)

  /** A new product starts with one variant: titled Default, free, taxable, not yet saved. */
  const NewProductDrafts: seq<Draft> := [Draft("new-1", "", Some("Default"), None, 0, None, true, true)]

  /** A loaded variant row, as the editor holds it: it has a row, so it is not new. */
  function FromVariant(v: Variant): (d: Draft)
    ensures !d.isNew && d.id == v.id && d.productId == v.productId
    ensures d.title == v.title && d.sku == v.sku && d.price == v.price
    ensures d.compareAtPrice == v.compareAtPrice && d.taxable == v.taxable
  {
    Draft(v.id, v.productId, v.title, v.sku, v.price, v.compareAtPrice, v.taxable, false)
  }

  /** The variant list after `loadVariants` of a product being edited. */
  function LoadedDrafts(vs: seq<Variant>): (ds: seq<Draft>)
    ensures |ds| == |vs|
    ensures forall i :: 0 <= i < |vs| ==> ds[i] == FromVariant(vs[i])
  {
    if vs == [] then [] else [FromVariant(vs[0])] + LoadedDrafts(vs[1..])
  }

  /** The product id a new variant is given: the edited product's, or empty for a new product. */
  function OwnerId(editing: Option<Product>): string
  {
    if editing.Some? then editing.value.id else ""
  }

  /** The title of the variant added to a list of `n`: "Variant n+1". */
  function AddedTitle(n: nat): string
  {
    "Variant " + NatToString(n + 1)
  }

  /** `addVariant`: appends one new, free, taxable variant titled after the new length. */
  function AddVariant(ds: seq<Draft>, editing: Option<Product>, freshId: string): (r: seq<Draft>)
    ensures |r| == |ds| + 1 && r[..|ds|] == ds
    ensures r[|ds|] == Draft(freshId, OwnerId(editing), Some(AddedTitle(|ds|)), None, 0, None, true, true)
  {
    ds + [Draft(freshId, OwnerId(editing), Some("Variant " + NatToString(|ds| + 1)), None, 0, None, true, true)]
  }

  /** Distinct list lengths give distinct added titles. */
  lemma AddedTitlesDiffer(m: nat, n: nat)
    requires m != n
    ensures AddedTitle(m) != AddedTitle(n)
  {
    ParseNatToString(m + 1);
    ParseNatToString(n + 1);
    assert AddedTitle(m)[8..] == NatToString(m + 1);
    assert AddedTitle(n)[8..] == NatToString(n + 1);
  }

  /** `filter((_, i) => i !== index)`: every element except the one at `index`. */
  function DropIndex(ds: seq<Draft>, index: int): (r: seq<Draft>)
    ensures 0 <= index < |ds| ==> r == ds[..index] + ds[index + 1..]
    ensures !(0 <= index < |ds|) ==> r == ds
  {
    if ds == [] then []
    else
      var rest := DropIndex(ds[1..], index - 1);
      if index == 0 then
        assert rest == ds[1..];
        rest
      else
        assert 0 < index < |ds| ==> ds[1..][..index - 1] + ds[1..][index..] == ds[1..index] + ds[index + 1..];
        [ds[0]] + rest
  }

  /**
   * `removeVariant`: a list of one variant is left as it is (the removal is refused);
   * otherwise the element at `index` is dropped and the others keep their order.
   */
  function RemoveVariant(ds: seq<Draft>, index: int): (r: seq<Draft>)
    ensures |ds| == 1 ==> r == ds
    ensures |ds| != 1 && 0 <= index < |ds| ==> r == ds[..index] + ds[index + 1..] && |r| == |ds| - 1
    ensures !(0 <= index < |ds|) ==> r == ds
    ensures ds != [] ==> r != []
  {
    if |ds| == 1 then ds else DropIndex(ds, index)
  }

  /** Removing the variant just added gives back the list, as long as the list was not empty. */
  lemma RemoveUndoesAdd(ds: seq<Draft>, editing: Option<Product>, freshId: string)
    requires ds != []
    ensures RemoveVariant(AddVariant(ds, editing, freshId), |ds|) == ds
  {
  }

  /** Example: on an empty edited list the added variant is the only one, and removing it is refused. */
  lemma AddToEmptyCannotBeUndone(editing: Option<Product>, freshId: string)
    ensures RemoveVariant(AddVariant([], editing, freshId), 0) == AddVariant([], editing, freshId)
  {
  }

  /** The fields the variant editor can change, each with its new value. */
  datatype Edit = SetTitle(title: string) | SetSku(sku: string) | SetPrice(price: int) |
                  SetCompareAt(compareAt: Option<int>)

  /** One field of a draft replaced; every other field, the id and newness included, kept. */
  function Apply(d: Draft, e: Edit): (r: Draft)
    ensures r.id == d.id && r.productId == d.productId && r.taxable == d.taxable && r.isNew == d.isNew
    ensures r.title == (if e.SetTitle? then Some(e.title) else d.title)
    ensures r.sku == (if e.SetSku? then Some(e.sku) else d.sku)
    ensures r.price == (if e.SetPrice? then e.price else d.price)
    ensures r.compareAtPrice == (if e.SetCompareAt? then e.compareAt else d.compareAtPrice)
  {
    match e
    case SetTitle(t) => d.(title := Some(t))
    case SetSku(s) => d.(sku := Some(s))
    case SetPrice(p) => d.(price := p)
    case SetCompareAt(c) => d.(compareAtPrice := c)
  }

  /** `updateVariant`: a copy of the list with the element at `index` edited. */
  function UpdateVariant(ds: seq<Draft>, index: int, e: Edit): (r: seq<Draft>)
    requires 0 <= index < |ds|
    ensures |r| == |ds|
    ensures r[index] == Apply(ds[index], e)
    ensures forall j :: 0 <= j < |ds| && j != index ==> r[j] == ds[j]
  {
    ds[index := Apply(ds[index], e)]
  }

  /** What `onSubmit` accepts: a non-empty title and a price that is not negative. */
  predicate ValidDraft(d: Draft)
  {
    d.title.Some? && d.title.value != "" && d.price >= 0
  }

  predicate AllValid(ds: seq<Draft>)
  {
    forall i :: 0 <= i < |ds| ==> ValidDraft(ds[i])
  }


  /** The variants before the added one are the old list's. */
  lemma AddKeepsOthers(ds: seq<Draft>, editing: Option<Product>, freshId: string)
    ensures forall i :: 0 <= i < |ds| ==> AddVariant(ds, editing, freshId)[i] == ds[i]
  {
    var r := AddVariant(ds, editing, freshId);
    forall i | 0 <= i < |ds| ensures r[i] == ds[i] {
      assert r[..|ds|][i] == r[i];
    }
  }

  /** After a removal, the variants before `index` stay where they were and the later ones move down one place. */
  lemma RemoveShifts(ds: seq<Draft>, index: int)
    requires 0 <= index < |ds| && |ds| != 1
    ensures forall i :: 0 <= i < |RemoveVariant(ds, index)| ==>
              RemoveVariant(ds, index)[i] == (if i < index then ds[i] else ds[i + 1])
  {
    var s := RemoveVariant(ds, index);
    assert s == ds[..index] + ds[index + 1..];
    forall i | 0 <= i < |s| ensures s[i] == (if i < index then ds[i] else ds[i + 1]) {
      if i < index {
        assert s[i] == ds[..index][i];
      } else {
        assert s[i] == ds[index + 1..][i - index];
      }
    }
  }

  /** Adding keeps a valid list valid: the added variant has a title and price 0. */
  lemma AddKeepsValid(ds: seq<Draft>, editing: Option<Product>, freshId: string)
    requires AllValid(ds)
    ensures AllValid(AddVariant(ds, editing, freshId))
  {
    AddKeepsOthers(ds, editing, freshId);
    assert AddedTitle(|ds|)[0] == 'V';
  }

  /** Removing keeps a valid list valid; only edits can make it invalid. */
  lemma RemoveKeepsValid(ds: seq<Draft>, index: int)
    requires AllValid(ds)
    ensures AllValid(RemoveVariant(ds, index))
  {
    if 0 <= index < |ds| && |ds| != 1 {
      RemoveShifts(ds, index);
    }
  }

  predicate AllNew(ds: seq<Draft>)
  {
    forall i :: 0 <= i < |ds| ==> ds[i].isNew
  }

  /** The starting list of a new product is one variant, not yet saved, that passes validation. */
  lemma NewProductDraftsValid()
    ensures AllValid(NewProductDrafts) && AllNew(NewProductDrafts) && |NewProductDrafts| == 1
  {
  }

  /** A list of new variants still holds only new ones after an add. */
  lemma AddKeepsAllNew(ds: seq<Draft>, editing: Option<Product>, freshId: string)
    requires AllNew(ds)
    ensures AllNew(AddVariant(ds, editing, freshId))
  {
    AddKeepsOthers(ds, editing, freshId);
  }

  /** A list of new variants still holds only new ones after a removal. */
  lemma RemoveKeepsAllNew(ds: seq<Draft>, index: int)
    requires AllNew(ds)
    ensures AllNew(RemoveVariant(ds, index))
  {
    if 0 <= index < |ds| && |ds| != 1 {
      RemoveShifts(ds, index);
    }
  }

  /** An edit never changes whether a variant is new. */
  lemma UpdateKeepsAllNew(ds: seq<Draft>, index: int, e: Edit)
    requires AllNew(ds) && 0 <= index < |ds|
    ensures AllNew(UpdateVariant(ds, index, e))
  {
  }

  /** How the product itself is saved. */
  datatype ProductRequest = UpdateProduct(productId: string) | CreateProduct

  /** How one variant is saved: the draft with the saved product's id, as an insert or an update of its row. */
  datatype VariantRequest = CreateVariant(data: Draft) | UpdateVariantRow(variantId: string, data: Draft)

  /** The outcome of `onSubmit`: refused by validation with nothing saved, or the saves it issues, in order. */
  datatype Submission = Rejected | Saved(product: ProductRequest, variants: seq<VariantRequest>)

  function ProductRequestFor(editing: Option<Product>): ProductRequest
  {
    if editing.Some? then UpdateProduct(editing.value.id) else CreateProduct
  }

  /** The id the variants are saved under: the edited product's, or the id the store gave the new one. */
  function SavedProductId(editing: Option<Product>, createdId: string): string
  {
    if editing.Some? then editing.value.id else createdId
  }

  /** The save of one variant under product `productId`: new drafts are inserted, the others updated by id. */
  function SaveRequest(d: Draft, productId: string): (r: VariantRequest)
    ensures r.data == d.(productId := productId)
    ensures r.CreateVariant? <==> d.isNew
    ensures r.UpdateVariantRow? ==> r.variantId == d.id
  {
    if d.isNew then CreateVariant(d.(productId := productId)) else UpdateVariantRow(d.id, d.(productId := productId))
  }

  /**
   * `onSubmit`: the first loop refuses the submission, before any save, if some variant has
   * no title or a negative price; otherwise the product is saved, then every variant in list
   * order. `createdId` is the id the store assigns to a newly created product.
   */
  method Submit(ds: seq<Draft>, editing: Option<Product>, createdId: string) returns (s: Submission)
    ensures s.Rejected? <==> !AllValid(ds)
    ensures s.Saved? ==> s.product == ProductRequestFor(editing)
    ensures s.Saved? ==> |s.variants| == |ds|
    ensures s.Saved? ==> forall k :: 0 <= k < |ds| ==>
              s.variants[k] == SaveRequest(ds[k], SavedProductId(editing, createdId))
  {
    for i := 0 to |ds|
      invariant forall k :: 0 <= k < i ==> ValidDraft(ds[k])
    {
      if ds[i].title.None? || ds[i].title.value == "" || ds[i].price < 0 {
        return Rejected;
      }
    }
    var productRequest: ProductRequest;
    var productId: string;
    if editing.Some? {
      productRequest := UpdateProduct(editing.value.id);
      productId := editing.value.id;
    } else {
      productRequest := CreateProduct;
      productId := createdId;
    }
    var requests: seq<VariantRequest> := [];
    for i := 0 to |ds|
      invariant |requests| == i
      invariant forall k :: 0 <= k < i ==> requests[k] == SaveRequest(ds[k], productId)
    {
      var data := ds[i].(productId := productId);
      if ds[i].isNew {
        requests := requests + [CreateVariant(data)];
      } else {
        requests := requests + [UpdateVariantRow(ds[i].id, data)];
      }
    }
    s := Saved(productRequest, requests);
  }

  /** A new product's variants are all inserted, all under the id the store gave the product. */
  lemma NewProductSavesOnlyCreates(ds: seq<Draft>, createdId: string, k: int)
    requires AllNew(ds) && 0 <= k < |ds|
    ensures SaveRequest(ds[k], SavedProductId(None, createdId)) == CreateVariant(ds[k].(productId := createdId))
  {
  }

  /** An edited product's loaded variants are all updated in place, under the product's own id. */
  lemma LoadedVariantsAreUpdated(p: Product, vs: seq<Variant>, k: int)
    requires 0 <= k < |vs|
    ensures SaveRequest(LoadedDrafts(vs)[k], SavedProductId(Some(p), "")) ==
            UpdateVariantRow(vs[k].id, FromVariant(vs[k]).(productId := p.id))
  {
  }
}
