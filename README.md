# Storefront rules, modelled and proved in Dafny

This project models the core of a small storefront web application. It covers:

- the shopper's cart: adding merges into an existing line, and an update to a quantity of 0 or less deletes the line;
- the same rules as read-then-write request sequences against a hosted table store;
- the price breakdown of the cart panel and the checkout dialog;
- the checkout dialog's validation and step machine;
- the admin orders screen: statuses and badge styles, search, summary figures, and the reload after a status change;
- the admin catalogue screen: products joined with variants, the price range, search and counts;
- the product editor's variant list and its two-loop submit;
- the product card's selection, compare-at price and tag badges;
- the path the click tracker records for an element.

Money is integer cents. The 8 % tax stays exact as a `real`. The only rounding is the one `Math.round` applies to the payment amount, which is half up. Strings are sequences of characters, and lower-casing affects only A-Z.

The table store is a class whose fields are the tables (`Store.TableStore`). Each request that can fail is a boolean parameter (`ok`, `writeOk`, …). A `false` stands for the exception the request helper raises, and the call then returns `Failed`. Random ids, timestamps and the id the store assigns to a new row are parameters too (`freshId`, `createdId`).

Modules follow the source files:

| module | file | source |
|---|---|---|
| `Collections`, `Text` | `collections.dfy`, `text.dfy` | the array and string operations of JavaScript the code relies on |
| `SearchBox` | `search.dfy` | the search filter both admin screens share, over the fields each one searches |
| `Records` | `records.dfy` | row types of `src/lib/api.ts` and the `find`/`filter` lookups |
| `CartLines` | `cart.dfy` | `src/pages/Index.tsx` |
| `Store` | `store.dfy` | `src/lib/api.ts` |
| `Pricing`, `Checkout` | `pricing.dfy`, `checkout.dfy` | `src/components/CheckoutForm.tsx` |
| `CartPanel` | `cart_panel.dfy` | `src/components/ShoppingCart.tsx` |
| `OrdersAdmin` | `orders_admin.dfy` | `src/components/admin/OrdersManagement.tsx` |
| `ProductsAdmin` | `products_admin.dfy` | `src/components/admin/ProductsManagement.tsx` |
| `ProductEditor` | `product_form.dfy` | `src/components/admin/ProductForm.tsx` |
| `ProductView` | `product_card.dfy` | `src/components/ProductCard.tsx` |
| `ElementPath` | `xpath.dfy` | `src/hooks/useEventTracking.ts` |

A few places where the repository's written description and its code differ; the model follows the code in each:

- The on-hold status is stored as `ON-HOLD`, with a hyphen. `ON_HOLD` is not a status: it gets the default badge style (`OrdersAdmin.UnderscoreOnHoldIsUnknown`).
- The tax is not rounded on its own. Only the final amount is rounded, half up rather than half to even. The example cart still comes to 74937 cents (`Pricing.PaymentAmountExample`).

## Model

| member | source | states |
|---|---|---|
| Records.FindVariant | src/pages/Index.tsx:127 | `variants.find` by id: none exactly when no variant has the id; otherwise the variant at the first index holding it |
| Records.FindProduct | src/pages/Index.tsx:128 | `products.find` by id: none exactly when no product has the id; otherwise the first product with it |
| Records.VariantsOf | src/pages/Index.tsx:120-122 | a product's variants: only variants with that product id, all of them, none added |
| Records.VariantsOfKeepsOrder | src/pages/Index.tsx:120-122 | the variants keep their order: filtering a split list is filtering each part, and one variant is kept exactly when it has the product id |
| CartLines.LineIndex | src/pages/Index.tsx:137 | `findIndex` by variant: -1 exactly when no line holds the variant, otherwise the first line holding it |
| CartLines.AddLine | src/pages/Index.tsx:134-153 | an add keeps the line count when the variant is present; otherwise it appends one line with the cart id, variant and quantity; ids and keys are never changed, only the merged line differs, and the variant is held afterwards |
| CartLines.AddLineQuantityOf | src/pages/Index.tsx:137-142 | adding raises the quantity held of that variant by exactly the amount added and leaves every other variant's quantity alone |
| CartLines.AddLineTotalQuantity | src/pages/Index.tsx:132-153 | adding raises the badge count by exactly the amount added |
| CartLines.AddLineKeepsUnique | src/pages/Index.tsx:137-153 | a cart with at most one line per variant keeps that shape through any add |
| CartLines.AddTwiceMerges | src/pages/Index.tsx:137-152 | adding an absent variant twice yields one line holding the sum of both amounts |
| CartLines.SetQuantity | src/pages/Index.tsx:180-184 | same length; lines of the variant get the new quantity, every other line is kept |
| CartLines.UpdateToZeroRemoves | src/pages/Index.tsx:173-174 | a quantity of 0 or less leaves no line of the variant; every other line is kept, nothing is added, and exactly the lines of that variant are dropped |
| CartLines.UpdatePositiveSetsLine | src/pages/Index.tsx:180-185 | a positive quantity overwrites, rather than adds to, what a one-line-per-variant cart holds of the variant |
| CartLines.QuantityOfAbsent | src/pages/Index.tsx:180-185 | a variant without a line is held with quantity 0 |
| CartLines.UpdateIdempotent | src/pages/Index.tsx:172-187 | repeating the same update changes nothing more |
| CartLines.UpdateKeepsUnique | src/pages/Index.tsx:172-187 | an update keeps a cart at one line per variant |
| CartLines.FilterKeepsUnique | src/pages/Index.tsx:174 | dropping lines cannot create two lines of one variant |
| CartLines.WithDetails | src/pages/Index.tsx:124-130 | the detail join keeps length and order; each line has the first variant with its id and the first product with that variant's product id, none when the variant is missing |
| CartLines.BadgeIsTotalQuantity | src/pages/Index.tsx:132 | the count over the joined lines is the sum of the cart's line quantities |
| CartLines.Storefront.constructor | src/pages/Index.tsx:108-118 | the start-up state: catalogue loaded, cart id `demo-cart-` followed by the session id, no lines |
| CartLines.Storefront.HandleAddToCart | src/pages/Index.tsx:134-153 | the in-place increment or append leaves the lines `AddLine` describes |
| CartLines.Storefront.HandleUpdateCartQuantity | src/pages/Index.tsx:172-187 | the new lines are the filter or the map the quantity selects |
| CartLines.Storefront.HandleCompleteOrder | src/pages/Index.tsx:197 | completing an order leaves an empty cart and a badge count of 0 |
| CartLines.Storefront.TotalCartItems | src/pages/Index.tsx:132 | the badge computed through the join equals the sum of line quantities |
| Store.SetRowQuantity | src/lib/api.ts:243-252 | same rows in the same order; those with both keys get the new quantity, the others are untouched |
| Store.AddRowsExisting | src/lib/api.ts:238-254 | with a matching row, every row with both keys gets the first one's quantity plus the amount added; no row is inserted and no other row changes |
| Store.AddRowsAbsent | src/lib/api.ts:255-265 | without a matching row, exactly one row with the two keys and the quantity is appended, and it is then the only match |
| Store.AddRowsReturned | src/lib/api.ts:238-265 | the row `addToCart` returns is the first stored row with both keys after the write |
| Store.SetRowQuantityKeepsFirst | src/lib/api.ts:243-254 | overwriting the quantity keeps the first matching row first |
| Store.SetRowQuantityFound | src/lib/api.ts:294-305 | after the overwrite the first matching row is found exactly when one existed before, and it carries the new quantity |
| Store.AddRowsKeepsOthers | src/lib/api.ts:226-266 | rows of other carts or other variants are never changed by an add, and no row is lost |
| Store.AddRowsAgreesWithPage | src/lib/api.ts:226-266 | on one cart's rows with one row per variant, the store's add gives the same lines as the page's in-memory add |
| Store.UpdateRowsAgreesWithPage | src/lib/api.ts:279-306 | on one cart's rows, the store's update gives the same lines as the page's in-memory update |
| Store.SetOrderStatus | src/lib/api.ts:383-393 | same orders in the same order; those with the id get the new status, the others are untouched |
| Store.OrderPayload | src/lib/api.ts:411-417 | customer, cart, `PENDING` and `USD` are defaults that the caller's fields override; the caller's other fields pass through unchanged |
| Store.OrderPayloadStable | src/lib/api.ts:411-417 | a payload that already names the four defaulted fields is sent as it is |
| Store.TableStore.constructor | src/lib/api.ts:168-422 | the tables start as given |
| Store.TableStore.GetProducts | src/lib/api.ts:169-182 | fails exactly when the request fails; otherwise it returns only products that are published and in stock, and all of them |
| Store.TableStore.GetProductVariants | src/lib/api.ts:184-198 | given a non-empty id, the variants of that product; with no id or an empty one, every variant |
| Store.TableStore.CreateCart | src/lib/api.ts:201-210 | inserts and returns an OPEN cart of the session; nothing is inserted when the request fails |
| Store.TableStore.GetCart | src/lib/api.ts:212-224 | the first OPEN cart of the session, or none when the session has none |
| Store.TableStore.AddToCart | src/lib/api.ts:226-266 | with both requests succeeding, the rows become `AddRows` and the row returned is `AddedRow`; any failure returns `Failed` with the rows unchanged |
| Store.TableStore.GetCartItems | src/lib/api.ts:268-277 | exactly the cart's rows, none of another cart |
| Store.TableStore.UpdateCartItemQuantity | src/lib/api.ts:279-306 | a quantity of 0 or less deletes the matching rows and returns null; a positive one overwrites them and returns the first, which exists exactly when a row matched; a failure changes nothing |
| Store.TableStore.GetAllProducts | src/lib/api.ts:309-318 | every product, drafts included |
| Store.TableStore.GetOrders | src/lib/api.ts:371-380 | every order, or `Failed` |
| Store.TableStore.UpdateOrderStatus | src/lib/api.ts:383-393 | the orders become `SetOrderStatus`; the returned order has the id and the new status and exists exactly when an order has the id |
| Store.TableStore.CreateOrder | src/lib/api.ts:407-422 | appends and returns the payload's row, whose status is `PENDING` and currency `USD` unless the caller gave others |
| Store.CreatedCartIsFound | src/lib/api.ts:201-224 | after `createCart`, `getCart` for the same session finds a cart |
| Pricing.LineTotal | src/components/ShoppingCart.tsx:146 | a line shows an amount exactly when its variant is resolved, and that amount is price × quantity |
| Pricing.SubtotalConcat | src/components/CheckoutForm.tsx:115-120 | the subtotal adds up over a split of the lines |
| Pricing.SubtotalIgnoresUnresolved | src/components/CheckoutForm.tsx:115-120 | lines without a resolved variant contribute nothing: dropping them keeps the subtotal |
| Pricing.SubtotalNonNegative | src/components/CheckoutForm.tsx:115-120 | with non-negative prices and quantities the subtotal is non-negative |
| Pricing.ComputeBreakdown | src/components/CheckoutForm.tsx:115-124 | shipping is 15.00 for every cart, an empty one included; tax is exactly 8 % of the subtotal; the total is subtotal + shipping + tax |
| Pricing.RoundHalfUp | src/components/CheckoutForm.tsx:207 | `Math.round` gives the integer within one half of its argument, half-way values going up |
| Pricing.RoundHundredths | src/components/CheckoutForm.tsx:207 | rounding a number of hundredths is integer division after adding 50 |
| Pricing.PaymentAmount | src/components/CheckoutForm.tsx:207 | the cents amount is within half a cent of the exact total, and equals subtotal + 1500 + round(8 % of subtotal) |
| Pricing.PaymentAmountExample | src/components/CheckoutForm.tsx:115-124 | lines (29999 × 1) and (18999 × 2) give subtotal 67997 and an amount of 74937 cents |
| Checkout.Validate | src/components/CheckoutForm.tsx:137-156 | proceeds exactly when every required customer and shipping field is filled; missing customer fields are reported first, then missing address fields |
| Checkout.Transition | src/components/CheckoutForm.tsx:156-191 | only the controls of the current step act; payment is reached only by a valid submit; processing is entered from payment and kept on a failed order |
| Checkout.OrderCycle | src/components/CheckoutForm.tsx:156-180 | a valid submit, a payment and a placed order bring the dialog back to info |
| Checkout.LeavingInfoNeedsValidSubmit | src/components/CheckoutForm.tsx:137-156 | no run of events leaves info without a submit that passed validation |
| Checkout.OrderDataOf | src/components/CheckoutForm.tsx:165-170 | billing is sent exactly when it is not the same as shipping; notes are sent exactly when not empty |
| Checkout.CheckoutFlow.constructor | src/components/CheckoutForm.tsx:74-113 | the dialog starts on info with blank forms, country US and billing same as shipping |
| Checkout.CheckoutFlow.Submit | src/components/CheckoutForm.tsx:133-157 | the verdict is `Validate`'s, and the step moves to payment exactly when it proceeds |
| Checkout.CheckoutFlow.Back | src/components/CheckoutForm.tsx:424 | "Back to Information" returns from payment to info |
| Checkout.CheckoutFlow.StartProcessing | src/components/CheckoutForm.tsx:159-170 | keeps the intent id, moves to processing, disables Continue, and sends `OrderDataOf` of the form |
| Checkout.CheckoutFlow.FinishProcessing | src/components/CheckoutForm.tsx:172-191 | a placed order resets to info with an empty intent id; a failed one stays on processing with its id; submission ends either way |
| CartPanel.UpdateKeepsPositive | src/components/ShoppingCart.tsx:123-161 | no button can leave a line with quantity 0 or less, because such a request deletes the line |
| CartPanel.RemovingControls | src/components/ShoppingCart.tsx:123-161 | trash, and minus on a line holding 1, delete the line's variant from the cart |
| CartPanel.StepControls | src/components/ShoppingCart.tsx:123-137 | plus holds one more of the line's variant and minus one fewer, while at least one remains |
| CartPanel.PlusAgreesWithAdd | src/components/ShoppingCart.tsx:137 | plus on a line and adding one more of that variant from the product card give the same quantity |
| CartPanel.OneLineQuantity | src/components/ShoppingCart.tsx:130 | in a cart with one line per variant, the quantity held of a line's variant is that line's quantity |
| CartPanel.FooterOf | src/components/ShoppingCart.tsx:176-185 | the panel's subtotal and total are the same figure, the checkout subtotal, with no shipping or tax |
| CartPanel.CheckoutAddsShippingAndTax | src/components/ShoppingCart.tsx:185 | the checkout total exceeds the panel total by exactly the shipping and the tax |
| CartPanel.BadgeShownIffLines | src/components/ShoppingCart.tsx:25-53 | with quantities of at least 1 the badge is shown exactly when the cart has a line, and the count is at least the number of lines |
| CartPanel.CheckoutEnabledIffBadge | src/components/ShoppingCart.tsx:194 | when nothing is loading, checkout is enabled exactly when the badge is shown |
| OrdersAdmin.ParseStatus | src/components/admin/OrdersManagement.tsx:66-77 | a recognised string is exactly the spelling of the status it is read as |
| OrdersAdmin.ParseStatusName | src/components/admin/OrdersManagement.tsx:66-77 | every status is read back from its spelling, so no two statuses share one |
| OrdersAdmin.UnderscoreOnHoldIsUnknown | src/components/admin/OrdersManagement.tsx:66-78 | `ON_HOLD` with an underscore is not a status and gets the default style |
| OrdersAdmin.StatusColor | src/components/admin/OrdersManagement.tsx:66-78 | defined on every string: the eight spellings get their status's style, anything else the default, which is the archived style |
| OrdersAdmin.StatusColorOfName | src/components/admin/OrdersManagement.tsx:68-75 | each of the eight spellings gets its own status's style |
| OrdersAdmin.Options | src/components/admin/OrdersManagement.tsx:219-251 | the select offers eight distinct entries, every status at its place |
| OrdersAdmin.NoTransitionGuard | src/components/admin/OrdersManagement.tsx:219-251 | the offered entries do not depend on the current status |
| OrdersAdmin.ViewsOf | src/components/admin/OrdersManagement.tsx:36-37 | one row per stored order, in order, with no customer name |
| SearchBox.Search | src/components/admin/OrdersManagement.tsx:54-57 | the shared search lists only rows where some searched field, lower-cased, includes the lower-cased query, and every such row |
| SearchBox.SearchConcat | src/components/admin/OrdersManagement.tsx:54-57 | the search never reorders rows: a split list is searched part by part |
| SearchBox.SearchOne | src/components/admin/OrdersManagement.tsx:54-57 | a single row is listed exactly when one of its fields is a hit |
| SearchBox.EmptyQueryKeepsAll | src/components/admin/OrdersManagement.tsx:54-57 | an empty query lists every row in its order, provided each row has a field to search |
| SearchBox.SearchIgnoresQueryCase | src/components/admin/OrdersManagement.tsx:54-57 | the search gives the same rows for a query and its lower-cased form, on either screen |
| OrdersAdmin.HitIsMatch | src/components/admin/OrdersManagement.tsx:55-56 | searching the id and the name, when present, is exactly the screen's test: the id or the name includes the query |
| OrdersAdmin.FilterOrders | src/components/admin/OrdersManagement.tsx:54-57 | exactly the rows whose lower-cased id or name contains the lower-cased query, none added |
| OrdersAdmin.FilterOrdersKeepsOrder | src/components/admin/OrdersManagement.tsx:54-57 | the rows keep their original order: a split list is filtered part by part, and one row is kept exactly when it matches |
| OrdersAdmin.EmptyQueryKeepsAll | src/components/admin/OrdersManagement.tsx:54-57 | an empty query keeps every row in its order, since every row has an id |
| OrdersAdmin.UnnamedRowsMatchById | src/components/admin/OrdersManagement.tsx:54-57 | for rows as loaded, which carry no name, a row is kept exactly when its id contains the query |
| OrdersAdmin.PendingCount | src/components/admin/OrdersManagement.tsx:157 | the number of rows with status PENDING or PROCESSING |
| OrdersAdmin.RevenueConcat | src/components/admin/OrdersManagement.tsx:146 | revenue adds up over a split of the rows |
| OrdersAdmin.CustomerIds | src/components/admin/OrdersManagement.tsx:168 | the set holds every row's customer id and nothing else, and is no larger than the row count |
| OrdersAdmin.UniqueCustomers | src/components/admin/OrdersManagement.tsx:168 | at most the number of rows, and at least 1 for a non-empty list |
| OrdersAdmin.StatusChangeKeepsFigures | src/components/admin/OrdersManagement.tsx:80-97 | a status change keeps the row count, the revenue and the set of customers |
| OrdersAdmin.OrdersPanel.constructor | src/components/admin/OrdersManagement.tsx:28-29 | no rows and loading before the first load |
| OrdersAdmin.OrdersPanel.LoadOrders | src/components/admin/OrdersManagement.tsx:32-48 | on success the rows are the store's orders; on failure they are kept; loading ends either way |
| OrdersAdmin.OrdersPanel.UpdateOrderStatus | src/components/admin/OrdersManagement.tsx:80-97 | the rows are reloaded only after the write succeeds; a failed write changes neither the store nor the rows |
| ProductsAdmin.WithVariants | src/components/admin/ProductsManagement.tsx:48-51 | one entry per product, in order, holding exactly the variants with that product's id |
| ProductsAdmin.IdCountOne | src/components/admin/ProductsManagement.tsx:48-51 | with unique product ids, a listed id is listed once |
| ProductsAdmin.IdCountAbsent | src/components/admin/ProductsManagement.tsx:48-51 | an unlisted id is counted 0 times |
| ProductsAdmin.GroupSizesCons | src/components/admin/ProductsManagement.tsx:48-51 | one more variant adds one to the group of each product with its product id |
| ProductsAdmin.GroupedSkusAddUp | src/components/admin/ProductsManagement.tsx:48-51 | with unique product ids and every variant owned by a listed product, the per-row variant counts add up to "Total SKUs" |
| ProductsAdmin.ZeroGroups | src/components/admin/ProductsManagement.tsx:48-51 | without variants every group is empty |
| ProductsAdmin.MinPrice | src/components/admin/ProductsManagement.tsx:86 | `Math.min` is at most every price and is some variant's price |
| ProductsAdmin.MaxPrice | src/components/admin/ProductsManagement.tsx:87 | `Math.max` is at least every price and is some variant's price |
| ProductsAdmin.PriceRange | src/components/admin/ProductsManagement.tsx:83-91 | "No variants" exactly for an empty list; one price when all prices agree; otherwise a range whose ends are a cheapest and a dearest variant's prices, low strictly below high |
| ProductsAdmin.DifferentPricesShowRange | src/components/admin/ProductsManagement.tsx:88-90 | two variants at different prices always show a range |
| ProductsAdmin.HitIsMatch | src/components/admin/ProductsManagement.tsx:72-73 | searching the name and the description, when present, is exactly the screen's test |
| ProductsAdmin.FilterProducts | src/components/admin/ProductsManagement.tsx:71-74 | exactly the products whose lower-cased name or description contains the lower-cased query, none added |
| ProductsAdmin.FilterProductsKeepsOrder | src/components/admin/ProductsManagement.tsx:71-74 | the products keep their original order: a split list is filtered part by part, and one product is kept exactly when it matches |
| ProductsAdmin.EmptyQueryKeepsAll | src/components/admin/ProductsManagement.tsx:71-74 | an empty query keeps every product in its order, since every product has a name |
| ProductsAdmin.FilterKeepsGroups | src/components/admin/ProductsManagement.tsx:48-74 | after filtering, each product still holds exactly its own variants |
| ProductsAdmin.GroupAt | src/components/admin/ProductsManagement.tsx:48-51 | the entry at each position is that product with its variants |
| ProductsAdmin.PublishedCount | src/components/admin/ProductsManagement.tsx:160 | the number of published products, equal to the product count exactly when all are published |
| ProductEditor.FromVariant | src/components/admin/ProductForm.tsx:95-103 | a loaded variant keeps all its fields and is not new |
| ProductEditor.LoadedDrafts | src/components/admin/ProductForm.tsx:95-103 | the list after loading has one draft per variant, in order |
| ProductEditor.AddVariant | src/components/admin/ProductForm.tsx:105-117 | appends exactly one new, free, taxable variant titled "Variant n+1" with the owner's id; the existing variants are kept |
| ProductEditor.AddedTitlesDiffer | src/components/admin/ProductForm.tsx:109 | lists of different lengths get different added titles |
| ProductEditor.DropIndex | src/components/admin/ProductForm.tsx:128 | drops exactly the element at the index, keeping the order of the others; an index out of range drops nothing |
| ProductEditor.RemoveVariant | src/components/admin/ProductForm.tsx:119-129 | a one-variant list is kept as it is; otherwise only the index is dropped; a non-empty list never becomes empty |
| ProductEditor.RemoveUndoesAdd | src/components/admin/ProductForm.tsx:105-129 | removing the variant just added gives back a non-empty list |
| ProductEditor.AddToEmptyCannotBeUndone | src/components/admin/ProductForm.tsx:119-127 | on an empty list the added variant is the only one, so its removal is refused |
| ProductEditor.Apply | src/components/admin/ProductForm.tsx:133 | exactly the named field changes; id, product id, taxability and newness are kept |
| ProductEditor.UpdateVariant | src/components/admin/ProductForm.tsx:131-135 | same length; the element at the index is edited, every other is unchanged |
| ProductEditor.AddKeepsOthers | src/components/admin/ProductForm.tsx:116 | the variants before the added one are the old list's |
| ProductEditor.RemoveShifts | src/components/admin/ProductForm.tsx:128 | variants before the removed index stay where they were, later ones move down one place |
| ProductEditor.AddKeepsValid | src/components/admin/ProductForm.tsx:105-117 | adding keeps a list that passes validation passing |
| ProductEditor.RemoveKeepsValid | src/components/admin/ProductForm.tsx:119-129 | removing keeps a list that passes validation passing |
| ProductEditor.NewProductDraftsValid | src/components/admin/ProductForm.tsx:82-91 | a new product starts with exactly one new variant, and it passes validation |
| ProductEditor.AddKeepsAllNew | src/components/admin/ProductForm.tsx:105-117 | a list of unsaved variants stays unsaved after an add |
| ProductEditor.RemoveKeepsAllNew | src/components/admin/ProductForm.tsx:119-129 | a list of unsaved variants stays unsaved after a removal |
| ProductEditor.UpdateKeepsAllNew | src/components/admin/ProductForm.tsx:131-135 | an edit never changes whether a variant is new |
| ProductEditor.SaveRequest | src/components/admin/ProductForm.tsx:164-174 | each variant is saved with the product's id; new ones are inserted, others updated by their own id |
| ProductEditor.Submit | src/components/admin/ProductForm.tsx:137-175 | refused, before any save, exactly when some variant lacks a title or has a negative price; otherwise the product save matching the mode, then one save per variant in list order |
| ProductEditor.NewProductSavesOnlyCreates | src/components/admin/ProductForm.tsx:158-174 | a new product's variants are all inserted under the id the store gave it |
| ProductEditor.LoadedVariantsAreUpdated | src/components/admin/ProductForm.tsx:155-174 | an edited product's loaded variants are all updated in place under its own id |
| ProductView.InitialSelection | src/components/ProductCard.tsx:16-18 | the first variant, or none exactly when there is none |
| ProductView.NoChooserMeansOnlyVariant | src/components/ProductCard.tsx:77 | without the select there is at most one variant and the card starts on it |
| ProductView.VariantLabel | src/components/ProductCard.tsx:96 | never empty: the title when it has one, otherwise Default |
| ProductView.CompareAtShownIff | src/components/ProductCard.tsx:115 | for a non-negative price, the compare-at price is shown exactly when defined and strictly above the price |
| ProductView.ZeroCompareAtHidden | src/components/ProductCard.tsx:115 | a compare-at price of 0 is hidden even above a negative price |
| ProductView.TrimAll | src/components/ProductCard.tsx:161-167 | each piece trimmed, in order, none lost |
| ProductView.Tags | src/components/ProductCard.tsx:159-169 | no badges without tags; otherwise the comma-separated pieces, each trimmed |
| ProductView.TagsShape | src/components/ProductCard.tsx:159-169 | one badge more than commas; no badge has a comma or surrounding whitespace; the untrimmed pieces joined by commas give the string back |
| ProductView.ProductCard.constructor | src/components/ProductCard.tsx:16-20 | first variant selected, quantity 1, not adding |
| ProductView.ProductCard.ChooseVariant | src/components/ProductCard.tsx:84-86 | the first variant with the chosen id, or none exactly when no variant has it |
| ProductView.ProductCard.ChooseQuantity | src/components/ProductCard.tsx:134-140 | the quantity becomes one of 1 to 5 |
| ProductView.ProductCard.StartAdd | src/components/ProductCard.tsx:22-27 | nothing happens without a selection; otherwise the request carries the selected id and a quantity in 1..5, and the button is disabled |
| ProductView.ProductCard.FinishAdd | src/components/ProductCard.tsx:28-30 | adding ends whether the page's add succeeded or not |
| ElementPath.ParentNotLeaf | src/hooks/useEventTracking.ts:85 | a node with a child is a document or an element |
| ElementPath.Step | src/hooks/useEventTracking.ts:91 | a child step starts with `/` |
| ElementPath.ElementXPath | src/hooks/useEventTracking.ts:75-99 | the method with the id test, the body test and the sibling loop computes `XPathAsWritten` |
| ElementPath.ScanSiblings | src/hooks/useEventTracking.ts:84-98 | the sibling loop counts earlier same-tag elements until it meets the element, then appends its step to the parent's path; without a parent it yields '' |
| ElementPath.PathOfStep | src/hooks/useEventTracking.ts:89-92 | an element without an id, other than the body and below a parent, gets its parent's path and one step |
| ElementPath.StepAppended | src/hooks/useEventTracking.ts:91 | the string built from the parent's path and the counter is that step |
| ElementPath.PositionBounds | src/hooks/useEventTracking.ts:91-95 | the index shown is at least 1 and at most the element's position plus 1 |
| ElementPath.LeavesNotCounted | src/hooks/useEventTracking.ts:93-95 | inserting a node that is not an element before the element does not change its index |
| ElementPath.Select | src/hooks/useEventTracking.ts:91 | the positional step selects a child element with the tag, when it selects anything |
| ElementPath.SelectFindsElement | src/hooks/useEventTracking.ts:84-92 | the step the path ends with selects the element itself among its siblings |
| ElementPath.IdShortcut | src/hooks/useEventTracking.ts:76-78 | an element with a non-empty id yields `id("…")` whatever surrounds it |
| ElementPath.DetachedRootIsEmpty | src/hooks/useEventTracking.ts:98 | an element with no parent, no id and not the body yields '' |
| ElementPath.XPathIsAbsolute | src/hooks/useEventTracking.ts:75-99 | with no ids on the route, the corrected path is '' or starts with `/`, and an element below the root gets a non-empty path |
| ElementPath.HtmlElementPath | src/hooks/useEventTracking.ts:75-99 | on a page with a doctype and `<html>`, the `<html>` element is recorded as `id("undefined")/html[1]`; the corrected path is `/html[1]` |
| ElementPath.SampleHtml | src/hooks/useEventTracking.ts:89-92 | on that page the `<html>` path is the document's contribution followed by `/html[1]` |
| ElementPath.SampleHtmlPosition | src/hooks/useEventTracking.ts:93-95 | the doctype before `<html>` is not counted, so its index is 1 |
| ElementPath.HtmlStep | src/hooks/useEventTracking.ts:91 | the step of the first HTML element is `/html[1]` |
| ElementPath.BodyPath | src/hooks/useEventTracking.ts:80-82 | the body yields `/html/body` under either definition |
| ElementPath.RecordedText | src/hooks/useEventTracking.ts:13 | the recorded text is a prefix of at most 50 characters, the whole text when it is no longer |
| Text.ToLower | src/components/admin/OrdersManagement.tsx:55 | same length; each character lower-cased, and only A-Z affected |
| Text.ToLowerIdempotent | src/components/admin/OrdersManagement.tsx:55 | lower-casing twice is lower-casing once |
| Text.ContainsIff | src/components/admin/OrdersManagement.tsx:55 | `includes` holds exactly when the query occurs at some position |
| Text.ContainsEmpty | src/components/admin/OrdersManagement.tsx:55 | every string includes the empty string |
| Text.Split | src/components/ProductCard.tsx:161 | at least one piece, none holding the separator |
| Text.JoinSplit | src/components/ProductCard.tsx:161 | joining the pieces with the separator gives back the string |
| Text.SplitLength | src/components/ProductCard.tsx:161 | one more piece than separators |
| Text.Trim | src/components/ProductCard.tsx:167 | a run of the string, neither starting nor ending with whitespace, with only whitespace outside it |
| Text.Prefix | src/hooks/useEventTracking.ts:13 | `substring(0, n)`: at most n characters, a prefix, all of a shorter string |
| Text.NatToString | src/components/admin/ProductForm.tsx:109 | at least one digit, digits only, no leading zero |
| Text.ParseNatToString | src/hooks/useEventTracking.ts:91 | reading the numeral back gives the number, so different numbers print differently |

## Findings

| source | as written | input that shows it | evidently intended | confidence | as-written member | corrected member |
|---|---|---|---|---|---|---|
| src/hooks/useEventTracking.ts:75-99 | the climb from `<html>` reaches the document, whose `id` is undefined rather than `''`, so the id test passes and the path starts with `id("undefined")` | `ElementPath.SamplePage` (a doctype, then `<html><head></head><body></body></html>`), for the `<html>` element | an absolute path, `/html[1]`, to which the document contributes nothing | not executed | ElementPath.HtmlElementPath | ElementPath.XPathIsAbsolute |

`ElementPath.ElementXPath` and `ElementPath.XPathAsWritten` are the code as written. `ElementPath.XPath` is the corrected definition. `XPathIsAbsolute` proves it yields '' or an absolute path for any route without ids.

## Left out

- Network transport: the HTTP request helper of src/lib/api.ts and its JSON handling are not modelled. A failed request is a boolean parameter of each call.
- A request that commits while its response is lost, after which the caller sees a failure although the table changed, is not modelled. Every write here either happens and is seen, or fails and changes nothing.
- Concurrent calls against one cart: calls are sequential.
- Request ordering: the `order_by` clauses (creation date, price) are not modelled. Rows come back in table order.
- Floating-point arithmetic: money is integer cents and tax an exact `real`, so results are exact.
- Currency formatting with `Intl.NumberFormat`: the model works on amounts, not their display strings.
- Randomness and time: ids from `Math.random` or `Date.now`, timestamps, and the 2-second delay of `handleCompleteOrder` are parameters or left out.
- Toasts, dialogs, every JSX element and every React effect: they are rendering.
- The Stripe payment form: it is represented only by the intent id it reports.
- Visitor tracking, the event listeners, the scroll throttle and `trackEvent`: this is I/O. Only `getElementXPath` and the 50-character excerpt are modelled.
- The product form's own fields and their schema validation library: only the variant list and the save requests are modelled. The product, variant and order writes of the editor are described by the requests they issue, not applied to `Store.TableStore`.
- `createCustomer`, `createLineItems` and the other calls the storefront does not use on the modelled paths.
- Store column defaults: absent order amounts are stored as 0.
- Store.OrderPayload: a field is either given or absent (`None`). A field present with the value `undefined` would still override the PENDING or USD default in the spread, and the model cannot express that.
- A save that fails halfway through the product editor's variant loop, leaving some variants saved, is not modelled; `ProductEditor.Submit` issues the whole plan.
- `createProduct` answering without a row, which leaves the new product's id undefined, is not modelled. The new id is the parameter `createdId`.
- The moment between the page's first render and the start-up effect setting the cart id is not modelled. `CartLines.Storefront.constructor` is the state after the effect.
- The failed-order path keeps the checkout dialog on the processing step, as the code does. Its spinner is rendering and is left out.
- Text.ToLower: only A-Z are lower-cased, not the full Unicode case mapping of `toLowerCase`.
- Text.Prefix: counts characters, not UTF-16 code units, so a text with characters outside the Basic Multilingual Plane is cut at a different place.
- CartLines.Storefront.HandleAddToCart: the source increments the shared line object in place, so the previous cart array is changed as well; the model replaces the line in a copy and does not capture that aliasing.
- ProductEditor.UpdateVariant: requires an index in range. The editor passes only indices of rendered rows; a write past the end, which JavaScript would allow, is not modelled.
- ElementPath.IdStep: an id containing a double quote is inserted without escaping, as the code does. The model does not state what XPath makes of such a path.
- ElementPath.IsBody: `document.body` is taken to be the first BODY child of the document element, assumed to be HTML. Frameset documents and bodies attached elsewhere are not modelled.
- OrdersAdmin.StyleOf: the eight styles are not proved pairwise distinct; only the default's equality with the archived style is stated.
