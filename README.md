# Shopping-cart store and checkout arithmetic

This project models the cart logic of a static shop's page script (`script.js`).
The cart is an ordered list of line items keyed by `id`. It is saved under one
browser storage key. Three user actions change it:

- the add-to-cart click adds one unit, or appends a new line with quantity 1;
- `changeQty` adds a signed delta to a quantity and drops the line once it reaches zero or below;
- `removeItem` filters a line out.

Five figures are derived from the cart: the badge count (the sum of the
quantities), the cart total and checkout subtotal (the sum of `price * qty`),
the total weight, and a tiered shipping fee added to the subtotal to give the
grand total.

Modules:

- `Options`: the `Option` datatype.
- `Cart`: `Item`, the `ValidCart` invariant (unique ids, every quantity at
  least 1), and the pure operations `Find`, `Add`, `ChangeQty` and `Remove`.
  Each is defined for any list, including one with repeated ids. `Find` keeps
  the first-match behaviour of `Array.prototype.find`. `Remove` is a filter
  that drops every match. The module also has lemmas about the operations and
  `Replay`, which applies a session of actions to an initially empty cart.
- `Totals`: `Count`, `Subtotal`, `TotalWeight`, `Shipping` and `GrandTotal`,
  with lemmas relating them to the operations. The sums are left folds, so
  they visit items in the order `reduce` and `forEach` do.
- `Store`: the class `CartStore`. Its field `stored` stands in for the storage
  key. It is `None` while nothing is saved, and then `getCart` returns the
  empty cart. Its methods follow the page script step by step:
  - they find the item with a loop;
  - they replace the found line or append to the list;
  - they filter the list;
  - they save the result.

  Each method is proved equal to the pure operation. `RenderCart` and
  `RenderCheckout` compute the displayed figures with loops. Both are proved
  equal to the `Totals` functions.

Modelling choices:

- Prices are integers.
- Weights are `real`, so tier boundaries such as 2.01 stay expressible.
- Quantities are unbounded integers.
- The add handler never sets a weight. The checkout reads `item.weight || 0`,
  so every item the page creates has weight 0.

The shipping rule is modelled exactly as written: 40 up to weight 2, 70 up to
5, 120 up to 10, and 0 above 10. The last tier, free shipping for the heaviest
orders, looks unintended. The source gives no intended fee for it, so the
model keeps 0. `Shipping`'s contract states that the fee is 0 exactly when the
weight exceeds 10.

Two details of the code shape the model:

- Corrupt saved data makes `JSON.parse` throw, in `getCart` at
  `script.js:14-16`. It is not turned into an empty cart. A missing key, or a
  saved value that parses to null, false, 0 or an empty string, becomes `[]`
  through the `|| []` at `script.js:15`.
- `changeQty` on an absent id returns before `saveCart`, at
  `script.js:184`. So the storage is not rewritten: a missing key stays
  missing.

## Model

| member | source | states |
|---|---|---|
| `Cart.Find` | script.js:114 | the first index whose item has the id. Every earlier index has another id. `None` exactly when no item has the id. |
| `Cart.FindFrom` | script.js:114 | scanning from position i, the first index at or after i whose item has the id, or `None` when no item from i on has it. |
| `Store.FindFirst` | script.js:114 | the front-to-back scan that stops at the first match returns the same result as `Find`. |
| `Cart.FindUnique` | script.js:114 | in a valid cart, `Find` reports the only position that holds the id. |
| `Cart.FindSameIds` | script.js:182 | `Find` depends only on the ids, so changing a quantity does not move the item it locates. |
| `Cart.Add` | script.js:106-120 | on a present id, the length is unchanged, that item's qty is one higher and its name and price are kept, and every other item is unchanged. On an absent id, the result is the old cart followed by one new item with qty 1 and weight 0. |
| `Cart.AddValid` | script.js:113-120 | adding keeps ids unique and quantities at least 1. Afterwards the id is present. |
| `Cart.AddTwice` | script.js:113-120 | two clicks on a product not yet in the cart give one line with qty 2, carrying the first click's name and price. |
| `Cart.AddExistingIsChangeQty` | script.js:116-117 | on a present item, a click has the same effect as `changeQty(id, 1)`. |
| `Totals.AddCount` | script.js:114-120 | every click raises the badge count by exactly 1. |
| `Totals.AddSubtotal` | script.js:114-120 | a click on a present id adds that item's stored price to the total. The button's price is used only for a new id. |
| `Cart.ChangeQtyAbsent` | script.js:182-184 | `changeQty` on an id not in the cart leaves the cart unchanged. |
| `Cart.ChangeQtyInPlace` | script.js:186-190 | when qty + delta stays positive, only the located line changes. Its qty becomes qty + delta. The length and all other lines are unchanged. |
| `Cart.ChangeQtyValid` | script.js:186-190 | for every integer delta, `changeQty` keeps a valid cart valid. |
| `Cart.ChangeQtyToZeroRemoves` | script.js:188-189 | a change that brings the quantity to zero or below gives the same cart as `removeItem(id)`, so no item with the id is left. |
| `Cart.ChangeQtyUndo` | script.js:186 | a change that keeps the quantity at least 1 is undone by the opposite change. |
| `Cart.ChangeQtyRestore` | script.js:186 | changing a line back to its earlier quantity restores the earlier cart. |
| `Totals.ChangeQtyCount` | script.js:186-190 | in a valid cart, the badge moves by delta. A line driven to zero or below takes off only the units it had. An absent id changes nothing. |
| `Cart.Remove` | script.js:196 | the filtered cart is never longer than the original. |
| `Cart.RemoveMembers` | script.js:196 | the kept items are exactly the original items whose id differs. |
| `Cart.RemoveGone` | script.js:196 | after removal, no item carries the id. |
| `Cart.RemoveAbsent` | script.js:196 | removing an absent id is the identity. |
| `Cart.RemoveIdempotent` | script.js:196 | removing twice is the same as removing once. |
| `Cart.RemoveConcat` | script.js:196 | filtering distributes over concatenation, so the kept items stay in their original order. |
| `Cart.RemoveAround` | script.js:196 | the filter of a cart split around one line is the filter of the part before it, that line if it is kept, and the filter of the part after it. |
| `Cart.RemoveUnique` | script.js:196 | in a valid cart holding the id, removal deletes exactly that one position. |
| `Cart.RemoveIgnoresDropped` | script.js:186-189 | changing the qty of the item that is about to be filtered out does not change the filter's result. |
| `Cart.FindPrefixAbsent` | script.js:114 | no position before the one `Find` reports holds the id. |
| `Cart.FindSuffixAbsent` | script.js:114 | in a valid cart, no position after the one `Find` reports holds the id. |
| `Cart.DeleteAtValid` | script.js:189 | deleting one line of a valid cart leaves a valid cart. |
| `Cart.RemoveValid` | script.js:196 | `removeItem` keeps a valid cart valid. |
| `Totals.RemoveCount` | script.js:196 | in a valid cart, removal takes that line's qty off the badge. An absent id takes off nothing. |
| `Cart.ApplyInvariant` | script.js:106-198 | each of add, changeQty and remove keeps the cart valid and weightless. |
| `Cart.ReplayInvariant` | script.js:102-198 | any cart built from the absent cart by add/changeQty/remove has unique ids, every qty ≥ 1, and weight 0 everywhere. |
| `Totals.CountConcat` | script.js:136 | the badge count of a concatenation is the sum of the two counts. |
| `Totals.SubtotalConcat` | script.js:157-158 | the total of a concatenation is the sum of the two totals. |
| `Totals.CountSplit` | script.js:136 | the count is the count before a line, plus that line's qty, plus the count after it. |
| `Totals.SubtotalSplit` | script.js:157-158 | the total is the total before a line, plus that line's price × qty, plus the total after it. |
| `Totals.CountUpdate` | script.js:136 | replacing one line changes the count by the difference of the two quantities. |
| `Totals.SubtotalUpdate` | script.js:157-158 | replacing one line changes the total by the difference of the two line totals. |
| `Totals.CountDeleteAt` | script.js:136 | deleting one line takes its qty off the count. |
| `Totals.CountAtLeastLines` | script.js:136 | in a valid cart, the badge count is at least the number of lines. |
| `Totals.WeightlessWeighsNothing` | script.js:216-217 | items without weight give total weight 0. |
| `Totals.Shipping` | script.js:222-227 | the fee is one of 40, 70, 120 or 0, and it is 0 exactly when the weight exceeds 10. |
| `Totals.ShippingMonotoneUpToTen` | script.js:224-226 | up to weight 10, a heavier order never pays less shipping. |
| `Totals.ReplayCheckout` | script.js:211-230 | for any cart built by the page's actions, the total weight is 0, shipping is 40, and the grand total is subtotal + 40. |
| `Store.CartStore.constructor` | script.js:15 | with nothing saved, `getCart` gives the empty cart. |
| `Store.CartStore.GetCart` | script.js:14-16 | an absent key reads as the empty cart. Otherwise the saved cart is returned. |
| `Store.CartStore.SaveCart` | script.js:18-19 | after saving, `getCart` returns exactly the saved cart. |
| `Store.CartStore.AddToCart` | script.js:113-122 | the saved cart becomes `Add` of the previous one. The badge count rises by 1. Validity is preserved. |
| `Store.CartStore.ChangeQty` | script.js:180-193 | on an absent id, storage is untouched. Otherwise the saved cart becomes `ChangeQty` of the previous one. Validity is preserved. |
| `Store.CartStore.RemoveItem` | script.js:195-198 | the saved cart becomes the filtered cart, which contains no item with the id. Validity is preserved. |
| `Store.CartStore.RenderCart` | script.js:149-158 | the displayed total is the sum of price × qty over the saved cart. It is 0 for the empty cart. |
| `Store.CartStore.RenderCheckout` | script.js:211-230 | the subtotal is the sum of price × qty. Shipping is the tier of the summed weight × qty. The grand total is subtotal + shipping. |

## Left out

- Page chrome is not modelled: `toggleMenu`, scroll-driven nav highlighting, the hamburger menu, the contact-form toast and the button's "Added ✓" feedback timer. These are DOM, CSS-class and `setTimeout` effects with no cart state.
- The click listener's filter on `.btn-cart` is not modelled. `AddToCart` is the handler body for a click that passed it.
- The HTML that `renderCart` and `renderCheckout` build is not modelled. They are modelled only by the figures they display.
- `saveCart`'s re-rendering and badge refresh are not modelled as calls. The badge value is `Count` of the saved cart.
- `Store.CartStore.GetCart`: the field `stored` holds either nothing or a list of items, so it cannot represent a saved value that parses to null, false, 0 or an empty string, which `getCart` also reads as `[]`. The model has no state for such a saved value; its reading as `[]` is covered only by the missing-key case.
- JSON serialisation is not modelled. A corrupt saved value makes `JSON.parse` throw, and that failure is not modelled. The storage key is a field holding the items directly.
- `Number(btn.dataset.price)` parsing is not modelled. Neither is JavaScript floating-point arithmetic: NaN prices, rounding in `price * qty`, and overflow to Infinity. Prices are integers, and weights and quantities are exact numbers.
- A button without `data-id` or `data-name` is not modelled. It would give `undefined` fields. Ids and names are always strings here.
- Other tabs writing the same storage key concurrently are not modelled.
