# Perfume shop cart and recommendation wizard — a Dafny model

This project models the client-side controller of a perfume catalog page
(`script/script.js`). The controller keeps a shopping cart in browser storage.
It shows an item-count badge and a checkout table with a grand total, and it
accepts one discount coupon. It also runs a three-question "recommendation
wizard" that picks a product from the answers by keyword matching.

The model is functional. The cart is an immutable `seq<Line>`, and every
mutator is a pure function. The page is a `Page` value, and each user action
is a `Command` applied by `Session.Step`.

Modules, one per component:

- `Wrappers`: `Option`.
- `Text`: `trim`, `includes`, `join` and lower-casing.
- `Products`: catalog records and the key order of the catalog object.
- `CartStore`: cart lines and the add, manual add, `updateQty`, `removeItem`
  and "−" operations, each with the cart invariant.
- `Totals`: badge count, grand total, checkout projection and the render loop.
- `Coupon`: the coupon evaluator.
- `Wizard`: the keyword decision and the panel steps.
- `Session`: commands, `persist()`, and the invariants of the whole page.

Ids are `int`, prices `nat` and quantities `int`. The cart invariant
`CartStore.Valid` requires unique ids and quantity at least 1 on every line.

Behaviour of the page worth knowing:

- The wizard's fallback product is `Object.keys(products)[0] || '1'`. JavaScript
  lists array-index keys ("1", "2", …) first, in ascending numeric order, so this
  is the smallest numeric id rather than the first card on the page
  (`Products.FirstKey`, `Products.FirstKeyIsNotInsertionOrder`). A card with an
  empty `data-id` gives the key "", which `||` treats as false, so "1" is used
  instead (`Wizard.Fallback`, `Wizard.EmptyFirstKeyFallsBack`).
- `updateQty` with an id that is not in the cart returns before `persist()`, so
  nothing is re-rendered. `removeItem` always persists, even when nothing was
  removed (`Session.UpdateQtyOp`, `Session.RemoveOp`).
- The stored cart is parsed with an unguarded `JSON.parse`, so malformed
  storage is not recovered as an empty cart. `Session.Load` takes the stored
  cart as given, and the invariant lemmas assume it is valid.
- When the decided product has no card, the wizard shows no panel at all and
  stages nothing (`Wizard.OnAnswer`).
- The keyword `مناسبة` is singular. It is not a substring of the plural
  `المناسبات`, so an answer that is only the plural matches no keyword at all and
  gets the fallback product (`Wizard.PluralOccasionFallsBack`).

## Model

| member | source | states |
|---|---|---|
| Text.Trim | script/script.js:135 | The trimmed code is an infix of the input. Only white space is dropped before and after it, and the result neither starts nor ends with white space. It is empty exactly when the input is all white space. |
| Text.TrimPadded | script/script.js:135 | Any white-space padding around a word with non-space ends trims back to that word. |
| Text.TrimIdempotent | script/script.js:243 | Trimming an already trimmed answer changes nothing. |
| Text.ContainsInJoin | script/script.js:206 | A keyword found in one answer is found in the answers joined with "\|". |
| Text.LowerKeepsOccurrence | script/script.js:206 | Lower-casing cannot create or destroy an occurrence of a word that has no Latin letters. |
| Products.LeastIndexKey | script/script.js:211 | Returns the array-index key with the least numeric value, and nothing when no key is an array index. |
| Products.FirstKey | script/script.js:211 | `Object.keys(...)[0]` is the least array-index key when there is one, otherwise the first key created, and absent only for an empty catalog. |
| Products.FirstKeyIsNotInsertionOrder | script/script.js:211 | With cards "2" then "1", the first key is "1". |
| CartStore.FirstWithId | script/script.js:100 | Returns the index of the first line with the id, or nothing exactly when no line has it. |
| CartStore.FirstWithName | script/script.js:47 | Returns the index of the first line with the name, or nothing exactly when no line has it. |
| CartStore.AddToCart | script/script.js:37-43 | A missing product or id 0 changes nothing. A known id raises the first matching line's quantity by 1 and changes nothing else. A new id appends one line with quantity 1 at the end. |
| CartStore.AddProductToCart | script/script.js:46-51 | Raises the first line with the same name by 1. Otherwise it appends a line with the fresh stamp and quantity 1, and all earlier lines keep their order. |
| CartStore.AtLeastOne | script/script.js:102 | `Math.max(1, q)` is at least 1 and at least q, and is q itself or 1. |
| CartStore.UpdateQty | script/script.js:99-104 | The line with the id gets `max(1, qty + delta)`, so its quantity is at least 1 for any delta. Every other line is unchanged, and an absent id leaves the cart as it was. |
| CartStore.Remove | script/script.js:106-109 | No line with the removed id remains. |
| CartStore.RemoveMembers | script/script.js:107 | A line is kept exactly when it was in the cart and has another id. |
| CartStore.RemoveAbsent | script/script.js:107 | Removing an id that is not in the cart returns the identical cart. |
| CartStore.RemoveIdempotent | script/script.js:107 | Removing the same id twice gives the same result as removing it once. |
| CartStore.RemoveConcat | script/script.js:107 | Removal distributes over concatenation, so it is an order-preserving filter. |
| CartStore.RemoveMiddle | script/script.js:107 | Removing the id of a line placed between two pieces without that id leaves exactly the two pieces. |
| CartStore.RemoveOne | script/script.js:107 | With unique ids, removal cuts out exactly the line at the first index with the id, and every other line stays in order. |
| CartStore.MinusClick | script/script.js:121-126 | "−" lowers a line with quantity above 1 by exactly 1 and removes any other line. An absent id changes nothing. |
| CartStore.AddToCartKeepsValid | script/script.js:37-43 | Adding keeps ids unique and quantities at least 1. |
| CartStore.AddProductToCartKeepsValid | script/script.js:46-51 | A manual add with a stamp not yet in the cart keeps the cart valid. |
| CartStore.UpdateQtyKeepsValid | script/script.js:99-104 | `updateQty` keeps the cart valid. |
| CartStore.RemoveKeepsValid | script/script.js:106-109 | `removeItem` keeps the cart valid. |
| CartStore.MinusClickKeepsValid | script/script.js:121-126 | A "−" click keeps the cart valid. No quantity drops below 1. |
| CartStore.AddTimesCounts | script/script.js:37-43 | n adds of one product to a cart without its id give exactly one line for it, at the end, with quantity n. |
| Totals.ItemCount | script/script.js:29-30 | The badge of an empty cart is 0, and in a cart whose every line holds a positive quantity it is at least the number of lines. |
| Totals.GrandTotal | script/script.js:66-71 | The total of an empty cart is 0, and it is never negative while no quantity is. |
| Totals.AddToCartTotals | script/script.js:37-43 | An add raises the badge by 1. It raises the total by the unit price of the bumped line, or by the product's price for a new line. |
| Totals.AddProductToCartTotals | script/script.js:46-51 | A manual add raises the badge by 1. |
| Totals.UpdateQtyCount | script/script.js:102 | The badge moves by the clamped change of the touched line's quantity. |
| Totals.UpdateQtyTotal | script/script.js:102 | The total moves by that change times the line's unit price. |
| Totals.MinusClickCount | script/script.js:121-126 | In a valid cart, each "−" on a present line lowers the badge by exactly 1. |
| Totals.MinusClickTotal | script/script.js:121-126 | In a valid cart, each "−" on the line at the first index with the id lowers the total by exactly that line's unit price. |
| Totals.Project | script/script.js:54-71 | An empty cart shows the empty notice and total 0. Any other cart shows one row per line, in order, and the sum of the subtotals. |
| Totals.Render | script/script.js:59-95 | The render loop's rows and accumulated total equal the projection. |
| Coupon.NinetyPercent | script/script.js:139 | `Math.round(t*0.9)`: 10·r lies in (9t−5, 9t+5], so r is the nearest integer and a half rounds up. |
| Coupon.ApplyCoupon | script/script.js:134-143 | An all-blank code is "missing code". Any other code that does not trim to DISCOUNT10 is "invalid code". DISCOUNT10 yields the rounded 90% of the grand total. |
| Coupon.PaddedCodeAccepted | script/script.js:135 | White space around DISCOUNT10 gives the same outcome as the bare code. |
| Coupon.EmptyCodeMissing | script/script.js:136 | "" is the missing-code rejection. |
| Coupon.WrongCodeInvalid | script/script.js:142 | "WRONGCODE" is the invalid-code rejection. |
| Coupon.DiscountOnHundred | script/script.js:138-139 | DISCOUNT10 on a total of 100 gives 90. |
| Coupon.PaddedDiscountOnHundred | script/script.js:135-139 | "  DISCOUNT10  " on a total of 100 gives 90. |
| Wizard.Fallback | script/script.js:211 | The fallback is never "". It is the first catalog key when that key is not "". With no keys, or a first key "", it is "1". |
| Wizard.EmptyFirstKeyFallsBack | script/script.js:211 | With an empty first key and no numeric key, the fallback is "1", as `"" \|\| '1'` gives. |
| Wizard.DecideProduct | script/script.js:205-212 | The chain of four tests equals the priority table read top-down: the first group with a keyword in the answers decides, and without one the fallback does. |
| Wizard.FirstMatch | script/script.js:207-210 | Returns the first rule that matches: every earlier rule fails, and nothing is returned only when no rule matches. |
| Wizard.AnswerKeywordDecides | script/script.js:205-212 | A keyword of group k in any answer makes group k, or an earlier group, decide, whatever the other answers say. |
| Wizard.EveningWins | script/script.js:207 | An evening or occasion keyword in any answer always gives "4". |
| Wizard.EveningBeforeWoodsAndFlowers | script/script.js:207-209 | Answers with an evening word, then woods, then flowers give "4". |
| Wizard.NoKeywordFallsBack | script/script.js:211 | With no keyword anywhere, the decision is the fallback key. |
| Wizard.PluralOccasionFallsBack | script/script.js:206-211 | The single answer "المناسبات" (plural) contains neither evening keyword, and the decision for it is the fallback. |
| Wizard.OnAnswer | script/script.js:240-249 | The trimmed answer is appended at the end. Panel step+1 is shown while step+1 ≤ 3. After that, the decided product is staged and shown if a card has its id, and otherwise nothing is shown or staged. |
| Wizard.ThreeAnswers | script/script.js:240-249 | Answering steps 1, 2, 3 from the start shows questions 2 and 3, then the result for the three trimmed answers. |
| Session.Persist | script/script.js:23-27 | After `persist()`, the badge is the cart's item count and any checkout view is the cart's projection. |
| Session.Load | script/script.js:21 | The loaded page shows the stored cart, with its badge and table in sync and a fresh wizard. |
| Session.AddOp | script/script.js:37-43 | A missing product or id 0 leaves the page as it was. Otherwise the cart is the cart after `addToCart`, and badge and view are in sync with it. |
| Session.UpdateQtyOp | script/script.js:99-104 | An absent id leaves the page as it was, with no persist. Otherwise the cart is the updated cart, and badge and view are in sync with it. |
| Session.RemoveOp | script/script.js:106-109 | The cart no longer holds the id, and the page is in sync afterwards even when nothing was removed. |
| Session.MinusOp | script/script.js:121-126 | The cart after "−" is the cart-level policy `MinusClick`, and the page is in sync afterwards. |
| Session.CouponOp | script/script.js:134-143 | The coupon never changes the cart, badge, rows or wizard. Only an accepted code replaces the shown total, and a rejected code leaves the page as it was. |
| Session.Step | script/script.js:112-131 | An action that changes the cart leaves badge and view in sync with it. No action but the coupon brings a synced page out of sync. Coupon and answers leave the cart alone, and only answers touch the wizard. |
| Session.StepKeepsInv | script/script.js:112-131 | Every action keeps the cart valid and keeps the badge and table rows consistent with it. A manual add needs a fresh stamp. |
| Session.RunKeepsInv | script/script.js:112-131 | Any run of actions keeps the invariant, so no stored quantity ever drops below 1. |
| Session.BuyIsCardAdd | script/script.js:252-261 | When the staged product is a catalog record, the buy button does the same as clicking that product's own card. |
| Session.AddAddDecrementRemove | script/script.js:99-126 | Start from empty. Add product 1 (price 50) twice, then `updateQty(1, -1)`: one line with quantity 1, badge 1, subtotal and total 50. A further "−" empties the cart: badge 0, empty notice, total 0. |

## Left out

- Browser storage and JSON (script/script.js:21-27) are left out. `persist()` keeps the cart itself as the stored copy, and the JSON round trip is not modelled.
- Building the catalog from the product cards is left out (script/script.js:9-18). This covers the price regex, the `Number(...) || 0` coercions and `trim` of names. The catalog is an input, `Products.Catalog`.
- Wizard.OnAnswer stages the catalog record for the decided id. The page instead re-reads name, description, price and image from the card (script/script.js:215-232), so the staged name is untrimmed and defaults to "", and the staged image is the `img` element's source only. The model also takes the catalog keys to be exactly the `data-id`s of the cards on the page. That holds only while the load-time cards are still there. Once the remote product list arrives, `#products` is emptied and refilled with cards that carry no `data-id` (script/script.js:303-318), while `products` keeps its load-time records (script/script.js:9-18). From then on the card lookup at script/script.js:215 finds nothing and `showResult` returns at script/script.js:216: no panel is shown and nothing is staged, whatever the decision, and the model still reports the result as shown. Wizard.ThreeAnswers inherits the same assumption. The model further assumes every decided id forms a valid selector at script/script.js:215; an id containing `'` makes `querySelector` throw, which the model does not represent.
- Session.CouponOp: the checkout table and the total figure are modelled as one sink, `Page.view`, present on the checkout page and absent elsewhere. The page draws the table only when both `#cart-items` and `#cart-total` exist (script/script.js:55-57), while `applyCoupon` writes `#cart-total` on its own (script/script.js:140). So a page with a total element but no table shows the discounted total, and the model leaves that page unchanged. Likewise Wizard.OnAnswer assumes the result panel `#ak-result` exists: without it the page activates no panel (script/script.js:235-236), and the model still reports the result as shown.
- Session.BuyIsCardAdd holds for the modelled staging only. On the page, a line added with the wizard's buy button can carry a different name and image from the line the card's own button adds (script/script.js:14-17, 217-220, 232), because `addToCart` copies name and image into the new line (script/script.js:41).
- Number formatting with `toLocaleString` and the HTML of the rows are display only (script/script.js:6, 73-95).
- The fly-to-cart animation, the favourites toggle and the 3D hover are visual effects (script/script.js:146-179, 264-291).
- The remote `fetch` that redraws the product list is network I/O (script/script.js:300-320). Its effect on the result panel, which no longer finds any card by id afterwards, is described on the Wizard.OnAnswer line above.
- `Date.now()` is not modelled. It becomes the `stamp` parameter of a manual add, and the lemmas require it to be fresh.
- Floating-point prices and `NaN` are not modelled. Prices are `nat`, totals are `int`, and `Math.round(t*0.9)` is computed exactly on integers.
- Text.Lower folds only A-Z. `toLowerCase` folds all of Unicode, but the keywords are Arabic, which has no case.
- Id comparison is simplified. The "−" handler compares ids as strings and the other handlers compare them as numbers. Ids are plain integers here, so both are integer equality.
- Which answer button was clicked is not modelled. Its panel's `data-step` is the `step` argument (the page defaults it to 1). `showStep(n)` is assumed to find panel n.
- Alerts are not modelled. They are represented by `Coupon.Outcome`.
- The wizard has no reset, in the source or in the model. More answer clicks keep appending answers.
- Catalogs are taken as given. On the page a later card with a repeated `data-id` overwrites the earlier record, and the key keeps its first position (script/script.js:9-18).
