# Shopping cart pricing and inventory — a Dafny model

This project models the pricing and inventory core of a small React shop
(front-end only): the pure models that price a cart (quantity tiers, the
bulk-purchase bonus, coupons, rounding), keep the cart consistent with
stock, and maintain the product catalog and the coupon ledger; the older
single-file cart model that the newer models split up; and the three hooks
that hold the shared state and commit a model's result only when it
succeeds.

Modules, one per source file:

| module | file | models |
|---|---|---|
| `Types` | `types.dfy` | the records of `src/advanced/types.ts`, the error outcomes, `Math.round`, `String.trim`'s blank test, `${n}` for integers |
| `Seqs` | `seqs.dfy` | `find`, `findIndex`, `filter`, `map` on matching items, `reduce`, and the facts about them the other modules share |
| `DiscountEngine` | `discount.dfy` | `src/advanced/models/discount.ts` |
| `Cart` | `cart.dfy` | `src/advanced/models/cart.ts` |
| `Catalog` | `product.dfy` | `src/advanced/models/product.ts` |
| `Coupons` | `coupon.dfy` | `src/advanced/models/coupon.ts` |
| `BasicCart` | `basic_cart.dfy` | `src/basic/models/cart.ts` |
| `Store` | `store.dfy` | `src/advanced/hooks/useCart.ts`, `useCoupons.ts`, `useProducts.ts` as one class `Shop` |

Representation choices:

- Prices, stock and quantities are `int`; tier rates and a coupon's
  `discountValue` are `real`, so fractional rates are exact. JavaScript's
  `Math.round` is `Types.Round(x) = floor(x + 1/2)`.
- Every `{ success, data | error }` result is `Result<T>` with an `Error`
  kind per message the source can produce (the message text is not kept).
- `null`/`undefined` are `Option`. An update object with optional fields is
  `Catalog.ProductUpdate`; the draft passed to `addProduct` is
  `Catalog.ProductDraft`.
- `Date.now()` becomes a `now: nat` parameter: product ids are
  `"p" + digits(now)`, order numbers `"ORD-" + digits(now)`.
- `toLowerCase` is a parameter `toLower: string -> string` of the search
  filter, since Unicode case mapping is outside the model.
- The hooks' shared atoms become the fields `cart`, `selectedCoupon`,
  `coupons` and `products` of `Store.Shop`; each action is a method that
  reassigns them. The `notify` callback becomes an append-only log
  `notices` holding the error kind of a refusal or the event of a success.
- `filterProductsBySearch` is written three times in the source
  (`src/advanced/models/cart.ts:151-165`, `src/advanced/models/product.ts:165-179`,
  `src/basic/models/cart.ts:256-270`) with identical bodies; it is
  modelled once, as `Catalog.FilterProductsBySearch`.
- The basic file is written out again in its own shape (inline tier reduce,
  a reassigned total, a nullable coupon) and the `BasicCart` lemmas prove
  that each of its results equals the advanced model's, so every property
  proved of the advanced functions holds for it too. Its percentage-coupon
  branch is the same `Math.round(total * (1 - value / 100))` as the
  advanced file and is written with `DiscountEngine.PercentageOff`.

What is proved, in short: the tier rate is the largest rate whose threshold
is met and does not depend on tier order; the bulk bonus stays within the
50% cap; item and cart totals are bounded by the undiscounted total; a
coupon gate refuses a percentage coupon exactly below 10000; adding to the
cart fails exactly when no stock is left and otherwise adds one unit;
every cart, catalog and ledger operation keeps keys distinct (an added
product only when its timestamp id is new); add-then-remove
round trips for products and coupons; tier inserts keep thresholds sorted
and are permutations; and the store commits a result exactly when the model
succeeds, leaves all other state alone, and drops an applied coupon whose
code is deleted.

## Model

| member | source | states |
|---|---|---|
| Types.Round | src/advanced/models/discount.ts:77 | `Math.round(x)` is the integer r with r - 1/2 <= x < r + 1/2 |
| Types.RoundOfInteger | src/advanced/models/discount.ts:132 | rounding a whole number gives it back |
| Types.RoundMonotone | src/advanced/models/discount.ts:132-134 | rounding preserves order |
| Types.DecimalString | src/advanced/models/product.ts:48 | `${n}` for a timestamp is a non-empty run of decimal digits |
| Types.IntegerString | src/advanced/models/discount.ts:163 | `${n}` for any integer: the digits of n, with a leading minus sign when n < 0 |
| Types.DecimalRoundTrip | src/advanced/models/product.ts:48 | reading the digits of `${n}` back gives n |
| Types.DecimalStringInjective | src/advanced/hooks/useCart.ts:152 | different timestamps give different digit strings |
| Seqs.FirstIndex | src/advanced/models/cart.ts:39 | the index of the first match, or -1 exactly when nothing matches |
| Seqs.Find | src/advanced/models/cart.ts:39 | `find`: None exactly when nothing matches, otherwise the first match |
| Seqs.Filter | src/advanced/models/cart.ts:92 | `filter`: keeps only matching items, each kept item with all its copies, nothing new |
| Seqs.MapWhere | src/advanced/models/cart.ts:78-80 | `map` that rewrites matching items: same length, matching items rewritten, others unchanged |
| Seqs.SubsequenceOfItself | src/advanced/models/cart.ts:92 | every list is an order-preserving sublist of itself |
| Seqs.FilterIsSubsequence | src/advanced/models/cart.ts:92 | `filter` keeps the survivors in their original order |
| Seqs.FilterKeepsAll | src/advanced/models/coupon.ts:49 | filtering a list whose items all match gives it back |
| Seqs.FilterIdempotent | src/advanced/models/cart.ts:92 | filtering twice by the same test equals filtering once |
| Seqs.FilterAppend | src/advanced/models/coupon.ts:49 | filtering a concatenation filters each part |
| Seqs.FoldLeftSnoc | src/basic/models/cart.ts:103-106 | `reduce` over a list with one more item applies the callback once more |
| Seqs.FilterPreservesDistinctKeys | src/advanced/models/product.ts:90 | filtering keeps keys distinct |
| Seqs.MapWherePreservesDistinctKeys | src/advanced/models/product.ts:74-76 | a key-preserving rewrite keeps keys distinct |
| Seqs.AppendPreservesDistinctKeys | src/advanced/models/coupon.ts:37 | appending an item with a new key keeps keys distinct |
| DiscountEngine.GetQuantityDiscount | src/advanced/models/discount.ts:30-39 | definition only (no contract): the tier reduce started at 0; what it yields is stated by `DiscountEngine.GetQuantityDiscountIsMaxMetRate` |
| DiscountEngine.HasBulkPurchase | src/advanced/models/discount.ts:42-44 | definition only (no contract): some line has 10 or more units; its effect is stated by `DiscountEngine.BulkBonusReachesOtherLines` |
| DiscountEngine.GetMaxApplicableDiscount | src/advanced/models/discount.ts:58-69 | definition only (no contract): the line's tier rate passed through the bulk bonus; its range is stated by `DiscountEngine.MaxApplicableDiscountBounds` |
| DiscountEngine.ApplyDiscount | src/advanced/models/discount.ts:76-78 | the result is the whole number nearest to price × (1 - rate), a tie going up |
| DiscountEngine.CalculateItemTotal | src/advanced/models/discount.ts:81-86 | definition only (no contract): price × quantity under the line's applicable rate; its range is stated by `DiscountEngine.ItemTotalBounds` |
| DiscountEngine.CalculateTotalBeforeDiscount | src/advanced/models/discount.ts:89-91 | definition only (no contract): the sum of price × quantity over the lines |
| DiscountEngine.CalculateTotalAfterItemDiscount | src/advanced/models/discount.ts:94-96 | definition only (no contract): the sum of the line totals, each priced against the whole cart; its range is stated by `DiscountEngine.TotalAfterItemDiscountBounds` |
| DiscountEngine.CalculateCartTotal | src/advanced/models/discount.ts:119-136 | definition only (no contract): the three rounded figures; their relations are stated by `DiscountEngine.CartTotalBounds` and `DiscountEngine.CartTotalDiscountIsDifferenceIff` |
| DiscountEngine.QuantityDiscountFromIsBest | src/advanced/models/discount.ts:34-38 | the tier reduce ends at the larger of its seed and the best met rate, and that value is one of them |
| DiscountEngine.GetQuantityDiscountIsMaxMetRate | src/advanced/models/discount.ts:30-39 | the tier rate is at least 0, at least every met tier's rate, is 0 or some met tier's rate, and is 0 when no threshold is met |
| DiscountEngine.BestRateUnique | src/advanced/models/discount.ts:30-39 | two tier lists with the same members have the same best met rate |
| DiscountEngine.QuantityDiscountOrderIndependent | src/advanced/models/discount.ts:30-39 | reordering the tiers does not change the rate |
| DiscountEngine.ApplyBulkPurchaseBonus | src/advanced/models/discount.ts:47-55 | with a bulk line the rate is base + 0.05 capped at 0.5; without one it is the base rate |
| DiscountEngine.CapOnlyInBulkBranch | src/advanced/models/discount.ts:51-54 | the 0.5 cap applies only with a bulk line: 0.8 stays 0.8 without one |
| DiscountEngine.MaxApplicableDiscountBounds | src/advanced/models/discount.ts:58-69 | with tier rates at most 1 the applied rate is in [0, 1], and in [0.05, 0.5] when any line has 10 or more units |
| DiscountEngine.ApplyDiscountBounds | src/advanced/models/discount.ts:76-78 | a rate in [0, 1] gives a price between 0 and the original |
| DiscountEngine.ItemTotalBounds | src/advanced/models/discount.ts:81-86 | a line's discounted total lies between 0 and price × quantity |
| DiscountEngine.SumItemTotalsBounds | src/advanced/models/discount.ts:94-96 | summed item totals lie between 0 and the undiscounted sum |
| DiscountEngine.TotalAfterItemDiscountBounds | src/advanced/models/discount.ts:89-96 | the item-discounted total is between 0 and the total before discount |
| DiscountEngine.PercentageOff | src/advanced/models/discount.ts:115 | `Math.round(total × (1 - p/100))` is within one half of the exact value |
| DiscountEngine.PercentageOffBounds | src/advanced/models/discount.ts:115 | a percentage in [0, 100] leaves a total between 0 and the original |
| DiscountEngine.ApplyCouponDiscount | src/advanced/models/discount.ts:103-116 | no coupon leaves the total; an amount coupon gives max(0, total - value); a percentage coupon gives the rounded percentage off |
| DiscountEngine.PercentageCouponHasNoFloor | src/advanced/models/discount.ts:115 | a percentage above 100 drives the total negative: 150% of 100 gives -50 |
| DiscountEngine.WholeCouponResultIsWhole | src/advanced/models/discount.ts:111-115 | no coupon, a percentage coupon, or an amount coupon with a whole value gives a whole total |
| DiscountEngine.RoundWholeDifference | src/advanced/models/discount.ts:133-134 | for a whole total after discount, rounding the difference is the difference of the rounded figures |
| DiscountEngine.RoundDifferenceIff | src/advanced/models/discount.ts:132-134 | for a whole b, round(b - x) = b - round(x) exactly when x does not end in .5 |
| DiscountEngine.CartTotalDiscountIsDifferenceIff | src/advanced/models/discount.ts:119-136 | totalDiscount = totalBeforeDiscount - totalAfterDiscount exactly when the coupon-applied total does not end in .5 |
| DiscountEngine.CartTotalDiscountIsDifference | src/advanced/models/discount.ts:119-136 | when the coupon result is whole, totalDiscount = totalBeforeDiscount - totalAfterDiscount |
| DiscountEngine.HalfUnitCouponBreaksDifference | src/advanced/models/discount.ts:132-134 | an amount coupon of 0.5 on a total of 10 gives figures 10, 10 and 1 |
| DiscountEngine.AmountCouponTotalNonNegative | src/advanced/models/discount.ts:112 | with an amount coupon the total after discount is never negative |
| DiscountEngine.ScaleBounds | src/advanced/models/discount.ts:115 | scaling a non-negative total by a factor in [0, 1] stays between 0 and the total |
| DiscountEngine.ReasonableCouponBounds | src/advanced/models/discount.ts:103-116 | a non-negative amount or a percentage in [0, 100] keeps the total between 0 and the original |
| DiscountEngine.CartTotalBounds | src/advanced/models/discount.ts:119-136 | for valid lines and a reasonable coupon, 0 <= totalAfterDiscount <= totalBeforeDiscount |
| DiscountEngine.ValidateDiscount | src/advanced/models/discount.ts:143-155 | valid exactly when quantity > 0 and 0 < rate <= 1; a bad quantity is reported before a bad rate |
| DiscountEngine.FormatDiscountRate | src/advanced/models/discount.ts:162-164 | the rate label ends in `%` after at least one character |
| DiscountEngine.FormatDiscountRateReadsBack | src/advanced/models/discount.ts:162-164 | for a rate >= 0 the label is digits then `%`, the digits read back as `Math.round(rate × 100)`, at most 100 for a rate <= 1 |
| DiscountEngine.TierSelectionExample | src/advanced/models/discount.ts:34-38 | tiers {5: 10%, 10: 20%}: 7 units earn 10%, 10 units earn 20% whatever the order |
| DiscountEngine.BulkBonusReachesOtherLines | src/advanced/models/discount.ts:42-44 | one line of 10 units gives every other line the 5% bonus |
| Cart.GetRemainingStock | src/advanced/models/cart.ts:38-41 | stock less the quantity on the product's first cart line, the full stock when it has none |
| Cart.CalculateTotalItemCount | src/advanced/models/cart.ts:48-50 | the unit count is at least the number of lines |
| Cart.AddItemToCart | src/advanced/models/cart.ts:57-85 | fails, with the out-of-stock error, exactly when nothing remains; otherwise appends a line of 1 or adds one unit to the product's line, within stock |
| Cart.RemoveItemFromCart | src/advanced/models/cart.ts:88-93 | no line for the product remains, every other line stays with its copies and in order |
| Cart.RemoveItemIdempotent | src/advanced/models/cart.ts:88-93 | removing twice is removing once |
| Cart.RemoveAbsentItemIsNoOp | src/advanced/models/cart.ts:88-93 | removing a product not in the cart changes nothing |
| Cart.UpdateCartItemQuantity | src/advanced/models/cart.ts:96-123 | q <= 0 removes the line; a missing line or q above the line's stock is refused; otherwise every line of the product gets quantity q |
| Cart.UpdateToSameQuantityIsNoOp | src/advanced/models/cart.ts:96-123 | setting a line to its own quantity, within stock, leaves the cart unchanged |
| Cart.ValidateCouponApplication | src/advanced/models/cart.ts:130-144 | refuses exactly a percentage coupon when the item-discounted total is under 10000 |
| Cart.AddItemPreservesWellFormed | src/advanced/models/cart.ts:57-85 | adding keeps one line per product and positive quantities |
| Cart.RemoveItemPreservesWellFormed | src/advanced/models/cart.ts:88-93 | removing keeps one line per product and positive quantities |
| Cart.UpdateQuantityPreservesWellFormed | src/advanced/models/cart.ts:96-123 | a successful quantity change keeps one line per product and positive quantities |
| Cart.ItemCountSameQuantities | src/advanced/models/cart.ts:48-50 | carts with the same quantities line by line have the same unit count |
| Cart.ItemCountPointUpdate | src/advanced/models/cart.ts:48-50 | changing one line's quantity moves the unit count by the same amount |
| Cart.AddItemIncrementsItemCount | src/advanced/models/cart.ts:57-85 | a successful add raises the unit count by exactly 1 |
| Cart.RestockLetsLineOutgrowItsCopy | src/advanced/models/cart.ts:71-80 | a line of 3 whose product copy has stock 3 grows to 4 once the catalog product has stock 5, keeps its old copy, and setting it to 4 is then refused with limit 3 |
| Cart.StockLimitExample | src/advanced/models/cart.ts:63-66 | with stock 3, a line of 3 cannot grow and a line of 2 grows to 3 |
| Cart.CouponGateExample | src/advanced/models/cart.ts:136 | a total of 9999 refuses a 10% coupon and accepts a 5000 amount coupon |
| BasicCart.GetRemainingStock | src/basic/models/cart.ts:34-40 | definition only (no contract): the basic file's own code; equal to `Cart.GetRemainingStock` by `BasicCart.CartOperationsAgree` |
| BasicCart.GetMaxApplicableDiscount | src/basic/models/cart.ts:51-72 | definition only (no contract): the inline tier reduce, bonus and cap; equal to the advanced rate by `BasicCart.MaxApplicableDiscountAgrees` |
| BasicCart.CalculateItemTotal | src/basic/models/cart.ts:81-89 | definition only (no contract): equal to the advanced line total by `BasicCart.ItemTotalAgrees` |
| BasicCart.CalculateCartTotal | src/basic/models/cart.ts:94-133 | definition only (no contract): the inline reduces and coupon block; equal to the advanced totals by `BasicCart.CartTotalAgrees` |
| BasicCart.CalculateTotalItemCount | src/basic/models/cart.ts:138-140 | definition only (no contract): equal to the advanced unit count by `BasicCart.ItemCountAgrees` |
| BasicCart.AddItemToCart | src/basic/models/cart.ts:151-179 | definition only (no contract): equal to `Cart.AddItemToCart` by `BasicCart.CartOperationsAgree` |
| BasicCart.RemoveItemFromCart | src/basic/models/cart.ts:184-189 | definition only (no contract): equal to `Cart.RemoveItemFromCart` by `BasicCart.CartOperationsAgree` |
| BasicCart.UpdateCartItemQuantity | src/basic/models/cart.ts:196-224 | definition only (no contract): equal to `Cart.UpdateCartItemQuantity` by `BasicCart.CartOperationsAgree` |
| BasicCart.ValidateCouponApplication | src/basic/models/cart.ts:233-247 | definition only (no contract): its verdict is stated by `BasicCart.ValidateCouponAgrees` |
| BasicCart.FormatPrice | src/basic/models/cart.ts:279-300 | SOLD OUT exactly when a product is given and none of it remains, admin or not; otherwise the admin or shop label of the price |
| BasicCart.TierFoldAgrees | src/basic/models/cart.ts:59-63 | the inline tier reduce computes the advanced tier rate from any seed |
| BasicCart.MaxApplicableDiscountAgrees | src/basic/models/cart.ts:51-72 | the inline rate with bonus and cap equals the advanced one |
| BasicCart.ItemTotalAgrees | src/basic/models/cart.ts:81-89 | the basic line total equals the advanced one |
| BasicCart.SubtotalFoldAgrees | src/basic/models/cart.ts:103-106 | the basic total before discount equals the advanced one |
| BasicCart.ItemTotalFoldAgrees | src/basic/models/cart.ts:109-112 | the basic item-discounted total equals the advanced one |
| BasicCart.CouponBlockAgrees | src/basic/models/cart.ts:115-126 | the inline coupon block gives what applyCouponDiscount gives |
| BasicCart.CartTotalAgrees | src/basic/models/cart.ts:94-133 | the basic cart totals equal the advanced ones for every cart and coupon |
| BasicCart.ItemCountAgrees | src/basic/models/cart.ts:138-140 | the basic unit count equals the advanced one |
| BasicCart.CartOperationsAgree | src/basic/models/cart.ts:151-224 | remaining stock, add, remove and quantity update equal the advanced ones |
| BasicCart.ValidateCouponAgrees | src/basic/models/cart.ts:233-247 | a null coupon always passes; a real one gets the advanced verdict |
| Catalog.IsProductExists | src/advanced/models/product.ts:23-28 | definition only (no contract): some product has the id; the operations that consult it state its effect |
| Catalog.FindProductById | src/advanced/models/product.ts:16-21 | None exactly when no product has the id, otherwise the first that does |
| Catalog.AddProduct | src/advanced/models/product.ts:32-52 | blank name, then negative price, then negative stock are refused in that order; otherwise the product is appended with id "p" + timestamp |
| Catalog.Merge | src/advanced/models/product.ts:75 | every given field replaces the product's, the others and the id stay |
| Catalog.UpdateProduct | src/advanced/models/product.ts:55-79 | unknown id, then blank name, negative price, negative stock are refused; otherwise every product with the id is merged, others unchanged |
| Catalog.RemoveProduct | src/advanced/models/product.ts:82-92 | refused exactly for an unknown id; otherwise no product with it remains, others kept in order |
| Catalog.AddThenRemoveProduct | src/advanced/models/product.ts:32-92 | adding a valid draft under a fresh id and removing that id restores the catalog |
| Catalog.UpdateProductStock | src/advanced/models/product.ts:95-104 | negative stock is refused first; otherwise succeeds exactly for a known id and changes only that stock |
| Catalog.UpdateProductKeepsIds | src/advanced/models/product.ts:74-76 | a successful update keeps every id in place |
| Catalog.AddProductKeepsIdsDistinct | src/advanced/models/product.ts:46-51 | adding under an id no product has keeps ids distinct |
| Catalog.UpdateProductKeepsIdsDistinct | src/advanced/models/product.ts:74-76 | any successful update keeps ids distinct |
| Catalog.RemoveProductKeepsIdsDistinct | src/advanced/models/product.ts:90 | any successful removal keeps ids distinct |
| Catalog.InsertTier | src/advanced/models/product.ts:136-138 | inserting into a sorted tier list keeps it sorted and adds exactly the one tier |
| Catalog.InsertTierKeepsStrict | src/advanced/models/product.ts:136-138 | inserting a new threshold into strictly increasing thresholds keeps them strictly increasing |
| Catalog.SortTiers | src/advanced/models/product.ts:136-138 | the sort is a permutation of the tiers, sorted by threshold |
| Catalog.SortTiersKeepsStrict | src/advanced/models/product.ts:136-138 | tiers with distinct thresholds come out strictly increasing |
| Catalog.AddProductDiscount | src/advanced/models/product.ts:108-141 | unknown product, bad threshold, bad rate, duplicate threshold refused in that order; every other call succeeds, giving the product its tiers plus the new one, sorted |
| Catalog.AddProductDiscountAgreesWithValidateDiscount | src/advanced/models/product.ts:119-124 | for a known product a tier is refused exactly as validateDiscount refuses it, else only as a duplicate |
| Catalog.AddProductDiscountKeepsThresholdsDistinct | src/advanced/models/product.ts:126-138 | after a successful insert the thresholds are strictly increasing |
| Catalog.RemoveAt | src/advanced/models/product.ts:159 | the list without its i-th element, the rest in order |
| Catalog.RemoveProductDiscount | src/advanced/models/product.ts:144-161 | unknown product or an index outside the tiers is refused; otherwise exactly that tier goes |
| Catalog.FilterProductsBySearch | src/advanced/models/product.ts:165-179 | a blank term returns the catalog; otherwise an in-order sublist holding every product whose name or description contains the term |
| Coupons.IsCouponCodeExists | src/advanced/models/coupon.ts:22-24 | definition only (no contract): some coupon has the code; `Coupons.AddCoupon` states its effect |
| Coupons.FindCouponByCode | src/advanced/models/coupon.ts:14-19 | Some exactly when a coupon has the code, and then the first such coupon |
| Coupons.AddCoupon | src/advanced/models/coupon.ts:29-38 | refused exactly for an existing code; otherwise the coupon is appended |
| Coupons.RemoveCoupon | src/advanced/models/coupon.ts:41-51 | refused exactly for an absent code; otherwise the code is gone and other coupons stay in order |
| Coupons.AddCouponKeepsCodesDistinct | src/advanced/models/coupon.ts:29-38 | adding keeps codes distinct |
| Coupons.RemoveCouponKeepsCodesDistinct | src/advanced/models/coupon.ts:41-51 | removing keeps codes distinct |
| Coupons.AddThenRemoveCoupon | src/advanced/models/coupon.ts:29-51 | adding a new code and removing it restores the ledger |
| Store.OrderNumber | src/advanced/hooks/useCart.ts:152 | "ORD-" followed by decimal digits that read back as the timestamp |
| Store.OrderNumbersDistinct | src/advanced/hooks/useCart.ts:152 | different timestamps give different order numbers |
| Store.Shop.constructor | src/advanced/store/cartAtom.ts:19-22 | empty cart, no coupon, the seeded coupons and products |
| Store.Shop.TotalItemCount | src/advanced/store/cartAtom.ts:29-32 | in a well-formed cart the unit count is at least the number of lines |
| Store.Shop.Totals | src/advanced/store/cartAtom.ts:35-39 | definition only (no contract): the cart totals under the applied coupon, as `DiscountEngine.CalculateCartTotal` |
| Store.Shop.RemainingStock | src/advanced/store/cartAtom.ts:42-45 | definition only (no contract): `Cart.GetRemainingStock` on the current cart |
| Store.Shop.CouponCount | src/advanced/store/couponAtom.ts:27 | definition only (no contract): the number of coupons |
| Store.Shop.ProductCount | src/advanced/hooks/useProducts.ts:41 | definition only (no contract): the number of products |
| Store.Shop.AddToCart | src/advanced/hooks/useCart.ts:84-97 | commits the model's cart only on success, one unit more, with one notice either way |
| Store.Shop.RemoveFromCart | src/advanced/hooks/useCart.ts:100-106 | the product's line is gone, the coupon stays, nothing is announced |
| Store.Shop.UpdateQuantity | src/advanced/hooks/useCart.ts:109-121 | commits silently on success; a refusal keeps the cart and is announced; the unit count moves by the change |
| Store.Shop.ApplyCoupon | src/advanced/hooks/useCart.ts:124-137 | applies the coupon unless it is a percentage coupon under 10000; a refusal keeps the old coupon |
| Store.Shop.RemoveAppliedCoupon | src/advanced/hooks/useCart.ts:140-142 | no coupon is applied and the cart is unchanged |
| Store.Shop.ClearCart | src/advanced/hooks/useCart.ts:145-148 | empty cart, no coupon, all totals zero |
| Store.Shop.CompleteOrder | src/advanced/hooks/useCart.ts:151-157 | returns "ORD-" + timestamp, which reads back as the timestamp, announces it, empties the cart and drops the coupon |
| Store.Shop.AddCoupon | src/advanced/hooks/useCoupons.ts:54-68 | true and the coupon appended exactly when its code is new |
| Store.Shop.RemoveCoupon | src/advanced/hooks/useCoupons.ts:71-90 | true exactly for a known code; then the code is gone and an applied coupon with that code is dropped |
| Store.Shop.CommitProducts | src/advanced/hooks/useProducts.ts:52-59 | true and the new catalog on success, false and no change otherwise, one notice either way |
| Store.Shop.AddProduct | src/advanced/hooks/useProducts.ts:50-62 | true exactly for a valid draft; the new product is last under the timestamp id; a fresh id keeps ids distinct |
| Store.Shop.UpdateProduct | src/advanced/hooks/useProducts.ts:64-76 | true exactly when the model succeeds; ids stay in place |
| Store.Shop.RemoveProduct | src/advanced/hooks/useProducts.ts:78-90 | true exactly for a known id, which is then gone |
| Store.Shop.UpdateProductStock | src/advanced/hooks/useProducts.ts:92-104 | true exactly for a non-negative stock and a known id; only that stock changes |
| Store.Shop.AddProductDiscount | src/advanced/hooks/useProducts.ts:106-118 | true exactly for a known product and a tier validateDiscount accepts whose threshold the product lacks; ids stay in place |
| Store.Shop.RemoveProductDiscount | src/advanced/hooks/useProducts.ts:120-132 | true exactly for a known product and an index inside its tiers |

## Left out

- Notification timers and texts (`src/advanced/hooks/useNotifications.ts`): only the kind of each notice is logged; expiry, ids and the Korean messages are not modelled.
- Persistence: the atoms' `localStorage` sync is not modelled; the store starts from the given products and coupons.
- The `onCouponRemoved` callback of `useCoupons` is a call into the caller's code and is not modelled.
- Rendering and the `isRecommended` product flag, which no modelled operation reads.
- Locale formatting: `formatDiscountAmount` (`src/advanced/models/discount.ts:167-169`), the digits of `formatPrice`'s price labels and `src/advanced/utils/formatters.ts` use `toLocaleString`; `BasicCart.FormatPrice` returns which label is shown, not its text.
- IEEE-754 arithmetic: prices and rates are exact numbers, so floating-point rounding error (for example in `0.1 + 0.05`) is not modelled.
- Catalog.FilterProductsBySearch: lower-casing is a parameter, so only the structure of the filter (blank term, order, matches kept) is proved, not Unicode case folding.
- Catalog.SortTiers: JavaScript's sort is stable; the model's insertion sort is stable too, but stability itself is not proved, only sortedness and permutation.
- DiscountEngine.CartTotalDiscountIsDifference: covers only a whole coupon result; the exact condition is `DiscountEngine.CartTotalDiscountIsDifferenceIff` (the identity fails exactly when the coupon-applied total ends in .5), and `DiscountEngine.HalfUnitCouponBreaksDifference` shows an amount coupon of 0.5 where it fails.
- Cart.UpdateToSameQuantityIsNoOp: its premise that a line's quantity is within its own product copy's stock is not kept by the cart, because an add checks the catalog product's stock but leaves the line's old copy in place; `Cart.RestockLetsLineOutgrowItsCopy` shows a restock after which setting a line to its own quantity is refused.
- Store.Shop.ApplyCoupon: the check is made only when the coupon is applied; later cart changes can leave a percentage coupon applied to a total under 10000, and the model states no invariant about that.
