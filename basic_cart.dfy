/**
 * The older single-file cart model (src/basic/models/cart.ts): the same
 * cart and discount rules as the advanced models, with the tier reduce and
 * the bulk bonus written inline, the coupon applied through one reassigned
 * local, and a nullable coupon at the eligibility gate. Its reduces are
 * modelled as left folds; the lemmas at the end show that every result
 * equals the advanced model's.
 */
module BasicCart {
  import opened Wrappers
  import opened Types
  import opened Seqs
  import DiscountEngine
  import Cart

  // The line predicates and the quantity update are the callbacks the
  // advanced model uses (`item.product.id === id`, `{ ...item, quantity }`).

  /** getRemainingStock. */
  function GetRemainingStock(product: Product, cart: seq<CartItem>): int
  {
    var inCart := match Find(cart, Cart.IsLineFor(product.id))
      case Some(item) => item.quantity
      case None => 0;
    product.stock - inCart
  }

  /** The callback of the inline tier reduce. */
  function BestTierStep(quantity: int): (real, Discount) -> real
  {
    (best: real, d: Discount) => if quantity >= d.quantity && d.rate > best then d.rate else best
  }

  /** getMaxApplicableDiscount with its reduce and bulk check inline. */
  function GetMaxApplicableDiscount(item: CartItem, cart: seq<CartItem>): real
  {
    var baseDiscount := FoldLeft(BestTierStep(item.quantity), 0.0, item.product.discounts);
    var hasBulkPurchase := exists i :: 0 <= i < |cart| && cart[i].quantity >= 10;
    if hasBulkPurchase then
      (if baseDiscount + 0.05 < 0.5 then baseDiscount + 0.05 else 0.5)
    else baseDiscount
  }

  /** calculateItemTotal: `Math.round(price * quantity * (1 - discount))`. */
  function CalculateItemTotal(item: CartItem, cart: seq<CartItem>): int
  {
    var discount := GetMaxApplicableDiscount(item, cart);
    Round((item.product.price * item.quantity) as real * (1.0 - discount))
  }

  function SubtotalStep(sum: int, item: CartItem): int
  {
    sum + item.product.price * item.quantity
  }

  function ItemTotalStep(cart: seq<CartItem>): (int, CartItem) -> int
  {
    (sum: int, item: CartItem) => sum + CalculateItemTotal(item, cart)
  }

  function QuantityStep(sum: int, item: CartItem): int
  {
    sum + item.quantity
  }

  /** The `if (coupon)` block of calculateCartTotal, which reassigns `totalAfterDiscount`. */
  function ApplyCouponBlock(totalAfterDiscount: int, coupon: Option<Coupon>): real
  {
    match coupon
    case None => totalAfterDiscount as real
    case Some(c) =>
      if c.discountType == Amount then
        (if 0.0 < totalAfterDiscount as real - c.discountValue then totalAfterDiscount as real - c.discountValue else 0.0)
      else
        // `Math.round(totalAfterDiscount * (1 - discountValue / 100))`
        DiscountEngine.PercentageOff(totalAfterDiscount, c.discountValue) as real
  }

  /** calculateCartTotal. */
  function CalculateCartTotal(cart: seq<CartItem>, coupon: Option<Coupon>): DiscountEngine.CartTotals
  {
    var totalBeforeDiscount := FoldLeft(SubtotalStep, 0, cart);
    var totalAfterDiscount := ApplyCouponBlock(FoldLeft(ItemTotalStep(cart), 0, cart), coupon);
    DiscountEngine.CartTotals(
      Round(totalBeforeDiscount as real),
      Round(totalAfterDiscount),
      Round(totalBeforeDiscount as real - totalAfterDiscount))
  }

  /** calculateTotalItemCount. */
  function CalculateTotalItemCount(cart: seq<CartItem>): int
  {
    FoldLeft(QuantityStep, 0, cart)
  }

  /** addItemToCart. */
  function AddItemToCart(product: Product, cart: seq<CartItem>): Result<seq<CartItem>>
  {
    var remainingStock := GetRemainingStock(product, cart);
    if remainingStock <= 0 then Err(OutOfStock)
    else
      match Find(cart, Cart.IsLineFor(product.id))
      case Some(existingItem) =>
        var newQuantity := existingItem.quantity + 1;
        if newQuantity > product.stock then Err(StockExceeded(product.stock))
        else Ok(MapWhere(cart, Cart.IsLineFor(product.id), Cart.WithQuantity(newQuantity)))
      case None => Ok(cart + [CartItem(product, 1)])
  }

  /** removeItemFromCart. */
  function RemoveItemFromCart(productId: string, cart: seq<CartItem>): seq<CartItem>
  {
    Filter(cart, Cart.IsOtherLine(productId))
  }

  /** updateCartItemQuantity. */
  function UpdateCartItemQuantity(productId: string, newQuantity: int, cart: seq<CartItem>): Result<seq<CartItem>>
  {
    if newQuantity <= 0 then Ok(RemoveItemFromCart(productId, cart))
    else
      match Find(cart, Cart.IsLineFor(productId))
      case None => Err(LineNotFound)
      case Some(item) =>
        if newQuantity > item.product.stock then Err(StockExceeded(item.product.stock))
        else Ok(MapWhere(cart, Cart.IsLineFor(productId), Cart.WithQuantity(newQuantity)))
  }

  /** validateCouponApplication, whose coupon may be null. */
  function ValidateCouponApplication(coupon: Option<Coupon>, cart: seq<CartItem>): Result<()>
  {
    var totals := CalculateCartTotal(cart, None);
    if totals.totalAfterDiscount < 10000 && coupon.Some? && coupon.value.discountType == Percentage then
      Err(MinimumNotMet)
    else Ok(())
  }

  /** What formatPrice shows; the digits themselves come from `toLocaleString`, which is not modelled. */
  datatype PriceLabel = SoldOut | AdminPrice(price: int) | ShopPrice(price: int)

  /**
   * formatPrice: "SOLD OUT" whenever a product is given and none of it is
   * left, whether or not the viewer is an admin.
   */
  function FormatPrice(price: int, product: Option<Product>, cart: seq<CartItem>, isAdmin: bool): (r: PriceLabel)
    ensures r == SoldOut <==> product.Some? && Cart.GetRemainingStock(product.value, cart) <= 0
    ensures r != SoldOut ==> r.price == price && (r.AdminPrice? <==> isAdmin)
  {
    if product.Some? && GetRemainingStock(product.value, cart) <= 0 then SoldOut
    else if isAdmin then AdminPrice(price)
    else ShopPrice(price)
  }

  // ---------------------------------------------------------------------------
  // Agreement with the advanced models
  // ---------------------------------------------------------------------------

  /** The inline tier reduce computes the same rate as getQuantityDiscount's. */
  lemma {:induction false} TierFoldAgrees(tiers: seq<Discount>, quantity: int, best: real)
    ensures FoldLeft(BestTierStep(quantity), best, tiers) == DiscountEngine.QuantityDiscountFrom(tiers, quantity, best)
  {
    if tiers != [] {
      TierFoldAgrees(tiers[1..], quantity, DiscountEngine.TierStep(quantity, best, tiers[0]));
    }
  }

  lemma MaxApplicableDiscountAgrees(item: CartItem, cart: seq<CartItem>)
    ensures GetMaxApplicableDiscount(item, cart) == DiscountEngine.GetMaxApplicableDiscount(item, cart)
  {
    TierFoldAgrees(item.product.discounts, item.quantity, 0.0);
  }

  lemma ItemTotalAgrees(item: CartItem, cart: seq<CartItem>)
    ensures CalculateItemTotal(item, cart) == DiscountEngine.CalculateItemTotal(item, cart)
  {
    MaxApplicableDiscountAgrees(item, cart);
  }

  lemma {:induction false} SubtotalFoldAgrees(cart: seq<CartItem>)
    ensures FoldLeft(SubtotalStep, 0, cart) == DiscountEngine.CalculateTotalBeforeDiscount(cart)
  {
    if cart != [] {
      var n := |cart| - 1;
      assert cart == cart[..n] + [cart[n]];
      FoldLeftSnoc(SubtotalStep, 0, cart[..n], cart[n]);
      SubtotalFoldAgrees(cart[..n]);
    }
  }

  lemma {:induction false} ItemTotalFoldAgrees(lines: seq<CartItem>, cart: seq<CartItem>)
    ensures FoldLeft(ItemTotalStep(cart), 0, lines) == DiscountEngine.SumItemTotals(lines, cart)
  {
    if lines != [] {
      var n := |lines| - 1;
      assert lines == lines[..n] + [lines[n]];
      FoldLeftSnoc(ItemTotalStep(cart), 0, lines[..n], lines[n]);
      ItemTotalFoldAgrees(lines[..n], cart);
      ItemTotalAgrees(lines[n], cart);
    }
  }

  /** The inline coupon block computes applyCouponDiscount. */
  lemma CouponBlockAgrees(total: int, coupon: Option<Coupon>)
    ensures ApplyCouponBlock(total, coupon) == DiscountEngine.ApplyCouponDiscount(total, coupon)
  {
  }

  /** The basic calculateCartTotal gives the advanced figures for every cart and coupon. */
  lemma CartTotalAgrees(cart: seq<CartItem>, coupon: Option<Coupon>)
    ensures CalculateCartTotal(cart, coupon) == DiscountEngine.CalculateCartTotal(cart, coupon)
  {
    SubtotalFoldAgrees(cart);
    ItemTotalFoldAgrees(cart, cart);
    CouponBlockAgrees(FoldLeft(ItemTotalStep(cart), 0, cart), coupon);
  }

  lemma {:induction false} ItemCountAgrees(cart: seq<CartItem>)
    ensures CalculateTotalItemCount(cart) == Cart.CalculateTotalItemCount(cart)
  {
    if cart != [] {
      var n := |cart| - 1;
      assert cart == cart[..n] + [cart[n]];
      FoldLeftSnoc(QuantityStep, 0, cart[..n], cart[n]);
      ItemCountAgrees(cart[..n]);
    }
  }

  /**
   * The cart transitions and the stock lookup are the advanced ones: adding
   * fails exactly when nothing is left (never with StockExceeded), removing
   * is idempotent, setting a quantity treats q <= 0 as removal.
   */
  lemma CartOperationsAgree(product: Product, productId: string, newQuantity: int, cart: seq<CartItem>)
    ensures GetRemainingStock(product, cart) == Cart.GetRemainingStock(product, cart)
    ensures AddItemToCart(product, cart) == Cart.AddItemToCart(product, cart)
    ensures RemoveItemFromCart(productId, cart) == Cart.RemoveItemFromCart(productId, cart)
    ensures UpdateCartItemQuantity(productId, newQuantity, cart) == Cart.UpdateCartItemQuantity(productId, newQuantity, cart)
  {
  }

  /**
   * A null coupon always passes the basic gate; a real coupon gets the
   * advanced verdict, so a percentage coupon fails exactly below 10000.
   */
  lemma ValidateCouponAgrees(coupon: Option<Coupon>, cart: seq<CartItem>)
    ensures coupon.None? ==> ValidateCouponApplication(coupon, cart) == Ok(())
    ensures coupon.Some? ==> ValidateCouponApplication(coupon, cart) == Cart.ValidateCouponApplication(coupon.value, cart)
  {
    CartTotalAgrees(cart, None);
  }
}
