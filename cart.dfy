/**
 * The cart mutator (src/advanced/models/cart.ts): remaining stock, item
 * count, and the add / remove / set-quantity transitions, each returning a
 * new cart or an error instead of throwing; plus the coupon eligibility gate.
 */
module Cart {
  import opened Wrappers
  import opened Types
  import opened Seqs
  import DiscountEngine

  /** The item-discounted total a percentage coupon needs. */
  const PercentageCouponMinimum: int := 10000

  /** The key a cart line is found and removed by. */
  function LineId(item: CartItem): string
  {
    item.product.id
  }

  function IsLineFor(productId: string): CartItem -> bool
  {
    (item: CartItem) => item.product.id == productId
  }

  function IsOtherLine(productId: string): CartItem -> bool
  {
    (item: CartItem) => item.product.id != productId
  }

  function WithQuantity(quantity: int): CartItem -> CartItem
  {
    (item: CartItem) => item.(quantity := quantity)
  }

  /** Position of the line `cart.find` returns for the product, or -1. */
  function LineIndex(cart: seq<CartItem>, productId: string): int
  {
    FirstIndex(cart, IsLineFor(productId))
  }

  /** At most one line per product, and every line holds at least one unit. */
  predicate WellFormed(cart: seq<CartItem>)
  {
    DistinctKeys(cart, LineId) && forall i :: 0 <= i < |cart| ==> cart[i].quantity > 0
  }

  /** getRemainingStock: the product's stock less the quantity on its first line, if any. */
  function GetRemainingStock(product: Product, cart: seq<CartItem>): (r: int)
    ensures (forall i :: 0 <= i < |cart| ==> cart[i].product.id != product.id) ==> r == product.stock
    ensures forall k :: 0 <= k < |cart| && cart[k].product.id == product.id &&
                        (forall i :: 0 <= i < k ==> cart[i].product.id != product.id)
                     ==> r == product.stock - cart[k].quantity
  {
    var inCart := match Find(cart, IsLineFor(product.id))
      case Some(item) => item.quantity
      case None => 0;
    product.stock - inCart
  }

  /** calculateTotalItemCount: the reduce `sum + quantity`, in cart order. */
  function CalculateTotalItemCount(cart: seq<CartItem>): (r: int)
    ensures (forall i :: 0 <= i < |cart| ==> cart[i].quantity >= 0) ==> r >= 0
    ensures (forall i :: 0 <= i < |cart| ==> cart[i].quantity > 0) ==> r >= |cart|
  {
    if cart == [] then 0
    else CalculateTotalItemCount(cart[..|cart| - 1]) + cart[|cart| - 1].quantity
  }

  /**
   * addItemToCart. It fails, always with OutOfStock, exactly when no stock
   * is left for the product: the StockExceeded branch cannot be reached,
   * because remaining stock > 0 already means existing + 1 <= stock. On
   * success the product's line goes up by exactly 1 (staying within the
   * stock), or a one-unit line is appended.
   */
  function AddItemToCart(product: Product, cart: seq<CartItem>): (r: Result<seq<CartItem>>)
    ensures r.Err? <==> GetRemainingStock(product, cart) <= 0
    ensures r.Err? ==> r.error == OutOfStock
    ensures r.Ok? && LineIndex(cart, product.id) == -1 ==> r.value == cart + [CartItem(product, 1)]
    ensures r.Ok? && LineIndex(cart, product.id) >= 0 ==>
      var k := LineIndex(cart, product.id);
      && |r.value| == |cart|
      && r.value[k].quantity == cart[k].quantity + 1 <= product.stock
      && forall i :: 0 <= i < |cart| ==>
           r.value[i] == if cart[i].product.id == product.id then cart[i].(quantity := cart[k].quantity + 1) else cart[i]
  {
    var remainingStock := GetRemainingStock(product, cart);
    if remainingStock <= 0 then Err(OutOfStock)
    else
      match Find(cart, IsLineFor(product.id))
      case Some(existing) =>
        var newQuantity := existing.quantity + 1;
        if newQuantity > product.stock then Err(StockExceeded(product.stock))
        else Ok(MapWhere(cart, IsLineFor(product.id), WithQuantity(newQuantity)))
      case None => Ok(cart + [CartItem(product, 1)])
  }

  /**
   * removeItemFromCart: exactly the lines of other products, each as often
   * as before and in their original order.
   */
  function RemoveItemFromCart(productId: string, cart: seq<CartItem>): (r: seq<CartItem>)
    ensures forall i :: 0 <= i < |r| ==> r[i].product.id != productId && r[i] in cart
    ensures forall i :: 0 <= i < |cart| && cart[i].product.id != productId ==>
      multiset(r)[cart[i]] == multiset(cart)[cart[i]]
    ensures IsSubsequence(r, cart)
  {
    FilterIsSubsequence(cart, IsOtherLine(productId));
    Filter(cart, IsOtherLine(productId))
  }

  lemma RemoveItemIdempotent(productId: string, cart: seq<CartItem>)
    ensures RemoveItemFromCart(productId, RemoveItemFromCart(productId, cart)) == RemoveItemFromCart(productId, cart)
  {
    FilterIdempotent(cart, IsOtherLine(productId));
  }

  lemma RemoveAbsentItemIsNoOp(productId: string, cart: seq<CartItem>)
    requires forall i :: 0 <= i < |cart| ==> cart[i].product.id != productId
    ensures RemoveItemFromCart(productId, cart) == cart
  {
    FilterKeepsAll(cart, IsOtherLine(productId));
  }

  /**
   * updateCartItemQuantity: a quantity of 0 or less removes the line and
   * succeeds; otherwise a missing line is LineNotFound, a quantity above the
   * line's own product copy's stock is StockExceeded, and anything else sets
   * that line's quantity to exactly the new value.
   */
  function UpdateCartItemQuantity(productId: string, newQuantity: int, cart: seq<CartItem>): (r: Result<seq<CartItem>>)
    ensures newQuantity <= 0 ==> r == Ok(RemoveItemFromCart(productId, cart))
    ensures newQuantity > 0 && LineIndex(cart, productId) == -1 ==> r == Err(LineNotFound)
    ensures newQuantity > 0 && LineIndex(cart, productId) >= 0 ==>
      var k := LineIndex(cart, productId);
      && (newQuantity > cart[k].product.stock ==> r == Err(StockExceeded(cart[k].product.stock)))
      && (newQuantity <= cart[k].product.stock ==>
            r.Ok? && |r.value| == |cart| &&
            forall i :: 0 <= i < |cart| ==>
              r.value[i] == if cart[i].product.id == productId then cart[i].(quantity := newQuantity) else cart[i])
  {
    if newQuantity <= 0 then Ok(RemoveItemFromCart(productId, cart))
    else
      match Find(cart, IsLineFor(productId))
      case None => Err(LineNotFound)
      case Some(item) =>
        if newQuantity > item.product.stock then Err(StockExceeded(item.product.stock))
        else Ok(MapWhere(cart, IsLineFor(productId), WithQuantity(newQuantity)))
  }

  /** Setting a line to the quantity it already has gives back the same cart. */
  lemma UpdateToSameQuantityIsNoOp(productId: string, cart: seq<CartItem>)
    requires DistinctKeys(cart, LineId)
    requires LineIndex(cart, productId) >= 0
    requires var line := cart[LineIndex(cart, productId)];
      0 < line.quantity <= line.product.stock
    ensures UpdateCartItemQuantity(productId, cart[LineIndex(cart, productId)].quantity, cart) == Ok(cart)
  {
    var k := LineIndex(cart, productId);
    var r := UpdateCartItemQuantity(productId, cart[k].quantity, cart);
    forall i | 0 <= i < |cart|
      ensures r.value[i] == cart[i]
    {
    }
    assert r.value == cart;
  }

  /**
   * validateCouponApplication: a percentage coupon is refused exactly when
   * the cart's item-discounted total (no coupon) is below 10000; an amount
   * coupon always passes.
   */
  function ValidateCouponApplication(coupon: Coupon, cart: seq<CartItem>): (r: Result<()>)
    ensures r.Err? <==>
      DiscountEngine.CalculateTotalAfterItemDiscount(cart) < PercentageCouponMinimum && coupon.discountType == Percentage
    ensures r.Err? ==> r.error == MinimumNotMet
  {
    RoundOfInteger(DiscountEngine.CalculateTotalAfterItemDiscount(cart));
    RoundOfInteger(DiscountEngine.CalculateTotalBeforeDiscount(cart));
    var totals := DiscountEngine.CalculateCartTotal(cart, None);
    if totals.totalAfterDiscount < PercentageCouponMinimum && coupon.discountType == Percentage then Err(MinimumNotMet)
    else Ok(())
  }

  // ---------------------------------------------------------------------------
  // Invariants the transitions keep
  // ---------------------------------------------------------------------------

  lemma AddItemPreservesWellFormed(product: Product, cart: seq<CartItem>)
    requires WellFormed(cart) && AddItemToCart(product, cart).Ok?
    ensures WellFormed(AddItemToCart(product, cart).value)
  {
    if LineIndex(cart, product.id) == -1 {
      AppendPreservesDistinctKeys(cart, CartItem(product, 1), LineId);
    } else {
      var k := LineIndex(cart, product.id);
      MapWherePreservesDistinctKeys(cart, IsLineFor(product.id), WithQuantity(cart[k].quantity + 1), LineId);
    }
  }

  lemma RemoveItemPreservesWellFormed(productId: string, cart: seq<CartItem>)
    requires WellFormed(cart)
    ensures WellFormed(RemoveItemFromCart(productId, cart))
  {
    FilterPreservesDistinctKeys(cart, IsOtherLine(productId), LineId);
  }

  lemma UpdateQuantityPreservesWellFormed(productId: string, newQuantity: int, cart: seq<CartItem>)
    requires WellFormed(cart) && UpdateCartItemQuantity(productId, newQuantity, cart).Ok?
    ensures WellFormed(UpdateCartItemQuantity(productId, newQuantity, cart).value)
  {
    if newQuantity <= 0 {
      RemoveItemPreservesWellFormed(productId, cart);
    } else {
      MapWherePreservesDistinctKeys(cart, IsLineFor(productId), WithQuantity(newQuantity), LineId);
    }
  }

  /** Two carts whose quantities agree line by line have the same item count. */
  lemma {:induction false} ItemCountSameQuantities(a: seq<CartItem>, b: seq<CartItem>)
    requires |a| == |b| && forall i :: 0 <= i < |a| ==> a[i].quantity == b[i].quantity
    ensures CalculateTotalItemCount(a) == CalculateTotalItemCount(b)
  {
    if a != [] {
      ItemCountSameQuantities(a[..|a| - 1], b[..|b| - 1]);
    }
  }

  /** Changing one line's quantity changes the item count by the same amount. */
  lemma {:induction false} ItemCountPointUpdate(a: seq<CartItem>, b: seq<CartItem>, k: int)
    requires |a| == |b| && 0 <= k < |a|
    requires forall i :: 0 <= i < |a| && i != k ==> a[i].quantity == b[i].quantity
    ensures CalculateTotalItemCount(b) == CalculateTotalItemCount(a) - a[k].quantity + b[k].quantity
  {
    var n := |a| - 1;
    if k == n {
      ItemCountSameQuantities(a[..n], b[..n]);
    } else {
      ItemCountPointUpdate(a[..n], b[..n], k);
    }
  }

  /** A successful add puts exactly one more unit in a cart with one line per product. */
  lemma AddItemIncrementsItemCount(product: Product, cart: seq<CartItem>)
    requires DistinctKeys(cart, LineId) && AddItemToCart(product, cart).Ok?
    ensures CalculateTotalItemCount(AddItemToCart(product, cart).value) == CalculateTotalItemCount(cart) + 1
  {
    var r := AddItemToCart(product, cart).value;
    var k := LineIndex(cart, product.id);
    if k == -1 {
      assert r[..|r| - 1] == cart;
    } else {
      forall i | 0 <= i < |cart| && i != k
        ensures cart[i].quantity == r[i].quantity
      {
      }
      ItemCountPointUpdate(cart, r, k);
    }
  }

  // ---------------------------------------------------------------------------
  // Worked examples
  // ---------------------------------------------------------------------------

  /** Stock 3: a line holding 3 cannot grow; a line holding 2 grows to 3. */
  /** A line keeps the product copy it was first added with: after a restock
      the catalog product lets the line grow past its copy's stock, and setting
      the line to the quantity it already has is then refused against that copy. */
  lemma RestockLetsLineOutgrowItsCopy()
    ensures var stale := Product("a", "A", 1000, 3, [], None);
      var restocked := stale.(stock := 5);
      && AddItemToCart(restocked, [CartItem(stale, 3)]) == Ok([CartItem(stale, 4)])
      && UpdateCartItemQuantity("a", 4, [CartItem(stale, 4)]) == Err(StockExceeded(3))
  {
    var stale := Product("a", "A", 1000, 3, [], None);
    var restocked := stale.(stock := 5);
    var cart := [CartItem(stale, 3)];
    assert LineIndex(cart, "a") == 0;
    assert GetRemainingStock(restocked, cart) == 2;
    var r := AddItemToCart(restocked, cart);
    assert |r.value| == 1 && r.value[0] == CartItem(stale, 4);
    assert r.value == [CartItem(stale, 4)];
    assert LineIndex([CartItem(stale, 4)], "a") == 0;
  }
  lemma StockLimitExample()
    ensures var p := Product("p1", "A", 1000, 3, [], None);
      AddItemToCart(p, [CartItem(p, 3)]) == Err(OutOfStock) &&
      AddItemToCart(p, [CartItem(p, 2)]) == Ok([CartItem(p, 3)])
  {
    var p := Product("p1", "A", 1000, 3, [], None);
    var cart := [CartItem(p, 2)];
    assert LineIndex(cart, "p1") == 0;
    assert GetRemainingStock(p, cart) == 1;
    var r := AddItemToCart(p, cart);
    assert |r.value| == 1 && r.value[0] == CartItem(p, 3);
    assert r.value == [CartItem(p, 3)];
  }

  /** An item-discounted total of 9999 refuses a percentage coupon but not an amount coupon. */
  lemma CouponGateExample()
    ensures var cart := [CartItem(Product("p1", "A", 9999, 5, [], None), 1)];
      ValidateCouponApplication(Coupon("10%", "PCT10", Percentage, 10.0), cart) == Err(MinimumNotMet) &&
      ValidateCouponApplication(Coupon("5000", "AMT5000", Amount, 5000.0), cart) == Ok(())
  {
    var cart := [CartItem(Product("p1", "A", 9999, 5, [], None), 1)];
    assert !DiscountEngine.HasBulkPurchase(cart);
    assert DiscountEngine.CalculateItemTotal(cart[0], cart) == 9999;
    assert DiscountEngine.CalculateTotalAfterItemDiscount(cart) == 9999;
  }
}
