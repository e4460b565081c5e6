/**
 * The shop's shared state and the actions the three hooks perform on it
 * (src/advanced/hooks/useCart.ts, useCoupons.ts, useProducts.ts): one object
 * holding the cart, the applied coupon, the coupon ledger and the catalog.
 * Every action asks the pure models for a result and commits it only on
 * success; what the hooks report to the user is kept as a log of notices.
 */
module Store {
  import opened Wrappers
  import opened Types
  import opened Seqs
  import DiscountEngine
  import Cart
  import Catalog
  import Coupons

  /** What a successful action announces. */
  datatype Event =
    | AddedToCart
    | CouponApplied
    | OrderCompleted(orderNumber: string)
    | CouponAdded
    | CouponRemoved
    | ProductAdded
    | ProductUpdated
    | ProductRemoved
    | StockUpdated
    | TierAdded
    | TierRemoved

  /** One notification: the error of a refused action, or the event of a completed one. */
  datatype Notice = Failed(error: Error) | Succeeded(event: Event)

  /** `ORD-` followed by the timestamp. */
  function OrderNumber(now: nat): (s: string)
    ensures |s| > 4 && s[..4] == "ORD-"
    ensures forall i :: 4 <= i < |s| ==> '0' <= s[i] <= '9'
    ensures DecimalValue(s[4..]) == now
  {
    DecimalRoundTrip(now);
    assert ("ORD-" + DecimalString(now))[4..] == DecimalString(now);
    "ORD-" + DecimalString(now)
  }

  /** Different timestamps give different order numbers. */
  lemma OrderNumbersDistinct(a: nat, b: nat)
    requires a != b
    ensures OrderNumber(a) != OrderNumber(b)
  {
    // the digits after the prefix read back as the timestamp
  }

  class Shop {
    var cart: seq<CartItem>
    var selectedCoupon: Option<Coupon>
    var coupons: seq<Coupon>
    var products: seq<Product>
    var notices: seq<Notice>

    /** One line per product with a positive quantity, and a ledger with distinct codes. */
    ghost predicate Valid()
      reads this
    {
      Cart.WellFormed(cart) && Coupons.CodesDistinct(coupons)
    }

    /** No two catalog entries share an id (ids come from the clock, so this is not guaranteed). */
    ghost predicate ProductIdsDistinct()
      reads this
    {
      DistinctKeys(products, Catalog.ProductId)
    }

    /** The store's initial state: an empty cart, no coupon, the seeded coupons and products. */
    constructor (initialProducts: seq<Product>, initialCoupons: seq<Coupon>)
      ensures cart == [] && selectedCoupon == None && notices == []
      ensures coupons == initialCoupons && products == initialProducts
      ensures Valid() <==> Coupons.CodesDistinct(initialCoupons)
    {
      cart := [];
      selectedCoupon := None;
      coupons := initialCoupons;
      products := initialProducts;
      notices := [];
    }

    /** totalItemCountAtom. */
    function TotalItemCount(): (r: int)
      reads this
      ensures Valid() ==> r >= |cart|
    {
      Cart.CalculateTotalItemCount(cart)
    }

    /** cartTotalsAtom: the totals of the cart under the applied coupon. */
    function Totals(): DiscountEngine.CartTotals
      reads this
    {
      DiscountEngine.CalculateCartTotal(cart, selectedCoupon)
    }

    /** getRemainingStockAtom. */
    function RemainingStock(product: Product): int
      reads this
    {
      Cart.GetRemainingStock(product, cart)
    }

    /** couponCountAtom. */
    function CouponCount(): nat
      reads this
    {
      |coupons|
    }

    /** productCount. */
    function ProductCount(): nat
      reads this
    {
      |products|
    }

    // -------------------------------------------------------------------------
    // useCart
    // -------------------------------------------------------------------------

    /**
     * addToCart: the cart takes the model's result only when it succeeds,
     * which it does exactly when some stock is left; then one more unit is
     * in the cart. Either way one notice is logged.
     */
    method AddToCart(product: Product)
      modifies this
      ensures var result := Cart.AddItemToCart(product, old(cart));
        && (result.Ok? ==> cart == result.value && notices == old(notices) + [Succeeded(AddedToCart)])
        && (result.Err? ==> cart == old(cart) && notices == old(notices) + [Failed(result.error)])
      ensures cart != old(cart) ==> old(RemainingStock(product)) > 0
      ensures old(Valid()) && old(RemainingStock(product)) > 0 ==> TotalItemCount() == old(TotalItemCount()) + 1
      ensures old(Valid()) ==> Valid()
      ensures selectedCoupon == old(selectedCoupon) && coupons == old(coupons) && products == old(products)
    {
      var result := Cart.AddItemToCart(product, cart);
      if result.Err? {
        notices := notices + [Failed(result.error)];
        return;
      }
      if Valid() {
        Cart.AddItemPreservesWellFormed(product, cart);
        Cart.AddItemIncrementsItemCount(product, cart);
      }
      cart := result.value;
      notices := notices + [Succeeded(AddedToCart)];
    }

    /** removeFromCart: no line for the product is left; the coupon stays; nothing is announced. */
    method RemoveFromCart(productId: string)
      modifies this
      ensures cart == Cart.RemoveItemFromCart(productId, old(cart))
      ensures forall i :: 0 <= i < |cart| ==> cart[i].product.id != productId
      ensures IsSubsequence(cart, old(cart))
      ensures old(Valid()) ==> Valid()
      ensures selectedCoupon == old(selectedCoupon) && coupons == old(coupons) && products == old(products)
      ensures notices == old(notices)
    {
      if Valid() {
        Cart.RemoveItemPreservesWellFormed(productId, cart);
      }
      cart := Cart.RemoveItemFromCart(productId, cart);
    }

    /**
     * updateQuantity: commits the model's result on success, silently; a
     * refusal is announced and leaves the cart alone. Setting one line of a
     * well-formed cart to q moves the item count by q minus the old quantity.
     */
    method UpdateQuantity(productId: string, newQuantity: int)
      modifies this
      ensures var result := Cart.UpdateCartItemQuantity(productId, newQuantity, old(cart));
        && (result.Ok? ==> cart == result.value && notices == old(notices))
        && (result.Err? ==> cart == old(cart) && notices == old(notices) + [Failed(result.error)])
      ensures var k := Cart.LineIndex(old(cart), productId);
        old(Valid()) && newQuantity > 0 && k >= 0 && newQuantity <= old(cart)[k].product.stock ==>
          TotalItemCount() == old(TotalItemCount()) - old(cart)[k].quantity + newQuantity
      ensures old(Valid()) ==> Valid()
      ensures selectedCoupon == old(selectedCoupon) && coupons == old(coupons) && products == old(products)
    {
      var result := Cart.UpdateCartItemQuantity(productId, newQuantity, cart);
      if result.Err? {
        notices := notices + [Failed(result.error)];
        return;
      }
      var k := Cart.LineIndex(cart, productId);
      if Valid() {
        Cart.UpdateQuantityPreservesWellFormed(productId, newQuantity, cart);
        if newQuantity > 0 && k >= 0 {
          forall i | 0 <= i < |cart| && i != k
            ensures cart[i].quantity == result.value[i].quantity
          {
          }
          Cart.ItemCountPointUpdate(cart, result.value, k);
        }
      }
      ghost var count := Cart.CalculateTotalItemCount(cart);
      cart := result.value;
      assert old(TotalItemCount()) == count;
    }

    /**
     * applyCoupon: the coupon is applied unless it is a percentage coupon
     * and the item-discounted total is under 10000; the check is made only
     * now, and later cart changes do not undo it.
     */
    method ApplyCoupon(coupon: Coupon)
      modifies this
      ensures var refused := coupon.discountType == Percentage &&
                             DiscountEngine.CalculateTotalAfterItemDiscount(old(cart)) < Cart.PercentageCouponMinimum;
        && (!refused ==> selectedCoupon == Some(coupon) && notices == old(notices) + [Succeeded(CouponApplied)])
        && (refused ==> selectedCoupon == old(selectedCoupon) && notices == old(notices) + [Failed(MinimumNotMet)])
      ensures cart == old(cart) && coupons == old(coupons) && products == old(products)
    {
      var validation := Cart.ValidateCouponApplication(coupon, cart);
      if validation.Err? {
        notices := notices + [Failed(validation.error)];
        return;
      }
      selectedCoupon := Some(coupon);
      notices := notices + [Succeeded(CouponApplied)];
    }

    /** useCart's removeCoupon: no coupon is applied afterwards. */
    method RemoveAppliedCoupon()
      modifies this
      ensures selectedCoupon == None
      ensures Totals() == DiscountEngine.CalculateCartTotal(cart, None)
      ensures cart == old(cart) && coupons == old(coupons) && products == old(products) && notices == old(notices)
    {
      selectedCoupon := None;
    }

    /** clearCart: an empty cart with no coupon, whose totals are all zero. */
    method ClearCart()
      modifies this
      ensures cart == [] && selectedCoupon == None
      ensures Totals() == DiscountEngine.CartTotals(0, 0, 0) && TotalItemCount() == 0
      ensures old(Valid()) ==> Valid()
      ensures coupons == old(coupons) && products == old(products) && notices == old(notices)
    {
      cart := [];
      selectedCoupon := None;
      RoundOfInteger(0);
    }

    /**
     * completeOrder: announces and returns the order number made from the
     * timestamp, then empties the cart and drops the coupon.
     */
    method CompleteOrder(now: nat) returns (orderNumber: string)
      modifies this
      ensures orderNumber == OrderNumber(now)
      ensures orderNumber[..4] == "ORD-" && DecimalValue(orderNumber[4..]) == now
      ensures notices == old(notices) + [Succeeded(OrderCompleted(orderNumber))]
      ensures cart == [] && selectedCoupon == None
      ensures old(Valid()) ==> Valid()
      ensures coupons == old(coupons) && products == old(products)
    {
      orderNumber := OrderNumber(now);
      assert orderNumber[4..] == DecimalString(now);
      DecimalRoundTrip(now);
      notices := notices + [Succeeded(OrderCompleted(orderNumber))];
      cart := [];
      selectedCoupon := None;
    }

    // -------------------------------------------------------------------------
    // useCoupons
    // -------------------------------------------------------------------------

    /** addCoupon: true, and the coupon appended, exactly when its code is new. */
    method AddCoupon(newCoupon: Coupon) returns (ok: bool)
      modifies this
      ensures ok <==> !Coupons.IsCouponCodeExists(newCoupon.code, old(coupons))
      ensures ok ==> coupons == old(coupons) + [newCoupon] && CouponCount() == old(CouponCount()) + 1
      ensures ok ==> notices == old(notices) + [Succeeded(CouponAdded)]
      ensures !ok ==> coupons == old(coupons) && notices == old(notices) + [Failed(DuplicateCode)]
      ensures old(Valid()) ==> Valid()
      ensures cart == old(cart) && selectedCoupon == old(selectedCoupon) && products == old(products)
    {
      var result := Coupons.AddCoupon(newCoupon, coupons);
      if result.Err? {
        notices := notices + [Failed(result.error)];
        return false;
      }
      if Valid() {
        Coupons.AddCouponKeepsCodesDistinct(newCoupon, coupons);
      }
      coupons := result.value;
      notices := notices + [Succeeded(CouponAdded)];
      return true;
    }

    /**
     * useCoupons' removeCoupon: true exactly when the code is in the ledger;
     * then the code is gone and an applied coupon with that code is dropped,
     * any other applied coupon kept. A refusal changes nothing but the log.
     */
    method RemoveCoupon(couponCode: string) returns (ok: bool)
      modifies this
      ensures ok <==> Coupons.IsCouponCodeExists(couponCode, old(coupons))
      ensures ok ==> coupons == Coupons.RemoveCoupon(couponCode, old(coupons)).value
      ensures ok ==> forall i :: 0 <= i < |coupons| ==> coupons[i].code != couponCode
      ensures ok ==> selectedCoupon == if old(selectedCoupon).Some? && old(selectedCoupon).value.code == couponCode
                                       then None else old(selectedCoupon)
      ensures ok ==> selectedCoupon.Some? ==> selectedCoupon.value.code != couponCode
      ensures ok ==> notices == old(notices) + [Succeeded(CouponRemoved)]
      ensures !ok ==> coupons == old(coupons) && selectedCoupon == old(selectedCoupon) &&
                      notices == old(notices) + [Failed(NotFound)]
      ensures old(Valid()) ==> Valid()
      ensures cart == old(cart) && products == old(products)
    {
      var result := Coupons.RemoveCoupon(couponCode, coupons);
      if result.Err? {
        notices := notices + [Failed(result.error)];
        return false;
      }
      if Valid() {
        Coupons.RemoveCouponKeepsCodesDistinct(couponCode, coupons);
      }
      coupons := result.value;
      if selectedCoupon.Some? && selectedCoupon.value.code == couponCode {
        selectedCoupon := None;
      }
      notices := notices + [Succeeded(CouponRemoved)];
      return true;
    }

    // -------------------------------------------------------------------------
    // useProducts
    // -------------------------------------------------------------------------

    /** Commits a catalog result: true and the new list on success, false and no change otherwise. */
    method CommitProducts(result: Result<seq<Product>>, event: Event) returns (ok: bool)
      modifies this
      ensures ok <==> result.Ok?
      ensures ok ==> products == result.value && notices == old(notices) + [Succeeded(event)]
      ensures !ok ==> products == old(products) && notices == old(notices) + [Failed(result.error)]
      ensures cart == old(cart) && selectedCoupon == old(selectedCoupon) && coupons == old(coupons)
    {
      if result.Err? {
        notices := notices + [Failed(result.error)];
        return false;
      }
      products := result.value;
      notices := notices + [Succeeded(event)];
      return true;
    }

    /**
     * addProduct: true exactly when the draft is valid; the new product is
     * appended under the id made from the timestamp, and a fresh id keeps
     * the catalog's ids distinct.
     */
    method AddProduct(draft: Catalog.ProductDraft, now: nat) returns (ok: bool)
      modifies this
      ensures ok <==> Catalog.ValidDraft(draft)
      ensures ok ==> products == Catalog.AddProduct(draft, now, old(products)).value
      ensures ok ==> ProductCount() == old(ProductCount()) + 1 &&
                     products[|products| - 1].id == Catalog.NewProductId(now)
      ensures ok ==> notices == old(notices) + [Succeeded(ProductAdded)]
      ensures !ok ==> products == old(products) && notices == old(notices) + [Failed(Catalog.AddProduct(draft, now, old(products)).error)]
      ensures old(ProductIdsDistinct()) && !Catalog.IsProductExists(Catalog.NewProductId(now), old(products)) ==>
                ProductIdsDistinct()
      ensures cart == old(cart) && selectedCoupon == old(selectedCoupon) && coupons == old(coupons)
    {
      var result := Catalog.AddProduct(draft, now, products);
      if ProductIdsDistinct() {
        if !Catalog.IsProductExists(Catalog.NewProductId(now), products) {
          Catalog.AddProductKeepsIdsDistinct(draft, now, products);
        }
      }
      ok := CommitProducts(result, ProductAdded);
    }

    /** updateProduct: true exactly when the product exists and the changes are valid; ids stay as they were. */
    method UpdateProduct(productId: string, updates: Catalog.ProductUpdate) returns (ok: bool)
      modifies this
      ensures var result := Catalog.UpdateProduct(productId, updates, old(products));
        && (ok <==> result.Ok?)
        && (ok ==> products == result.value && notices == old(notices) + [Succeeded(ProductUpdated)])
        && (!ok ==> products == old(products) && notices == old(notices) + [Failed(result.error)])
      ensures |products| == |old(products)| && forall i :: 0 <= i < |products| ==> products[i].id == old(products)[i].id
      ensures old(ProductIdsDistinct()) ==> ProductIdsDistinct()
      ensures cart == old(cart) && selectedCoupon == old(selectedCoupon) && coupons == old(coupons)
    {
      var result := Catalog.UpdateProduct(productId, updates, products);
      if result.Ok? {
        Catalog.UpdateProductKeepsIds(productId, updates, products);
      }
      ok := CommitProducts(result, ProductUpdated);
    }

    /** removeProduct: true exactly when the id exists; then no product with it is left. */
    method RemoveProduct(productId: string) returns (ok: bool)
      modifies this
      ensures ok <==> Catalog.IsProductExists(productId, old(products))
      ensures ok ==> products == Catalog.RemoveProduct(productId, old(products)).value &&
                     !Catalog.IsProductExists(productId, products) &&
                     notices == old(notices) + [Succeeded(ProductRemoved)]
      ensures !ok ==> products == old(products) && notices == old(notices) + [Failed(NotFound)]
      ensures old(ProductIdsDistinct()) ==> ProductIdsDistinct()
      ensures cart == old(cart) && selectedCoupon == old(selectedCoupon) && coupons == old(coupons)
    {
      var result := Catalog.RemoveProduct(productId, products);
      if ProductIdsDistinct() {
        Catalog.RemoveProductKeepsIdsDistinct(productId, products);
      }
      ok := CommitProducts(result, ProductRemoved);
    }

    /** updateProductStock: a negative stock or an unknown id is refused; otherwise only that stock changes. */
    method UpdateProductStock(productId: string, newStock: int) returns (ok: bool)
      modifies this
      ensures ok <==> newStock >= 0 && Catalog.IsProductExists(productId, old(products))
      ensures ok ==> |products| == |old(products)| &&
                     (forall i :: 0 <= i < |products| ==>
                        products[i] == if old(products)[i].id == productId
                                       then old(products)[i].(stock := newStock) else old(products)[i]) &&
                     notices == old(notices) + [Succeeded(StockUpdated)]
      ensures !ok ==> products == old(products) &&
                      notices == old(notices) + [Failed(if newStock < 0 then InvalidStock else NotFound)]
      ensures old(ProductIdsDistinct()) ==> ProductIdsDistinct()
      ensures cart == old(cart) && selectedCoupon == old(selectedCoupon) && coupons == old(coupons)
    {
      var result := Catalog.UpdateProductStock(productId, newStock, products);
      ok := CommitProducts(result, StockUpdated);
    }

    /**
     * addProductDiscount: true exactly when the product exists and the tier
     * passes validateDiscount with a threshold the product does not have yet;
     * ids stay as they were.
     */
    method AddProductDiscount(productId: string, discount: Discount) returns (ok: bool)
      modifies this
      ensures var result := Catalog.AddProductDiscount(productId, discount, old(products));
        && (ok <==> result.Ok?)
        && (ok ==> products == result.value && notices == old(notices) + [Succeeded(TierAdded)])
        && (!ok ==> products == old(products) && notices == old(notices) + [Failed(result.error)])
      ensures ok <==>
        && Catalog.IsProductExists(productId, old(products))
        && DiscountEngine.ValidateDiscount(discount) == DiscountEngine.Valid
        && var tiers := old(products)[Catalog.ProductIndex(productId, old(products))].discounts;
           !(exists j :: 0 <= j < |tiers| && tiers[j].quantity == discount.quantity)
      ensures |products| == |old(products)| && forall i :: 0 <= i < |products| ==> products[i].id == old(products)[i].id
      ensures old(ProductIdsDistinct()) ==> ProductIdsDistinct()
      ensures cart == old(cart) && selectedCoupon == old(selectedCoupon) && coupons == old(coupons)
    {
      var result := Catalog.AddProductDiscount(productId, discount, products);
      if Catalog.IsProductExists(productId, products) {
        Catalog.AddProductDiscountAgreesWithValidateDiscount(productId, discount, products);
      }
      ok := CommitProducts(result, TierAdded);
    }

    /** removeProductDiscount: true exactly when the product exists and the index names one of its tiers. */
    method RemoveProductDiscount(productId: string, discountIndex: int) returns (ok: bool)
      modifies this
      ensures var result := Catalog.RemoveProductDiscount(productId, discountIndex, old(products));
        && (ok <==> result.Ok?)
        && (ok ==> products == result.value && notices == old(notices) + [Succeeded(TierRemoved)])
        && (!ok ==> products == old(products) && notices == old(notices) + [Failed(result.error)])
      ensures ok <==> Catalog.IsProductExists(productId, old(products)) &&
                      0 <= discountIndex < |old(products)[Catalog.ProductIndex(productId, old(products))].discounts|
      ensures |products| == |old(products)| && forall i :: 0 <= i < |products| ==> products[i].id == old(products)[i].id
      ensures old(ProductIdsDistinct()) ==> ProductIdsDistinct()
      ensures cart == old(cart) && selectedCoupon == old(selectedCoupon) && coupons == old(coupons)
    {
      var result := Catalog.RemoveProductDiscount(productId, discountIndex, products);
      ok := CommitProducts(result, TierRemoved);
    }
  }
}
