/**
 * The discount engine (src/advanced/models/discount.ts): quantity tiers,
 * the cart-wide bulk bonus and its cap, line and cart totals, coupons, and
 * tier validation. Everything here is a pure function of its arguments.
 */
module DiscountEngine {
  import opened Wrappers
  import opened Types

  const BulkPurchaseThreshold: int := 10
  const BulkPurchaseBonus: real := 0.05
  const MaxDiscountRate: real := 0.5

  // ---------------------------------------------------------------------------
  // Quantity tiers
  // ---------------------------------------------------------------------------

  /** One step of getQuantityDiscount's reduce: take the tier's rate if it is met and beats the best so far. */
  function TierStep(quantity: int, best: real, d: Discount): real
  {
    if quantity >= d.quantity && d.rate > best then d.rate else best
  }

  /** The reduce of getQuantityDiscount, from accumulator `best`, over `tiers` in order. */
  function QuantityDiscountFrom(tiers: seq<Discount>, quantity: int, best: real): real
  {
    if tiers == [] then best
    else QuantityDiscountFrom(tiers[1..], quantity, TierStep(quantity, best, tiers[0]))
  }

  /** getQuantityDiscount: the reduce started at 0. */
  function GetQuantityDiscount(tiers: seq<Discount>, quantity: int): real
  {
    QuantityDiscountFrom(tiers, quantity, 0.0)
  }

  /**
   * `r` is the largest of `floor` and the rates of the tiers that `quantity`
   * meets: at least all of them, and equal to `floor` or to one of them.
   */
  ghost predicate IsBestRate(tiers: seq<Discount>, quantity: int, floor: real, r: real)
  {
    floor <= r &&
    (forall i :: 0 <= i < |tiers| && quantity >= tiers[i].quantity ==> tiers[i].rate <= r) &&
    (r == floor || exists i :: 0 <= i < |tiers| && quantity >= tiers[i].quantity && tiers[i].rate == r)
  }

  lemma {:induction false} QuantityDiscountFromIsBest(tiers: seq<Discount>, quantity: int, best: real)
    ensures IsBestRate(tiers, quantity, best, QuantityDiscountFrom(tiers, quantity, best))
  {
    if tiers != [] {
      var next := TierStep(quantity, best, tiers[0]);
      var rest := tiers[1..];
      QuantityDiscountFromIsBest(rest, quantity, next);
      var r := QuantityDiscountFrom(tiers, quantity, best);
      assert r == QuantityDiscountFrom(rest, quantity, next);
      forall i | 0 <= i < |tiers| && quantity >= tiers[i].quantity
        ensures tiers[i].rate <= r
      {
        if i > 0 {
          assert tiers[i] == rest[i - 1];
        }
      }
      if r != best {
        if r == next {
          assert quantity >= tiers[0].quantity && tiers[0].rate == r;
        } else {
          var j :| 0 <= j < |rest| && quantity >= rest[j].quantity && rest[j].rate == r;
          assert tiers[j + 1] == rest[j];
        }
      }
    }
  }

  /**
   * getQuantityDiscount returns 0 when no tier is met, and otherwise the
   * largest rate among the met tiers: one tier's rate, never a sum of rates.
   */
  lemma GetQuantityDiscountIsMaxMetRate(tiers: seq<Discount>, quantity: int)
    ensures var r := GetQuantityDiscount(tiers, quantity);
      && r >= 0.0
      && (forall i :: 0 <= i < |tiers| && quantity >= tiers[i].quantity ==> tiers[i].rate <= r)
      && (r == 0.0 || exists i :: 0 <= i < |tiers| && quantity >= tiers[i].quantity && tiers[i].rate == r)
      && ((forall i :: 0 <= i < |tiers| ==> quantity < tiers[i].quantity) ==> r == 0.0)
  {
    QuantityDiscountFromIsBest(tiers, quantity, 0.0);
  }

  /** The best rate depends only on which tiers there are, not on their order. */
  lemma BestRateUnique(a: seq<Discount>, b: seq<Discount>, quantity: int, r: real, s: real)
    requires forall x :: x in a <==> x in b
    requires IsBestRate(a, quantity, 0.0, r) && IsBestRate(b, quantity, 0.0, s)
    ensures r == s
  {
    if r != 0.0 {
      var i :| 0 <= i < |a| && quantity >= a[i].quantity && a[i].rate == r;
      assert a[i] in b;
    }
    if s != 0.0 {
      var j :| 0 <= j < |b| && quantity >= b[j].quantity && b[j].rate == s;
      assert b[j] in a;
    }
  }

  /** getQuantityDiscount gives the same rate for every ordering of the tier list. */
  lemma QuantityDiscountOrderIndependent(a: seq<Discount>, b: seq<Discount>, quantity: int)
    requires multiset(a) == multiset(b)
    ensures GetQuantityDiscount(a, quantity) == GetQuantityDiscount(b, quantity)
  {
    forall x ensures x in a <==> x in b {
      assert x in a <==> x in multiset(a);
      assert x in b <==> x in multiset(b);
    }
    QuantityDiscountFromIsBest(a, quantity, 0.0);
    QuantityDiscountFromIsBest(b, quantity, 0.0);
    BestRateUnique(a, b, quantity, GetQuantityDiscount(a, quantity), GetQuantityDiscount(b, quantity));
  }

  // ---------------------------------------------------------------------------
  // Bulk bonus
  // ---------------------------------------------------------------------------

  /** hasBulkPurchase: some line of the cart has at least 10 units. */
  predicate HasBulkPurchase(cart: seq<CartItem>)
  {
    exists i :: 0 <= i < |cart| && cart[i].quantity >= BulkPurchaseThreshold
  }

  /** applyBulkPurchaseBonus: `Math.min(base + 0.05, 0.5)` in a bulk cart, `base` otherwise. */
  function ApplyBulkPurchaseBonus(baseDiscount: real, isBulkPurchase: bool): (r: real)
    ensures isBulkPurchase ==> r <= MaxDiscountRate && r <= baseDiscount + BulkPurchaseBonus
    ensures isBulkPurchase ==> r == baseDiscount + BulkPurchaseBonus || r == MaxDiscountRate
    ensures !isBulkPurchase ==> r == baseDiscount
  {
    if isBulkPurchase then
      var raised := baseDiscount + BulkPurchaseBonus;
      if raised < MaxDiscountRate then raised else MaxDiscountRate
    else baseDiscount
  }

  /** The 0.5 cap belongs to the bonus branch only: a larger base rate passes through unchanged. */
  lemma CapOnlyInBulkBranch()
    ensures ApplyBulkPurchaseBonus(0.8, false) == 0.8 > MaxDiscountRate
    ensures ApplyBulkPurchaseBonus(0.8, true) == MaxDiscountRate
    ensures ApplyBulkPurchaseBonus(0.48, true) == 0.5
  {
  }

  /** getMaxApplicableDiscount: the line's tier rate, with the bonus when any line of the cart is bulk. */
  function GetMaxApplicableDiscount(item: CartItem, cart: seq<CartItem>): real
  {
    ApplyBulkPurchaseBonus(GetQuantityDiscount(item.product.discounts, item.quantity), HasBulkPurchase(cart))
  }

  /** Every tier rate of every line is at most 1 (validateDiscount's upper bound). */
  predicate RatesAtMostOne(tiers: seq<Discount>)
  {
    forall i :: 0 <= i < |tiers| ==> tiers[i].rate <= 1.0
  }

  /**
   * With tier rates at most 1 the applied rate lies in [0, 1]; in a bulk cart
   * it lies in [0.05, 0.5] whatever the line's own tiers are.
   */
  lemma MaxApplicableDiscountBounds(item: CartItem, cart: seq<CartItem>)
    requires RatesAtMostOne(item.product.discounts)
    ensures 0.0 <= GetMaxApplicableDiscount(item, cart) <= 1.0
    ensures HasBulkPurchase(cart) ==> BulkPurchaseBonus <= GetMaxApplicableDiscount(item, cart) <= MaxDiscountRate
  {
    GetQuantityDiscountIsMaxMetRate(item.product.discounts, item.quantity);
  }

  // ---------------------------------------------------------------------------
  // Line and cart sums
  // ---------------------------------------------------------------------------

  /** applyDiscount: `Math.round(price * (1 - rate))`. */
  function ApplyDiscount(price: int, discountRate: real): (r: int)
    ensures r as real - 0.5 <= price as real * (1.0 - discountRate) < r as real + 0.5
  {
    Round(price as real * (1.0 - discountRate))
  }

  /** A rate in [0, 1] never makes a non-negative amount negative or larger. */
  lemma ApplyDiscountBounds(price: int, discountRate: real)
    requires price >= 0 && 0.0 <= discountRate <= 1.0
    ensures 0 <= ApplyDiscount(price, discountRate) <= price
  {
    var exact := price as real * (1.0 - discountRate);
    assert 0.0 <= exact <= price as real by {
      assert price as real * (1.0 - discountRate) <= price as real * 1.0;
    }
    RoundMonotone(0.0, exact);
    RoundMonotone(exact, price as real);
    RoundOfInteger(0);
    RoundOfInteger(price);
  }

  /** calculateItemTotal: the line's price times quantity, discounted by its applicable rate. */
  function CalculateItemTotal(item: CartItem, cart: seq<CartItem>): int
  {
    ApplyDiscount(item.product.price * item.quantity, GetMaxApplicableDiscount(item, cart))
  }

  /** The line's undiscounted amount. */
  function LineSubtotal(item: CartItem): int
  {
    item.product.price * item.quantity
  }

  /** The lines respect the catalog's rules: non-negative price and quantity, tier rates at most 1. */
  predicate ValidLines(cart: seq<CartItem>)
  {
    forall i :: 0 <= i < |cart| ==>
      cart[i].product.price >= 0 && cart[i].quantity >= 0 && RatesAtMostOne(cart[i].product.discounts)
  }

  lemma ItemTotalBounds(item: CartItem, cart: seq<CartItem>)
    requires item.product.price >= 0 && item.quantity >= 0 && RatesAtMostOne(item.product.discounts)
    ensures 0 <= CalculateItemTotal(item, cart) <= LineSubtotal(item)
  {
    MaxApplicableDiscountBounds(item, cart);
    ApplyDiscountBounds(item.product.price * item.quantity, GetMaxApplicableDiscount(item, cart));
  }

  /** calculateTotalBeforeDiscount: the reduce `sum + price * quantity`, in cart order. */
  function CalculateTotalBeforeDiscount(cart: seq<CartItem>): int
  {
    if cart == [] then 0
    else CalculateTotalBeforeDiscount(cart[..|cart| - 1]) + LineSubtotal(cart[|cart| - 1])
  }

  /** The reduce `sum + calculateItemTotal(item, cart)` over `lines`, each priced against the whole `cart`. */
  function SumItemTotals(lines: seq<CartItem>, cart: seq<CartItem>): int
  {
    if lines == [] then 0
    else SumItemTotals(lines[..|lines| - 1], cart) + CalculateItemTotal(lines[|lines| - 1], cart)
  }

  /** calculateTotalAfterItemDiscount. */
  function CalculateTotalAfterItemDiscount(cart: seq<CartItem>): int
  {
    SumItemTotals(cart, cart)
  }

  lemma {:induction false} SumItemTotalsBounds(lines: seq<CartItem>, cart: seq<CartItem>)
    requires ValidLines(lines)
    ensures 0 <= SumItemTotals(lines, cart) <= CalculateTotalBeforeDiscount(lines)
  {
    if lines != [] {
      var last := lines[|lines| - 1];
      SumItemTotalsBounds(lines[..|lines| - 1], cart);
      ItemTotalBounds(last, cart);
    }
  }

  /** Item discounts never raise the total nor push it below 0. */
  lemma TotalAfterItemDiscountBounds(cart: seq<CartItem>)
    requires ValidLines(cart)
    ensures 0 <= CalculateTotalAfterItemDiscount(cart) <= CalculateTotalBeforeDiscount(cart)
  {
    SumItemTotalsBounds(cart, cart);
  }

  // ---------------------------------------------------------------------------
  // Coupons and cart totals
  // ---------------------------------------------------------------------------

  /** `Math.round(total * (1 - percent / 100))`: the nearest whole amount after taking `percent`% off. */
  function PercentageOff(total: int, percent: real): (r: int)
    ensures r as real - 0.5 <= total as real * (1.0 - percent / 100.0) < r as real + 0.5
  {
    Round(total as real * (1.0 - percent / 100.0))
  }

  /** Taking between 0% and 100% off a non-negative total lands in [0, total]. */
  lemma PercentageOffBounds(total: int, percent: real)
    requires 0 <= total && 0.0 <= percent <= 100.0
    ensures 0 <= PercentageOff(total, percent) <= total
  {
    var exact := total as real * (1.0 - percent / 100.0);
    ScaleBounds(total as real, 1.0 - percent / 100.0);
    RoundMonotone(0.0, exact);
    RoundMonotone(exact, total as real);
    RoundOfInteger(total);
    RoundOfInteger(0);
  }

  /**
   * applyCouponDiscount: unchanged without a coupon; an amount coupon
   * subtracts its value with a floor at 0; a percentage coupon scales and
   * rounds, with no floor.
   */
  function ApplyCouponDiscount(total: int, coupon: Option<Coupon>): (r: real)
    ensures coupon.None? ==> r == total as real
    ensures coupon.Some? && coupon.value.discountType == Amount ==>
      r >= 0.0 && r >= total as real - coupon.value.discountValue &&
      (r == 0.0 || r == total as real - coupon.value.discountValue)
    ensures coupon.Some? && coupon.value.discountType == Percentage ==>
      r == PercentageOff(total, coupon.value.discountValue) as real
  {
    match coupon
    case None => total as real
    case Some(c) =>
      if c.discountType == Amount then
        var left := total as real - c.discountValue;
        if 0.0 < left then left else 0.0
      else
        PercentageOff(total, c.discountValue) as real
  }

  /** A percentage coupon over 100% drives the total below zero: that branch has no floor. */
  lemma PercentageCouponHasNoFloor()
    ensures ApplyCouponDiscount(100, Some(Coupon("x", "X", Percentage, 150.0))) == -50.0
  {
  }

  datatype CartTotals = CartTotals(totalBeforeDiscount: int, totalAfterDiscount: int, totalDiscount: int)

  /** calculateCartTotal: each figure rounded on its own from the unrounded coupon result. */
  function CalculateCartTotal(cart: seq<CartItem>, coupon: Option<Coupon>): CartTotals
  {
    var before := CalculateTotalBeforeDiscount(cart);
    var afterItems := CalculateTotalAfterItemDiscount(cart);
    var after := ApplyCouponDiscount(afterItems, coupon);
    CartTotals(Round(before as real), Round(after), Round(before as real - after))
  }

  /** The coupon leaves a whole number: no coupon, a percentage coupon, or an amount coupon of whole value. */
  predicate WholeCouponResult(coupon: Option<Coupon>)
  {
    coupon.None? || coupon.value.discountType == Percentage ||
    coupon.value.discountValue == coupon.value.discountValue.Floor as real
  }

  /** The coupon result is a whole number when the coupon leaves one. */
  lemma WholeCouponResultIsWhole(total: int, coupon: Option<Coupon>)
    requires WholeCouponResult(coupon)
    ensures ApplyCouponDiscount(total, coupon) == ApplyCouponDiscount(total, coupon).Floor as real
  {
    match coupon
    case None =>
    case Some(c) =>
      if c.discountType == Amount {
        var v := c.discountValue.Floor;
        assert total as real - c.discountValue == (total - v) as real;
      }
  }

  /** Rounding a whole number, or a whole number minus another, changes nothing. */
  lemma RoundWholeDifference(before: int, after: real)
    requires after == after.Floor as real
    ensures Round(after) == after.Floor
    ensures Round(before as real - after) == before - after.Floor
  {
    var n := after.Floor;
    RoundOfInteger(n);
    assert before as real - after == (before - n) as real;
    RoundOfInteger(before - n);
  }

  /** totalDiscount is totalBeforeDiscount minus totalAfterDiscount whenever the coupon leaves a whole number. */
  lemma CartTotalDiscountIsDifference(cart: seq<CartItem>, coupon: Option<Coupon>)
    requires WholeCouponResult(coupon)
    ensures var t := CalculateCartTotal(cart, coupon);
      t.totalDiscount == t.totalBeforeDiscount - t.totalAfterDiscount
  {
    var before := CalculateTotalBeforeDiscount(cart);
    var after := ApplyCouponDiscount(CalculateTotalAfterItemDiscount(cart), coupon);
    WholeCouponResultIsWhole(CalculateTotalAfterItemDiscount(cart), coupon);
    RoundWholeDifference(before, after);
    RoundOfInteger(before);
    var t := CalculateCartTotal(cart, coupon);
    assert t == CartTotals(Round(before as real), Round(after), Round(before as real - after));
  }

  /**
   * An amount coupon worth half a unit makes the three figures disagree:
   * 10 before, 10 after (9.5 rounds up), yet a discount of 1 (0.5 rounds up).
   */
  /** x lies exactly half-way between two integers (Round breaks that tie upward). */
  predicate EndsInHalf(x: real)
  {
    (x + 0.5).Floor as real == x + 0.5
  }
  /** Rounding a whole number minus x is the whole number minus the rounded x
      except at a tie, where both roundings go up. */
  lemma RoundDifferenceIff(before: int, after: real)
    ensures Round(before as real - after) == before - Round(after) <==> !EndsInHalf(after)
  {
    var f := (after + 0.5).Floor;
    assert Round(after) == f;
    if EndsInHalf(after) {
      assert before as real - after + 0.5 == (before - f + 1) as real;
      RoundOfInteger(before - f + 1);
    } else {
      assert f as real < after + 0.5 < f as real + 1.0;
      assert (before - f) as real < before as real - after + 0.5 < (before - f) as real + 1.0;
      assert Round(before as real - after) == before - f;
    }
  }
  /** The summary's discount figure is the difference of the other two exactly
      when the coupon-applied total does not end in .5. */
  lemma CartTotalDiscountIsDifferenceIff(cart: seq<CartItem>, coupon: Option<Coupon>)
    ensures var t := CalculateCartTotal(cart, coupon);
      var after := ApplyCouponDiscount(CalculateTotalAfterItemDiscount(cart), coupon);
      t.totalDiscount == t.totalBeforeDiscount - t.totalAfterDiscount <==> !EndsInHalf(after)
  {
    var before := CalculateTotalBeforeDiscount(cart);
    var after := ApplyCouponDiscount(CalculateTotalAfterItemDiscount(cart), coupon);
    RoundDifferenceIff(before, after);
    RoundOfInteger(before);
    var t := CalculateCartTotal(cart, coupon);
    assert t == CartTotals(Round(before as real), Round(after), Round(before as real - after));
  }
  lemma HalfUnitCouponBreaksDifference()
    ensures var cart := [CartItem(Product("p1", "A", 10, 5, [], None), 1)];
      var t := CalculateCartTotal(cart, Some(Coupon("half", "HALF", Amount, 0.5)));
      t == CartTotals(10, 10, 1) && t.totalDiscount != t.totalBeforeDiscount - t.totalAfterDiscount
  {
    var cart := [CartItem(Product("p1", "A", 10, 5, [], None), 1)];
    assert CalculateTotalBeforeDiscount(cart) == 10;
    assert !HasBulkPurchase(cart);
    assert CalculateItemTotal(cart[0], cart) == 10;
    assert CalculateTotalAfterItemDiscount(cart) == 10;
  }

  /** An amount coupon never leaves a negative total, whatever the cart. */
  lemma AmountCouponTotalNonNegative(cart: seq<CartItem>, coupon: Coupon)
    requires coupon.discountType == Amount
    ensures CalculateCartTotal(cart, Some(coupon)).totalAfterDiscount >= 0
  {
    var after := ApplyCouponDiscount(CalculateTotalAfterItemDiscount(cart), Some(coupon));
    RoundMonotone(0.0, after);
    RoundOfInteger(0);
  }

  /** The coupon takes at most the whole total: none, an amount of at least 0, or a percentage in [0, 100]. */
  predicate ReasonableCoupon(coupon: Option<Coupon>)
  {
    coupon.None? ||
    (coupon.value.discountType == Amount && coupon.value.discountValue >= 0.0) ||
    (coupon.value.discountType == Percentage && 0.0 <= coupon.value.discountValue <= 100.0)
  }

  /** Scaling by a factor in [0, 1] keeps a non-negative amount in [0, itself]. */
  lemma ScaleBounds(x: real, f: real)
    requires 0.0 <= x && 0.0 <= f <= 1.0
    ensures 0.0 <= x * f <= x
  {
    assert x * f <= x * 1.0;
  }

  /** A reasonable coupon keeps a total in [0, items] when the items total is in [0, before]. */
  lemma ReasonableCouponBounds(items: int, coupon: Option<Coupon>)
    requires 0 <= items && ReasonableCoupon(coupon)
    ensures 0.0 <= ApplyCouponDiscount(items, coupon) <= items as real
  {
    if coupon.Some? && coupon.value.discountType == Percentage {
      PercentageOffBounds(items, coupon.value.discountValue);
    }
  }

  /** For sane lines and a reasonable coupon, 0 <= totalAfterDiscount <= totalBeforeDiscount. */
  lemma CartTotalBounds(cart: seq<CartItem>, coupon: Option<Coupon>)
    requires ValidLines(cart) && ReasonableCoupon(coupon)
    ensures var t := CalculateCartTotal(cart, coupon);
      0 <= t.totalAfterDiscount <= t.totalBeforeDiscount
  {
    var before := CalculateTotalBeforeDiscount(cart);
    var items := CalculateTotalAfterItemDiscount(cart);
    TotalAfterItemDiscountBounds(cart);
    var after := ApplyCouponDiscount(items, coupon);
    ReasonableCouponBounds(items, coupon);
    RoundMonotone(0.0, after);
    RoundMonotone(after, before as real);
    RoundOfInteger(0);
    RoundOfInteger(before);
    var t := CalculateCartTotal(cart, coupon);
    assert t.totalAfterDiscount == Round(after) && t.totalBeforeDiscount == Round(before as real);
  }

  // ---------------------------------------------------------------------------
  // Tier validation
  // ---------------------------------------------------------------------------

  datatype Validation = Valid | Invalid(error: Error)

  /** validateDiscount: the threshold must be positive, then the rate must lie in (0, 1]. */
  function ValidateDiscount(d: Discount): (r: Validation)
    ensures r.Valid? <==> d.quantity > 0 && 0.0 < d.rate <= 1.0
    ensures r.Invalid? ==> r.error == (if d.quantity <= 0 then InvalidTierQuantity else InvalidTierRate)
  {
    if d.quantity <= 0 then Invalid(InvalidTierQuantity)
    else if d.rate <= 0.0 || d.rate > 1.0 then Invalid(InvalidTierRate)
    else Valid
  }

  /** formatDiscountRate: `Math.round(rate * 100)` followed by `%`. */
  function FormatDiscountRate(rate: real): (s: string)
    ensures |s| >= 2 && s[|s| - 1] == '%'
  {
    IntegerString(Round(rate * 100.0)) + "%"
  }

  /**
   * For a rate of at least zero the label is digits and `%`, the digits
   * read back as the rounded percentage, and a valid tier rate shows at
   * most 100.
   */
  lemma FormatDiscountRateReadsBack(rate: real)
    requires rate >= 0.0
    ensures var digits := FormatDiscountRate(rate)[..|FormatDiscountRate(rate)| - 1];
      && (forall i :: 0 <= i < |digits| ==> '0' <= digits[i] <= '9')
      && DecimalValue(digits) == Round(rate * 100.0)
      && (rate <= 1.0 ==> DecimalValue(digits) <= 100)
  {
    var percent := Round(rate * 100.0);
    RoundMonotone(0.0, rate * 100.0);
    RoundOfInteger(0);
    DecimalRoundTrip(percent);
    if rate <= 1.0 {
      RoundMonotone(rate * 100.0, 100.0);
      RoundOfInteger(100);
    }
  }

  // ---------------------------------------------------------------------------
  // Worked examples
  // ---------------------------------------------------------------------------

  /** Tiers {5: 10%, 10: 20%}: 7 units earn 10%, 10 units earn 20% (not 30%). */
  lemma TierSelectionExample()
    ensures GetQuantityDiscount([Discount(5, 0.1), Discount(10, 0.2)], 7) == 0.1
    ensures GetQuantityDiscount([Discount(5, 0.1), Discount(10, 0.2)], 10) == 0.2
    ensures GetQuantityDiscount([Discount(10, 0.2), Discount(5, 0.1)], 10) == 0.2
  {
  }

  /** One bulk line lifts every other line: a line with no tier of its own gets 5%. */
  lemma BulkBonusReachesOtherLines()
    ensures var bulk := CartItem(Product("a", "A", 100, 50, [Discount(10, 0.2)], None), 10);
      var single := CartItem(Product("b", "B", 100, 50, [], None), 1);
      var cart := [bulk, single];
      GetMaxApplicableDiscount(single, cart) == 0.05 && GetMaxApplicableDiscount(bulk, cart) == 0.25
  {
    var bulk := CartItem(Product("a", "A", 100, 50, [Discount(10, 0.2)], None), 10);
    var single := CartItem(Product("b", "B", 100, 50, [], None), 1);
    assert [bulk, single][0].quantity >= BulkPurchaseThreshold;
  }
}
