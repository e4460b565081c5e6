/**
 * The coupon ledger (src/advanced/models/coupon.ts): lookup by code, and
 * add / remove returning a new list or an error. Codes compare exactly
 * (case-sensitive `===`).
 */
module Coupons {
  import opened Wrappers
  import opened Types
  import opened Seqs

  function CouponCode(c: Coupon): string
  {
    c.code
  }

  function HasCode(code: string): Coupon -> bool
  {
    (c: Coupon) => c.code == code
  }

  function HasOtherCode(code: string): Coupon -> bool
  {
    (c: Coupon) => c.code != code
  }

  /** isCouponCodeExists: some coupon has exactly this code. */
  predicate IsCouponCodeExists(code: string, coupons: seq<Coupon>)
  {
    exists i :: 0 <= i < |coupons| && coupons[i].code == code
  }

  /** findCouponByCode: the first coupon with the code; found exactly when the code exists. */
  function FindCouponByCode(code: string, coupons: seq<Coupon>): (r: Option<Coupon>)
    ensures r.Some? <==> IsCouponCodeExists(code, coupons)
    ensures r.Some? ==> exists k :: 0 <= k < |coupons| && coupons[k] == r.value && r.value.code == code &&
                                   forall i :: 0 <= i < k ==> coupons[i].code != code
  {
    Find(coupons, HasCode(code))
  }

  /** addCoupon: DuplicateCode exactly when the code is taken; otherwise the coupon is appended. */
  function AddCoupon(newCoupon: Coupon, coupons: seq<Coupon>): (r: Result<seq<Coupon>>)
    ensures r.Err? <==> IsCouponCodeExists(newCoupon.code, coupons)
    ensures r.Err? ==> r.error == DuplicateCode
    ensures r.Ok? ==> r.value == coupons + [newCoupon]
  {
    if IsCouponCodeExists(newCoupon.code, coupons) then Err(DuplicateCode)
    else Ok(coupons + [newCoupon])
  }

  /**
   * removeCoupon: NotFound exactly when the code is absent; otherwise the
   * coupons with other codes, in their original order, and the code is gone.
   */
  function RemoveCoupon(couponCode: string, coupons: seq<Coupon>): (r: Result<seq<Coupon>>)
    ensures r.Err? <==> !IsCouponCodeExists(couponCode, coupons)
    ensures r.Err? ==> r.error == NotFound
    ensures r.Ok? ==>
      && !IsCouponCodeExists(couponCode, r.value)
      && (forall i :: 0 <= i < |r.value| ==> r.value[i] in coupons)
      && (forall i :: 0 <= i < |coupons| && coupons[i].code != couponCode ==>
            multiset(r.value)[coupons[i]] == multiset(coupons)[coupons[i]])
      && IsSubsequence(r.value, coupons)
  {
    if !IsCouponCodeExists(couponCode, coupons) then Err(NotFound)
    else
      FilterIsSubsequence(coupons, HasOtherCode(couponCode));
      Ok(Filter(coupons, HasOtherCode(couponCode)))
  }

  /** Every code in the ledger is different. */
  predicate CodesDistinct(coupons: seq<Coupon>)
  {
    DistinctKeys(coupons, CouponCode)
  }

  lemma AddCouponKeepsCodesDistinct(newCoupon: Coupon, coupons: seq<Coupon>)
    requires CodesDistinct(coupons)
    ensures AddCoupon(newCoupon, coupons).Ok? ==> CodesDistinct(AddCoupon(newCoupon, coupons).value)
  {
    if AddCoupon(newCoupon, coupons).Ok? {
      AppendPreservesDistinctKeys(coupons, newCoupon, CouponCode);
    }
  }

  lemma RemoveCouponKeepsCodesDistinct(code: string, coupons: seq<Coupon>)
    requires CodesDistinct(coupons)
    ensures RemoveCoupon(code, coupons).Ok? ==> CodesDistinct(RemoveCoupon(code, coupons).value)
  {
    FilterPreservesDistinctKeys(coupons, HasOtherCode(code), CouponCode);
  }

  /** Adding a coupon under a new code and then removing that code restores the ledger. */
  lemma AddThenRemoveCoupon(newCoupon: Coupon, coupons: seq<Coupon>)
    requires !IsCouponCodeExists(newCoupon.code, coupons)
    ensures RemoveCoupon(newCoupon.code, AddCoupon(newCoupon, coupons).value) == Ok(coupons)
  {
    var keep := HasOtherCode(newCoupon.code);
    var added := coupons + [newCoupon];
    assert AddCoupon(newCoupon, coupons) == Ok(added);
    FilterAppend(coupons, [newCoupon], keep);
    FilterKeepsAll(coupons, keep);
    assert [newCoupon][1..] == [];
    assert Filter([newCoupon], keep) == [];
    assert Filter(added, keep) == coupons;
    assert IsCouponCodeExists(newCoupon.code, added) by {
      assert added[|coupons|].code == newCoupon.code;
    }
  }
}
