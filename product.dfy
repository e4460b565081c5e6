/**
 * The catalog manager (src/advanced/models/product.ts): product create /
 * update / delete with field validation, stock updates, the per-product
 * discount-tier list, and the storefront search. Every operation returns a
 * new product list or an error; the input list is never changed.
 */
module Catalog {
  import opened Wrappers
  import opened Types
  import opened Seqs
  import DiscountEngine

  /** A new product as the admin form submits it: everything but the id. */
  datatype ProductDraft = ProductDraft(
    name: string,
    price: int,
    stock: int,
    discounts: seq<Discount>,
    description: Option<string>)

  /** `Partial<Omit<Product, "id">>`: each field is either present (Some) or left out (None). */
  datatype ProductUpdate = ProductUpdate(
    name: Option<string>,
    price: Option<int>,
    stock: Option<int>,
    discounts: Option<seq<Discount>>,
    description: Option<string>)

  const NoChanges := ProductUpdate(None, None, None, None, None)

  function ProductId(p: Product): string
  {
    p.id
  }

  function HasProductId(productId: string): Product -> bool
  {
    (p: Product) => p.id == productId
  }

  function IsOtherProduct(productId: string): Product -> bool
  {
    (p: Product) => p.id != productId
  }

  /** isProductExists: some product has exactly this id. */
  predicate IsProductExists(productId: string, products: seq<Product>)
  {
    exists i :: 0 <= i < |products| && products[i].id == productId
  }

  /** findProductById: the first product with this id; found exactly when it exists. */
  function FindProductById(productId: string, products: seq<Product>): (r: Option<Product>)
    ensures r.Some? <==> IsProductExists(productId, products)
    ensures r.Some? ==> exists k :: 0 <= k < |products| && products[k] == r.value && r.value.id == productId &&
                                   forall i :: 0 <= i < k ==> products[i].id != productId
  {
    Find(products, HasProductId(productId))
  }

  /** Position of the product findProductById returns (or -1). */
  function ProductIndex(productId: string, products: seq<Product>): int
  {
    FirstIndex(products, HasProductId(productId))
  }

  /** The id `p${Date.now()}` for the clock reading `now`. */
  function NewProductId(now: nat): string
  {
    "p" + DecimalString(now)
  }

  /** The draft is acceptable: a name that is not blank, and no negative price or stock. */
  predicate ValidDraft(draft: ProductDraft)
  {
    !IsBlank(draft.name) && draft.price >= 0 && draft.stock >= 0
  }

  /**
   * addProduct: rejects, in this order, a blank name, a negative price and a
   * negative stock; otherwise appends exactly one product, carrying the
   * draft's fields and the clock-derived id, after the unchanged list.
   */
  function AddProduct(draft: ProductDraft, now: nat, products: seq<Product>): (r: Result<seq<Product>>)
    ensures IsBlank(draft.name) ==> r == Err(InvalidName)
    ensures !IsBlank(draft.name) && draft.price < 0 ==> r == Err(InvalidPrice)
    ensures !IsBlank(draft.name) && draft.price >= 0 && draft.stock < 0 ==> r == Err(InvalidStock)
    ensures r.Ok? <==> ValidDraft(draft)
    ensures r.Ok? ==>
      && |r.value| == |products| + 1
      && r.value[..|products|] == products
      && var added := r.value[|products|];
         added.id == NewProductId(now) && added.name == draft.name && added.price == draft.price &&
         added.stock == draft.stock && added.discounts == draft.discounts && added.description == draft.description
  {
    if IsBlank(draft.name) then Err(InvalidName)
    else if draft.price < 0 then Err(InvalidPrice)
    else if draft.stock < 0 then Err(InvalidStock)
    else
      var product := Product(NewProductId(now), draft.name, draft.price, draft.stock, draft.discounts, draft.description);
      Ok(products + [product])
  }

  /** The update's present fields pass addProduct's checks. */
  predicate ValidUpdate(updates: ProductUpdate)
  {
    (updates.name.Some? ==> !IsBlank(updates.name.value)) &&
    (updates.price.Some? ==> updates.price.value >= 0) &&
    (updates.stock.Some? ==> updates.stock.value >= 0)
  }

  /** `{ ...product, ...updates }`: present fields replace the product's, the id never changes. */
  function Merge(p: Product, updates: ProductUpdate): (r: Product)
    ensures r.id == p.id
    ensures r.name == (if updates.name.Some? then updates.name.value else p.name)
    ensures r.price == (if updates.price.Some? then updates.price.value else p.price)
    ensures r.stock == (if updates.stock.Some? then updates.stock.value else p.stock)
    ensures r.discounts == (if updates.discounts.Some? then updates.discounts.value else p.discounts)
    ensures r.description == (if updates.description.Some? then updates.description else p.description)
  {
    Product(
      p.id,
      match updates.name case Some(n) => n case None => p.name,
      match updates.price case Some(v) => v case None => p.price,
      match updates.stock case Some(v) => v case None => p.stock,
      match updates.discounts case Some(ds) => ds case None => p.discounts,
      match updates.description case Some(d) => Some(d) case None => p.description)
  }

  function MergeWith(updates: ProductUpdate): Product -> Product
  {
    (p: Product) => Merge(p, updates)
  }

  /**
   * updateProduct: an unknown id is NotFound; then only the fields present
   * are checked (blank name, negative price, negative stock, in that order);
   * on success every product with the id is merged with the update and all
   * others stay as they were, in place.
   */
  function UpdateProduct(productId: string, updates: ProductUpdate, products: seq<Product>): (r: Result<seq<Product>>)
    ensures !IsProductExists(productId, products) ==> r == Err(NotFound)
    ensures IsProductExists(productId, products) ==>
      && (updates.name.Some? && IsBlank(updates.name.value) ==> r == Err(InvalidName))
      && (!(updates.name.Some? && IsBlank(updates.name.value)) && updates.price.Some? && updates.price.value < 0 ==>
            r == Err(InvalidPrice))
      && (r.Ok? <==> ValidUpdate(updates))
      && (r.Err? && r.error != InvalidName && r.error != InvalidPrice ==> r.error == InvalidStock)
    ensures r.Ok? ==>
      && |r.value| == |products|
      && forall i :: 0 <= i < |products| ==>
           r.value[i] == if products[i].id == productId then Merge(products[i], updates) else products[i]
  {
    if !IsProductExists(productId, products) then Err(NotFound)
    else if updates.name.Some? && IsBlank(updates.name.value) then Err(InvalidName)
    else if updates.price.Some? && updates.price.value < 0 then Err(InvalidPrice)
    else if updates.stock.Some? && updates.stock.value < 0 then Err(InvalidStock)
    else Ok(MapWhere(products, HasProductId(productId), MergeWith(updates)))
  }

  /**
   * removeProduct: NotFound exactly when no product has the id; otherwise the
   * products with other ids, each as often as before, in their original order.
   */
  function RemoveProduct(productId: string, products: seq<Product>): (r: Result<seq<Product>>)
    ensures r.Err? <==> !IsProductExists(productId, products)
    ensures r.Err? ==> r.error == NotFound
    ensures r.Ok? ==>
      && (forall i :: 0 <= i < |r.value| ==> r.value[i].id != productId && r.value[i] in products)
      && (forall i :: 0 <= i < |products| && products[i].id != productId ==>
            multiset(r.value)[products[i]] == multiset(products)[products[i]])
      && IsSubsequence(r.value, products)
  {
    if !IsProductExists(productId, products) then Err(NotFound)
    else
      FilterIsSubsequence(products, IsOtherProduct(productId));
      Ok(Filter(products, IsOtherProduct(productId)))
  }

  /** Adding a product under a fresh id and removing that id gives back the original list. */
  lemma AddThenRemoveProduct(draft: ProductDraft, now: nat, products: seq<Product>)
    requires ValidDraft(draft) && !IsProductExists(NewProductId(now), products)
    ensures RemoveProduct(NewProductId(now), AddProduct(draft, now, products).value) == Ok(products)
  {
    var id := NewProductId(now);
    var added := AddProduct(draft, now, products).value;
    var x := added[|products|];
    assert added == products + [x];
    assert x.id == id;
    var keep := IsOtherProduct(id);
    FilterAppend(products, [x], keep);
    FilterKeepsAll(products, keep);
    assert [x][1..] == [];
    assert Filter([x], keep) == [];
    assert Filter(added, keep) == products;
    assert IsProductExists(id, added) by {
      assert added[|products|].id == id;
    }
  }

  /**
   * updateProductStock: a negative stock is InvalidStock before the id is
   * even looked up; otherwise it succeeds exactly when the id exists, and
   * then only the matching products' stock changes, to `newStock`.
   */
  function UpdateProductStock(productId: string, newStock: int, products: seq<Product>): (r: Result<seq<Product>>)
    ensures newStock < 0 ==> r == Err(InvalidStock)
    ensures newStock >= 0 ==> (r.Ok? <==> IsProductExists(productId, products))
    ensures newStock >= 0 && r.Err? ==> r.error == NotFound
    ensures r.Ok? ==>
      && |r.value| == |products|
      && forall i :: 0 <= i < |products| ==>
           r.value[i] == if products[i].id == productId then products[i].(stock := newStock) else products[i]
  {
    if newStock < 0 then Err(InvalidStock)
    else UpdateProduct(productId, NoChanges.(stock := Some(newStock)), products)
  }

  /** Updates never change, add or drop ids: the id list is the same after any successful update. */
  lemma UpdateProductKeepsIds(productId: string, updates: ProductUpdate, products: seq<Product>)
    requires UpdateProduct(productId, updates, products).Ok?
    ensures var after := UpdateProduct(productId, updates, products).value;
      |after| == |products| && forall i :: 0 <= i < |products| ==> after[i].id == products[i].id
  {
  }

  /** Adding under an id no product has keeps ids distinct. */
  lemma AddProductKeepsIdsDistinct(draft: ProductDraft, now: nat, products: seq<Product>)
    requires DistinctKeys(products, ProductId) && !IsProductExists(NewProductId(now), products)
    ensures AddProduct(draft, now, products).Ok? ==> DistinctKeys(AddProduct(draft, now, products).value, ProductId)
  {
    if AddProduct(draft, now, products).Ok? {
      var added := AddProduct(draft, now, products).value;
      assert added == products + [added[|products|]];
      AppendPreservesDistinctKeys(products, added[|products|], ProductId);
    }
  }

  /** Any successful update keeps ids distinct. */
  lemma UpdateProductKeepsIdsDistinct(productId: string, updates: ProductUpdate, products: seq<Product>)
    requires DistinctKeys(products, ProductId)
    ensures UpdateProduct(productId, updates, products).Ok? ==>
      DistinctKeys(UpdateProduct(productId, updates, products).value, ProductId)
  {
    if UpdateProduct(productId, updates, products).Ok? {
      MapWherePreservesDistinctKeys(products, HasProductId(productId), MergeWith(updates), ProductId);
    }
  }

  /** Any successful removal keeps ids distinct. */
  lemma RemoveProductKeepsIdsDistinct(productId: string, products: seq<Product>)
    requires DistinctKeys(products, ProductId)
    ensures RemoveProduct(productId, products).Ok? ==>
      DistinctKeys(RemoveProduct(productId, products).value, ProductId)
  {
    FilterPreservesDistinctKeys(products, IsOtherProduct(productId), ProductId);
  }

  // ---------------------------------------------------------------------------
  // Discount tiers
  // ---------------------------------------------------------------------------

  predicate SortedByQuantity(tiers: seq<Discount>)
  {
    forall i, j :: 0 <= i < j < |tiers| ==> tiers[i].quantity <= tiers[j].quantity
  }

  predicate StrictlySortedByQuantity(tiers: seq<Discount>)
  {
    forall i, j :: 0 <= i < j < |tiers| ==> tiers[i].quantity < tiers[j].quantity
  }

  function TierQuantity(d: Discount): int
  {
    d.quantity
  }

  /** Insert `d` after every tier whose threshold is not larger: one step of a stable insertion sort. */
  function InsertTier(sorted: seq<Discount>, d: Discount): (r: seq<Discount>)
    requires SortedByQuantity(sorted)
    ensures SortedByQuantity(r)
    ensures |r| == |sorted| + 1
    ensures multiset(r) == multiset(sorted) + multiset{d}
    ensures forall i :: 0 <= i < |r| ==> r[i] in sorted || r[i] == d
  {
    if sorted == [] then [d]
    else if d.quantity < sorted[0].quantity then [d] + sorted
    else
      assert sorted == [sorted[0]] + sorted[1..];
      var rest := InsertTier(sorted[1..], d);
      assert forall i :: 0 <= i < |rest| ==> sorted[0].quantity <= rest[i].quantity;
      [sorted[0]] + rest
  }

  /** Inserting a new threshold into strictly increasing thresholds keeps them strictly increasing. */
  lemma {:induction false} InsertTierKeepsStrict(sorted: seq<Discount>, d: Discount)
    requires StrictlySortedByQuantity(sorted)
    requires forall i :: 0 <= i < |sorted| ==> sorted[i].quantity != d.quantity
    ensures StrictlySortedByQuantity(InsertTier(sorted, d))
  {
    if sorted != [] && d.quantity >= sorted[0].quantity {
      InsertTierKeepsStrict(sorted[1..], d);
      var rest := InsertTier(sorted[1..], d);
      assert forall i :: 0 <= i < |rest| ==> sorted[0].quantity < rest[i].quantity;
    }
  }

  /**
   * `.sort((a, b) => a.quantity - b.quantity)`: a stable sort by threshold,
   * the same tiers rearranged; thresholds that were distinct come out
   * strictly increasing.
   */
  function SortTiers(tiers: seq<Discount>): (r: seq<Discount>)
    ensures SortedByQuantity(r)
    ensures multiset(r) == multiset(tiers)
    ensures |r| == |tiers|
    ensures forall i :: 0 <= i < |r| ==> r[i] in tiers
  {
    if tiers == [] then []
    else
      var n := |tiers| - 1;
      assert tiers == tiers[..n] + [tiers[n]];
      var sortedPrefix := SortTiers(tiers[..n]);
      assert forall i :: 0 <= i < |sortedPrefix| ==> sortedPrefix[i] in tiers[..n];
      InsertTier(sortedPrefix, tiers[n])
  }

  /** Sorting tiers whose thresholds are distinct makes the thresholds strictly increasing. */
  lemma {:induction false} SortTiersKeepsStrict(tiers: seq<Discount>)
    requires DistinctKeys(tiers, TierQuantity)
    ensures StrictlySortedByQuantity(SortTiers(tiers))
  {
    if tiers != [] {
      var n := |tiers| - 1;
      assert tiers == tiers[..n] + [tiers[n]];
      assert DistinctKeys(tiers[..n], TierQuantity);
      SortTiersKeepsStrict(tiers[..n]);
      var sortedPrefix := SortTiers(tiers[..n]);
      assert forall i :: 0 <= i < |sortedPrefix| ==> sortedPrefix[i] in tiers[..n];
      assert forall i :: 0 <= i < |sortedPrefix| ==> sortedPrefix[i].quantity != tiers[n].quantity;
      InsertTierKeepsStrict(sortedPrefix, tiers[n]);
    }
  }

  /**
   * addProductDiscount: NotFound for an unknown product, then the tier
   * checks (threshold, rate, duplicate threshold on the first product with
   * the id); on success every product with the id gets that product's tiers
   * plus the new one, sorted by threshold; all other products are unchanged.
   */
  function AddProductDiscount(productId: string, discount: Discount, products: seq<Product>): (r: Result<seq<Product>>)
    ensures !IsProductExists(productId, products) ==> r == Err(NotFound)
    ensures IsProductExists(productId, products) ==>
      var p := products[ProductIndex(productId, products)];
      && (discount.quantity <= 0 ==> r == Err(InvalidTierQuantity))
      && (discount.quantity > 0 && !(0.0 < discount.rate <= 1.0) ==> r == Err(InvalidTierRate))
      && (discount.quantity > 0 && 0.0 < discount.rate <= 1.0 ==>
            ((exists j :: 0 <= j < |p.discounts| && p.discounts[j].quantity == discount.quantity) <==>
             r == Err(DuplicateTierQuantity(discount.quantity))))
      && (r.Ok? ==>
            var tiers := SortTiers(p.discounts + [discount]);
            && |tiers| == |p.discounts| + 1
            && SortedByQuantity(tiers)
            && multiset(tiers) == multiset(p.discounts) + multiset{discount}
            && |r.value| == |products|
            && forall i :: 0 <= i < |products| ==>
                 r.value[i] == if products[i].id == productId then products[i].(discounts := tiers) else products[i])
      && ((&& discount.quantity > 0
           && 0.0 < discount.rate <= 1.0
           && !(exists j :: 0 <= j < |p.discounts| && p.discounts[j].quantity == discount.quantity))
          ==> r.Ok?)
  {
    match FindProductById(productId, products)
    case None => Err(NotFound)
    case Some(product) =>
      if discount.quantity <= 0 then Err(InvalidTierQuantity)
      else if discount.rate <= 0.0 || discount.rate > 1.0 then Err(InvalidTierRate)
      else if exists j :: 0 <= j < |product.discounts| && product.discounts[j].quantity == discount.quantity then
        Err(DuplicateTierQuantity(discount.quantity))
      else
        var newDiscounts := SortTiers(product.discounts + [discount]);
        UpdateProduct(productId, NoChanges.(discounts := Some(newDiscounts)), products)
  }

  /** addProductDiscount rejects a tier exactly as validateDiscount does, with the same error. */
  lemma AddProductDiscountAgreesWithValidateDiscount(productId: string, discount: Discount, products: seq<Product>)
    requires IsProductExists(productId, products)
    ensures DiscountEngine.ValidateDiscount(discount).Invalid? ==>
      AddProductDiscount(productId, discount, products) == Err(DiscountEngine.ValidateDiscount(discount).error)
    ensures DiscountEngine.ValidateDiscount(discount).Valid? && AddProductDiscount(productId, discount, products).Err? ==>
      AddProductDiscount(productId, discount, products).error == DuplicateTierQuantity(discount.quantity)
  {
  }

  /** A successful tier insert keeps one product's thresholds distinct, now strictly increasing. */
  lemma AddProductDiscountKeepsThresholdsDistinct(productId: string, discount: Discount, products: seq<Product>)
    requires IsProductExists(productId, products)
    requires DistinctKeys(products[ProductIndex(productId, products)].discounts, TierQuantity)
    requires AddProductDiscount(productId, discount, products).Ok?
    ensures var k := ProductIndex(productId, products);
      StrictlySortedByQuantity(AddProductDiscount(productId, discount, products).value[k].discounts)
  {
    var k := ProductIndex(productId, products);
    var tiers := products[k].discounts;
    AppendPreservesDistinctKeys(tiers, discount, TierQuantity);
    SortTiersKeepsStrict(tiers + [discount]);
  }

  /** `filter((_, index) => index !== i)`: the list without its i-th element, the rest in order. */
  function RemoveAt<T>(s: seq<T>, i: int): (r: seq<T>)
    requires 0 <= i < |s|
    ensures |r| == |s| - 1
    ensures forall k :: 0 <= k < |r| ==> r[k] == if k < i then s[k] else s[k + 1]
  {
    s[..i] + s[i + 1..]
  }

  /**
   * removeProductDiscount: NotFound for an unknown product, IndexOutOfRange
   * for an index outside [0, number of tiers); otherwise exactly that tier
   * goes, from every product with the id, the rest keeping their order.
   */
  function RemoveProductDiscount(productId: string, discountIndex: int, products: seq<Product>): (r: Result<seq<Product>>)
    ensures !IsProductExists(productId, products) ==> r == Err(NotFound)
    ensures IsProductExists(productId, products) ==>
      var p := products[ProductIndex(productId, products)];
      && (!(0 <= discountIndex < |p.discounts|) ==> r == Err(IndexOutOfRange))
      && (0 <= discountIndex < |p.discounts| ==>
            && r.Ok?
            && |r.value| == |products|
            && forall i :: 0 <= i < |products| ==>
                 r.value[i] == if products[i].id == productId
                               then products[i].(discounts := RemoveAt(p.discounts, discountIndex))
                               else products[i])
  {
    match FindProductById(productId, products)
    case None => Err(NotFound)
    case Some(product) =>
      if discountIndex < 0 || discountIndex >= |product.discounts| then Err(IndexOutOfRange)
      else
        var newDiscounts := RemoveAt(product.discounts, discountIndex);
        UpdateProduct(productId, NoChanges.(discounts := Some(newDiscounts)), products)
  }

  // ---------------------------------------------------------------------------
  // Search
  // ---------------------------------------------------------------------------

  /** `s.includes(t)`: `t` occurs in `s` as a contiguous run. */
  predicate Includes(s: string, t: string)
  {
    exists i | 0 <= i <= |s| - |t| :: OccursAt(s, t, i)
  }

  predicate OccursAt(s: string, t: string, i: int)
  {
    0 <= i <= |s| - |t| && s[i..i + |t|] == t
  }

  /** The search predicate: the lower-cased name or description includes the lower-cased term. */
  function MatchesSearch(term: string, toLower: string -> string): Product -> bool
  {
    (p: Product) =>
      Includes(toLower(p.name), term) ||
      (p.description.Some? && Includes(toLower(p.description.value), term))
  }

  /**
   * filterProductsBySearch, with `toLowerCase` passed in as `toLower`: a
   * blank term returns the list itself; otherwise the matching products, in
   * their original order.
   */
  function FilterProductsBySearch(products: seq<Product>, searchTerm: string, toLower: string -> string): (r: seq<Product>)
    ensures IsBlank(searchTerm) ==> r == products
    ensures IsSubsequence(r, products)
    ensures !IsBlank(searchTerm) ==> forall i :: 0 <= i < |r| ==> MatchesSearch(toLower(searchTerm), toLower)(r[i])
    ensures !IsBlank(searchTerm) ==> forall i :: 0 <= i < |products| && MatchesSearch(toLower(searchTerm), toLower)(products[i]) ==>
      products[i] in r
  {
    if IsBlank(searchTerm) then
      SubsequenceOfItself(products);
      products
    else
      var keep := MatchesSearch(toLower(searchTerm), toLower);
      FilterIsSubsequence(products, keep);
      Filter(products, keep)
  }
}
