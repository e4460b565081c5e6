/**
 * The data shapes shared by every model (src/advanced/types.ts): discount
 * tiers, products, cart lines and coupons, plus the error kinds the models
 * report instead of throwing, and the two JavaScript built-ins whose exact
 * behaviour the totals and identifiers depend on (`Math.round` and the
 * decimal rendering of an integer inside a template literal).
 */
module Types {
  import opened Wrappers

  /** A quantity tier: buying at least `quantity` units earns `rate` off. */
  datatype Discount = Discount(quantity: int, rate: real)

  /**
   * A catalog product. `description` is the optional text of the admin
   * screen's product type, kept because the search matches it.
   */
  datatype Product = Product(
    id: string,
    name: string,
    price: int,
    stock: int,
    discounts: seq<Discount>,
    description: Option<string>)

  /** A cart line holds its own copy of the product taken when it was added. */
  datatype CartItem = CartItem(product: Product, quantity: int)

  datatype DiscountType = Amount | Percentage

  datatype Coupon = Coupon(name: string, code: string, discountType: DiscountType, discountValue: real)

  /** The failure kinds behind the models' (Korean) error messages. */
  datatype Error =
    | OutOfStock                        // cart: nothing left to add
    | StockExceeded(limit: int)         // cart: more than the stock allows
    | LineNotFound                      // cart: no line for the product
    | MinimumNotMet                     // cart: percentage coupon below 10000
    | DuplicateCode                     // coupons: code already present
    | NotFound                          // coupons or products: unknown key
    | InvalidName                       // products: blank name
    | InvalidPrice                      // products: negative price
    | InvalidStock                      // products: negative stock
    | InvalidTierQuantity               // tiers: threshold not positive
    | InvalidTierRate                   // tiers: rate outside (0, 1]
    | DuplicateTierQuantity(quantity: int)
    | IndexOutOfRange                   // tiers: no tier at that index

  /** `{ success: true, data } | { success: false, error }` */
  datatype Result<T> = Ok(value: T) | Err(error: Error)

  /**
   * JavaScript's `Math.round`: the nearest integer, halves rounded towards
   * positive infinity (so -2.5 rounds to -2).
   */
  function Round(x: real): (r: int)
    ensures r as real - 0.5 <= x < r as real + 0.5
  {
    (x + 0.5).Floor
  }

  lemma RoundOfInteger(n: int)
    ensures Round(n as real) == n
  {
  }

  /** Rounding is monotone, so bounds on the exact value carry over. */
  lemma RoundMonotone(x: real, y: real)
    requires x <= y
    ensures Round(x) <= Round(y)
  {
  }

  /** The characters `String.prototype.trim` strips: ECMAScript white space and line terminators. */
  predicate IsTrimmed(c: char)
  {
    c == '\t' || c == '\n' || c == '\U{000B}' || c == '\U{000C}' || c == '\r' || c == ' ' ||
    c == '\U{00A0}' || c == '\U{1680}' || ('\U{2000}' <= c <= '\U{200A}') ||
    c == '\U{2028}' || c == '\U{2029}' || c == '\U{202F}' || c == '\U{205F}' ||
    c == '\U{3000}' || c == '\U{FEFF}'
  }

  /** `!s.trim()`: the string is empty once white space is stripped. */
  predicate IsBlank(s: string)
  {
    forall i :: 0 <= i < |s| ==> IsTrimmed(s[i])
  }

  function DigitChar(d: nat): (c: char)
    requires d < 10
    ensures '0' <= c <= '9' && (c as int) - ('0' as int) == d
  {
    "0123456789"[d]
  }

  /** `${n}` for a non-negative integer: its decimal digits, most significant first. */
  function DecimalString(n: nat): (s: string)
    ensures |s| >= 1
    ensures forall i :: 0 <= i < |s| ==> '0' <= s[i] <= '9'
  {
    if n < 10 then [DigitChar(n)] else DecimalString(n / 10) + [DigitChar(n % 10)]
  }

  /** `${n}` for any integer: a minus sign in front of the digits of a negative number. */
  function IntegerString(n: int): (s: string)
    ensures |s| >= 1
    ensures n >= 0 ==> s == DecimalString(n)
    ensures n < 0 ==> s[0] == '-' && s[1..] == DecimalString(-n)
  {
    if n < 0 then "-" + DecimalString(-n) else DecimalString(n)
  }

  /** Reads decimal digits back; the inverse of DecimalString. */
  function DecimalValue(s: string): nat
    requires forall i :: 0 <= i < |s| ==> '0' <= s[i] <= '9'
  {
    if s == [] then 0 else 10 * DecimalValue(s[..|s| - 1]) + ((s[|s| - 1] as int) - ('0' as int))
  }

  lemma {:induction false} DecimalRoundTrip(n: nat)
    ensures DecimalValue(DecimalString(n)) == n
  {
    var s := DecimalString(n);
    if n >= 10 {
      DecimalRoundTrip(n / 10);
      assert s[..|s| - 1] == DecimalString(n / 10);
    }
  }

  /** Distinct timestamps give distinct decimal strings. */
  lemma DecimalStringInjective(m: nat, n: nat)
    requires DecimalString(m) == DecimalString(n)
    ensures m == n
  {
    DecimalRoundTrip(m);
    DecimalRoundTrip(n);
  }
}
