/**
 * `window.applyCoupon`: read a code, and either reject it or compute the
 * discounted total.  The outcome carries no cart: applying a coupon only
 * changes the figure shown as the total (see module Session).
 */
module Coupon {
  import opened Text
  import opened CartStore
  import opened Totals

  /** The one code the page accepts: ten percent off. */
  const DiscountCode: string := "DISCOUNT10"

  /** The two alerts for a rejected code, or the new total to display. */
  datatype Outcome = MissingCode | InvalidCode | Discounted(total: int)

  /**
   * `Math.round(t * 0.9)` for an integer `t`: the integer nearest to 9t/10,
   * with an exact half rounded up.
   */
  function NinetyPercent(t: int): (r: int)
    ensures 9 * t - 5 < 10 * r <= 9 * t + 5
  {
    (9 * t + 5) / 10
  }

  /**
   * The code is trimmed first; nothing left is "missing code", anything but
   * the discount code is "invalid code", and the discount code gives ninety
   * percent of the cart's grand total, rounded.
   */
  function ApplyCoupon(code: string, cart: Cart): (r: Outcome)
    ensures r == MissingCode <==> AllSpace(code)
    ensures r == InvalidCode <==> !AllSpace(code) && Trim(code) != DiscountCode
    ensures r.Discounted? <==> Trim(code) == DiscountCode
    ensures r.Discounted? ==> 9 * GrandTotal(cart) - 5 < 10 * r.total <= 9 * GrandTotal(cart) + 5
  {
    var c := Trim(code);
    if c == [] then MissingCode
    else if c == DiscountCode then Discounted(NinetyPercent(GrandTotal(cart)))
    else InvalidCode
  }

  /** White space around the code does not matter. */
  lemma PaddedCodeAccepted(pre: string, post: string, cart: Cart)
    requires AllSpace(pre) && AllSpace(post)
    ensures ApplyCoupon(pre + DiscountCode + post, cart) == ApplyCoupon(DiscountCode, cart)
  {
    assert !IsSpace(DiscountCode[0]) && !IsSpace(DiscountCode[|DiscountCode| - 1]);
    TrimPadded(pre, DiscountCode, post);
    DiscountCodeTrimmed();
  }

  /** Whatever trims to the discount code is accepted with the rounded ninety percent. */
  lemma AcceptedCode(code: string, cart: Cart)
    requires Trim(code) == DiscountCode
    ensures ApplyCoupon(code, cart) == Discounted(NinetyPercent(GrandTotal(cart)))
  {
  }

  /** An empty code is the "missing code" rejection. */
  lemma EmptyCodeMissing(cart: Cart)
    ensures ApplyCoupon("", cart) == MissingCode
  {
  }

  lemma WrongCodeTrimmed()
    ensures Trim("WRONGCODE") == "WRONGCODE"
  {
    var w := "WRONGCODE";
    assert !IsSpace(w[0]) && !IsSpace(w[|w| - 1]);
    TrimmedIsFixed(w);
  }

  lemma WrongCodeDiffers()
    ensures "WRONGCODE" != DiscountCode
  {
    assert "WRONGCODE"[0] != DiscountCode[0];
  }

  /** Any other code is "invalid code": "WRONGCODE", say. */
  lemma WrongCodeInvalid(cart: Cart)
    ensures ApplyCoupon("WRONGCODE", cart) == InvalidCode
  {
    WrongCodeTrimmed();
    WrongCodeDiffers();
  }

  lemma DiscountCodeTrimmed()
    ensures Trim(DiscountCode) == DiscountCode
  {
    assert !IsSpace(DiscountCode[0]) && !IsSpace(DiscountCode[|DiscountCode| - 1]);
    TrimmedIsFixed(DiscountCode);
  }

  lemma PaddedLiteral()
    ensures "  " + DiscountCode + "  " == "  DISCOUNT10  "
  {
  }

  /** "DISCOUNT10" on a total of 100 shows 90 ... */
  lemma DiscountOnHundred(cart: Cart)
    requires GrandTotal(cart) == 100
    ensures ApplyCoupon(DiscountCode, cart) == Discounted(90)
  {
    DiscountCodeTrimmed();
    AcceptedCode(DiscountCode, cart);
    assert NinetyPercent(100) == 90;
  }

  /** ... and so does "  DISCOUNT10  ". */
  lemma PaddedDiscountOnHundred(cart: Cart)
    requires GrandTotal(cart) == 100
    ensures ApplyCoupon("  DISCOUNT10  ", cart) == Discounted(90)
  {
    PaddedLiteral();
    PaddedCodeAccepted("  ", "  ", cart);
    DiscountOnHundred(cart);
  }
}
