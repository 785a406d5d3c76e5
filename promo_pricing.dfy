/** The discount arithmetic shared by applying a promo code and by the order
    preview. Amounts are exact reals: JavaScript's floating-point rounding of the
    percent case is not modelled. */
module PromoPricing {
  import opened Models

  /** `discountType === "flat"` gives the fixed amount, `"percent"` gives
      `base * discountAmount / 100`, and any other type gives 0. */
  function Discount(kind: DiscountType, discountAmount: real, base: real): real {
    match kind
    case Flat => discountAmount
    case Percent => base * discountAmount / 100.0
    case Untyped => 0.0
  }

  /** `Math.max(base - discount, 0)`. */
  function Clamped(base: real, discount: real): (r: real)
    ensures r >= 0.0 && r >= base - discount
    ensures r == base - discount || r == 0.0
  {
    if base - discount > 0.0 then base - discount else 0.0
  }

  /** A percent discount between 0 and 100 of a non-negative amount never exceeds
      it, so the clamp at 0 never bites. */
  lemma PercentWithinAmount(base: real, percent: real)
    requires base >= 0.0 && 0.0 <= percent <= 100.0
    ensures 0.0 <= Discount(Percent, percent, base) <= base
    ensures Clamped(base, Discount(Percent, percent, base)) == base - Discount(Percent, percent, base)
  {
    assert base * percent <= base * 100.0 by {
      assert base * (100.0 - percent) >= 0.0;
    }
    assert base * percent >= 0.0;
  }

  /** A flat discount at least as large as the amount brings it to exactly 0. */
  lemma FlatFloorsAtZero(base: real, flat: real)
    requires flat >= base
    ensures Clamped(base, Discount(Flat, flat, base)) == 0.0
  {
  }

  /** A promo without a discount type leaves the amount unchanged. */
  lemma UntypedChangesNothing(base: real, discountAmount: real)
    requires base >= 0.0
    ensures Clamped(base, Discount(Untyped, discountAmount, base)) == base
  {
  }
}
