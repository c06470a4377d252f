/** `create-coupon.dto.ts`: the constraints on a new coupon, and what they
    leave open for `calculateDiscount`. */
module CouponDto {
  import opened Wrappers
  import opened Coupon

  /** `@IsEnum(['discount', 'reduce', 'free'])`. */
  predicate IsCouponType(kind: string)
  {
    kind == "discount" || kind == "reduce" || kind == "free"
  }

  /** `@IsOptional() @Min(bound)`: absent, or at least the bound. */
  predicate AtLeastIfPresent<T>(field: Option<T>, atLeast: T -> bool)
  {
    field.None? || atLeast(field.value)
  }

  /** Everything `CreateCouponDto` demands: a non-empty name, one of the
      three types, a non-negative value, a non-negative minimum if one is
      given and a per-user limit of at least 1 if one is given. The total
      count, the dates and the active flag are unconstrained. */
  predicate ValidCreateCoupon(input: CouponInput)
  {
    input.name != ""
    && IsCouponType(input.kind)
    && input.value >= 0.0
    && AtLeastIfPresent(input.minAmount, (m: real) => m >= 0.0)
    && AtLeastIfPresent(input.limitPerUser, (l: int) => l >= 1)
  }

  /** A coupon created from a valid request allows each user at least one
      copy, has a non-negative value and one of the three types; its total
      count is whatever the request says, negative counts included. */
  lemma ValidCouponRow(id: int, input: CouponInput, totalCount: Option<int>)
    requires ValidCreateCoupon(input)
    ensures NewCoupon(id, input).limitPerUser >= 1
    ensures NewCoupon(id, input).value >= 0.0 && IsCouponType(NewCoupon(id, input).kind)
    ensures ValidCreateCoupon(input.(totalCount := totalCount))
  {
  }

  /** For a `reduce` or `free` coupon from a valid request, and for a
      `discount` coupon whose value is at most 1, the discount on a
      non-negative total is never negative. */
  lemma ValidDiscountNonNegative(id: int, input: CouponInput, totalAmount: real)
    requires ValidCreateCoupon(input) && totalAmount >= 0.0
    requires input.kind != "discount" || input.value <= 1.0
    ensures Discount(NewCoupon(id, input), totalAmount) >= 0.0
  {
    DiscountSpec(NewCoupon(id, input), totalAmount);
  }

  /** The request puts no upper bound on `value`: a `discount` coupon with
      value 2 passes validation, and then takes a negative discount off every
      positive total. */
  lemma DiscountValueUnbounded(id: int, totalAmount: real)
    requires totalAmount > 0.0
    ensures var input := CouponInput("双倍折扣", None, "discount", 2.0, None, None, None, None, None, None);
      ValidCreateCoupon(input) && Discount(NewCoupon(id, input), totalAmount) < 0.0
  {
    var input := CouponInput("双倍折扣", None, "discount", 2.0, None, None, None, None, None, None);
    DiscountAboveOne(NewCoupon(id, input), totalAmount);
  }
}
