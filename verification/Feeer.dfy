/** Fee policies: what an amount costs to move, and who is paid. */
module Feeers {
  import opened Prelude
  import opened Big

  type Address = string

  /** The value of a policy maximum that means "no maximum". */
  const UNLIMITED: int := -1

  datatype Feeer =
    | NilFeeer
    | FixedFeeer(payee: Address, amount: int)
    | RatioFeeer(payee: Address, ratio: Float64, min: int, max: int)
  {
    function Receiver(): Option<Address> {
      if NilFeeer? then None else Some(payee)
    }

    predicate IsUnlimited()
      requires RatioFeeer?
    {
      max == UNLIMITED
    }

    function Fee(a: int): int {
      match this
      case NilFeeer => 0
      case FixedFeeer(_, amount) => amount
      case RatioFeeer(_, ratio, min, max) =>
        if IsZero(ratio) then 0
        else if a == 0 then min
        else if IsOne(ratio) then a
        else
          var f := MulFloat64(a, ratio);
          if f < min then min
          else if !IsUnlimited() && f > max then max
          else f
    }

    predicate IsValid() {
      match this
      case NilFeeer => true
      case FixedFeeer(_, amount) => amount >= 0
      case RatioFeeer(_, ratio, min, max) =>
        && ratio.mantissa <= Pow2(ratio.scale)
        && min >= 0
        && (max != UNLIMITED ==> 0 <= min <= max)
    }
  }

  predicate IsZero(r: Float64) { r.mantissa == 0 }

  predicate IsOne(r: Float64) { r.mantissa == Pow2(r.scale) }

  /** f lies in the interval the policy announces. */
  predicate InRange(feeer: Feeer, f: int)
    requires feeer.RatioFeeer?
  {
    feeer.min <= f && (feeer.IsUnlimited() || f <= feeer.max)
  }

  /**
    The announced interval holds exactly when the two shortcut branches respect it: ratio 0 ignores a
    positive minimum, and ratio 1 returns the amount itself whatever the interval.
  */
  lemma RatioFeeRange(feeer: Feeer, a: int)
    requires feeer.RatioFeeer? && feeer.IsValid() && a >= 0
    ensures InRange(feeer, feeer.Fee(a)) <==>
            && (IsZero(feeer.ratio) ==> feeer.min == 0)
            && (IsOne(feeer.ratio) && a > 0 ==> InRange(feeer, a))
  {}

  /** Ratio 1 with a minimum above the amount: the minimum is not charged. */
  lemma RatioOneIgnoresMinimum(payee: Address)
    ensures var feeer := RatioFeeer(payee, Float64(1, 0), 10, UNLIMITED);
            feeer.IsValid() && feeer.Fee(3) == 3 && !InRange(feeer, feeer.Fee(3))
  {
    assert Pow2(0) == 1;
  }

  /** Policies that do not look at the product: nothing, a fixed amount, and the shortcuts of a ratio. */
  lemma PlainFees(feeer: Feeer, a: int)
    ensures feeer.NilFeeer? ==> feeer.Fee(a) == 0
    ensures feeer.FixedFeeer? ==> feeer.Fee(a) == feeer.amount
    ensures feeer.RatioFeeer? && IsZero(feeer.ratio) ==> feeer.Fee(a) == 0
    ensures feeer.RatioFeeer? && !IsZero(feeer.ratio) && a == 0 ==> feeer.Fee(a) == feeer.min
    ensures feeer.RatioFeeer? && IsOne(feeer.ratio) && a != 0 ==> feeer.Fee(a) == a
  {
    hide Value;
  }

  /** f exceeds the real number exact by no more than 1 + exact/q. */
  ghost predicate NotMuchAbove(f: int, exact: real, q: int) {
    q as real * (f as real - exact) <= q as real + Magnitude(exact)
  }

  /** f falls short of the real number exact by no more than 1 + exact/q. */
  ghost predicate NotMuchBelow(f: int, exact: real, q: int) {
    q as real * (exact - f as real) <= q as real + Magnitude(exact)
  }

  ghost function Times(x: real, y: real): real {
    x * y
  }

  /** The exact product of an amount and a ratio. */
  ghost function Product(a: int, r: Float64): real {
    Times(a as real, Value(r))
  }

  /**
    Between the shortcuts the fee is the product of amount and ratio, up to the error of MulFloat64: it
    exceeds the product only where the minimum is charged, and falls short of it only at the maximum.
  */
  lemma RatioFeeIsProduct(feeer: Feeer, a: int)
    requires feeer.RatioFeeer? && feeer.IsValid() && a > 0 && !IsZero(feeer.ratio) && !IsOne(feeer.ratio)
    ensures var f, exact := feeer.Fee(a), Product(a, feeer.ratio);
            && InRange(feeer, f)
            && (f > feeer.min ==> NotMuchAbove(f, exact, TWO62))
            && (feeer.IsUnlimited() || f < feeer.max ==> NotMuchBelow(f, exact, TWO62))
            && (feeer.min < f && (feeer.IsUnlimited() || f < feeer.max) ==> Near(f, exact, TWO62))
  {
    ProductNear(a, feeer.ratio);
    hide MulFloat64, Value, Pow2, Product, Near, NotMuchAbove, NotMuchBelow;
    var n, exact := MulFloat64(a, feeer.ratio), Product(a, feeer.ratio);
    if feeer.Fee(a) <= n { LessAbove(feeer.Fee(a), n, exact); }
    if n <= feeer.Fee(a) { LessBelow(n, feeer.Fee(a), exact); }
  }

  lemma ProductNear(a: int, r: Float64)
    ensures Near(MulFloat64(a, r), Product(a, r), TWO62)
  {
    hide MulFloat64, Value;
    MulFloat64Error(a, r);
  }

  lemma LessAbove(f: int, n: int, exact: real)
    requires f <= n && Near(n, exact, TWO62)
    ensures NotMuchAbove(f, exact, TWO62)
  {}

  lemma LessBelow(n: int, f: int, exact: real)
    requires n <= f && Near(n, exact, TWO62)
    ensures NotMuchBelow(f, exact, TWO62)
  {}

  /** A ratio is at most 1, so beyond the minimum no more than the amount is charged, up to rounding. */
  lemma RatioFeeWithinAmount(feeer: Feeer, a: int)
    requires feeer.RatioFeeer? && feeer.IsValid() && a > 0
    ensures feeer.Fee(a) > feeer.min ==> TWO62 * (feeer.Fee(a) - a - 1) <= a
  {
    if !IsZero(feeer.ratio) && !IsOne(feeer.ratio) {
      RatioFeeIsProduct(feeer, a);
      AtMostAmount(feeer.ratio, a);
      hide Feeer.Fee, Product, NotMuchAbove, NotMuchBelow, Near;
      if feeer.Fee(a) > feeer.min { NoMoreThan(feeer.Fee(a), a, Product(a, feeer.ratio)); }
    }
  }

  lemma AtMostAmount(r: Float64, a: int)
    requires r.mantissa <= Pow2(r.scale) && a >= 0
    ensures 0.0 <= Product(a, r) <= a as real
  {
    ValueAtMostOne(r);
    assert Product(a, r) == Times(a as real, Value(r));
    hide Value, Pow2, Product, Times;
    Shrinks(a as real, Value(r));
  }

  lemma ValueAtMostOne(r: Float64)
    requires r.mantissa <= Pow2(r.scale)
    ensures 0.0 <= Value(r) <= 1.0
  {
    hide Pow2;
    Fraction(r.mantissa as real, Pow2(r.scale) as real);
  }

  lemma Fraction(m: real, s: real)
    requires 0.0 <= m <= s && s > 0.0
    ensures 0.0 <= m / s <= 1.0
  {
    var v := m / s;
    assert v * s == m;
  }

  lemma Shrinks(a: real, v: real)
    requires a >= 0.0 && 0.0 <= v <= 1.0
    ensures 0.0 <= Times(a, v) <= a
  {
    assert a * v <= a * 1.0;
  }

  lemma NoMoreThan(f: int, a: int, exact: real)
    requires NotMuchAbove(f, exact, TWO62) && 0.0 <= exact <= a as real
    ensures TWO62 * (f - a - 1) <= a
  {
    var q := TWO62 as real;
    assert q * (f as real - a as real) <= q * (f as real - exact);
    assert q * (f as real - a as real - 1.0) <= a as real;
    assert (TWO62 * (f - a - 1)) as real == q * (f as real - a as real - 1.0);
  }

  /** A larger amount never costs less, except that ratio 1 charges the minimum for nothing at all. */
  lemma RatioFeeMonotone(feeer: Feeer, a: int, b: int)
    requires feeer.RatioFeeer? && feeer.IsValid() && 0 <= a <= b
    ensures feeer.Fee(a) <= feeer.Fee(b) <==>
            (IsOne(feeer.ratio) && a == 0 < b ==> feeer.min <= b)
  {
    MulFloat64Monotone(a, b, feeer.ratio);
  }

  /** What the ledger needs: valid policies never charge less than nothing for a non-negative amount. */
  lemma FeeNonNegative(feeer: Feeer, a: int)
    requires feeer.IsValid() && a >= 0
    ensures feeer.Fee(a) >= 0
    ensures feeer.Receiver().None? ==> feeer.Fee(a) == 0
  {}
}
