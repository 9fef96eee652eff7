/**
  Amounts are big integers; a ratio fee multiplies one by a float64.  math/big rounds twice to a
  64-bit mantissa (ties to even) and then truncates, which is what MulFloat64 spells out here.
*/
module Big {

  const PRECISION: nat := 64
  const TWO62: nat := 0x4000_0000_0000_0000
  const TWO63: nat := 0x8000_0000_0000_0000
  const TWO64: nat := 0x1_0000_0000_0000_0000

  function Pow2(n: nat): (p: nat)
    ensures p >= 1
  {
    if n == 0 then 1 else 2 * Pow2(n - 1)
  }

  lemma {:induction false} Pow2Add(m: nat, n: nat)
    ensures Pow2(m + n) == Pow2(m) * Pow2(n)
  {
    if m > 0 {
      Pow2Add(m - 1, n);
      assert Pow2(m + n) == 2 * Pow2(m - 1 + n);
      Double(Pow2(m - 1), Pow2(n));
    }
  }

  lemma Double(x: int, y: int)
    ensures 2 * (x * y) == (2 * x) * y
  {}

  lemma {:induction false} Pow2Monotone(m: nat, n: nat)
    requires m <= n
    ensures Pow2(m) <= Pow2(n)
  {
    if m < n { Pow2Monotone(m, n - 1); }
  }

  function BitLen(n: nat): nat {
    if n == 0 then 0 else 1 + BitLen(n / 2)
  }

  lemma {:induction false} BitLenBounds(n: nat)
    requires n > 0
    ensures BitLen(n) > 0 && Pow2(BitLen(n) - 1) <= n < Pow2(BitLen(n))
  {
    if n == 1 {
      assert BitLen(1) == 1 + BitLen(0);
      assert Pow2(1) == 2 * Pow2(0);
    } else {
      BitLenBounds(n / 2);
    }
  }

  lemma {:induction false} BitLenMonotone(m: nat, n: nat)
    requires m <= n
    ensures BitLen(m) <= BitLen(n)
  {
    if m > 0 { BitLenMonotone(m / 2, n / 2); }
  }

  function Quotient(n: nat, d: nat): (q: nat)
    requires d > 0
    ensures q * d <= n < q * d + d
  {
    assert n == (n / d) * d + n % d;
    n / d
  }

  lemma QuotientUnique(n: nat, d: nat, q: nat)
    requires d > 0 && q * d <= n < q * d + d
    ensures Quotient(n, d) == q
  {
    var p := Quotient(n, d);
    if p < q { Scale(p + 1, q, d); }
    if q < p { Scale(q + 1, p, d); }
  }

  /** n divided by unit, rounded to the nearest integer, ties to even. */
  function HalfEven(n: nat, unit: nat): nat
    requires unit > 0
  {
    var q := Quotient(n, unit);
    var r := n - q * unit;
    if 2 * r > unit || (2 * r == unit && q % 2 == 1) then q + 1 else q
  }

  /** The weight of the last bit a 64-bit mantissa keeps of n. */
  function Unit(n: nat): (u: nat)
    ensures u >= 1
  {
    if BitLen(n) <= PRECISION then 1 else Pow2(BitLen(n) - PRECISION)
  }

  /** n rounded to a 64-bit mantissa. */
  function Round64(n: nat): nat {
    HalfEven(n, Unit(n)) * Unit(n)
  }

  /** A finite non-negative float64 below 2^53: mantissa / 2^scale, exactly. */
  datatype Float64 = Float64(mantissa: nat, scale: nat)

  function MulNat(a: nat, b: Float64): nat {
    Quotient(Round64(Round64(a) * b.mantissa), Pow2(b.scale))
  }

  function MulFloat64(a: int, b: Float64): int {
    if a < 0 then 0 - MulNat(-a, b) else MulNat(a, b)
  }

  // ---------------------------------------------------------------- rounding

  /** Rounding to the nearest multiple of unit; halfway between two, to the even one. */
  lemma HalfEvenNear(n: nat, unit: nat)
    requires unit > 0
    ensures var d := 2 * (HalfEven(n, unit) * unit - n);
            0 - unit <= d <= unit && (d == unit || d == 0 - unit ==> HalfEven(n, unit) % 2 == 0)
  {
    var q := Quotient(n, unit);
    assert (q + 1) * unit == q * unit + unit;
  }

  lemma QuotientMonotone(m: nat, n: nat, d: nat)
    requires m <= n && d > 0
    ensures Quotient(m, d) <= Quotient(n, d)
  {
    var p, q := Quotient(m, d), Quotient(n, d);
    if p > q { Scale(q + 1, p, d); }
  }

  // Order facts about products, kept apart so that each use is a single step.

  lemma Scale(x: int, y: int, k: int)
    requires x <= y && k >= 0
    ensures x * k <= y * k && k * x <= k * y
  {}

  lemma HalfEvenMonotone(m: nat, n: nat, unit: nat)
    requires m <= n && unit > 0
    ensures HalfEven(m, unit) <= HalfEven(n, unit)
  {
    QuotientMonotone(m, n, unit);
  }

  lemma LargePowers()
    ensures Pow2(63) == TWO63 && Pow2(64) == TWO64
  {
    assert Pow2(1) == 2 && Pow2(2) == 2 * Pow2(1);
    Pow2Add(2, 2);
    Pow2Add(4, 4);
    Pow2Add(8, 8);
    Pow2Add(16, 16);
    Pow2Add(32, 32);
    assert Pow2(64) == 2 * Pow2(63);
  }

  /** A number of more than 64 bits lies between 2^63 and 2^64 of its own units. */
  lemma UnitBounds(n: nat)
    requires BitLen(n) > PRECISION
    ensures TWO63 * Unit(n) == Pow2(BitLen(n) - 1) <= n < Pow2(BitLen(n)) == TWO64 * Unit(n)
  {
    assert n > 0;
    LargePowers();
    BitLenBounds(n);
    Pow2Add(63, BitLen(n) - PRECISION);
    Pow2Add(64, BitLen(n) - PRECISION);
  }

  lemma HalfEvenMultiple(k: nat, unit: nat)
    requires unit > 0
    ensures HalfEven(k * unit, unit) == k
  {
    QuotientUnique(k * unit, unit, k);
  }

  /** Rounding stays in the binade of n, its upper end included. */
  lemma Round64InBinade(n: nat)
    requires BitLen(n) > PRECISION
    ensures Pow2(BitLen(n) - 1) <= Round64(n) <= Pow2(BitLen(n))
  {
    var u := Unit(n);
    UnitBounds(n);
    HalfEvenMonotone(TWO63 * u, n, u);
    HalfEvenMonotone(n, TWO64 * u, u);
    HalfEvenMultiple(TWO63, u);
    HalfEvenMultiple(TWO64, u);
    Scale(TWO63, HalfEven(n, u), u);
    Scale(HalfEven(n, u), TWO64, u);
  }

  lemma Round64Small(n: nat)
    requires BitLen(n) <= PRECISION
    ensures Round64(n) == n
  {}

  /** n is off by at most one part in p. */
  predicate Within(d: int, n: int, p: int) {
    0 - n <= p * d <= n
  }

  /** Each rounding errs by at most one part in 2^64. */
  lemma Round64Error(n: nat)
    ensures Within(Round64(n) - n, n, TWO64)
  {
    if BitLen(n) <= PRECISION {
      Round64Small(n);
    } else {
      HalfEvenNear(n, Unit(n));
      UnitBounds(n);
      HalfUnit(Round64(n) - n, Unit(n), TWO63, TWO64, n);
    }
  }

  lemma HalfUnit(d: int, u: int, p: nat, q: int, n: int)
    requires -u <= 2 * d <= u && p * u <= n && q == 2 * p
    ensures Within(d, n, q)
  {}

  lemma Round64Monotone(m: nat, n: nat)
    requires m <= n
    ensures Round64(m) <= Round64(n)
  {
    BitLenMonotone(m, n);
    if BitLen(n) <= PRECISION {
      Round64Small(m);
      Round64Small(n);
    } else if BitLen(m) == BitLen(n) {
      var u := Unit(n);
      HalfEvenMonotone(m, n, u);
      Scale(HalfEven(m, u), HalfEven(n, u), u);
    } else {
      Round64InBinade(n);
      Pow2Monotone(BitLen(m), BitLen(n) - 1);
      if BitLen(m) <= PRECISION {
        Round64Small(m);
        if m > 0 { BitLenBounds(m); }
      } else {
        Round64InBinade(m);
      }
    }
  }

  // ---------------------------------------------------------------- the product

  lemma MulFloat64Monotone(a: int, b: int, x: Float64)
    requires a <= b
    ensures MulFloat64(a, x) <= MulFloat64(b, x)
  {
    if 0 <= a {
      MulNatMonotone(a, b, x);
    } else if b < 0 {
      MulNatMonotone(-b, -a, x);
    }
  }

  /** A product of less than 64 bits is not rounded: it is truncated toward zero, and nothing else. */
  lemma MulFloat64Exact(a: int, x: Float64)
    requires (if a < 0 then -a else a) * x.mantissa < TWO64
    ensures var n, s := MulFloat64(a, x), Pow2(x.scale);
            && (a >= 0 ==> n >= 0 && n * s <= a * x.mantissa < n * s + s)
            && (a <= 0 ==> n <= 0 && n * s - s < a * x.mantissa <= n * s)
  {
    var b: nat := if a < 0 then -a else a;
    MulNatExact(b, x);
    if a < 0 {
      Negated(b, x.mantissa);
      Negated(MulNat(b, x), Pow2(x.scale));
    }
  }

  lemma Negated(x: int, y: int)
    ensures (0 - x) * y == 0 - x * y
  {}

  lemma MulNatExact(b: nat, x: Float64)
    requires b * x.mantissa < TWO64
    ensures MulNat(b, x) == Quotient(b * x.mantissa, Pow2(x.scale))
  {
    hide Quotient, Round64;
    if x.mantissa > 0 {
      Scale(1, x.mantissa, b);
      FewBits(b);
      FewBits(b * x.mantissa);
      Round64Small(b);
      Round64Small(b * x.mantissa);
    } else {
      FewBits(0);
      Round64Small(0);
      ZeroTimes(Round64(b), x.mantissa);
      ZeroTimes(b, x.mantissa);
    }
  }

  lemma ZeroTimes(x: int, y: int)
    requires y == 0
    ensures x * y == 0
  {}

  lemma FewBits(n: nat)
    requires n < TWO64
    ensures BitLen(n) <= PRECISION
  {
    if n > 0 {
      LargePowers();
      BitLenBounds(n);
      PowersApart(BitLen(n) - 1, 64);
    }
  }

  lemma PowersApart(m: nat, n: nat)
    requires Pow2(m) < Pow2(n)
    ensures m < n
  {
    if n <= m { Pow2Monotone(n, m); }
  }

  lemma MulNatMonotone(a: nat, b: nat, x: Float64)
    requires a <= b
    ensures MulNat(a, x) <= MulNat(b, x)
  {
    hide Round64, Quotient, Pow2;
    Round64Monotone(a, b);
    var p, q := Round64(a) * x.mantissa, Round64(b) * x.mantissa;
    assert p <= q by { Scale(Round64(a), Round64(b), x.mantissa); }
    Round64Monotone(p, q);
    QuotientMonotone(Round64(p), Round64(q), Pow2(x.scale));
  }

  /**
    The two roundings together: before truncation the product is off by at most one part in 2^62 of
    the exact product.
  */
  lemma ProductError(a: nat, x: Float64)
    ensures Within(Round64(Round64(a) * x.mantissa) - a * x.mantissa, a * x.mantissa, TWO62)
  {
    hide Round64;
    var r := Round64(a);
    Round64Error(a);
    Round64Error(r * x.mantissa);
    TwoErrors(a, r, x.mantissa, Round64(r * x.mantissa), TWO62, TWO64);
  }

  lemma TwoErrors(a: int, r: int, m: nat, y: int, p: nat, q: nat)
    requires p >= 1 && a >= 0 && q == 4 * p
    requires Within(r - a, a, q) && Within(y - r * m, r * m, q)
    ensures Within(y - a * m, a * m, p)
  {
    var e, f, t := r - a, y - r * m, a * m;
    assert r * m == t + e * m && y - t == f + e * m;
    assert 0 - t <= q * (e * m) <= t by {
      Scale(q * e, a, m);
      Scale(-a, q * e, m);
      assert (q * e) * m == q * (e * m);
    }
    assert e * m <= t by { Bounded(q, e * m, t); }
    assert q * (f + e * m) == q * f + q * (e * m);
    assert q * (y - t) == 4 * (p * (y - t));
  }

  lemma Bounded(k: int, x: int, t: int)
    requires k >= 1 && t >= 0 && k * x <= t
    ensures x <= t
  {
    if x > 0 { Scale(1, k, x); }
  }

  /** The real number a float64 stands for. */
  ghost function Value(x: Float64): real {
    x.mantissa as real / Pow2(x.scale) as real
  }

  function Magnitude(x: real): real {
    if x < 0.0 then -x else x
  }

  /** n lies within 1 + |exact|/q of the real number exact (both sides multiplied by q). */
  ghost predicate Near(n: int, exact: real, q: int) {
    && q as real * (n as real - exact) <= q as real + Magnitude(exact)
    && q as real * (exact - n as real) <= q as real + Magnitude(exact)
  }

  /** MulFloat64 is within 1 + |a|*x*2^-62 of the exact product a*x, negative amounts included. */
  lemma MulFloat64Error(a: int, x: Float64)
    ensures Near(MulFloat64(a, x), a as real * Value(x), TWO62)
  {
    hide Value, MulNat;
    if a >= 0 {
      MulNatError(a, x);
    } else {
      var b: nat := -a;
      MulNatError(b, x);
      NearOpposite(MulNat(b, x), b, Value(x), TWO62);
      assert MulFloat64(a, x) == 0 - MulNat(b, x) && a == 0 - b;
    }
  }

  lemma NearOpposite(n: int, b: int, v: real, q: int)
    requires Near(n, b as real * v, q)
    ensures Near(0 - n, (0 - b) as real * v, q)
  {
    NearNegated(n, b as real * v, q);
    RealOpposite(b, v);
  }

  lemma RealOpposite(b: int, v: real)
    ensures (0 - b) as real * v == -(b as real * v)
  {}

  lemma NearNegated(n: int, exact: real, q: int)
    requires Near(n, exact, q)
    ensures Near(0 - n, -exact, q)
  {
    assert (0 - n) as real == -(n as real);
    assert q as real * (-(n as real) - -exact) == q as real * (exact - n as real);
    assert q as real * (-exact - -(n as real)) == q as real * (n as real - exact);
  }

  lemma MulNatError(a: nat, x: Float64)
    ensures Near(MulNat(a, x), a as real * Value(x), TWO62)
  {
    ProductError(a, x);
    ExactQuotient(a, x, Round64(Round64(a) * x.mantissa), TWO62);
  }

  lemma ExactQuotient(a: nat, x: Float64, y: nat, q: nat)
    requires q >= 1
    requires Within(y - a * x.mantissa, a * x.mantissa, q)
    ensures Near(Quotient(y, Pow2(x.scale)), a as real * Value(x), q)
  {
    var s := Pow2(x.scale);
    Reorder(a as real, Value(x), s as real);
    assert Value(x) * s as real == x.mantissa as real;
    NonNegativeProduct(a as real, Value(x));
    TruncatedNear(y, a * x.mantissa, s, q, Quotient(y, s), a as real * Value(x));
  }

  lemma TruncatedNear(y: int, t: int, s: int, q: int, p: int, exact: real)
    requires s >= 1 && q >= 1 && p * s <= y < p * s + s
    requires Within(y - t, t, q)
    requires exact * s as real == t as real && exact >= 0.0
    ensures Near(p, exact, q)
  {
    TruncatedError(y, t, p * s, s, q);
    RealProduct(p, s);
    RealTruncation(p * s, s, t, q);
    Divided(q as real, p as real, exact, s as real);
  }

  lemma RealTruncation(z: int, s: int, t: int, q: int)
    requires q * (z - t) <= t && q * (t - (z + s)) <= t
    ensures q as real * (z as real - t as real) <= t as real
    ensures q as real * (t as real - (z as real + s as real)) <= t as real
  {
    RealProduct(q, z - t);
    RealProduct(q, t - (z + s));
  }

  lemma TruncatedError(y: int, t: int, z: int, s: int, q: int)
    requires q >= 1 && z <= y < z + s && Within(y - t, t, q)
    ensures q * (z - t) <= t && q * (t - (z + s)) <= t
  {}

  lemma RealProduct(x: int, y: int)
    ensures (x * y) as real == x as real * y as real
  {}

  lemma Divided(q: real, p: real, exact: real, s: real)
    requires s > 0.0 && q > 0.0
    requires q * (p * s - exact * s) <= exact * s
    requires q * (exact * s - (p * s + s)) <= exact * s
    ensures q * (p - exact) <= q + exact
    ensures q * (exact - p) <= q + exact
  {}

  lemma NonNegativeProduct(a: real, v: real)
    requires a >= 0.0 && v >= 0.0
    ensures a * v >= 0.0
  {}

  lemma Reorder(a: real, v: real, s: real)
    ensures a * v * s == a * (v * s) == a * s * v
  {}
}
