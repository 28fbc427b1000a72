/** Decimal amounts, their scaling to integer minor units inside a 28-digit context, and the growth ratio
    computed from the minor units. */
module MinorUnits {
  import opened Wrappers

  /** A decimal number as its sign, coefficient and exponent; anything else is not finite. */
  datatype Dec = Finite(negative: bool, coef: nat, exp: int) | NotFinite

  datatype Canonical = Canonical(prior: int, current: int, currency: string, scale: int)

  /** A growth ratio in lowest terms. */
  datatype Growth = Growth(numerator: int, denominator: int)

  const CONTEXT_DIGITS: nat := 28
  const MAX_SCALE: nat := 18
  const INT64_MIN: int := -0x8000_0000_0000_0000
  const INT64_MAX: int := 0x7FFF_FFFF_FFFF_FFFF

  // ---- Arithmetic -----------------------------------------------------------------------

  lemma MulAtLeast(d: int, x: int)
    requires d >= 0
    ensures x >= 1 ==> d * x >= d
    ensures x <= -1 ==> d * x <= -d
  {
    if x >= 1 {
      assert d * (x - 1) >= 0;
    } else if x <= -1 {
      assert d * (-x - 1) >= 0;
    }
  }

  lemma DivUnique(n: int, d: nat, q: int, r: nat)
    requires d > 0 && r < d && n == q * d + r
    ensures n / d == q && n % d == r
  {
    var x := q - n / d;
    assert d * x == d * q - d * (n / d);
    MulAtLeast(d, x);
  }

  lemma QuotientAtLeast(c: nat, unit: nat, bound: nat)
    requires unit >= 1 && c >= bound * unit
    ensures c / unit >= bound
  {
    var x := bound - c / unit;
    assert unit * x == unit * bound - unit * (c / unit);
    MulAtLeast(unit, x);
  }

  lemma CancelFactor(a: nat, b: nat, f: nat)
    requires f >= 1 && a * f >= b * f
    ensures a >= b
  {
    assert f * (b - a) == b * f - a * f;
    MulAtLeast(f, b - a);
  }

  lemma RealOfProduct(a: int, b: int)
    ensures (a * b) as real == a as real * b as real
  {
  }

  lemma RealCancel(x: real, a: real, b: real)
    requires b != 0.0
    ensures x / b * (a * b) == x * a
  {
    assert x / b * b == x;
    assert x / b * (a * b) == x / b * b * a;
  }

  // ---- Powers of ten --------------------------------------------------------------------

  function Pow10(n: nat): (p: nat)
    ensures p >= 1
  {
    if n == 0 then 1 else 10 * Pow10(n - 1)
  }

  lemma {:induction false} Pow10Adds(a: nat, b: nat)
    ensures Pow10(a + b) == Pow10(a) * Pow10(b)
  {
    if a > 0 {
      Pow10Adds(a - 1, b);
    }
  }

  lemma {:induction false} Pow10Grows(a: nat, b: nat)
    requires a <= b
    ensures Pow10(a) <= Pow10(b)
  {
    if a < b {
      Pow10Grows(a, b - 1);
    }
  }

  /** Number of decimal digits. */
  function Digits(c: nat): (n: nat)
    ensures c < Pow10(n)
    ensures c > 0 ==> n > 0 && Pow10(n - 1) <= c
    ensures c == 0 ==> n == 0
  {
    if c == 0 then 0 else Digits(c / 10) + 1
  }

  // ---- Scaling --------------------------------------------------------------------------

  /** The quotient of `c` by `unit`, rounded half to even. */
  function HalfEven(c: nat, unit: nat): (q: nat)
    requires unit >= 1
    ensures q == c / unit || q == c / unit + 1
    ensures c % unit == 0 ==> q == c / unit
  {
    var q, r := c / unit, c % unit;
    if 2 * r > unit || (2 * r == unit && q % 2 == 1) then q + 1 else q
  }

  /** The rounded quotient is the nearest one, and the even one of two equally near. */
  lemma HalfEvenIsNearest(c: nat, unit: nat)
    requires unit >= 1
    ensures var q := HalfEven(c, unit);
            && 2 * (c - q * unit) <= unit && 2 * (q * unit - c) <= unit
            && (2 * (c - q * unit) == unit || 2 * (q * unit - c) == unit ==> q % 2 == 0)
  {
    var q, r := c / unit, c % unit;
    assert c == q * unit + r;
    assert (q + 1) * unit == q * unit + unit;
  }

  /** A coefficient and exponent after rounding to the digits of the context. */
  function Rounded(c: nat, e: int): (nat, int) {
    var n := Digits(c);
    if n <= CONTEXT_DIGITS then (c, e)
    else
      var k := n - CONTEXT_DIGITS;
      (HalfEven(c, Pow10(k)), e + k)
  }

  function Times(a: nat, b: nat): nat {
    a * b
  }

  function Quotient(a: nat, b: nat): nat
    requires b >= 1
  {
    a / b
  }

  function Truncated(c: nat, e: int): nat {
    if e >= 0 then Times(c, Pow10(e)) else Quotient(c, Pow10(-e))
  }

  /** The magnitude of a decimal times ten to the scale, as the context computes it, cut to an integer. */
  function ScaledMagnitude(coef: nat, exp: int, scale: nat): nat {
    var (c, e) := Rounded(coef * Pow10(scale), exp);
    Truncated(c, e)
  }

  function Signed(negative: bool, m: int): int {
    if negative then -m else m
  }

  function Scaled(d: Dec, scale: nat): int
    requires d.Finite?
  {
    Signed(d.negative, ScaledMagnitude(d.coef, d.exp, scale))
  }

  function Max(a: int, b: int): int {
    if a >= b then a else b
  }

  /** The number of fractional digits of the finer of the two amounts. */
  function ScaleOf(prior: Dec, current: Dec): (scale: nat)
    requires prior.Finite? && current.Finite?
    ensures prior.exp + scale >= 0 && current.exp + scale >= 0
    ensures scale == 0 || scale == -prior.exp || scale == -current.exp
  {
    Max(0, Max(-prior.exp, -current.exp))
  }

  predicate FitsInt64(n: int) {
    INT64_MIN <= n <= INT64_MAX
  }

  predicate IsCurrency(s: string) {
    1 <= |s| <= 16 && forall c :: c in s ==> 'A' <= c <= 'Z'
  }

  /** The canonical inputs' own validation. */
  function Canonicalise(prior: int, current: int, currency: string, scale: nat): (c: Option<Canonical>)
    ensures c.Some? <==> && IsCurrency(currency) && scale <= MAX_SCALE
                         && 0 < prior && FitsInt64(prior) && FitsInt64(current)
    ensures c.Some? ==> c.value == Canonical(prior, current, currency, scale)
  {
    if IsCurrency(currency) && scale <= MAX_SCALE && FitsInt64(prior) && FitsInt64(current) && prior > 0
    then Some(Canonical(prior, current, currency, scale)) else None
  }

  /** Two amounts as canonical inputs, when they have such a form. */
  function ToMinorUnits(prior: Dec, current: Dec, currency: string): Option<Canonical>
    requires prior.Finite? && current.Finite?
  {
    var scale := ScaleOf(prior, current);
    if scale > MAX_SCALE then None
    else Canonicalise(Scaled(prior, scale), Scaled(current, scale), currency, scale)
  }

  // ---- Exactness ------------------------------------------------------------------------

  /** Dropping trailing zeros is exact. */
  lemma DropZeros(coef: nat, scale: nat, k: nat)
    requires k <= scale
    ensures coef * Pow10(scale) == (coef * Pow10(scale - k)) * Pow10(k)
    ensures coef * Pow10(scale) % Pow10(k) == 0
    ensures coef * Pow10(scale) / Pow10(k) == coef * Pow10(scale - k)
  {
    Pow10Adds(scale - k, k);
    var q, unit := coef * Pow10(scale - k), Pow10(k);
    assert coef * Pow10(scale) == q * unit;
    DivUnique(q * unit, unit, q, 0);
  }

  lemma TruncatedExact(coef: nat, shift: nat, e: int)
    requires e + shift >= 0
    ensures Truncated(coef * Pow10(shift), e) == coef * Pow10(e + shift)
  {
    if e >= 0 {
      Pow10Adds(shift, e);
      assert coef * Pow10(shift) * Pow10(e) == coef * (Pow10(shift) * Pow10(e));
    } else {
      DropZeros(coef, shift, -e);
    }
  }

  /** The context rounds nothing away unless the amount has more than 28 digits. */
  lemma ShortAmountIsExact(coef: nat, exp: int, scale: nat)
    requires exp + scale >= 0
    requires Digits(coef * Pow10(scale)) <= CONTEXT_DIGITS + scale
    ensures ScaledMagnitude(coef, exp, scale) == coef * Pow10(exp + scale)
  {
    hide Digits, Pow10, HalfEven, Truncated;
    var n := Digits(coef * Pow10(scale));
    if n <= CONTEXT_DIGITS {
      TruncatedExact(coef, scale, exp);
    } else {
      var k := n - CONTEXT_DIGITS;
      DropZeros(coef, scale, k);
      TruncatedExact(coef, scale - k, exp + k);
    }
  }

  /** A longer amount stays far outside the integer range, rounded or not. */
  lemma LongAmountIsHuge(coef: nat, exp: int, scale: nat)
    requires exp + scale >= 0
    requires Digits(coef * Pow10(scale)) > CONTEXT_DIGITS + scale
    ensures ScaledMagnitude(coef, exp, scale) >= Pow10(CONTEXT_DIGITS - 1)
  {
    hide Digits, Pow10, HalfEven;
    var c := coef * Pow10(scale);
    var k := Digits(c) - CONTEXT_DIGITS;
    LeadingDigits(c, k);
    AtLeast(HalfEven(c, Pow10(k)), Pow10(exp + k));
  }

  lemma LeadingDigits(c: nat, k: nat)
    requires c >= Pow10(CONTEXT_DIGITS - 1 + k)
    ensures HalfEven(c, Pow10(k)) >= Pow10(CONTEXT_DIGITS - 1)
  {
    hide Pow10;
    Pow10Adds(CONTEXT_DIGITS - 1, k);
    QuotientAtLeast(c, Pow10(k), Pow10(CONTEXT_DIGITS - 1));
  }

  lemma TenToThe27ExceedsInt64()
    ensures Pow10(CONTEXT_DIGITS - 1) > INT64_MAX + 1
  {
    assert Pow10(9) == 1_000_000_000;
    Pow10Adds(9, 9);
    Pow10Adds(18, 9);
  }

  /** Scaling is exact whenever its result is an integer that fits, however many digits the amount has. */
  lemma AcceptedScalingIsExact(d: Dec, scale: nat)
    requires d.Finite? && d.exp + scale >= 0 && FitsInt64(Scaled(d, scale))
    ensures Scaled(d, scale) == Signed(d.negative, d.coef * Pow10(d.exp + scale))
  {
    hide ScaledMagnitude, Pow10;
    if Digits(d.coef * Pow10(scale)) <= CONTEXT_DIGITS + scale {
      ShortAmountIsExact(d.coef, d.exp, scale);
    } else {
      LongAmountIsHuge(d.coef, d.exp, scale);
      TenToThe27ExceedsInt64();
      assert false;
    }
  }

  // ---- Values and ratios ----------------------------------------------------------------

  /** The number that a decimal denotes. */
  function Value(d: Dec): real
    requires d.Finite?
  {
    var m := if d.exp >= 0 then (d.coef * Pow10(d.exp)) as real else d.coef as real / Pow10(-d.exp) as real;
    if d.negative then -m else m
  }

  lemma MagnitudeScales(coef: nat, exp: int, scale: nat)
    requires exp + scale >= 0
    ensures (coef * Pow10(exp + scale)) as real
            == (if exp >= 0 then (coef * Pow10(exp)) as real
                else coef as real / Pow10(-exp) as real) * Pow10(scale) as real
  {
    hide Pow10;
    if exp >= 0 {
      Pow10Adds(exp, scale);
      assert coef * Pow10(exp + scale) == coef * Pow10(exp) * Pow10(scale);
      RealOfProduct(coef * Pow10(exp), Pow10(scale));
    } else {
      Pow10Adds(exp + scale, -exp);
      RealOfProduct(coef, Pow10(exp + scale));
      RealOfProduct(Pow10(exp + scale), Pow10(-exp));
      RealCancel(coef as real, Pow10(exp + scale) as real, Pow10(-exp) as real);
    }
  }

  lemma ExactValue(d: Dec, scale: nat)
    requires d.Finite? && d.exp + scale >= 0
    ensures Value(d) * Pow10(scale) as real == Signed(d.negative, d.coef * Pow10(d.exp + scale)) as real
  {
    hide Pow10;
    MagnitudeScales(d.coef, d.exp, scale);
  }

  lemma ScaledIsValueTimesFactor(d: Dec, scale: nat)
    requires d.Finite? && d.exp + scale >= 0 && FitsInt64(Scaled(d, scale))
    ensures Scaled(d, scale) as real == Value(d) * Pow10(scale) as real
  {
    hide Scaled, Pow10, Value;
    AcceptedScalingIsExact(d, scale);
    ExactValue(d, scale);
  }

  /** The growth from one amount to another, relative to the first. */
  function Relative(from: real, to: real): real
    requires from != 0.0
  {
    (to - from) / from
  }

  /** The minor units are the amounts themselves times ten to the scale, and keep their ratio. */
  ghost predicate ScaledExactly(c: Canonical, prior: Dec, current: Dec)
    requires prior.Finite? && current.Finite? && c.scale >= 0
  {
    && c.prior as real == Value(prior) * Pow10(c.scale) as real
    && c.current as real == Value(current) * Pow10(c.scale) as real
    && c.prior as real > 0.0 && Value(prior) > 0.0
    && Relative(c.prior as real, c.current as real) == Relative(Value(prior), Value(current))
  }

  /** Scaling two amounts to minor units is exact and keeps their growth ratio. */
  lemma MinorUnitsAreExact(prior: Dec, current: Dec, currency: string)
    requires prior.Finite? && current.Finite?
    requires ToMinorUnits(prior, current, currency).Some?
    ensures var c := ToMinorUnits(prior, current, currency).value;
            c.scale >= 0 && c.prior > 0 && ScaledExactly(c, prior, current)
  {
    hide Scaled, Value, Pow10, Relative;
    var c := ToMinorUnits(prior, current, currency).value;
    ScaledIsValueTimesFactor(prior, c.scale);
    ScaledIsValueTimesFactor(current, c.scale);
    RatioScales(Value(prior), Value(current), Pow10(c.scale) as real, c.prior as real, c.current as real);
  }

  lemma RatioScales(p: real, c: real, f: real, pf: real, cf: real)
    requires f > 0.0 && pf == p * f > 0.0 && cf == c * f
    ensures p > 0.0
    ensures Relative(pf, cf) == Relative(p, c)
  {
    SignScales(p, f);
    var r := (c - p) / p;
    calc {
      cf - pf;
      (c - p) * f;
      { assert r * p == c - p; }
      r * p * f;
      r * pf;
    }
    RealQuotient(cf - pf, pf, r);
  }

  lemma RealQuotient(x: real, y: real, r: real)
    requires y != 0.0 && x == r * y
    ensures x / y == r
  {
  }

  /** Two amounts have a canonical form exactly when their exact scaled values are integers that fit. */
  lemma AcceptedExactlyWhenItFits(prior: Dec, current: Dec, currency: string)
    requires prior.Finite? && current.Finite?
    ensures var scale := ScaleOf(prior, current);
            ToMinorUnits(prior, current, currency).Some? <==>
            && scale <= MAX_SCALE
            && 1 <= |currency| <= 16 && (forall c :: c in currency ==> 'A' <= c <= 'Z')
            && Value(prior) > 0.0
            && Value(prior) * Pow10(scale) as real <= INT64_MAX as real
            && INT64_MIN as real <= Value(current) * Pow10(scale) as real <= INT64_MAX as real
  {
    hide Scaled, Value, Pow10;
    var scale := ScaleOf(prior, current);
    if scale <= MAX_SCALE {
      FitsExactly(prior, scale);
      FitsExactly(current, scale);
      SignScales(Value(prior), Pow10(scale) as real);
    }
  }

  lemma SignScales(v: real, f: real)
    requires f > 0.0
    ensures v * f > 0.0 <==> v > 0.0
  {
    if v > 0.0 { assert v * f > 0.0; } else { assert v * f <= 0.0; }
  }

  /** The scaled integer fits exactly when the exact value does, and is then that value. */
  lemma FitsExactly(d: Dec, scale: nat)
    requires d.Finite? && d.exp + scale >= 0
    ensures FitsInt64(Scaled(d, scale)) <==> INT64_MIN as real <= Value(d) * Pow10(scale) as real <= INT64_MAX as real
    ensures FitsInt64(Scaled(d, scale)) ==> Scaled(d, scale) as real == Value(d) * Pow10(scale) as real
  {
    hide ScaledMagnitude, Pow10, Value, Digits;
    ExactValue(d, scale);
    if Digits(d.coef * Pow10(scale)) <= CONTEXT_DIGITS + scale {
      ShortAmountIsExact(d.coef, d.exp, scale);
    } else {
      LongAmountIsHuge(d.coef, d.exp, scale);
      TenToThe27ExceedsInt64();
      LongExactIsHuge(d.coef, d.exp, scale);
    }
  }

  lemma LongExactIsHuge(coef: nat, exp: int, scale: nat)
    requires exp + scale >= 0
    requires Digits(coef * Pow10(scale)) > CONTEXT_DIGITS + scale
    ensures coef * Pow10(exp + scale) >= Pow10(CONTEXT_DIGITS - 1)
  {
    hide Pow10;
    var n := Digits(coef * Pow10(scale));
    Pow10Grows(CONTEXT_DIGITS + scale, n - 1);
    Pow10Adds(CONTEXT_DIGITS, scale);
    Pow10Grows(CONTEXT_DIGITS - 1, CONTEXT_DIGITS);
    CancelFactor(coef, Pow10(CONTEXT_DIGITS), Pow10(scale));
    AtLeast(coef, Pow10(exp + scale));
  }

  lemma AtLeast(a: nat, f: nat)
    requires f >= 1
    ensures a * f >= a
  {
    assert a * (f - 1) >= 0;
  }

  // ---- The growth ratio -----------------------------------------------------------------

  predicate Divides(d: int, n: int)
    requires d > 0
  {
    n % d == 0
  }

  function Abs(n: int): nat {
    if n < 0 then -n else n
  }

  /** The greatest common divisor by repeated remainders. */
  function Gcd(a: nat, b: nat): (g: nat)
    ensures a > 0 || b > 0 ==> g > 0
    decreases b
  {
    if b == 0 then a else Gcd(b, a % b)
  }

  method GreatestCommonDivisor(left: int, right: int) returns (g: nat)
    ensures g == Gcd(Abs(left), Abs(right))
  {
    var a, b := Abs(left), Abs(right);
    while b != 0
      invariant Gcd(a, b) == Gcd(Abs(left), Abs(right))
      decreases b
    {
      a, b := b, a % b;
    }
    g := a;
  }

  lemma RemainderStep(d: nat, a: nat, b: nat)
    requires d > 0 && b > 0 && Divides(d, b)
    ensures a % d == a % b % d
  {
    Division(b, d);
    Division(a, b);
    Substitute(a / b, b / d, d, b, a % b, a);
    RemainderOfSum(d, (a / b) * (b / d), a % b, a);
  }

  lemma Division(n: nat, d: nat)
    requires d > 0
    ensures n == (n / d) * d + n % d
  {
  }

  lemma Substitute(q: int, k: int, d: int, b: int, r: int, a: int)
    requires b == k * d && a == q * b + r
    ensures a == q * k * d + r
  {
  }

  lemma RemainderOfSum(d: nat, m: nat, r: nat, n: nat)
    requires d > 0 && n == m * d + r
    ensures n % d == r % d
  {
    var q := r / d;
    assert (m + q) * d == m * d + q * d;
    DivUnique(n, d, m + q, r % d);
  }

  /** It divides both numbers, and every common divisor divides it. */
  lemma {:induction false} GcdIsGreatest(a: nat, b: nat, d: nat)
    requires d > 0 && (a > 0 || b > 0)
    ensures Divides(Gcd(a, b), a) && Divides(Gcd(a, b), b)
    ensures Divides(d, a) && Divides(d, b) ==> Divides(d, Gcd(a, b))
    decreases b
  {
    if b > 0 {
      GcdIsGreatest(b, a % b, d);
      RemainderStep(Gcd(a, b), a, b);
      if Divides(d, b) {
        RemainderStep(d, a, b);
      }
    }
  }

  /** The ratio of the canonical inputs in lowest terms. */
  function GrowthOf(c: Canonical): Growth
    requires c.prior > 0
  {
    var n := c.current - c.prior;
    var g := Gcd(Abs(n), c.prior);
    Growth(n / g, c.prior / g)
  }

  lemma DivByDivisor(n: int, d: nat)
    requires d > 0 && Divides(d, Abs(n))
    ensures n / d * d == n
  {
    var q := Abs(n) / d;
    DivUnique(n, d, if n < 0 then -q else q, 0);
  }

  /** The reduced ratio is the growth from one amount to the other. */
  ghost predicate GrowthMatches(c: Canonical, prior: Dec, current: Dec)
    requires prior.Finite? && current.Finite?
  {
    && c.prior > 0 && Value(prior) > 0.0
    && GrowthOf(c).denominator > 0
    && Fraction(GrowthOf(c)) == Relative(Value(prior), Value(current))
    && InLowestTerms(GrowthOf(c))
  }

  /** The reduced ratio equals the ratio of the amounts themselves, and cannot be reduced further. */
  lemma GrowthIsExact(prior: Dec, current: Dec, currency: string)
    requires prior.Finite? && current.Finite?
    requires ToMinorUnits(prior, current, currency).Some?
    ensures GrowthMatches(ToMinorUnits(prior, current, currency).value, prior, current)
  {
    hide Value, Pow10, Gcd, ToMinorUnits, GrowthOf, InLowestTerms, Fraction, Relative;
    var c := ToMinorUnits(prior, current, currency).value;
    PositivePrior(prior, current, currency);
    MinorUnitsAreExact(prior, current, currency);
    GrowthReduces(c);
    GrowthIsReduced(c);
  }

  predicate CommonDivisor(d: nat, growth: Growth)
    requires d > 0
  {
    Divides(d, Abs(growth.numerator)) && Divides(d, growth.denominator)
  }

  ghost predicate InLowestTerms(growth: Growth) {
    forall d: nat :: d > 0 && CommonDivisor(d, growth) ==> d == 1
  }

  lemma GrowthIsReduced(c: Canonical)
    requires c.prior > 0
    ensures InLowestTerms(GrowthOf(c))
  {
    hide Gcd, GrowthOf, CommonDivisor;
    forall d: nat | d > 0 && CommonDivisor(d, GrowthOf(c)) ensures d == 1 {
      LowestTerms(c, d);
    }
  }

  lemma PositivePrior(prior: Dec, current: Dec, currency: string)
    requires prior.Finite? && current.Finite? && ToMinorUnits(prior, current, currency).Some?
    ensures ToMinorUnits(prior, current, currency).value.prior > 0
  {
  }

  function Fraction(growth: Growth): real
    requires growth.denominator > 0
  {
    growth.numerator as real / growth.denominator as real
  }

  /** Numerator and denominator times the divisor give back the two amounts. */
  lemma GrowthTimesGcd(c: Canonical)
    requires c.prior > 0
    ensures var g := Gcd(Abs(c.current - c.prior), c.prior);
            && g > 0 && GrowthOf(c).denominator > 0
            && GrowthOf(c).numerator * g == c.current - c.prior && GrowthOf(c).denominator * g == c.prior
  {
    hide Gcd, Divides;
    var n := c.current - c.prior;
    var g := Gcd(Abs(n), c.prior);
    GcdIsGreatest(Abs(n), c.prior, 1);
    DivByDivisor(n, g);
    DivByDivisor(c.prior, g);
    MulAtLeast(g, GrowthOf(c).denominator);
  }

  lemma GrowthReduces(c: Canonical)
    requires c.prior > 0
    ensures var growth := GrowthOf(c);
            && growth.denominator > 0
            && Fraction(growth) == Relative(c.prior as real, c.current as real)
  {
    hide Gcd, GrowthOf;
    GrowthTimesGcd(c);
    var growth, g := GrowthOf(c), Gcd(Abs(c.current - c.prior), c.prior);
    RealOfProduct(growth.numerator, g);
    RealOfProduct(growth.denominator, g);
    CancelRatio(growth.numerator as real, growth.denominator as real, g as real, (c.current - c.prior) as real,
                c.prior as real);
    assert (c.current - c.prior) as real == c.current as real - c.prior as real;
  }

  lemma CancelRatio(a: real, b: real, g: real, ag: real, bg: real)
    requires b > 0.0 && g > 0.0 && ag == a * g && bg == b * g
    ensures bg != 0.0 && ag / bg == a / b
  {
    var r := a / b;
    calc {
      ag;
      { assert r * b == a; }
      r * b * g;
      r * bg;
    }
    SignScales(b, g);
    RealQuotient(ag, bg, r);
  }

  lemma LowestTerms(c: Canonical, d: nat)
    requires c.prior > 0 && d > 0 && CommonDivisor(d, GrowthOf(c))
    ensures d == 1
  {
    hide Gcd, GrowthOf, Divides;
    GrowthTimesGcd(c);
    var growth, g := GrowthOf(c), Gcd(Abs(c.current - c.prior), c.prior);
    DivByDivisor(growth.numerator, d);
    DivByDivisor(growth.denominator, d);
    // d times g divides both amounts, so it divides g.
    Regroup(growth.numerator / d, d, g);
    Regroup(growth.denominator / d, d, g);
    AtLeast(g, d);
    MultipleDivides(growth.numerator / d, d * g);
    MultipleDivides(growth.denominator / d, d * g);
    GcdIsGreatest(Abs(c.current - c.prior), c.prior, d * g);
    MultipleOfLarger(g, d);
  }

  lemma Regroup(x: int, d: int, g: int)
    ensures x * (d * g) == x * d * g
  {
  }

  lemma MultipleOfLarger(g: nat, d: nat)
    requires g > 0 && d > 0 && d * g > 0 && Divides(d * g, g)
    ensures d == 1
  {
    var q := g / (d * g);
    assert g == q * (d * g);
    assert g * (1 - q * d) == 0;
    assert q * d == 1 by { MulAtLeast(g, 1 - q * d); }
    MulAtLeast(d, q - 1);
  }

  lemma MultipleDivides(x: int, d: nat)
    requires d > 0
    ensures Divides(d, Abs(x * d))
  {
    assert Abs(x * d) == Abs(x) * d;
    DivUnique(Abs(x) * d, d, Abs(x), 0);
  }
}
