/**
  Rust's `f64`, modelled by its 64-bit pattern as laid out in section 3.4 of
  IEEE 754-2008: bit 63 is the sign, then an 11-bit biased exponent, then a
  52-bit trailing significand.

  The numeric value of a finite pattern is represented exactly, as an integer
  scaled by 2^1074 (the weight of the smallest subnormal), so that the
  comparisons Rust performs on `f64` become integer comparisons.
*/
module Binary64 {

  const TWO_52: nat := 0x10_0000_0000_0000
  const TWO_53: nat := 0x20_0000_0000_0000
  const TWO_63: nat := 0x8000_0000_0000_0000

  /** The all-ones biased exponent: infinities and NaNs. */
  const EXPONENT_ALL_ONES: nat := 0x7FF

  type Bits = b: nat | b < 0x1_0000_0000_0000_0000

  /** An `f64`, as the pattern `f64::to_bits` returns. */
  datatype F64 = F64(bits: Bits)

  /** `0.0`. */
  const POSITIVE_ZERO := F64(0)

  function Sign(f: F64): (s: nat)
    ensures s <= 1
    ensures s == 1 <==> f.bits >= TWO_63
  {
    f.bits / TWO_63
  }

  function BiasedExponent(f: F64): (e: nat)
    ensures e <= EXPONENT_ALL_ONES
  {
    (f.bits / TWO_52) % 0x800
  }

  function TrailingSignificand(f: F64): (m: nat)
    ensures m < TWO_52
  {
    f.bits % TWO_52
  }

  /** The three fields put back together give the pattern again. */
  lemma FieldsCompose(f: F64)
    ensures f.bits == Sign(f) * TWO_63 + BiasedExponent(f) * TWO_52 + TrailingSignificand(f)
  {
    var q := f.bits / TWO_52;
    assert f.bits == q * TWO_52 + TrailingSignificand(f);
    assert q == Sign(f) * 0x800 + BiasedExponent(f);
  }

  predicate IsNan(f: F64) {
    BiasedExponent(f) == EXPONENT_ALL_ONES && TrailingSignificand(f) != 0
  }

  predicate IsInfinite(f: F64) {
    BiasedExponent(f) == EXPONENT_ALL_ONES && TrailingSignificand(f) == 0
  }

  /** `f64::is_finite`: neither infinite nor NaN. */
  predicate IsFinite(f: F64) {
    BiasedExponent(f) != EXPONENT_ALL_ONES
  }

  /** `f64::is_sign_positive`: the sign bit is clear (true also of +0.0 and of a positive NaN). */
  predicate IsSignPositive(f: F64) {
    Sign(f) == 0
  }

  /** `f64::is_sign_negative`. */
  predicate IsSignNegative(f: F64) {
    Sign(f) == 1
  }

  function Pow2(n: nat): (p: nat)
    ensures p >= 1
  {
    if n == 0 then 1 else 2 * Pow2(n - 1)
  }

  lemma {:induction false} Pow2Monotone(m: nat, n: nat)
    requires m <= n
    ensures Pow2(m) <= Pow2(n)
  {
    if m < n {
      Pow2Monotone(m, n - 1);
    }
  }

  /** The integer significand: the trailing significand with the implicit leading bit of a normal number. */
  function Significand(f: F64): (n: nat)
    ensures BiasedExponent(f) == 0 ==> n < TWO_52
    ensures BiasedExponent(f) != 0 ==> TWO_52 <= n < TWO_53
  {
    if BiasedExponent(f) == 0 then TrailingSignificand(f) else TWO_52 + TrailingSignificand(f)
  }

  /**
    The magnitude of a finite `f`, times 2^1074. A subnormal is worth
    m * 2^-1074 and a normal number (2^52 + m) * 2^(e - 1075), so both are
    Significand * 2^(max(e, 1) - 1) on this scale.
  */
  function ScaledMagnitude(f: F64): (r: nat)
    requires IsFinite(f)
    ensures r == 0 <==> BiasedExponent(f) == 0 && TrailingSignificand(f) == 0
  {
    var e := BiasedExponent(f);
    Significand(f) * Pow2(if e == 0 then 0 else e - 1)
  }

  /** The signed numeric value of a finite `f`, times 2^1074: both zeros are 0. */
  function ScaledValue(f: F64): (r: int)
    requires IsFinite(f)
    ensures r > 0 <==> IsSignPositive(f) && ScaledMagnitude(f) > 0
    ensures r < 0 <==> IsSignNegative(f) && ScaledMagnitude(f) > 0
  {
    var m: int := ScaledMagnitude(f);
    if IsSignNegative(f) then -m else m
  }

  /** `==` on `f64`: false whenever a NaN is involved, and `0.0 == -0.0`. */
  predicate Equal(a: F64, b: F64) {
    && !IsNan(a) && !IsNan(b)
    && if IsFinite(a) && IsFinite(b) then ScaledValue(a) == ScaledValue(b) else a == b
  }

  /** `<` on `f64`: false whenever a NaN is involved; -inf is below and +inf above every other value. */
  predicate Less(a: F64, b: F64) {
    && !IsNan(a) && !IsNan(b)
    && if IsFinite(a) && IsFinite(b) then ScaledValue(a) < ScaledValue(b)
       else a != b && ((IsInfinite(a) && IsSignNegative(a)) || (IsInfinite(b) && IsSignPositive(b)))
  }

  /** `<=` on `f64`. */
  predicate LessOrEqual(a: F64, b: F64) {
    Less(a, b) || Equal(a, b)
  }

  /** A zero of either sign. */
  lemma ZeroExactly(f: F64)
    requires IsFinite(f)
    ensures ScaledValue(f) == 0 <==> f.bits == 0 || f.bits == TWO_63
  {
    FieldsCompose(f);
  }

  /**
    For patterns with the sign bit clear, the numeric order of the values is
    the unsigned order of the bit patterns.
  */
  lemma {:induction false} SignClearOrder(a: F64, b: F64)
    requires IsFinite(a) && IsSignPositive(a) && IsFinite(b) && IsSignPositive(b)
    ensures a.bits < b.bits <==> ScaledValue(a) < ScaledValue(b)
    ensures a.bits == b.bits <==> ScaledValue(a) == ScaledValue(b)
  {
    if a.bits < b.bits {
      StrictlyIncreasing(a, b);
    } else if b.bits < a.bits {
      StrictlyIncreasing(b, a);
    }
  }

  /** With the sign bit clear, a larger pattern has a larger exponent, or the same exponent and a larger trailing significand. */
  lemma SignClearFieldOrder(a: F64, b: F64)
    requires IsSignPositive(a) && IsSignPositive(b) && a.bits < b.bits
    ensures BiasedExponent(a) < BiasedExponent(b)
         || (BiasedExponent(a) == BiasedExponent(b) && TrailingSignificand(a) < TrailingSignificand(b))
  {
    FieldsCompose(a);
    FieldsCompose(b);
  }

  lemma MulMonotone(x: nat, y: nat, p: nat)
    requires x < y && p >= 1
    ensures x * p < y * p
  {
  }

  /** A normal number at a higher exponent outweighs every number at a lower one. */
  lemma HigherExponentLarger(a: F64, b: F64)
    requires IsFinite(a) && IsFinite(b) && BiasedExponent(a) < BiasedExponent(b)
    ensures ScaledMagnitude(a) < ScaledMagnitude(b)
  {
    var ea, eb := BiasedExponent(a), BiasedExponent(b);
    var pb := Pow2(eb - 1);
    assert TWO_52 * pb <= Significand(b) * pb;
    if ea == 0 {
      assert ScaledMagnitude(a) == Significand(a) * 1;
    } else {
      var pa := Pow2(ea - 1);
      Pow2Monotone(ea, eb - 1);
      MulMonotone(Significand(a), TWO_53, pa);
      calc {
        TWO_53 * pa;
        TWO_52 * (2 * pa);
        TWO_52 * Pow2(ea);
      <= { assert Pow2(ea) <= pb; }
        TWO_52 * pb;
      }
    }
  }

  lemma StrictlyIncreasing(a: F64, b: F64)
    requires IsFinite(a) && IsSignPositive(a) && IsFinite(b) && IsSignPositive(b)
    requires a.bits < b.bits
    ensures ScaledMagnitude(a) < ScaledMagnitude(b)
  {
    SignClearFieldOrder(a, b);
    var ea := BiasedExponent(a);
    if ea == BiasedExponent(b) {
      MulMonotone(Significand(a), Significand(b), Pow2(if ea == 0 then 0 else ea - 1));
    } else {
      HigherExponentLarger(a, b);
    }
  }
}
