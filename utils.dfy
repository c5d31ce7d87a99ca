/**
  `PositiveFiniteF64` and its only constructor, `TryFrom<f64>::try_from`
  (src/ast/utils.rs): a float known to be finite and to have a clear sign bit.
*/
module Utils {
  import opened Wrappers
  import opened Binary64

  /**
    The struct's field is private and set only by `try_from`, so every value of
    the type is finite with its sign bit clear; the subset type says so.
  */
  type PositiveFiniteF64 = f: F64 | IsFinite(f) && IsSignPositive(f) witness POSITIVE_ZERO

  datatype InvalidFloatError = Negative | NonFinite

  /** Finiteness is checked first, then the sign bit. */
  function TryFrom(value: F64): (r: Result<PositiveFiniteF64, InvalidFloatError>)
    ensures r.Ok? <==> IsFinite(value) && IsSignPositive(value)
    ensures r.Ok? ==> Value(r.value) == value
    ensures r == Err(NonFinite) <==> IsNan(value) || IsInfinite(value)
    ensures r == Err(Negative) <==> IsFinite(value) && IsSignNegative(value)
  {
    if IsFinite(value) then
      if IsSignPositive(value) then Ok(value) else Err(Negative)
    else
      Err(NonFinite)
  }

  /** `value()`: the wrapped `f64`, which is finite and not negative. */
  function Value(x: PositiveFiniteF64): (v: F64)
    ensures IsFinite(v) && IsSignPositive(v)
    ensures ScaledValue(v) >= 0
  {
    x
  }

  /** The test patterns (src/ast/utils.rs). */
  const NAN := F64(0x7FF8_0000_0000_0000)
  const NEG_NAN := F64(0xFFF8_0000_0000_0000)
  const INFINITY := F64(0x7FF0_0000_0000_0000)
  const NEG_INFINITY := F64(0xFFF0_0000_0000_0000)
  const NEG_ZERO := F64(0x8000_0000_0000_0000)
  const MAX_SUBNORMAL := F64(0x000F_FFFF_FFFF_FFFF)
  const MIN_SUBNORMAL := F64(0x0000_0000_0000_0001)
  const NEG_MIN_SUBNORMAL := F64(0x8000_0000_0000_0001)
  const NEG_MAX_SUBNORMAL := F64(0x800F_FFFF_FFFF_FFFF)
  const MAX := F64(0x7FEF_FFFF_FFFF_FFFF)
  const MIN_POSITIVE := F64(0x0010_0000_0000_0000)
  const NEG_MIN_POSITIVE := F64(0x8010_0000_0000_0000)
  const MIN := F64(0xFFEF_FFFF_FFFF_FFFF)
  const PI := F64(0x4009_21FB_5444_2D18)
  const NEG_PI := F64(0xC009_21FB_5444_2D18)

  /**
    In numeric terms: `try_from` accepts exactly the finite values that are
    at least zero, except negative zero; it reports `Negative` for the finite
    values below zero and for negative zero.
  */
  lemma TryFromNumeric(value: F64)
    ensures TryFrom(value).Ok? <==> IsFinite(value) && ScaledValue(value) >= 0 && value != NEG_ZERO
    ensures TryFrom(value) == Err(Negative) <==> IsFinite(value) && (ScaledValue(value) < 0 || value == NEG_ZERO)
  {
    if IsFinite(value) {
      ZeroExactly(value);
      if IsSignNegative(value) && ScaledValue(value) == 0 {
        assert value.bits == TWO_63;
      }
    }
  }

  /** A negative NaN is reported as `NonFinite`, not as `Negative`. */
  lemma NanOfEitherSignIsNonFinite(value: F64)
    requires IsNan(value)
    ensures TryFrom(value) == Err(NonFinite)
  {
  }

  lemma TryFromTestPatterns()
    ensures TryFrom(NAN) == Err(NonFinite) && TryFrom(NEG_NAN) == Err(NonFinite)
    ensures TryFrom(INFINITY) == Err(NonFinite) && TryFrom(NEG_INFINITY) == Err(NonFinite)
    ensures TryFrom(POSITIVE_ZERO) == Ok(POSITIVE_ZERO)
    ensures TryFrom(NEG_ZERO) == Err(Negative)
    ensures TryFrom(MAX_SUBNORMAL) == Ok(MAX_SUBNORMAL) && TryFrom(MIN_SUBNORMAL) == Ok(MIN_SUBNORMAL)
    ensures TryFrom(NEG_MIN_SUBNORMAL) == Err(Negative) && TryFrom(NEG_MAX_SUBNORMAL) == Err(Negative)
    ensures TryFrom(MAX) == Ok(MAX) && TryFrom(MIN_POSITIVE) == Ok(MIN_POSITIVE)
    ensures TryFrom(NEG_MIN_POSITIVE) == Err(Negative) && TryFrom(MIN) == Err(Negative)
    ensures TryFrom(PI) == Ok(PI) && TryFrom(NEG_PI) == Err(Negative)
  {
  }
}
