/**
 * Rust's fixed-width integers as subset types of `int`, and the `%` operator of `f64`.
 * An `f64` is modelled as a `real`: rounding, NaN, the infinities and `-0.0` are not modelled.
 */
module Numeric {

  type u8 = x: int | 0 <= x < 0x100
  type u16 = x: int | 0 <= x < 0x1_0000
  type u32 = x: int | 0 <= x < 0x1_0000_0000
  type i8 = x: int | -0x80 <= x < 0x80
  type i16 = x: int | -0x8000 <= x < 0x8000
  type i32 = x: int | -0x8000_0000 <= x < 0x8000_0000

  const U64_LIMIT: int := 0x1_0000_0000_0000_0000
  type u64 = x: int | 0 <= x < U64_LIMIT

  /** `usize::MAX` and `isize::MAX` on a 64-bit target. */
  const USIZE_MAX: int := U64_LIMIT - 1
  const ISIZE_MAX: int := 0x7fff_ffff_ffff_ffff

  const I32_MIN: int := -0x8000_0000
  const I32_MAX: int := 0x7fff_ffff

  /** Truncation of a real toward zero (the integer part that Rust's `%` removes). */
  function Trunc(x: real): (t: int)
    ensures 0.0 <= x ==> t as real <= x < t as real + 1.0
    ensures x < 0.0 ==> t as real - 1.0 < x <= t as real
  {
    if x >= 0.0 then x.Floor else -((-x).Floor)
  }

  /** `x as i32` on an `f64`: truncation toward zero, saturating at the bounds of `i32`. */
  function F64AsI32(x: real): (n: i32)
    ensures I32_MIN <= Trunc(x) <= I32_MAX ==> n == Trunc(x)
    ensures Trunc(x) > I32_MAX ==> n == I32_MAX
    ensures Trunc(x) < I32_MIN ==> n == I32_MIN
  {
    var t := Trunc(x);
    if t > I32_MAX then I32_MAX else if t < I32_MIN then I32_MIN else t
  }

  /** Integers survive the widening to `f64` and the cast back. */
  lemma F64AsI32OfInteger(n: i32)
    ensures F64AsI32(n as real) == n
  {
    assert Trunc(n as real) == n;
  }

  /**
   * `x % 360.0` on `f64`: the truncated remainder `x - 360 * trunc(x / 360)`, which has the
   * sign of `x` (unlike Dafny's Euclidean `%`, whose remainder is never negative).
   */
  function Rem360(x: real): real
  {
    x - 360.0 * (Trunc(x / 360.0) as real)
  }

  /** The remainder has the sign of the dividend and is smaller than 360 in magnitude. */
  lemma Rem360Range(x: real)
    ensures 0.0 <= x ==> 0.0 <= Rem360(x) < 360.0
    ensures x < 0.0 ==> -360.0 < Rem360(x) <= 0.0
  {
    var t := Trunc(x / 360.0);
    if 0.0 <= x {
      assert t as real <= x / 360.0 < t as real + 1.0;
    } else {
      assert t as real - 1.0 < x / 360.0 <= t as real;
    }
  }

  /** A value already in [0, 360) is its own remainder. */
  lemma Rem360OfSmall(x: real)
    requires 0.0 <= x < 360.0
    ensures Rem360(x) == x
  {
    assert 0.0 <= x / 360.0 < 1.0;
    assert Trunc(x / 360.0) == 0;
  }
}
