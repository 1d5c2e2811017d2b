/** crates/types/src/math/non_negative_num.rs: a wrapper meant to hold only values >= 0. */
module MathNonNegativeNum {
  import opened Numeric
  import opened Wrappers

  /** The only rejection variant keeps the name of the positive-number error it was copied from. */
  datatype NonNegativeNumError = NonPositiveValue

  datatype NonNegativeI32 = NonNegativeI32(value: i32)
  {
    predicate Valid() { value >= 0 }
  }

  datatype NonNegativeF64 = NonNegativeF64(value: real)
  {
    predicate Valid() { value >= 0.0 }
  }

  /** `NonNegativeNum::<i32>::new`: accepts 0. */
  function NewI32(v: i32): (r: Result<NonNegativeI32, NonNegativeNumError>)
    ensures r.Ok? <==> v >= 0
    ensures r.Ok? ==> r.value.Valid() && GetI32(r.value) == v
    ensures r.Err? ==> r.error == NonPositiveValue
  {
    if !(v >= 0) then Err(NonPositiveValue) else Ok(NonNegativeI32(v))
  }

  /** `NonNegativeNum::<f64>::new`. */
  function NewF64(v: real): (r: Result<NonNegativeF64, NonNegativeNumError>)
    ensures r.Ok? <==> v >= 0.0
    ensures r.Ok? ==> r.value.Valid() && GetF64(r.value) == v
    ensures r.Err? ==> r.error == NonPositiveValue
  {
    if !(v >= 0.0) then Err(NonPositiveValue) else Ok(NonNegativeF64(v))
  }

  /** `get` and `Into<i32>`. */
  function GetI32(p: NonNegativeI32): i32 { p.value }

  /** `get` and `Into<f64>`. */
  function GetF64(p: NonNegativeF64): real { p.value }

  /** `From<u8 | u16> for NonNegativeI32`: unchecked, and safe because unsigned values are >= 0. */
  function FromUnsignedI32(v: u16): (p: NonNegativeI32)
    ensures p.Valid() && GetI32(p) == v
  {
    NonNegativeI32(v)
  }

  /** `From<u8 | u16 | u32> for NonNegativeF64`: unchecked and safe. */
  function FromUnsignedF64(v: u32): (p: NonNegativeF64)
    ensures p.Valid() && GetF64(p) == v as real
  {
    NonNegativeF64(v as real)
  }

  /** `TryFrom<i8 | i16 | i32> for NonNegativeI32`, through `new`. */
  function TryFromI32(v: i32): (r: Result<NonNegativeI32, NonNegativeNumError>)
    ensures r == NewI32(v)
  {
    NewI32(v)
  }

  /** `TryFrom<i8 | i16 | i32 | f32 | f64> for NonNegativeF64`, through `new`. */
  function TryFromF64(v: real): (r: Result<NonNegativeF64, NonNegativeNumError>)
    ensures r == NewF64(v)
  {
    NewF64(v)
  }

  /** The unchecked and the checked conversions agree wherever both apply. */
  lemma UncheckedAgreesWithChecked(u: u16, w: u32)
    ensures TryFromI32(u) == Ok(FromUnsignedI32(u))
    ensures TryFromF64(w as real) == Ok(FromUnsignedF64(w))
    ensures TryFromI32(0).Ok? && TryFromI32(-1) == Err(NonPositiveValue)
  {
  }
}
