/**
 * src/types/positive_num.rs: the second copy of `PositiveNum`, where every conversion from a
 * primitive, the unsigned ones included, is validated, and which compares against primitives.
 */
module TypesPositiveNum {
  import opened Numeric
  import opened Wrappers

  datatype PositiveNumError = NonPositiveValue

  datatype Ordering = Less | Equal | Greater

  /** `PositiveNum<i32>`; `Valid` is the invariant the private field is meant to keep. */
  datatype PositiveI32 = PositiveI32(value: i32)
  {
    predicate Valid() { value > 0 }
  }

  /** `PositiveNum<f64>`. */
  datatype PositiveF64 = PositiveF64(value: real)
  {
    predicate Valid() { value > 0.0 }
  }

  /** `PositiveNum::<i32>::new`. */
  function NewI32(v: i32): (r: Result<PositiveI32, PositiveNumError>)
    ensures r.Ok? <==> v > 0
    ensures r.Ok? ==> r.value.Valid() && GetI32(r.value) == v
    ensures r.Err? ==> r.error == NonPositiveValue
  {
    if !(v > 0) then Err(NonPositiveValue) else Ok(PositiveI32(v))
  }

  /** `PositiveNum::<f64>::new`. */
  function NewF64(v: real): (r: Result<PositiveF64, PositiveNumError>)
    ensures r.Ok? <==> v > 0.0
    ensures r.Ok? ==> r.value.Valid() && GetF64(r.value) == v
    ensures r.Err? ==> r.error == NonPositiveValue
  {
    if !(v > 0.0) then Err(NonPositiveValue) else Ok(PositiveF64(v))
  }

  /** `get`, and `Into<i32>`, which calls it. */
  function GetI32(p: PositiveI32): i32 { p.value }

  function GetF64(p: PositiveF64): real { p.value }

  /**
   * `TryFrom<u8 | u16 | i8 | i16 | i32> for PositiveI32`: every source type converts to i32
   * without loss, then goes through `new`; the argument is that widened value.
   */
  function TryFromI32(v: i32): (r: Result<PositiveI32, PositiveNumError>)
    ensures r == NewI32(v)
  {
    NewI32(v)
  }

  /** `TryFrom<u8 | u16 | u32 | i8 | i16 | i32 | f32 | f64> for PositiveF64`, through `new`. */
  function TryFromF64(v: real): (r: Result<PositiveF64, PositiveNumError>)
    ensures r == NewF64(v)
  {
    NewF64(v)
  }

  /** Unlike the first copy of this type, converting an unsigned 0 fails. */
  lemma TryFromZeroFails(u: u16, w: u32)
    ensures TryFromI32(u).Ok? <==> u != 0
    ensures TryFromF64(w as real).Ok? <==> w != 0
    ensures TryFromI32(0) == Err(NonPositiveValue) && TryFromF64(0.0) == Err(NonPositiveValue)
  {
  }

  /** `PartialEq<prim> for PositiveI32`: the primitive is cast to i32 (losslessly) first. */
  function EqI32(p: PositiveI32, other: i32): bool
  {
    GetI32(p) == other
  }

  /** `PartialEq<prim> for PositiveF64`: every listed primitive casts to f64 exactly. */
  function EqF64(p: PositiveF64, other: real): bool
  {
    GetF64(p) == other
  }

  /** Three-way comparison of two integers, as `Ord::cmp` and `partial_cmp` on i32. */
  function CompareInt(a: int, b: int): (o: Ordering)
    ensures o == Less <==> a < b
    ensures o == Equal <==> a == b
    ensures o == Greater <==> a > b
  {
    if a < b then Less else if a == b then Equal else Greater
  }

  /** `partial_cmp` on f64, without the NaN case that makes it partial. */
  function CompareReal(a: real, b: real): (o: Ordering)
    ensures o == Less <==> a < b
    ensures o == Equal <==> a == b
    ensures o == Greater <==> a > b
  {
    if a < b then Less else if a == b then Equal else Greater
  }

  /** `PartialOrd<prim> for PositiveI32`: orders `get()` against the cast primitive. */
  function PartialCmpI32(p: PositiveI32, other: i32): Option<Ordering>
  {
    Some(CompareInt(GetI32(p), other))
  }

  /** `PartialOrd<prim> for PositiveF64`. */
  function PartialCmpF64(p: PositiveF64, other: real): Option<Ordering>
  {
    Some(CompareReal(GetF64(p), other))
  }

  /** `p < other` as Rust derives it from `partial_cmp`. */
  function LtI32(p: PositiveI32, other: i32): bool
  {
    PartialCmpI32(p, other) == Some(Less)
  }

  /** The comparisons against a primitive agree with the wrapped value and with each other. */
  lemma PrimitiveComparisonsAgree(p: PositiveI32, other: i32, q: PositiveF64, r: real)
    ensures EqI32(p, other) <==> p.value == other
    ensures EqI32(p, other) <==> PartialCmpI32(p, other) == Some(Equal)
    ensures LtI32(p, other) <==> p.value < other
    ensures EqF64(q, r) <==> PartialCmpF64(q, r) == Some(Equal)
    ensures PartialCmpF64(q, r) == Some(Less) <==> q.value < r
  {
  }

  /** Derived `Ord` between two `PositiveI32`s: the order of the wrapped values. */
  function CmpI32(a: PositiveI32, b: PositiveI32): Ordering
  {
    CompareInt(a.value, b.value)
  }

  /** The derived order is a total order that is consistent with equality. */
  lemma DerivedOrdIsTotalOrder(a: PositiveI32, b: PositiveI32, c: PositiveI32)
    ensures CmpI32(a, b) == Equal <==> a == b
    ensures CmpI32(a, b) == Less <==> CmpI32(b, a) == Greater
    ensures CmpI32(a, b) == Less && CmpI32(b, c) == Less ==> CmpI32(a, c) == Less
  {
  }
}
