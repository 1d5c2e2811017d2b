/**
 * src/types.rs: the first, single-file version of the binding's value types and validated
 * scalars. Later copies of the same types (the files under src/types and the types crate) diverge from it
 * and are modelled separately.
 */
module Types {
  import opened Numeric
  import opened Wrappers
  import opened Sys

  datatype Vec2 = Vec2(x: real, y: real)
  datatype Vec3 = Vec3(x: real, y: real, z: real)
  datatype Point2 = Point2(x: real, y: real)
  datatype Point3 = Point3(x: real, y: real, z: real)

  /** `impl From<ManifoldVec2> for Vec2`. */
  function Vec2FromWire(w: ManifoldVec2): (v: Vec2)
    ensures v.x == w.x && v.y == w.y
  {
    Vec2(w.x, w.y)
  }

  /** `impl From<ManifoldVec3> for Vec3`. */
  function Vec3FromWire(w: ManifoldVec3): (v: Vec3)
    ensures v.x == w.x && v.y == w.y && v.z == w.z
  {
    Vec3(w.x, w.y, w.z)
  }

  /** `impl From<ManifoldVec2> for Point2`. */
  function Point2FromWire(w: ManifoldVec2): Point2
  {
    Point2(w.x, w.y)
  }

  /** `impl From<Point2> for ManifoldVec2`: the inverse of `Point2FromWire`. */
  function Point2ToWire(p: Point2): (w: ManifoldVec2)
    ensures Point2FromWire(w) == p
  {
    ManifoldVec2(p.x, p.y)
  }

  /** The other direction of the round trip. */
  lemma Point2WireRoundTrip(w: ManifoldVec2)
    ensures Point2ToWire(Point2FromWire(w)) == w
  {
  }

  /** `impl From<ManifoldVec3> for Point3`. */
  function Point3FromWire(w: ManifoldVec3): (p: Point3)
    ensures p.x == w.x && p.y == w.y && p.z == w.z
  {
    Point3(w.x, w.y, w.z)
  }

  /** `Matrix4x3 { rows: [Vec3; 4] }`: always exactly four rows. */
  type Rows = s: seq<Vec3> | |s| == 4 witness [Vec3(0.0, 0.0, 0.0), Vec3(0.0, 0.0, 0.0), Vec3(0.0, 0.0, 0.0), Vec3(0.0, 0.0, 0.0)]

  datatype Matrix4x3 = Matrix4x3(rows: Rows)

  // ---------------------------------------------------------------------------------------
  // PositiveNum<T>, instantiated as PositiveI32 and PositiveF64.

  datatype PositiveNumError = NonPositiveValue

  /**
   * `PositiveNum<i32>`. The tuple field is private in Rust, so the intended invariant
   * `value > 0` is kept by the constructors of this module, not by the type: `Valid` states it,
   * and the unchecked `From` impls below break it.
   */
  datatype PositiveI32 = PositiveI32(value: i32)
  {
    predicate Valid() { value > 0 }
    /** `get`. */
    function Get(): i32 { value }
  }

  datatype PositiveF64 = PositiveF64(value: real)
  {
    predicate Valid() { value > 0.0 }
    function Get(): real { value }
  }

  /** `PositiveNum::<i32>::new`. */
  function NewPositiveI32(v: i32): (r: Result<PositiveI32, PositiveNumError>)
    ensures r.Ok? <==> v > 0
    ensures r.Ok? ==> r.value.Valid() && r.value.Get() == v
    ensures r.Err? ==> r.error == NonPositiveValue
  {
    if !(v > 0) then Err(NonPositiveValue) else Ok(PositiveI32(v))
  }

  /** `PositiveNum::<f64>::new`. */
  function NewPositiveF64(v: real): (r: Result<PositiveF64, PositiveNumError>)
    ensures r.Ok? <==> v > 0.0
    ensures r.Ok? ==> r.value.Valid() && r.value.Get() == v
    ensures r.Err? ==> r.error == NonPositiveValue
  {
    if !(v > 0.0) then Err(NonPositiveValue) else Ok(PositiveF64(v))
  }

  /** `impl From<u8>` and `impl From<u16> for PositiveI32`: wraps the widened value unchecked. */
  function PositiveI32FromUnsigned(v: u16): (p: PositiveI32)
    ensures p.Get() == v
  {
    PositiveI32(v)
  }

  /** `impl From<u8>`, `From<u16>` and `From<u32> for PositiveF64`: wraps unchecked. */
  function PositiveF64FromUnsigned(v: u32): (p: PositiveF64)
    ensures p.Get() == v as real
  {
    PositiveF64(v as real)
  }

  /** The unchecked conversions accept 0 and so build a `PositiveNum` holding 0. */
  lemma UncheckedFromBreaksInvariant()
    ensures PositiveI32FromUnsigned(0).Get() == 0 && !PositiveI32FromUnsigned(0).Valid()
    ensures PositiveF64FromUnsigned(0).Get() == 0.0 && !PositiveF64FromUnsigned(0).Valid()
    ensures NewPositiveI32(0).Err? && NewPositiveF64(0.0).Err?
  {
  }

  /** `impl TryFrom<i8 | i16 | i32> for PositiveI32`: the widened value goes through `new`. */
  function PositiveI32TryFrom(v: i32): (r: Result<PositiveI32, PositiveNumError>)
    ensures r == NewPositiveI32(v)
    ensures r.Ok? <==> v > 0
  {
    NewPositiveI32(v)
  }

  /** `impl TryFrom<i8 | i16 | i32 | f32 | f64> for PositiveF64`: through `new`. */
  function PositiveF64TryFrom(v: real): (r: Result<PositiveF64, PositiveNumError>)
    ensures r == NewPositiveF64(v)
    ensures r.Ok? <==> v > 0.0
  {
    NewPositiveF64(v)
  }

  /** Everything `new` and `try_from` return satisfies the invariant and keeps the value. */
  lemma CheckedConstructionKeepsInvariant(i: i32, f: real)
    ensures PositiveI32TryFrom(i).Ok? ==> PositiveI32TryFrom(i).value.Valid() && PositiveI32TryFrom(i).value.Get() == i
    ensures PositiveF64TryFrom(f).Ok? ==> PositiveF64TryFrom(f).value.Valid() && PositiveF64TryFrom(f).value.Get() == f
  {
  }

  // ---------------------------------------------------------------------------------------
  // NormalizedAngle.

  /** An angle in degrees; the doc comment on the Rust struct promises [-360.0, 360.0]. */
  datatype NormalizedAngle = NormalizedAngle(degrees: real)

  /** `normalize` as written: `v % 360`, and for a negative remainder `360 - remainder`. */
  function Normalize(v: real): real
  {
    var r := Rem360(v);
    if r < 0.0 then 360.0 - r else r
  }

  /** `from_degrees`. */
  function FromDegrees(v: real): (a: NormalizedAngle)
    ensures a.degrees == Normalize(v)
  {
    NormalizedAngle(Normalize(v))
  }

  /** `as_degrees`. */
  function AsDegrees(a: NormalizedAngle): real
  {
    a.degrees
  }

  /** For v >= 0, `normalize` is the truncated remainder, lies in [0, 360), and fixes [0, 360). */
  lemma NormalizeNonNegative(v: real)
    requires v >= 0.0
    ensures Normalize(v) == Rem360(v)
    ensures 0.0 <= Normalize(v) < 360.0
    ensures v < 360.0 ==> Normalize(v) == v
  {
    Rem360Range(v);
    if v < 360.0 {
      Rem360OfSmall(v);
    }
  }

  /**
   * For v < 0 with a non-zero remainder r, `normalize` returns 360 - r, which lies in
   * (360, 720): outside [0, 360) and outside the documented [-360, 360].
   */
  lemma NormalizeNegativeEscapesRange(v: real)
    requires v < 0.0 && Rem360(v) != 0.0
    ensures Normalize(v) == 360.0 - Rem360(v)
    ensures 360.0 < Normalize(v) < 720.0
  {
    Rem360Range(v);
  }

  /** A concrete witness: -90 degrees normalises to 450 rather than 270. */
  lemma NormalizeMinus90()
    ensures Normalize(-90.0) == 450.0
  {
    assert Trunc(-90.0 / 360.0) == 0;
  }

  /** `normalize` with the sign evidently intended: `360 + r` for a negative remainder r. */
  function NormalizeCorrected(v: real): real
  {
    var r := Rem360(v);
    if r < 0.0 then 360.0 + r else r
  }

  /** The corrected rule maps every input into [0, 360) and fixes that interval. */
  lemma NormalizeCorrectedRange(v: real)
    ensures 0.0 <= NormalizeCorrected(v) < 360.0
    ensures 0.0 <= v < 360.0 ==> NormalizeCorrected(v) == v
    ensures NormalizeCorrected(-90.0) == 270.0
  {
    Rem360Range(v);
    if 0.0 <= v < 360.0 {
      Rem360OfSmall(v);
    }
    assert Trunc(-90.0 / 360.0) == 0;
  }

  /** `impl From<PositiveNum<T>> for NormalizedAngle`: `value % 360`, no negative branch. */
  function AngleFromPositive(p: PositiveF64): (a: NormalizedAngle)
    requires p.value >= 0.0
    ensures 0.0 <= a.degrees < 360.0
  {
    Rem360Range(p.Get());
    NormalizedAngle(Rem360(p.Get()))
  }

  /** `impl Add for NormalizedAngle`. */
  function Add(a: NormalizedAngle, b: NormalizedAngle): (r: NormalizedAngle)
    ensures r == FromDegrees(a.degrees + b.degrees)
    ensures a.degrees + b.degrees >= 0.0 ==> 0.0 <= r.degrees < 360.0
  {
    Rem360Range(a.degrees + b.degrees);
    FromDegrees(a.degrees + b.degrees)
  }

  /** `impl Sub for NormalizedAngle`. */
  function Sub(a: NormalizedAngle, b: NormalizedAngle): (r: NormalizedAngle)
    ensures r == FromDegrees(a.degrees - b.degrees)
    ensures a.degrees - b.degrees >= 0.0 ==> 0.0 <= r.degrees < 360.0
  {
    Rem360Range(a.degrees - b.degrees);
    FromDegrees(a.degrees - b.degrees)
  }

  /** A place holding an angle: the `&mut self` receiver of the assign operators. */
  class AngleVar {
    var angle: NormalizedAngle

    constructor (a: NormalizedAngle)
      ensures angle == a
    {
      angle := a;
    }

    /** `impl AddAssign`: overwrites the field with `normalize(self + rhs)`, in place. */
    method AddAssign(rhs: NormalizedAngle)
      modifies this
      ensures angle == Add(old(angle), rhs)
      ensures old(angle).degrees + rhs.degrees >= 0.0 ==> 0.0 <= angle.degrees < 360.0
    {
      angle := angle.(degrees := Normalize(angle.degrees + rhs.degrees));
    }

    /** `impl SubAssign`: overwrites the field with `normalize(self - rhs)`, in place. */
    method SubAssign(rhs: NormalizedAngle)
      modifies this
      ensures angle == Sub(old(angle), rhs)
      ensures old(angle).degrees - rhs.degrees >= 0.0 ==> 0.0 <= angle.degrees < 360.0
    {
      angle := angle.(degrees := Normalize(angle.degrees - rhs.degrees));
    }
  }
}
