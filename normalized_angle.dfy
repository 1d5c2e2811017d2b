/**
 * crates/types/src/math/normalized_angle.rs: the types crate's copy of `NormalizedAngle`, which
 * adds `get` and `Into<f64>` to the first copy and keeps its `normalize`.
 */
module MathNormalizedAngle {
  import opened Numeric
  import TypesPositiveNum
  import Types

  /** Documented as degrees in [-360.0, 360.0]. */
  datatype NormalizedAngle = NormalizedAngle(degrees: real)

  /** `normalize`: `v % 360`, then `360 - remainder` when the remainder is negative. */
  function Normalize(v: real): real
  {
    var r := Rem360(v);
    if r < 0.0 then 360.0 - r else r
  }

  /** `from_degrees`. */
  function FromDegrees(v: real): (a: NormalizedAngle)
    ensures a.degrees == Normalize(v)
  {
    NormalizedAngle(Normalize(v))
  }

  /** `as_degrees`. */
  function AsDegrees(a: NormalizedAngle): real { a.degrees }

  /** `get`. */
  function Get(a: NormalizedAngle): real { a.degrees }

  /** `Into<f64>`, which calls `get`. */
  function Into(a: NormalizedAngle): real { Get(a) }

  /** The three accessors return the same stored value. */
  lemma AccessorsAgree(a: NormalizedAngle, v: real)
    ensures AsDegrees(a) == Get(a) == Into(a) == a.degrees
    ensures Get(FromDegrees(v)) == Normalize(v)
  {
  }

  /** This copy computes exactly what the first copy in src/types.rs computes. */
  lemma AgreesWithFirstCopy(v: real)
    ensures Normalize(v) == Types.Normalize(v)
  {
  }

  /** For v >= 0 the result is in [0, 360). */
  lemma NormalizeNonNegative(v: real)
    requires v >= 0.0
    ensures 0.0 <= Normalize(v) < 360.0
  {
    Rem360Range(v);
  }

  /** For v < 0 with a non-zero remainder the result is in (360, 720), outside the documented range. */
  lemma NormalizeNegativeEscapesRange(v: real)
    requires v < 0.0 && Rem360(v) != 0.0
    ensures 360.0 < Normalize(v) < 720.0
  {
    Rem360Range(v);
  }

  /** `normalize` is idempotent on non-negative inputs. */
  lemma NormalizeIdempotentOnNonNegative(v: real)
    requires v >= 0.0
    ensures Normalize(Normalize(v)) == Normalize(v)
  {
    NormalizeNonNegative(v);
    Rem360OfSmall(Normalize(v));
  }

  /**
   * For a negative v with a non-zero remainder r, re-normalising 360 - r yields -r: the value
   * changes, so `normalize` is not idempotent there.
   */
  lemma NormalizeNotIdempotentOnNegative(v: real)
    requires v < 0.0 && Rem360(v) != 0.0
    ensures Normalize(Normalize(v)) == -Rem360(v)
    ensures Normalize(Normalize(v)) != Normalize(v)
  {
    var r := Rem360(v);
    Rem360Range(v);
    var n := 360.0 - r;
    assert Trunc(n / 360.0) == 1 by {
      assert 1.0 < n / 360.0 < 2.0;
    }
    assert Rem360(n) == -r;
  }

  /** `From<PositiveNum<T>>`: `value % 360` with no negative branch, so always in [0, 360). */
  function FromPositive(p: TypesPositiveNum.PositiveF64): (a: NormalizedAngle)
    requires p.value >= 0.0
    ensures 0.0 <= a.degrees < 360.0
    ensures p.value < 360.0 ==> a.degrees == p.value
  {
    Rem360Range(p.value);
    assert p.value < 360.0 ==> Rem360(p.value) == p.value by {
      if p.value < 360.0 {
        Rem360OfSmall(p.value);
      }
    }
    NormalizedAngle(Rem360(TypesPositiveNum.GetF64(p)))
  }

  /** `impl Add`: `from_degrees(a + b)`; for a non-negative sum the result is in [0, 360). */
  function Add(a: NormalizedAngle, b: NormalizedAngle): (r: NormalizedAngle)
    ensures r == FromDegrees(a.degrees + b.degrees)
    ensures a.degrees + b.degrees >= 0.0 ==> 0.0 <= r.degrees < 360.0
  {
    Rem360Range(a.degrees + b.degrees);
    FromDegrees(a.degrees + b.degrees)
  }

  /** `impl Sub`: `from_degrees(a - b)`. */
  function Sub(a: NormalizedAngle, b: NormalizedAngle): (r: NormalizedAngle)
    ensures r == FromDegrees(a.degrees - b.degrees)
    ensures a.degrees - b.degrees >= 0.0 ==> 0.0 <= r.degrees < 360.0
  {
    Rem360Range(a.degrees - b.degrees);
    FromDegrees(a.degrees - b.degrees)
  }

  /** A place holding an angle: the `&mut self` receiver of the assign operators. */
  class AngleVar {
    var angle: NormalizedAngle

    constructor (a: NormalizedAngle)
      ensures angle == a
    {
      angle := a;
    }

    /** `impl AddAssign`: overwrites the field with `normalize(self + rhs)`, in place. */
    method AddAssign(rhs: NormalizedAngle)
      modifies this
      ensures angle == Add(old(angle), rhs)
      ensures old(angle).degrees + rhs.degrees >= 0.0 ==> 0.0 <= angle.degrees < 360.0
    {
      angle := angle.(degrees := Normalize(angle.degrees + rhs.degrees));
    }

    /** `impl SubAssign`: overwrites the field with `normalize(self - rhs)`, in place. */
    method SubAssign(rhs: NormalizedAngle)
      modifies this
      ensures angle == Sub(old(angle), rhs)
      ensures old(angle).degrees - rhs.degrees >= 0.0 ==> 0.0 <= angle.degrees < 360.0
    {
      angle := angle.(degrees := Normalize(angle.degrees - rhs.degrees));
    }
  }
}
