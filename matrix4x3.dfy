/**
 * The two copies of `Matrix4x3`: src/types/matrix4x3.rs (module TypesMatrix4x3) and
 * crates/types/src/math/matrix4x3.rs (module MathMatrix4x3). Both are four `Vec3` rows; the
 * optional conversion reads the twelve entries `m11 .. m43` of an external 4x3 matrix.
 */
module TypesMatrix4x3 {
  import TypesVec3

  type Vec3 = TypesVec3.Vec3

  /** `[Vec3; 4]`. */
  type Rows = s: seq<Vec3> | |s| == 4
    witness [TypesVec3.Vec3(0.0, 0.0, 0.0), TypesVec3.Vec3(0.0, 0.0, 0.0),
             TypesVec3.Vec3(0.0, 0.0, 0.0), TypesVec3.Vec3(0.0, 0.0, 0.0)]

  datatype Matrix4x3 = Matrix4x3(rows: Rows)

  /** The entries of an external 4x3 matrix, named as row-then-column. */
  datatype Entries = Entries(m11: real, m12: real, m13: real,
                             m21: real, m22: real, m23: real,
                             m31: real, m32: real, m33: real,
                             m41: real, m42: real, m43: real)

  /** `Matrix4x3::new`. */
  function New(rows: Rows): (m: Matrix4x3)
    ensures m.rows == rows && |m.rows| == 4
  {
    Matrix4x3(rows)
  }

  /** Entry (i, j), 1-based, of the external matrix. */
  function Entry(e: Entries, i: int, j: int): real
    requires 1 <= i <= 4 && 1 <= j <= 3
  {
    match (i, j)
    case (1, 1) => e.m11 case (1, 2) => e.m12 case (1, 3) => e.m13
    case (2, 1) => e.m21 case (2, 2) => e.m22 case (2, 3) => e.m23
    case (3, 1) => e.m31 case (3, 2) => e.m32 case (3, 3) => e.m33
    case (4, 1) => e.m41 case (4, 2) => e.m42 case _ => e.m43
  }

  /** The feature-gated conversion from an external 4x3 matrix: row i is (m_i1, m_i2, m_i3). */
  function FromEntries(e: Entries): (m: Matrix4x3)
    ensures forall i, j :: 1 <= i <= 4 && 1 <= j <= 3 ==>
      (if j == 1 then m.rows[i - 1].x else if j == 2 then m.rows[i - 1].y else m.rows[i - 1].z) == Entry(e, i, j)
  {
    Matrix4x3([TypesVec3.Vec3(e.m11, e.m12, e.m13), TypesVec3.Vec3(e.m21, e.m22, e.m23),
               TypesVec3.Vec3(e.m31, e.m32, e.m33), TypesVec3.Vec3(e.m41, e.m42, e.m43)])
  }

  /** Derived `PartialEq`: two matrices are equal iff their four rows agree field by field. */
  lemma EqualityIsRowWise(a: Matrix4x3, b: Matrix4x3)
    ensures a == b <==> forall i :: 0 <= i < 4 ==>
      a.rows[i].x == b.rows[i].x && a.rows[i].y == b.rows[i].y && a.rows[i].z == b.rows[i].z
  {
    if forall i :: 0 <= i < 4 ==>
      a.rows[i].x == b.rows[i].x && a.rows[i].y == b.rows[i].y && a.rows[i].z == b.rows[i].z
    {
      assert forall i :: 0 <= i < 4 ==> a.rows[i] == b.rows[i];
      assert a.rows == b.rows;
    }
  }
}

module MathMatrix4x3 {

  /** The types crate's own `math::Vec3`, whose file is not part of this model: three fields. */
  datatype Vec3 = Vec3(x: real, y: real, z: real)

  type Rows = s: seq<Vec3> | |s| == 4
    witness [Vec3(0.0, 0.0, 0.0), Vec3(0.0, 0.0, 0.0), Vec3(0.0, 0.0, 0.0), Vec3(0.0, 0.0, 0.0)]

  datatype Matrix4x3 = Matrix4x3(rows: Rows)

  datatype Entries = Entries(m11: real, m12: real, m13: real,
                             m21: real, m22: real, m23: real,
                             m31: real, m32: real, m33: real,
                             m41: real, m42: real, m43: real)

  /** `Matrix4x3::new`. */
  function New(rows: Rows): (m: Matrix4x3)
    ensures m.rows == rows && |m.rows| == 4
  {
    Matrix4x3(rows)
  }

  /** The feature-gated conversion, row by row without transposition. */
  function FromEntries(e: Entries): (m: Matrix4x3)
    ensures m.rows[0] == Vec3(e.m11, e.m12, e.m13) && m.rows[1] == Vec3(e.m21, e.m22, e.m23)
    ensures m.rows[2] == Vec3(e.m31, e.m32, e.m33) && m.rows[3] == Vec3(e.m41, e.m42, e.m43)
  {
    Matrix4x3([Vec3(e.m11, e.m12, e.m13), Vec3(e.m21, e.m22, e.m23),
               Vec3(e.m31, e.m32, e.m33), Vec3(e.m41, e.m42, e.m43)])
  }

  /** Distinct external matrices give distinct results: the conversion loses no entry. */
  lemma FromEntriesInjective(e: Entries, f: Entries)
    requires FromEntries(e) == FromEntries(f)
    ensures e == f
  {
    assert FromEntries(e).rows[0] == FromEntries(f).rows[0];
    assert FromEntries(e).rows[1] == FromEntries(f).rows[1];
    assert FromEntries(e).rows[2] == FromEntries(f).rows[2];
    assert FromEntries(e).rows[3] == FromEntries(f).rows[3];
  }

  lemma EqualityIsRowWise(a: Matrix4x3, b: Matrix4x3)
    ensures a == b <==> forall i :: 0 <= i < 4 ==>
      a.rows[i].x == b.rows[i].x && a.rows[i].y == b.rows[i].y && a.rows[i].z == b.rows[i].z
  {
    if forall i :: 0 <= i < 4 ==>
      a.rows[i].x == b.rows[i].x && a.rows[i].y == b.rows[i].y && a.rows[i].z == b.rows[i].z
    {
      assert forall i :: 0 <= i < 4 ==> a.rows[i] == b.rows[i];
      assert a.rows == b.rows;
    }
  }
}
