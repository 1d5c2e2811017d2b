/** src/types/vec3.rs: a 3-D vector with component-wise and broadcast arithmetic. */
module TypesVec3 {
  import opened Sys

  datatype Vec3 = Vec3(x: real, y: real, z: real)

  /** `Vec3::new`. */
  function New(x: real, y: real, z: real): (v: Vec3)
    ensures v.x == x && v.y == y && v.z == z
  {
    Vec3(x, y, z)
  }

  /** `impl From<ManifoldVec3> for Vec3`; there is no conversion back in this file. */
  function FromWire(w: ManifoldVec3): (v: Vec3)
    ensures v.x == w.x && v.y == w.y && v.z == w.z
  {
    Vec3(w.x, w.y, w.z)
  }

  /** `impl Add for Vec3`. */
  function Add(v: Vec3, w: Vec3): Vec3
  {
    New(v.x + w.x, v.y + w.y, v.z + w.z)
  }

  /** `impl Add<T> for Vec3`. */
  function AddScalar(v: Vec3, s: real): Vec3
  {
    New(v.x + s, v.y + s, v.z + s)
  }

  /** `impl Sub for Vec3`. */
  function Sub(v: Vec3, w: Vec3): Vec3
  {
    New(v.x - w.x, v.y - w.y, v.z - w.z)
  }

  /** `impl Sub<T> for Vec3`. */
  function SubScalar(v: Vec3, s: real): Vec3
  {
    New(v.x - s, v.y - s, v.z - s)
  }

  /** The conversion copies every field, so no two wire values give the same vector. */
  lemma FromWireInjective(w: ManifoldVec3, w': ManifoldVec3)
    requires FromWire(w) == FromWire(w')
    ensures w == w'
  {
  }

  lemma ComponentWise(v: Vec3, w: Vec3)
    ensures Add(v, w).x == v.x + w.x && Add(v, w).y == v.y + w.y && Add(v, w).z == v.z + w.z
    ensures Sub(v, w).x == v.x - w.x && Sub(v, w).y == v.y - w.y && Sub(v, w).z == v.z - w.z
    ensures Add(v, w) == Add(w, v)
    ensures Sub(Add(v, w), w) == v
  {
  }

  lemma ScalarBroadcasts(v: Vec3, s: real)
    ensures AddScalar(v, s) == Add(v, New(s, s, s))
    ensures SubScalar(v, s) == Sub(v, New(s, s, s))
    ensures SubScalar(AddScalar(v, s), s) == v
  {
  }
}
