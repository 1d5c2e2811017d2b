/** crates/types/src/math/point3.rs: the types crate's 3-D point. */
module MathPoint3 {
  import opened Sys

  datatype Point3 = Point3(x: real, y: real, z: real)

  /** `Point3::new`. */
  function New(x: real, y: real, z: real): (p: Point3)
    ensures p.x == x && p.y == y && p.z == z
  {
    Point3(x, y, z)
  }

  /** `impl From<ManifoldVec3> for Point3`. */
  function FromWire(w: ManifoldVec3): Point3
  {
    Point3(w.x, w.y, w.z)
  }

  /** `impl From<Point3> for ManifoldVec3`. */
  function ToWire(p: Point3): ManifoldVec3
  {
    ManifoldVec3(p.x, p.y, p.z)
  }

  /** `impl Add for Point3`. */
  function Add(p: Point3, q: Point3): Point3
  {
    New(p.x + q.x, p.y + q.y, p.z + q.z)
  }

  /** `impl Add<T> for Point3`. */
  function AddScalar(p: Point3, s: real): Point3
  {
    New(p.x + s, p.y + s, p.z + s)
  }

  /** `impl Sub for Point3`. */
  function Sub(p: Point3, q: Point3): Point3
  {
    New(p.x - q.x, p.y - q.y, p.z - q.z)
  }

  /** `impl Sub<T> for Point3`. */
  function SubScalar(p: Point3, s: real): Point3
  {
    New(p.x - s, p.y - s, p.z - s)
  }

  lemma WireRoundTrip(p: Point3, w: ManifoldVec3)
    ensures FromWire(ToWire(p)) == p
    ensures ToWire(FromWire(w)) == w
  {
  }

  lemma ComponentWise(p: Point3, q: Point3)
    ensures Add(p, q).x == p.x + q.x && Add(p, q).y == p.y + q.y && Add(p, q).z == p.z + q.z
    ensures Sub(p, q).x == p.x - q.x && Sub(p, q).y == p.y - q.y && Sub(p, q).z == p.z - q.z
    ensures Sub(Add(p, q), q) == p
  {
  }

  /** Adding a scalar adds it to every coordinate; `(p + s) - s == p`. */
  lemma ScalarBroadcasts(p: Point3, s: real)
    ensures AddScalar(p, s) == Add(p, New(s, s, s))
    ensures SubScalar(p, s) == Sub(p, New(s, s, s))
    ensures SubScalar(AddScalar(p, s), s) == p
  {
  }
}
