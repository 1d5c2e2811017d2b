/** src/types/vec2.rs: a 2-D vector with component-wise and broadcast arithmetic. */
module TypesVec2 {
  import opened Sys

  datatype Vec2 = Vec2(x: real, y: real)

  /** `Vec2::new`. */
  function New(x: real, y: real): (v: Vec2)
    ensures v.x == x && v.y == y
  {
    Vec2(x, y)
  }

  /** `impl From<ManifoldVec2> for Vec2`; there is no conversion back in this file. */
  function FromWire(w: ManifoldVec2): (v: Vec2)
    ensures v.x == w.x && v.y == w.y
  {
    Vec2(w.x, w.y)
  }

  /** `impl Add for Vec2`. */
  function Add(v: Vec2, w: Vec2): Vec2
  {
    New(v.x + w.x, v.y + w.y)
  }

  /** `impl Add<T> for Vec2`. */
  function AddScalar(v: Vec2, s: real): Vec2
  {
    New(v.x + s, v.y + s)
  }

  /** `impl Sub for Vec2`. */
  function Sub(v: Vec2, w: Vec2): Vec2
  {
    New(v.x - w.x, v.y - w.y)
  }

  /** `impl Sub<T> for Vec2`. */
  function SubScalar(v: Vec2, s: real): Vec2
  {
    New(v.x - s, v.y - s)
  }

  /** The conversion copies every field, so no two wire values give the same vector. */
  lemma FromWireInjective(w: ManifoldVec2, w': ManifoldVec2)
    requires FromWire(w) == FromWire(w')
    ensures w == w'
  {
  }

  lemma ComponentWise(v: Vec2, w: Vec2)
    ensures Add(v, w).x == v.x + w.x && Add(v, w).y == v.y + w.y
    ensures Sub(v, w).x == v.x - w.x && Sub(v, w).y == v.y - w.y
    ensures Add(v, w) == Add(w, v)
    ensures Sub(Add(v, w), w) == v
  {
  }

  lemma ScalarBroadcasts(v: Vec2, s: real)
    ensures AddScalar(v, s) == Add(v, New(s, s))
    ensures SubScalar(v, s) == Sub(v, New(s, s))
    ensures SubScalar(AddScalar(v, s), s) == v
  {
  }
}
