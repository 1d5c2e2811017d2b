/** src/types/point2.rs: a 2-D point with component-wise and broadcast arithmetic. */
module TypesPoint2 {
  import opened Sys

  datatype Point2 = Point2(x: real, y: real)

  /** `Point2::new`. */
  function New(x: real, y: real): (p: Point2)
    ensures p.x == x && p.y == y
  {
    Point2(x, y)
  }

  /** `impl From<ManifoldVec2> for Point2`. */
  function FromWire(w: ManifoldVec2): Point2
  {
    Point2(w.x, w.y)
  }

  /** `impl From<Point2> for ManifoldVec2`. */
  function ToWire(p: Point2): ManifoldVec2
  {
    ManifoldVec2(p.x, p.y)
  }

  /** `impl Add for Point2`. */
  function Add(p: Point2, q: Point2): Point2
  {
    New(p.x + q.x, p.y + q.y)
  }

  /** `impl Add<T> for Point2`: the scalar is widened to f64 and added to both fields. */
  function AddScalar(p: Point2, s: real): Point2
  {
    New(p.x + s, p.y + s)
  }

  /** `impl Sub for Point2`. */
  function Sub(p: Point2, q: Point2): Point2
  {
    New(p.x - q.x, p.y - q.y)
  }

  /** `impl Sub<T> for Point2`. */
  function SubScalar(p: Point2, s: real): Point2
  {
    New(p.x - s, p.y - s)
  }

  /** Both conversions copy the fields, so each undoes the other. */
  lemma WireRoundTrip(p: Point2, w: ManifoldVec2)
    ensures FromWire(ToWire(p)) == p
    ensures ToWire(FromWire(w)) == w
    ensures FromWire(w).x == w.x && FromWire(w).y == w.y
  {
  }

  /** Addition and subtraction work field by field. */
  lemma ComponentWise(p: Point2, q: Point2)
    ensures Add(p, q).x == p.x + q.x && Add(p, q).y == p.y + q.y
    ensures Sub(p, q).x == p.x - q.x && Sub(p, q).y == p.y - q.y
    ensures Add(p, q) == Add(q, p)
    ensures Sub(Add(p, q), q) == p
  {
  }

  /** A scalar operand acts as the point (s, s); the scalar forms undo each other. */
  lemma ScalarBroadcasts(p: Point2, s: real)
    ensures AddScalar(p, s) == Add(p, New(s, s))
    ensures SubScalar(p, s) == Sub(p, New(s, s))
    ensures SubScalar(AddScalar(p, s), s) == p
  {
  }
}
