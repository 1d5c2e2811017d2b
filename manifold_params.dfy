/**
 * The pure parts of src/manifold.rs: the boolean-operation enum and its kernel code, the
 * validated smoothing and refinement parameters, the plane record and the defaulting of
 * optional constructor arguments.
 */
module ManifoldParams {
  import opened Numeric
  import opened Wrappers
  import TypesPositiveNum

  type PositiveF64 = TypesPositiveNum.PositiveF64
  type PositiveI32 = TypesPositiveNum.PositiveI32

  datatype BooleanOperation = Add | Subtract | Intersect

  /** The values of `ManifoldOpType_MANIFOLD_ADD`, `_SUBTRACT` and `_INTERSECT`. */
  datatype OpTypeCodes = OpTypeCodes(add: u32, subtract: u32, intersect: u32)
  {
    predicate Distinct()
    {
      add != subtract && add != intersect && subtract != intersect
    }
  }

  /** `impl From<BooleanOperation> for ManifoldOpType`. */
  function ToOpType(codes: OpTypeCodes, op: BooleanOperation): (t: u32)
    ensures op == Add ==> t == codes.add
    ensures op == Subtract ==> t == codes.subtract
    ensures op == Intersect ==> t == codes.intersect
  {
    match op
    case Add => codes.add
    case Subtract => codes.subtract
    case Intersect => codes.intersect
  }

  /** With distinct constants, different operations reach the kernel as different codes. */
  lemma {:induction false} ToOpTypeInjective(codes: OpTypeCodes, a: BooleanOperation, b: BooleanOperation)
    requires codes.Distinct()
    ensures ToOpType(codes, a) == ToOpType(codes, b) <==> a == b
  {
    match a
    case Add => {}
    case Subtract => {}
    case Intersect => {}
  }

  // ---------------------------------------------------------------------------------------

  const MIN_SMOOTHNESS: real := 0.0
  const MAX_SMOOTHNESS: real := 1.0

  datatype MinimumSmoothnessError = OutOfBounds(minimum: real, maximum: real, actual: real)

  datatype MinimumSmoothness = MinimumSmoothness(value: real)

  /** `MinimumSmoothness::new`: accepts exactly the closed interval [0.0, 1.0]. */
  function NewMinimumSmoothness(v: real): (r: Result<MinimumSmoothness, MinimumSmoothnessError>)
    ensures r.Ok? <==> 0.0 <= v <= 1.0
    ensures r.Ok? ==> SmoothnessGet(r.value) == v && SmoothnessIntoF64(r.value) == v
    ensures r.Err? ==> r.error == OutOfBounds(0.0, 1.0, v)
  {
    if !(MIN_SMOOTHNESS <= v <= MAX_SMOOTHNESS) then
      Err(OutOfBounds(MIN_SMOOTHNESS, MAX_SMOOTHNESS, v))
    else
      Ok(MinimumSmoothness(v))
  }

  /** `MinimumSmoothness::get`. */
  function SmoothnessGet(s: MinimumSmoothness): real { s.value }

  /** `impl From<MinimumSmoothness> for f64`. */
  function SmoothnessIntoF64(s: MinimumSmoothness): real { SmoothnessGet(s) }

  /** Both ends of the interval are accepted; anything just outside is not. */
  lemma SmoothnessBounds()
    ensures NewMinimumSmoothness(0.0).Ok? && NewMinimumSmoothness(1.0).Ok?
    ensures NewMinimumSmoothness(-0.5) == Err(OutOfBounds(0.0, 1.0, -0.5))
    ensures NewMinimumSmoothness(1.5) == Err(OutOfBounds(0.0, 1.0, 1.5))
  {
  }

  // ---------------------------------------------------------------------------------------

  const MINIMUM_SPLIT_COUNT: i32 := 2

  datatype EdgeSplitCountError = TooSmall(minimum: i32, actual: i32)

  datatype EdgeSplitCount = EdgeSplitCount(count: PositiveI32)

  /** `EdgeSplitCount::new`: rejects counts below 2, comparing through `PartialOrd<i32>`. */
  function NewEdgeSplitCount(num: PositiveI32): (r: Result<EdgeSplitCount, EdgeSplitCountError>)
    ensures r.Err? <==> num.value < 2
    ensures r.Err? ==> r.error == TooSmall(2, num.value)
    ensures r.Ok? ==> EdgeSplitGet(r.value) == num.value && EdgeSplitIntoI32(r.value) == num.value
  {
    TypesPositiveNum.PrimitiveComparisonsAgree(num, MINIMUM_SPLIT_COUNT, TypesPositiveNum.PositiveF64(1.0), 1.0);
    if TypesPositiveNum.LtI32(num, MINIMUM_SPLIT_COUNT) then
      Err(TooSmall(MINIMUM_SPLIT_COUNT, TypesPositiveNum.GetI32(num)))
    else
      Ok(EdgeSplitCount(num))
  }

  /** `EdgeSplitCount::get`. */
  function EdgeSplitGet(e: EdgeSplitCount): i32 { TypesPositiveNum.GetI32(e.count) }

  /** `impl From<EdgeSplitCount> for i32`. */
  function EdgeSplitIntoI32(e: EdgeSplitCount): i32 { EdgeSplitGet(e) }

  /** A validated positive count of 1 is still rejected; 2 is the smallest accepted. */
  lemma EdgeSplitBoundary()
    ensures NewEdgeSplitCount(TypesPositiveNum.PositiveI32(1)) == Err(TooSmall(2, 1))
    ensures NewEdgeSplitCount(TypesPositiveNum.PositiveI32(2)).Ok?
  {
  }

  // ---------------------------------------------------------------------------------------

  datatype Plane = Plane(xNormal: real, yNormal: real, zNormal: real, offset: real)

  /** `Plane::new`. */
  function NewPlane(x: real, y: real, z: real, offset: real): (p: Plane)
    ensures p.xNormal == x && p.yNormal == y && p.zNormal == z && p.offset == offset
  {
    Plane(x, y, z, offset)
  }

  // ---------------------------------------------------------------------------------------

  /** The arguments `new_cylinder` hands to `new_cylinder_unchecked`. */
  datatype CylinderArgs = CylinderArgs(height: real, bottomRadius: real, topRadius: real,
                                       circularSegments: int, originAtCenter: int)

  /** `origin_at_center as c_int`. */
  function BoolToCInt(b: bool): (i: int)
    ensures i == 1 <==> b
    ensures i == 0 <==> !b
  {
    if b then 1 else 0
  }

  /** `circular_segments.map_or(0, |c| c.into().get())`: 0 asks the kernel for its default. */
  function SegmentsOrDefault(segments: Option<PositiveI32>): (n: int)
    ensures segments.None? ==> n == 0
    ensures segments.Some? ==> n == segments.value.value
  {
    match segments
    case None => 0
    case Some(c) => TypesPositiveNum.GetI32(c)
  }

  /** `new_cylinder`: a missing top radius is the bottom radius, missing segments are 0. */
  function CylinderDefaults(height: PositiveF64, bottom: PositiveF64, top: Option<PositiveF64>,
                            segments: Option<PositiveI32>, originAtCenter: bool): (a: CylinderArgs)
    ensures a.height == height.value && a.bottomRadius == bottom.value
    ensures top.None? ==> a.topRadius == bottom.value
    ensures top.Some? ==> a.topRadius == top.value.value
    ensures a.circularSegments == SegmentsOrDefault(segments)
    ensures a.originAtCenter == BoolToCInt(originAtCenter)
  {
    var topRadius := match top case None => bottom case Some(t) => t;
    CylinderArgs(TypesPositiveNum.GetF64(height), TypesPositiveNum.GetF64(bottom),
                 TypesPositiveNum.GetF64(topRadius), SegmentsOrDefault(segments),
                 BoolToCInt(originAtCenter))
  }

  /**
   * `new_sphere`: the segment count defaults to 0; `new_sphere_unchecked` widens it to f64 and
   * casts it back to `c_int`, which returns every i32 value unchanged.
   */
  function SphereSegments(segments: Option<PositiveI32>): (n: int)
    ensures segments.None? ==> n == 0
    ensures segments.Some? ==> n == segments.value.value
  {
    var asF64: real := SegmentsOrDefault(segments) as real;
    F64AsI32OfInteger(SegmentsOrDefault(segments));
    F64AsI32(asF64)
  }
}
