/** src/bounding_box.rs: an owned handle to a kernel axis-aligned box. */
module BoundingBoxes {
  import opened Numeric
  import opened Sys
  import opened KernelHeap
  import ManifoldErrors
  import ManifoldParams
  import MathPoint3
  import TypesVec3
  import TypesMatrix4x3

  // src/types declares no `point3`; the copy of crates/types/src/math/point3.rs stands in.
  type Point3 = MathPoint3.Point3
  type Vec3 = TypesVec3.Vec3
  type Matrix4x3 = TypesMatrix4x3.Matrix4x3

  /** The twelve entries of a matrix in the order `transform` passes them: row by row. */
  function MatrixArgs(m: Matrix4x3): (args: seq<Arg>)
    ensures |args| == 12 && forall i :: 0 <= i < 12 ==> args[i].Real?
    ensures forall i :: 0 <= i < 4 ==>
      args[3 * i] == Real(m.rows[i].x) && args[3 * i + 1] == Real(m.rows[i].y) && args[3 * i + 2] == Real(m.rows[i].z)
  {
    [Real(m.rows[0].x), Real(m.rows[0].y), Real(m.rows[0].z),
     Real(m.rows[1].x), Real(m.rows[1].y), Real(m.rows[1].z),
     Real(m.rows[2].x), Real(m.rows[2].y), Real(m.rows[2].z),
     Real(m.rows[3].x), Real(m.rows[3].y), Real(m.rows[3].z)]
  }

  /** The answer `overlaps_point` computes as written: a query on a fresh, unfilled box `newBox`. */
  function OverlapsPointAsWritten(k: Kernel, newBox: Ptr, pt: Point3): bool
  {
    k.intResult(Query(Call(BoxDoesOverlapPt, [Obj(newBox), Real(pt.x), Real(pt.y), Real(pt.z)]),
                      [Uninit, NoRead, NoRead, NoRead])) == 1
  }

  /** The answer evidently intended: the same query on the box that `self` holds. */
  function OverlapsPointIntended(k: Kernel, self: Ptr, content: Value, pt: Point3): bool
  {
    k.intResult(Query(Call(BoxDoesOverlapPt, [Obj(self), Real(pt.x), Real(pt.y), Real(pt.z)]),
                      [content, NoRead, NoRead, NoRead])) == 1
  }

  /** A kernel that reports an overlap for every box except an unfilled one. */
  function OverlapUnlessUninit(): Kernel
  {
    Kernel(ManifoldErrors.ErrorCodes((e: ManifoldErrors.Error) => 0), ManifoldParams.OpTypeCodes(0, 1, 2),
           (v: Value) => 0, (q: Query) => 0,
           (q: Query) => if |q.inputs| > 0 && q.inputs[0] == Uninit then 0 else 1,
           (q: Query) => 0.0, (q: Query) => ManifoldVec2(0.0, 0.0), (q: Query) => ManifoldVec3(0.0, 0.0, 0.0),
           (p: Ptr, q: Query) => p)
  }

  /**
   * Under that kernel the two answers differ for every filled box `self`: the as-written
   * answer cannot see the box it is asked about.
   */
  lemma OverlapsPointIgnoresSelf(self: Ptr, newBox: Ptr, content: Value, pt: Point3)
    requires content != Uninit
    ensures !OverlapsPointAsWritten(OverlapUnlessUninit(), newBox, pt)
    ensures OverlapsPointIntended(OverlapUnlessUninit(), self, content, pt)
  {
  }

  class BoundingBox {
    const heap: Heap
    const ptr: Ptr

    ghost predicate Valid()
      reads this, heap
    {
      heap.Valid() && ptr in heap.owned && heap.kinds[ptr] == BoxKind
    }

    /** `BoundingBox::from_ptr`: wraps a live box handle nobody owns yet. */
    constructor FromPtr(h: Heap, p: Ptr)
      requires h.Valid() && p in h.live && p !in h.owned && h.kinds[p] == BoxKind
      modifies h
      ensures heap == h && ptr == p && Valid()
      ensures h.Adopted(p)
    {
      heap := h;
      ptr := p;
      new;
      h.Adopt(p);
    }

    function Content(): Value
      reads this, heap
      requires Valid()
    {
      heap.contents[ptr]
    }

    /** `min_point`: the kernel's answer, converted field by field. */
    function MinPoint(): (p: Point3)
      reads this, heap
      requires Valid()
      ensures var w := heap.kernel.vec3(Query(Call(BoxMin, [Obj(ptr)]), [Content()]));
        p.x == w.x && p.y == w.y && p.z == w.z
    {
      InputsOfFew(heap.contents, [Obj(ptr)]);
      MathPoint3.FromWire(heap.kernel.vec3(heap.Ask(Call(BoxMin, [Obj(ptr)]))))
    }

    /** `max_point`. */
    function MaxPoint(): (p: Point3)
      reads this, heap
      requires Valid()
      ensures var w := heap.kernel.vec3(Query(Call(BoxMax, [Obj(ptr)]), [Content()]));
        p.x == w.x && p.y == w.y && p.z == w.z
    {
      InputsOfFew(heap.contents, [Obj(ptr)]);
      MathPoint3.FromWire(heap.kernel.vec3(heap.Ask(Call(BoxMax, [Obj(ptr)]))))
    }

    /** `dimensions`. */
    function Dimensions(): (p: Vec3)
      reads this, heap
      requires Valid()
      ensures var w := heap.kernel.vec3(Query(Call(BoxDimensions, [Obj(ptr)]), [Content()]));
        p.x == w.x && p.y == w.y && p.z == w.z
    {
      InputsOfFew(heap.contents, [Obj(ptr)]);
      TypesVec3.FromWire(heap.kernel.vec3(heap.Ask(Call(BoxDimensions, [Obj(ptr)]))))
    }

    /** `center`. */
    function Center(): (p: Point3)
      reads this, heap
      requires Valid()
      ensures var w := heap.kernel.vec3(Query(Call(BoxCenter, [Obj(ptr)]), [Content()]));
        p.x == w.x && p.y == w.y && p.z == w.z
    {
      InputsOfFew(heap.contents, [Obj(ptr)]);
      MathPoint3.FromWire(heap.kernel.vec3(heap.Ask(Call(BoxCenter, [Obj(ptr)]))))
    }

    /** `scale`. */
    function Scale(): (x: real)
      reads this, heap
      requires Valid()
      ensures x == heap.kernel.realResult(Query(Call(BoxScale, [Obj(ptr)]), [Content()]))
    {
      InputsOfFew(heap.contents, [Obj(ptr)]);
      heap.kernel.realResult(heap.Ask(Call(BoxScale, [Obj(ptr)])))
    }

    /** `contains_point`: true iff the kernel answers exactly 1. */
    function ContainsPoint(pt: Point3): (b: bool)
      reads this, heap
      requires Valid()
      ensures b <==> heap.kernel.intResult(Query(Call(BoxContainsPt, [Obj(ptr), Real(pt.x), Real(pt.y), Real(pt.z)]),
                                                 [Content(), NoRead, NoRead, NoRead])) == 1
    {
      InputsOfFew(heap.contents, [Obj(ptr), Real(pt.x), Real(pt.y), Real(pt.z)]);
      heap.kernel.intResult(heap.Ask(Call(BoxContainsPt, [Obj(ptr), Real(pt.x), Real(pt.y), Real(pt.z)]))) == 1
    }

    /** `contains_bounding_box`: true iff the kernel answers exactly 1. */
    function ContainsBoundingBox(other: BoundingBox): (b: bool)
      reads this, heap, other
      requires Valid() && other.heap == heap && other.Valid()
      ensures b <==> heap.kernel.intResult(Query(Call(BoxContainsBox, [Obj(ptr), Obj(other.ptr)]),
                                                 [Content(), other.Content()])) == 1
    {
      InputsOfFew(heap.contents, [Obj(ptr), Obj(other.ptr)]);
      heap.kernel.intResult(heap.Ask(Call(BoxContainsBox, [Obj(ptr), Obj(other.ptr)]))) == 1
    }

    /** `overlaps_bounding_box`: true iff the kernel answers exactly 1. */
    function OverlapsBoundingBox(other: BoundingBox): (b: bool)
      reads this, heap, other
      requires Valid() && other.heap == heap && other.Valid()
      ensures b <==> heap.kernel.intResult(Query(Call(BoxDoesOverlapBox, [Obj(ptr), Obj(other.ptr)]),
                                                 [Content(), other.Content()])) == 1
    {
      InputsOfFew(heap.contents, [Obj(ptr), Obj(other.ptr)]);
      heap.kernel.intResult(heap.Ask(Call(BoxDoesOverlapBox, [Obj(ptr), Obj(other.ptr)]))) == 1
    }

    /** `is_finite`: true iff the kernel answers exactly 1. */
    function IsFinite(): (b: bool)
      reads this, heap
      requires Valid()
      ensures b <==> heap.kernel.intResult(Query(Call(BoxIsFinite, [Obj(ptr)]), [Content()])) == 1
    {
      InputsOfFew(heap.contents, [Obj(ptr)]);
      heap.kernel.intResult(heap.Ask(Call(BoxIsFinite, [Obj(ptr)]))) == 1
    }

    /** The intended `overlaps_point`: the query on this box. */
    function OverlapsPointCorrected(pt: Point3): (b: bool)
      reads this, heap
      requires Valid()
      ensures b == OverlapsPointIntended(heap.kernel, ptr, Content(), pt)
    {
      InputsOfFew(heap.contents, [Obj(ptr), Real(pt.x), Real(pt.y), Real(pt.z)]);
      heap.kernel.intResult(heap.Ask(Call(BoxDoesOverlapPt, [Obj(ptr), Real(pt.x), Real(pt.y), Real(pt.z)]))) == 1
    }

    /**
     * `overlaps_point` as written: it allocates a new box and asks the kernel about that
     * unfilled box, so the answer does not depend on this box, and the new box is never freed.
     */
    method OverlapsPoint(pt: Point3) returns (b: bool)
      requires Valid()
      modifies heap
      ensures Valid()
      ensures b == OverlapsPointAsWritten(heap.kernel, old(heap.NextAddr()), pt)
      ensures heap.next == old(heap.next) + 1 && heap.live == old(heap.live) + {old(heap.NextAddr())}
      ensures heap.kinds == old(heap.kinds)[old(heap.NextAddr()) := BoxKind]
      ensures heap.Leaked() == old(heap.Leaked()) + {old(heap.NextAddr())}
      ensures heap.contents == old(heap.contents)[old(heap.NextAddr()) := Uninit]
      ensures heap.owned == old(heap.owned)
      ensures heap.trace == old(heap.trace) && heap.faults == old(heap.faults)
    {
      var p := heap.Alloc(BoxKind);
      InputsOfFew(heap.contents, [Obj(p), Real(pt.x), Real(pt.y), Real(pt.z)]);
      b := heap.kernel.intResult(heap.Ask(Call(BoxDoesOverlapPt, [Obj(p), Real(pt.x), Real(pt.y), Real(pt.z)]))) == 1;
    }

    /** `expand_to_include_point`: the kernel updates this box in place; nothing is allocated. */
    method ExpandToIncludePoint(v: Vec3)
      requires Valid()
      modifies heap
      ensures Valid()
      ensures heap.next == old(heap.next) && heap.live == old(heap.live) && heap.kinds == old(heap.kinds)
      ensures heap.contents == old(heap.contents)[ptr := Built(Call(BoxIncludePt, [Obj(ptr), Real(v.x), Real(v.y), Real(v.z)]),
                                                               [old(Content()), NoRead, NoRead, NoRead], 0)]
      ensures heap.owned == old(heap.owned) && heap.faults == old(heap.faults)
      ensures heap.trace == old(heap.trace) + [Call(BoxIncludePt, [Obj(ptr), Real(v.x), Real(v.y), Real(v.z)])]
    {
      InputsOfFew(heap.contents, [Obj(ptr), Real(v.x), Real(v.y), Real(v.z)]);
      ReadsWithin(heap.contents, [Obj(ptr), Real(v.x), Real(v.y), Real(v.z)], heap.live);
      heap.Invoke(ptr, Call(BoxIncludePt, [Obj(ptr), Real(v.x), Real(v.y), Real(v.z)]), 0);
    }

    /** Allocate a box, let the kernel fill it with `c`, and wrap it. */
    method Produce(c: Call) returns (r: BoundingBox)
      requires Valid() && HandleArgsIn(c.args, heap.live)
      modifies heap
      ensures fresh(r) && r.heap == heap && r.Valid() && Valid()
      ensures heap.Produced(r.ptr, BoxKind, c)
      ensures r.ptr != ptr && heap.faults == old(heap.faults)
    {
      var p := heap.Alloc(BoxKind);
      ReadsWithin(heap.contents, c.args, heap.live);
      heap.Invoke(p, c, 0);
      r := new BoundingBox.FromPtr(heap, p);
    }

    /** `union`: a new box from this one and `other`. */
    method Union(other: BoundingBox) returns (r: BoundingBox)
      requires Valid() && other.heap == heap && other.Valid()
      modifies heap
      ensures fresh(r) && r.heap == heap && r.Valid() && Valid() && other.Valid()
      ensures heap.Produced(r.ptr, BoxKind, Call(BoxUnion, [Obj(ptr), Obj(other.ptr)]))
      ensures r.ptr != ptr && r.ptr != other.ptr
      ensures heap.faults == old(heap.faults)
    {
      r := Produce(Call(BoxUnion, [Obj(ptr), Obj(other.ptr)]));
    }

    /** `transform`: a new box; the matrix goes to the kernel as twelve entries, row by row. */
    method Transform(m: Matrix4x3) returns (r: BoundingBox)
      requires Valid()
      modifies heap
      ensures fresh(r) && r.heap == heap && r.Valid() && Valid()
      ensures heap.Produced(r.ptr, BoxKind, Call(BoxTransform, [Obj(ptr)] + MatrixArgs(m)))
      ensures r.ptr != ptr && heap.faults == old(heap.faults)
    {
      r := Produce(Call(BoxTransform, [Obj(ptr)] + MatrixArgs(m)));
    }

    /** `translate`: a new box. */
    method Translate(v: Vec3) returns (r: BoundingBox)
      requires Valid()
      modifies heap
      ensures fresh(r) && r.heap == heap && r.Valid() && Valid()
      ensures heap.Produced(r.ptr, BoxKind, Call(BoxTranslate, [Obj(ptr), Real(v.x), Real(v.y), Real(v.z)]))
      ensures r.ptr != ptr && heap.faults == old(heap.faults)
    {
      r := Produce(Call(BoxTranslate, [Obj(ptr), Real(v.x), Real(v.y), Real(v.z)]));
    }

    /** `multiply`: a new box. */
    method Multiply(v: Vec3) returns (r: BoundingBox)
      requires Valid()
      modifies heap
      ensures fresh(r) && r.heap == heap && r.Valid() && Valid()
      ensures heap.Produced(r.ptr, BoxKind, Call(BoxMul, [Obj(ptr), Real(v.x), Real(v.y), Real(v.z)]))
      ensures r.ptr != ptr && heap.faults == old(heap.faults)
    {
      r := Produce(Call(BoxMul, [Obj(ptr), Real(v.x), Real(v.y), Real(v.z)]));
    }

    /** `impl Drop`: deletes the handle; afterwards the handle is no longer live. */
    method Drop()
      requires Valid()
      modifies heap
      ensures heap.Deleted(ptr) && !Valid()
    {
      heap.Delete(ptr, BoxKind);
    }
  }

  /** The free function `new`: one box, filled with min x, y, z then max x, y, z. */
  method New(h: Heap, minPoint: Point3, maxPoint: Point3) returns (b: BoundingBox)
    requires h.Valid()
    modifies h
    ensures fresh(b) && b.heap == h && b.Valid() && h.faults == old(h.faults)
    ensures h.Produced(b.ptr, BoxKind, Call(BoxNew, [Real(minPoint.x), Real(minPoint.y), Real(minPoint.z),
                                                     Real(maxPoint.x), Real(maxPoint.y), Real(maxPoint.z)]))
  {
    var p := h.Alloc(BoxKind);
    ReadsWithin(h.contents, [Real(minPoint.x), Real(minPoint.y), Real(minPoint.z),
                             Real(maxPoint.x), Real(maxPoint.y), Real(maxPoint.z)], h.live);
    h.Invoke(p, Call(BoxNew, [Real(minPoint.x), Real(minPoint.y), Real(minPoint.z),
                              Real(maxPoint.x), Real(maxPoint.y), Real(maxPoint.z)]), 0);
    b := new BoundingBox.FromPtr(h, p);
  }
}
