/**
 * src/simple_polygon.rs: `SimplePolygon`, the owner of one kernel simple-polygon handle (a
 * closed contour of 2-D points).
 */
module SimplePolygons {
  import opened Numeric
  import opened Wrappers
  import opened Sys
  import opened KernelHeap
  import Types

  /** `manifold_simple_polygon(polygon, points, length)`: `length` points read from `points`. */
  function PointsCall(points: Ptr, length: nat): Call
  {
    Call(SimplePolygonNew, [Buf(points, length), Size(length)])
  }

  function PointAtCall(polygon: Ptr, index: u64): Call
  {
    Call(SimplePolygonGetPoint, [Obj(polygon), Size(index)])
  }

  /** `points.into_iter().map(|x| x.into()).collect()`: each point converted, in input order. */
  function Convert<T>(points: seq<T>, into: T -> ManifoldVec2): (ws: seq<ManifoldVec2>)
    ensures |ws| == |points|
    ensures forall i :: 0 <= i < |points| ==> ws[i] == into(points[i])
  {
    if |points| == 0 then [] else [into(points[0])] + Convert(points[1..], into)
  }

  /** The value the kernel reads through `(points.as_mut_ptr(), points.len())` for `ws`. */
  function StagedPoints(ws: seq<ManifoldVec2>): Value
  {
    if |ws| == 0 then NoRead else HostPoints(ws)
  }

  class SimplePolygon {
    const heap: Heap
    const ptr: Ptr

    ghost predicate Valid()
      reads this, heap
    {
      heap.Valid() && ptr in heap.owned && heap.kinds[ptr] == SimplePolygonKind
    }

    /** `SimplePolygon::from_ptr`. */
    constructor FromPtr(h: Heap, p: Ptr)
      requires h.Valid() && p in h.live && p !in h.owned && h.kinds[p] == SimplePolygonKind
      modifies h
      ensures heap == h && ptr == p && Valid()
      ensures h.Adopted(p)
    {
      heap := h;
      ptr := p;
      new;
      h.Adopt(p);
    }

    function Content(): Value
      reads this, heap
      requires Valid()
    {
      heap.contents[ptr]
    }

    /** Allocate a simple polygon, let the kernel fill it with `c`, and wrap it. */
    static method Produce(h: Heap, c: Call) returns (r: SimplePolygon)
      requires h.Valid() && HandleArgsIn(c.args, h.live)
      modifies h
      ensures fresh(r) && r.heap == h && r.Valid()
      ensures h.Produced(r.ptr, SimplePolygonKind, c) && h.faults == old(h.faults) && r.ptr !in old(h.live)
    {
      var p := h.Alloc(SimplePolygonKind);
      ReadsWithin(h.contents, c.args, h.live);
      h.Invoke(p, c, 0);
      r := new SimplePolygon.FromPtr(h, p);
    }

    /**
     * `manifold_simple_polygon(manifold_alloc_simple_polygon(), points, length)`, wrapped: a
     * new polygon holding what the kernel read from the `length` points at `points`.
     */
    static method Populate(h: Heap, points: Ptr, length: nat) returns (r: SimplePolygon)
      requires h.Valid()
      requires length > 0 ==> points in h.live && !h.contents[points].HostPtrs?
      modifies h
      ensures fresh(r) && r.heap == h && r.Valid()
      ensures r.ptr == old(h.NextAddr()) && r.ptr !in old(h.live)
      ensures r.Content() == Built(PointsCall(points, length), [old(ArgValue(h.contents, Buf(points, length))), NoRead], 0)
      ensures h.next == old(h.next) + 1
      ensures h.live == old(h.live) + {r.ptr} && h.owned == old(h.owned) + {r.ptr}
      ensures forall q | q in old(h.live) :: h.kinds[q] == old(h.kinds)[q] && h.contents[q] == old(h.contents)[q]
      ensures h.trace == old(h.trace) + [PointsCall(points, length)] && h.faults == old(h.faults)
    {
      var p := h.Alloc(SimplePolygonKind);
      BufferCallReads(h.contents, points, length);
      assert h.Dead(PointsCall(points, length)) == {};
      assert ArgValue(h.contents, Buf(points, length)) == old(ArgValue(h.contents, Buf(points, length)));
      h.Invoke(p, PointsCall(points, length), 0);
      r := new SimplePolygon.FromPtr(h, p);
    }

    /**
     * `new_from_points`: the points are converted in order into a host vector, which the
     * kernel reads (`length` is the input length) before the vector is dropped at the end of
     * the function. An empty vector is not allocated; its dangling pointer is read zero times.
     */
    static method NewFromPoints<T>(h: Heap, points: seq<T>, into: T -> ManifoldVec2) returns (r: SimplePolygon)
      requires h.Valid()
      modifies h
      ensures fresh(r) && r.heap == h && r.Valid()
      ensures var buf := if |points| == 0 then Dangling else old(h.NextAddr());
        && r.ptr == Addr(old(h.next) + (if |points| == 0 then 0 else 1))
        && r.Content() == Built(PointsCall(buf, |points|), [StagedPoints(Convert(points, into)), NoRead], 0)
        && h.trace == old(h.trace) + [PointsCall(buf, |points|)]
      ensures h.live == old(h.live) + {r.ptr} && h.owned == old(h.owned) + {r.ptr} && h.Kept({})
      ensures h.Leaked() == old(h.Leaked()) && h.faults == old(h.faults)
    {
      var ws := Convert(points, into);
      if |ws| == 0 {
        r := Populate(h, Dangling, 0);
        OwnNew(old(h.live), old(h.owned), r.ptr);
        return;
      }
      var buf := h.AllocHost(HostPoints(ws));
      r := Populate(h, buf, |ws|);
      h.Delete(buf, HostBuffer);
      StageThenDrop(old(h.live), old(h.owned), buf, r.ptr);
    }

    /** `point_count`: the kernel's answer about this polygon. */
    function PointCount(): (n: u64)
      reads this, heap
      requires Valid()
      ensures n == heap.kernel.sizeResult(Query(Call(SimplePolygonLength, [Obj(ptr)]), [Content()]))
    {
      InputsOfFew(heap.contents, [Obj(ptr)]);
      heap.kernel.sizeResult(heap.Ask(Call(SimplePolygonLength, [Obj(ptr)])))
    }

    /**
     * `get_point`: `None` iff the index is out of range; otherwise the kernel's wire vector,
     * copied field for field into a `Point2`.
     */
    function GetPoint(index: u64): (r: Option<Types.Point2>)
      reads this, heap
      requires Valid()
      ensures r.None? <==> index >= PointCount()
      ensures r.Some? ==>
        var w := heap.kernel.vec2(Query(PointAtCall(ptr, index), [Content(), NoRead]));
        r.value.x == w.x && r.value.y == w.y
    {
      if index >= PointCount() then None
      else
        InputsOfFew(heap.contents, PointAtCall(ptr, index).args);
        Some(Types.Point2FromWire(heap.kernel.vec2(heap.Ask(PointAtCall(ptr, index)))))
    }

    /** `ptr`: the handle itself; the polygon keeps owning it. */
    function Handle(): (p: Ptr)
      reads this, heap
      requires Valid()
      ensures p == ptr && p in heap.owned && heap.kinds[p] == SimplePolygonKind
    {
      ptr
    }

    /** `impl Drop`: deletes the handle; afterwards the handle is no longer live. */
    method Drop()
      requires Valid()
      modifies heap
      ensures heap.Deleted(ptr) && !Valid()
    {
      heap.Delete(ptr, SimplePolygonKind);
    }
  }
}
