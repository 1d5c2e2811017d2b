/**
 * src/polygons.rs: `Polygons`, the owner of one kernel handle holding a set of simple
 * polygons, with the operations that read it: extrusion and revolution into a `Manifold`,
 * and indexed access to the simple polygons it holds.
 */
module Polygons {
  import opened Numeric
  import opened Wrappers
  import opened KernelHeap
  import ManifoldErrors
  import Types
  import Manifolds
  import SimplePolygons

  type Error = ManifoldErrors.Error
  type Manifold = Manifolds.Manifold
  type SimplePolygon = SimplePolygons.SimplePolygon

  /** `manifold_polygons(polygons, simple_polygons, length)`. */
  function NewCall(slots: Ptr, length: nat): Call
  {
    Call(PolygonsNew, [Buf(slots, length), Size(length)])
  }

  function ExtrudeCall(p: Ptr, height: real, divisions: i32, twistDegrees: real, topScaling: Types.Vec2): Call
  {
    Call(Extrude, [Obj(p), Real(height), Int(divisions), Real(twistDegrees), Real(topScaling.x), Real(topScaling.y)])
  }

  function RevolveCall(p: Ptr, circularSegments: i32, revolveDegrees: real): Call
  {
    Call(Revolve, [Obj(p), Int(circularSegments), Real(revolveDegrees)])
  }

  function GetCall(p: Ptr, index: nat): Call
  {
    Call(PolygonsGetSimple, [Obj(p), Size(index)])
  }

  /** `manifold_polygons_get_simple(.., self.0, i)` for `i` from 0 up to `n`, in order. */
  function GetCalls(p: Ptr, n: nat): (cs: seq<Call>)
    ensures |cs| == n && forall i :: 0 <= i < n ==> cs[i] == GetCall(p, i)
  {
    seq(n, i requires 0 <= i < n => GetCall(p, i))
  }

  /** The top scaling `extrude` passes: the given one, or (1.0, 1.0) when there is none. */
  function TopScalingOrDefault(topScaling: Option<Types.Vec2>): (v: Types.Vec2)
    ensures topScaling.None? ==> v == Types.Vec2(1.0, 1.0)
    ensures topScaling.Some? ==> v == topScaling.value
  {
    match topScaling
    case None => Types.Vec2(1.0, 1.0)
    case Some(s) => s
  }

  /** The segment count `revolve` passes: 0, which selects the kernel's quality defaults, when none is given. */
  function SegmentsOrDefault(circularSegments: Option<Types.PositiveI32>): (n: i32)
    ensures circularSegments.None? ==> n == 0
    ensures circularSegments.Some? ==> n == circularSegments.value.Get()
  {
    match circularSegments
    case None => 0
    case Some(c) => c.Get()
  }

  /** The angle `revolve` passes: a full turn of 360 degrees when none is given. */
  function DegreesOrDefault(revolveDegrees: Option<Types.NormalizedAngle>): (d: real)
    ensures revolveDegrees.None? ==> d == 360.0
    ensures revolveDegrees.Some? ==> d == Types.AsDegrees(revolveDegrees.value)
  {
    match revolveDegrees
    case None => 360.0
    case Some(a) => Types.AsDegrees(a)
  }

  /** The handles of the simple polygons, in order: the result of `.map(|p| p.ptr())`. */
  function Handles(ps: seq<SimplePolygon>): (hs: seq<Ptr>)
    ensures |hs| == |ps| && forall i :: 0 <= i < |ps| ==> hs[i] == ps[i].ptr
  {
    seq(|ps|, i requires 0 <= i < |ps| => ps[i].ptr)
  }

  /** Every simple polygon is a valid polygon of `h`. */
  ghost predicate AllValid(h: Heap, ps: seq<SimplePolygon>)
    reads h, set i | 0 <= i < |ps| :: ps[i]
  {
    forall i :: 0 <= i < |ps| ==> ps[i].heap == h && ps[i].Valid()
  }

  /** No two of the wrappers own the same handle, as Rust's ownership guarantees. */
  predicate Distinct(ps: seq<SimplePolygon>)
  {
    forall i, j :: 0 <= i < j < |ps| ==> ps[i].ptr != ps[j].ptr
  }

  /** The handles of the first `i` simple polygons. */
  ghost function Dropped(ps: seq<SimplePolygon>, i: nat): set<Ptr>
    requires i <= |ps|
  {
    set j | 0 <= j < i :: ps[j].ptr
  }

  /** What the kernel sees through a buffer of handles: each handle's value, or `Garbage` once freed. */
  function Gather(contents: map<Ptr, Value>, slots: seq<Ptr>): Value
  {
    Gathered(seq(|slots|, j requires 0 <= j < |slots| => if slots[j] in contents then contents[slots[j]] else Garbage))
  }

  /** `n` freed handles, as the kernel sees them. */
  function AllFreed(n: nat): Value
  {
    Gathered(seq(n, j requires 0 <= j < n => Garbage))
  }

  /** The handles among `slots` that are not live. */
  function Missing(live: set<Ptr>, slots: seq<Ptr>): set<Ptr>
  {
    set q | q in slots && q !in live
  }

  /** When none of the handles is still present, the kernel sees only freed values. */
  lemma GatherFreed(contents: map<Ptr, Value>, slots: seq<Ptr>)
    requires forall j :: 0 <= j < |slots| ==> slots[j] !in contents
    ensures Gather(contents, slots) == AllFreed(|slots|)
  {
    assert Gather(contents, slots).items == AllFreed(|slots|).items;
  }

  /** A new key that is none of the handles changes nothing the kernel sees through them. */
  lemma GatherFresh(contents: map<Ptr, Value>, slots: seq<Ptr>, p: Ptr, v: Value)
    requires forall j :: 0 <= j < |slots| ==> slots[j] != p
    ensures Gather(contents[p := v], slots) == Gather(contents, slots)
  {
    assert Gather(contents[p := v], slots).items == Gather(contents, slots).items;
  }

  /** Two heaps that agree on the handles give the kernel the same view through them. */
  lemma GatherSame(c1: map<Ptr, Value>, c2: map<Ptr, Value>, slots: seq<Ptr>)
    requires forall j :: 0 <= j < |slots| ==> slots[j] in c1 && slots[j] in c2 && c1[slots[j]] == c2[slots[j]]
    ensures Gather(c1, slots) == Gather(c2, slots)
  {
    assert Gather(c1, slots).items == Gather(c2, slots).items;
  }

  /**
   * The `map` closure of `from_simple_polygons`: each `SimplePolygon` is moved into it and
   * dropped when it returns, so every polygon's handle is deleted, in order.
   */
  method DropAll(h: Heap, ps: seq<SimplePolygon>)
    requires h.Valid() && AllValid(h, ps) && Distinct(ps)
    modifies h
    ensures h.Valid()
    ensures forall i :: 0 <= i < |ps| ==> ps[i].ptr !in h.live
    ensures forall q | q in old(h.live) && q !in Handles(ps) ::
      && q in h.live && h.kinds[q] == old(h.kinds)[q] && h.contents[q] == old(h.contents)[q]
      && (q in old(h.owned) ==> q in h.owned)
    ensures h.live == old(h.live) - set q | q in Handles(ps)
    ensures h.Leaked() == old(h.Leaked())
    ensures h.next == old(h.next) && h.trace == old(h.trace) && h.faults == old(h.faults)
    ensures h.owned == old(h.owned) - Dropped(ps, |ps|)
    ensures h.kinds == old(h.kinds) - Dropped(ps, |ps|) && h.contents == old(h.contents) - Dropped(ps, |ps|)
  {
    DropEach(h, ps);
    assert Dropped(ps, |ps|) == set q | q in Handles(ps);
    RemoveOwned(old(h.live), old(h.owned), Dropped(ps, |ps|));
  }

  /** The loop of `DropAll`: the handles of the polygons dropped so far are gone, nothing else changes. */
  method DropEach(h: Heap, ps: seq<SimplePolygon>)
    requires h.Valid() && AllValid(h, ps) && Distinct(ps)
    modifies h
    ensures h.Valid() && Dropped(ps, |ps|) <= old(h.owned)
    ensures h.live == old(h.live) - Dropped(ps, |ps|) && h.owned == old(h.owned) - Dropped(ps, |ps|)
    ensures h.kinds == old(h.kinds) - Dropped(ps, |ps|) && h.contents == old(h.contents) - Dropped(ps, |ps|)
    ensures h.next == old(h.next) && h.trace == old(h.trace) && h.faults == old(h.faults)
  {
    var i := 0;
    while i < |ps|
      invariant 0 <= i <= |ps|
      invariant h.Valid()
      invariant Dropped(ps, i) <= old(h.owned)
      invariant forall j :: i <= j < |ps| ==> ps[j].ptr !in Dropped(ps, i)
      invariant h.live == old(h.live) - Dropped(ps, i) && h.owned == old(h.owned) - Dropped(ps, i)
      invariant h.kinds == old(h.kinds) - Dropped(ps, i) && h.contents == old(h.contents) - Dropped(ps, i)
      invariant h.next == old(h.next) && h.trace == old(h.trace) && h.faults == old(h.faults)
    {
      var p := ps[i].ptr;
      ghost var g := Dropped(ps, i);
      assert Dropped(ps, i + 1) == g + {p};
      assert ps[i].Valid();
      ps[i].Drop();
      RemoveOneMore(old(h.live), g, p);
      RemoveOneMore(old(h.owned), g, p);
      RemoveOneMoreKey(old(h.kinds), g, p);
      RemoveOneMoreKey(old(h.contents), g, p);
      i := i + 1;
    }
  }

  class Polygons {
    const heap: Heap
    const ptr: Ptr

    ghost predicate Valid()
      reads this, heap
    {
      heap.Valid() && ptr in heap.owned && heap.kinds[ptr] == PolygonsKind
    }

    /** `Polygons::from_ptr`. */
    constructor FromPtr(h: Heap, p: Ptr)
      requires h.Valid() && p in h.live && p !in h.owned && h.kinds[p] == PolygonsKind
      modifies h
      ensures heap == h && ptr == p && Valid()
      ensures h.Adopted(p)
    {
      heap := h;
      ptr := p;
      new;
      h.Adopt(p);
    }

    function Content(): Value
      reads this, heap
      requires Valid()
    {
      heap.contents[ptr]
    }

    /**
     * `manifold_polygons(manifold_alloc_polygons(), buf, |slots|)`, wrapped: a new handle
     * holding what the kernel read through the buffer of handles `slots` at `buf`.
     */
    static method Populate(h: Heap, buf: Ptr, slots: seq<Ptr>) returns (r: Polygons)
      requires h.Valid() && |slots| > 0
      requires buf in h.live && h.contents[buf] == HostPtrs(slots)
      requires forall j :: 0 <= j < |slots| ==> slots[j] != h.NextAddr()
      modifies h
      ensures fresh(r) && r.heap == h && r.Valid()
      ensures r.ptr == old(h.NextAddr()) && r.ptr !in old(h.live)
      ensures r.Content() == Built(NewCall(buf, |slots|), [old(Gather(h.contents, slots)), NoRead], 0)
      ensures h.next == old(h.next) + 1
      ensures h.live == old(h.live) + {r.ptr} && h.owned == old(h.owned) + {r.ptr}
      ensures forall q | q in old(h.live) :: h.kinds[q] == old(h.kinds)[q] && h.contents[q] == old(h.contents)[q]
      ensures h.trace == old(h.trace) + [NewCall(buf, |slots|)]
      ensures h.faults == old(h.faults) + old(Missing(h.live, slots))
    {
      var p := h.Alloc(PolygonsKind);
      BufferCallReads(h.contents, buf, |slots|);
      assert h.Dead(NewCall(buf, |slots|)) == old(Missing(h.live, slots));
      GatherFresh(old(h.contents), slots, p, Uninit);
      h.Invoke(p, NewCall(buf, |slots|), 0);
      r := new Polygons.FromPtr(h, p);
    }

    /** The `Vec` of handles `from_simple_polygons` collects: a new host buffer holding them in order. */
    static method StageHandles(h: Heap, ps: seq<SimplePolygon>) returns (buf: Ptr)
      requires h.Valid() && AllValid(h, ps)
      modifies h
      ensures h.Valid() && AllValid(h, ps)
      ensures buf == old(h.NextAddr()) && buf !in old(h.live) && h.next == old(h.next) + 1
      ensures buf in h.live && buf !in h.owned && h.kinds[buf] == HostBuffer && h.contents[buf] == HostPtrs(Handles(ps))
      ensures forall q | q in old(h.live) :: q in h.live && h.kinds[q] == old(h.kinds)[q] && h.contents[q] == old(h.contents)[q]
      ensures forall q | q in h.live :: q in old(h.live) || q == buf
      ensures h.Leaked() == old(h.Leaked()) + {buf}
      ensures h.owned == old(h.owned) && h.trace == old(h.trace) && h.faults == old(h.faults)
    {
      buf := h.AllocHost(HostPtrs(Handles(ps)));
      assert AllValid(h, ps) by {
        forall i | 0 <= i < |ps| ensures ps[i].Valid() {
          assert old(ps[i].Valid());
        }
      }
    }

    /**
     * The collection in `from_simple_polygons` as written: the buffer of handles is filled
     * while each polygon is dropped, so it ends up holding only deleted handles.
     */
    static method StageThenDropAll(h: Heap, ps: seq<SimplePolygon>) returns (buf: Ptr)
      requires h.Valid() && AllValid(h, ps) && Distinct(ps)
      modifies h
      ensures h.Valid()
      ensures buf == old(h.NextAddr()) && h.next == old(h.next) + 1
      ensures buf in h.live && buf !in h.owned && h.kinds[buf] == HostBuffer && h.contents[buf] == HostPtrs(Handles(ps))
      ensures forall i :: 0 <= i < |ps| ==> ps[i].ptr !in h.live && ps[i].ptr != h.NextAddr()
      ensures forall j :: 0 <= j < |ps| ==> Handles(ps)[j] !in h.contents && Handles(ps)[j] != h.NextAddr()
      ensures h.live == old(h.live) - (set q | q in Handles(ps)) + {buf} && h.Kept(set q | q in Handles(ps))
      ensures h.Leaked() == old(h.Leaked()) + {buf}
      ensures h.trace == old(h.trace) && h.faults == old(h.faults)
    {
      assert forall i :: 0 <= i < |ps| ==> ps[i].ptr.Addr? && ps[i].ptr.n < h.next;
      buf := StageHandles(h, ps);
      assert buf !in Handles(ps);
      DropAll(h, ps);
      assert buf in h.live && buf in h.Leaked();
    }

    /** The kernel call of `from_simple_polygons`, then the drop of the buffer of handles. */
    static method CallThenRelease(h: Heap, buf: Ptr, slots: seq<Ptr>) returns (r: Polygons)
      requires h.Valid() && |slots| > 0
      requires buf in h.live && buf !in h.owned && h.kinds[buf] == HostBuffer && h.contents[buf] == HostPtrs(slots)
      requires forall j :: 0 <= j < |slots| ==> slots[j] != h.NextAddr()
      modifies h
      ensures h.Valid() && fresh(r) && r.heap == h && r.Valid()
      ensures r.ptr == old(h.NextAddr()) && h.next == old(h.next) + 1
      ensures r.Content() == Built(NewCall(buf, |slots|), [old(Gather(h.contents, slots)), NoRead], 0)
      ensures forall q | q in old(h.live) && q != buf :: q in h.live && h.kinds[q] == old(h.kinds)[q] && h.contents[q] == old(h.contents)[q]
      ensures h.live == old(h.live) - {buf} + {r.ptr} && h.Kept({buf})
      ensures h.owned == old(h.owned) + {r.ptr}
      ensures h.Leaked() == old(h.Leaked()) - {buf}
      ensures h.trace == old(h.trace) + [NewCall(buf, |slots|)]
      ensures h.faults == old(h.faults) + old(Missing(h.live, slots))
    {
      r := Populate(h, buf, slots);
      OwnNew(old(h.live), old(h.owned), r.ptr);
      h.Delete(buf, HostBuffer);
      RemoveBoth(old(h.live) + {r.ptr}, old(h.owned) + {r.ptr}, buf);
    }

    /**
     * `from_simple_polygons` as written. Collecting the handles consumes the polygons: each is
     * dropped inside the `map` closure, so when `manifold_polygons` reads the buffer of handles
     * every one of them is already deleted. The kernel sees only freed values, and each
     * handle joins `faults`.
     */
    static method FromSimplePolygons(h: Heap, ps: seq<SimplePolygon>) returns (r: Polygons)
      requires h.Valid() && AllValid(h, ps) && Distinct(ps)
      modifies h
      ensures h.Valid() && fresh(r) && r.heap == h && r.Valid()
      ensures forall i :: 0 <= i < |ps| ==> ps[i].ptr !in h.live
      ensures h.live == old(h.live) - (set q | q in Handles(ps)) + {r.ptr} && h.Kept(set q | q in Handles(ps))
      ensures h.Leaked() == old(h.Leaked())
      ensures var buf := if |ps| == 0 then Dangling else old(h.NextAddr());
        && r.ptr == Addr(old(h.next) + (if |ps| == 0 then 0 else 1))
        && r.Content() == Built(NewCall(buf, |ps|), [if |ps| == 0 then NoRead else AllFreed(|ps|), NoRead], 0)
        && h.trace == old(h.trace) + [NewCall(buf, |ps|)]
      ensures h.faults == old(h.faults) + (set q | q in Handles(ps))
    {
      if |ps| == 0 {
        r := Empty(h);
        return;
      }
      var slots := Handles(ps);
      h.NextAddrIsNew();
      var buf := StageThenDropAll(h, ps);
      assert old(h.Leaked()) !! {buf};
      GatherFreed(h.contents, slots);
      assert Missing(h.live, slots) == set q | q in Handles(ps);
      r := CallThenRelease(h, buf, slots);
      AddThenRemove(old(h.Leaked()), {buf});
    }

    /** `from_simple_polygons` of no polygons: a dangling pointer the kernel reads zero times. */
    static method Empty(h: Heap) returns (r: Polygons)
      requires h.Valid()
      modifies h
      ensures h.Valid() && fresh(r) && r.heap == h && r.Valid()
      ensures r.ptr == old(h.NextAddr())
      ensures r.Content() == Built(NewCall(Dangling, 0), [NoRead, NoRead], 0)
      ensures h.live == old(h.live) + {r.ptr} && h.Kept({}) && h.Leaked() == old(h.Leaked())
      ensures h.trace == old(h.trace) + [NewCall(Dangling, 0)] && h.faults == old(h.faults)
    {
      var p := h.Alloc(PolygonsKind);
      BufferCallReads(h.contents, Dangling, 0);
      assert h.Dead(NewCall(Dangling, 0)) == {};
      h.Invoke(p, NewCall(Dangling, 0), 0);
      OwnNew(old(h.live), old(h.owned), p);
      r := new Polygons.FromPtr(h, p);
    }

    /**
     * The collection and the kernel call of `from_simple_polygons` as evidently intended: the
     * polygons are still alive when the kernel reads the buffer of their handles.
     */
    static method StageThenCall(h: Heap, ps: seq<SimplePolygon>) returns (r: Polygons)
      requires h.Valid() && AllValid(h, ps) && |ps| > 0
      modifies h
      ensures h.Valid() && fresh(r) && r.heap == h && r.Valid() && AllValid(h, ps)
      ensures r.ptr == Addr(old(h.next) + 1) && r.ptr !in Handles(ps)
      ensures h.live == old(h.live) + {r.ptr} && h.Kept({})
      ensures r.Content() == Built(NewCall(old(h.NextAddr()), |ps|), [old(Gather(h.contents, Handles(ps))), NoRead], 0)
      ensures h.Leaked() == old(h.Leaked()) && h.faults == old(h.faults)
      ensures h.trace == old(h.trace) + [NewCall(old(h.NextAddr()), |ps|)]
    {
      var slots := Handles(ps);
      assert forall j :: 0 <= j < |slots| ==> slots[j].Addr? && slots[j].n < h.next;
      var buf := StageHandles(h, ps);
      assert buf !in slots;
      GatherSame(old(h.contents), h.contents, slots);
      assert Missing(h.live, slots) == {};
      r := CallThenRelease(h, buf, slots);
      AddThenRemove(old(h.Leaked()), {buf});
      assert AllValid(h, ps) by {
        forall i | 0 <= i < |ps| ensures ps[i].Valid() {
          assert old(ps[i].Valid());
        }
      }
    }

    /**
     * `from_simple_polygons` as evidently intended: the polygons stay alive until the kernel
     * has read them, so it sees each polygon's value in input order, and they are dropped
     * afterwards.
     */
    static method FromSimplePolygonsCorrected(h: Heap, ps: seq<SimplePolygon>) returns (r: Polygons)
      requires h.Valid() && AllValid(h, ps) && Distinct(ps)
      modifies h
      ensures h.Valid() && fresh(r) && r.heap == h && r.Valid()
      ensures forall i :: 0 <= i < |ps| ==> ps[i].ptr !in h.live
      ensures h.live == old(h.live) - (set q | q in Handles(ps)) + {r.ptr} && h.Kept(set q | q in Handles(ps))
      ensures h.Leaked() == old(h.Leaked()) && h.faults == old(h.faults)
      ensures var buf := if |ps| == 0 then Dangling else old(h.NextAddr());
        && r.ptr == Addr(old(h.next) + (if |ps| == 0 then 0 else 1))
        && r.Content() == Built(NewCall(buf, |ps|), [if |ps| == 0 then NoRead else old(Gather(h.contents, Handles(ps))), NoRead], 0)
        && h.trace == old(h.trace) + [NewCall(buf, |ps|)]
    {
      if |ps| == 0 {
        r := Empty(h);
        return;
      }
      r := StageThenCall(h, ps);
      DropAll(h, ps);
    }

    /** `extrude`: a missing top scaling becomes (1.0, 1.0); `Ok` iff the status is `NoError`. */
    method Extrude(height: Types.PositiveF64, divisionCount: Types.PositiveI32, twistDegrees: real,
                   topScaling: Option<Types.Vec2>) returns (r: Result<Manifold, Error>)
      requires Valid()
      modifies heap
      ensures Valid() && heap.Valid()
      ensures Manifolds.ProducesChecked(heap, ExtrudeCall(ptr, height.Get(), divisionCount.Get(), twistDegrees,
                                                          TopScalingOrDefault(topScaling)), r)
    {
      var scaling := TopScalingOrDefault(topScaling);
      r := Manifolds.Manifold.ProduceChecked(heap, ExtrudeCall(ptr, height.Get(), divisionCount.Get(), twistDegrees, scaling));
    }

    /**
     * `revolve`: missing segments become 0 and a missing angle 360 degrees; `Ok` iff the
     * status is `NoError`.
     */
    method Revolve(circularSegments: Option<Types.PositiveI32>, revolveDegrees: Option<Types.NormalizedAngle>)
      returns (r: Result<Manifold, Error>)
      requires Valid()
      modifies heap
      ensures Valid() && heap.Valid()
      ensures Manifolds.ProducesChecked(heap, RevolveCall(ptr, SegmentsOrDefault(circularSegments),
                                                          DegreesOrDefault(revolveDegrees)), r)
    {
      var segments := SegmentsOrDefault(circularSegments);
      var degrees := DegreesOrDefault(revolveDegrees);
      r := Manifolds.Manifold.ProduceChecked(heap, RevolveCall(ptr, segments, degrees));
    }

    /** `count`: the kernel's answer about this handle. */
    function Count(): (n: u64)
      reads this, heap
      requires Valid()
      ensures n == heap.kernel.sizeResult(Query(Call(PolygonsLength, [Obj(ptr)]), [Content()]))
    {
      InputsOfFew(heap.contents, [Obj(ptr)]);
      heap.kernel.sizeResult(heap.Ask(Call(PolygonsLength, [Obj(ptr)])))
    }

    /**
     * `get`: `None`, allocating nothing, iff the index is out of range; otherwise a new
     * simple polygon filled by `manifold_polygons_get_simple`.
     */
    method Get(index: u64) returns (r: Option<SimplePolygon>)
      requires Valid()
      modifies heap
      ensures Valid() && Content() == old(Content())
      ensures r.None? <==> index >= old(Count())
      ensures r.None? ==> heap.Unchanged()
      ensures r.Some? ==>
        && fresh(r.value) && r.value.heap == heap && r.value.Valid()
        && heap.Produced(r.value.ptr, SimplePolygonKind, GetCall(ptr, index)) && heap.faults == old(heap.faults)
    {
      if index >= Count() {
        return None;
      }
      var s := SimplePolygon.Produce(heap, GetCall(ptr, index));
      return Some(s);
    }

    /** `get(index).unwrap()` for an index in range: the `unwrap` never fails. */
    method GetUnwrapped(index: u64) returns (s: SimplePolygon)
      requires Valid() && index < Count()
      modifies heap
      ensures Valid() && Content() == old(Content())
      ensures fresh(s) && s.heap == heap && s.Valid() && s.ptr == old(heap.NextAddr())
      ensures s.Content() == Built(GetCall(ptr, index), [old(Content()), NoRead], 0)
      ensures heap.next == old(heap.next) + 1
      ensures forall q | q in old(heap.live) ::
        && q in heap.live && heap.kinds[q] == old(heap.kinds)[q] && heap.contents[q] == old(heap.contents)[q]
        && (q in old(heap.owned) ==> q in heap.owned)
      ensures heap.trace == old(heap.trace) + [GetCall(ptr, index)]
      ensures heap.Leaked() == old(heap.Leaked()) && heap.faults == old(heap.faults)
    {
      ghost var contents, live, owned := heap.contents, heap.live, heap.owned;
      var r := Get(index);
      assert r.Some?;
      InputsOfFew(contents, GetCall(ptr, index).args);
      OwnNew(live, owned, r.value.ptr);
      s := r.value;
    }

    /**
     * `as_vec`: `get(i).unwrap()` for every `i` below `count()`, in order. The `unwrap`
     * never fails, and element `i` is the polygon `get(i)` makes.
     */
    method AsVec() returns (ps: seq<SimplePolygon>)
      requires Valid()
      modifies heap
      ensures Valid() && Content() == old(Content())
      ensures |ps| == old(Count())
      ensures forall i :: 0 <= i < |ps| ==>
        && fresh(ps[i]) && ps[i].heap == heap && ps[i].Valid()
        && ps[i].ptr == Addr(old(heap.next) + i)
        && ps[i].Content() == Built(GetCall(ptr, i), [old(Content()), NoRead], 0)
      ensures heap.trace == old(heap.trace) + GetCalls(ptr, |ps|)
      ensures heap.next == old(heap.next) + |ps| && heap.Kept({})
      ensures heap.Leaked() == old(heap.Leaked()) && heap.faults == old(heap.faults)
    {
      var count := Count();
      ps := [];
      var i: u64 := 0;
      while i < count
        invariant i <= count && |ps| == i
        invariant Valid() && Content() == old(Content()) && count == Count()
        invariant heap.next == old(heap.next) + i
        invariant forall j :: 0 <= j < i ==>
          && fresh(ps[j]) && ps[j].heap == heap && ps[j].Valid()
          && ps[j].ptr == Addr(old(heap.next) + j)
          && ps[j].Content() == Built(GetCall(ptr, j), [old(Content()), NoRead], 0)
        invariant heap.trace == old(heap.trace) + GetCalls(ptr, i)
        invariant heap.Kept({})
        invariant heap.Leaked() == old(heap.Leaked()) && heap.faults == old(heap.faults)
      {
        var s := GetUnwrapped(i);
        assert GetCalls(ptr, i + 1) == GetCalls(ptr, i) + [GetCall(ptr, i)];
        ps := ps + [s];
        i := i + 1;
      }
    }

    /** `impl Drop`: deletes the handle; afterwards the handle is no longer live. */
    method Drop()
      requires Valid()
      modifies heap
      ensures heap.Deleted(ptr) && !Valid()
    {
      heap.Delete(ptr, PolygonsKind);
    }
  }
}
