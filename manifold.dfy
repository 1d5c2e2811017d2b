/**
 * src/manifold.rs and src/mesh_gl.rs: the `Manifold` and `MeshGL` wrappers, each owning one
 * kernel handle, together with `check_error` of src/error.rs, which turns a manifold's status
 * into a `Result`. They share a module because each refers to the other (`mesh` returns a
 * `MeshGL`, `smooth` a `Manifold`).
 *
 * Every kernel function is assumed to return the handle it was given to fill, so
 * `Manifold::from_ptr` wraps the handle allocated for the call. `merge` is the one call whose
 * returned pointer the binding inspects, and there it is the kernel's answer.
 */
module Manifolds {
  import opened Numeric
  import opened Wrappers
  import opened KernelHeap
  import ManifoldErrors
  import ManifoldParams
  import TypesPositiveNum
  import MathNonNegativeNum
  import MathNormalizedAngle
  import TypesVec3
  import BoundingBoxes
  import WarpMacro

  type Error = ManifoldErrors.Error
  // `crate::types::math` is not declared by src/types/mod.rs; the copies in src/types stand in.
  type Vec3 = TypesVec3.Vec3
  type PositiveF64 = TypesPositiveNum.PositiveF64
  type PositiveI32 = TypesPositiveNum.PositiveI32

  /** What `Error::from(manifold_status(..))` makes of the status of a handle holding `v`. */
  function Outcome(k: Kernel, v: Value): Error
  {
    ManifoldErrors.FromCode(k.errors, k.status(v))
  }

  /** `m` wraps a handle just allocated and filled by `c`; nothing else in the heap changed. */
  twostate predicate Produces(h: Heap, new m: Manifold, c: Call)
    reads h, m
  {
    && fresh(m) && m.heap == h && m.Valid()
    && h.Produced(m.ptr, ManifoldKind, c) && h.faults == old(h.faults)
  }

  /**
   * The effect of allocating a manifold, filling it with `c` and passing it to `check_error`:
   * `Ok` with the new manifold iff its status is `NoError`, otherwise the error, with the
   * handle already deleted.
   */
  twostate predicate ProducesChecked(h: Heap, c: Call, new r: Result<Manifold, Error>)
    reads h, if r.Ok? then {r.value} else {}
  {
    var e := Outcome(h.kernel, old(h.Made(c)));
    && (r.Ok? <==> e == ManifoldErrors.NoError)
    && (r.Ok? ==> Produces(h, r.value, c))
    && (r.Err? ==> r.error == e && h.ProducedAndDeleted(old(h.NextAddr()), c) && h.faults == old(h.faults))
  }

  /** Every element is a valid manifold of `h`. */
  ghost predicate AllValid(h: Heap, ms: seq<Manifold>)
    reads h, set i | 0 <= i < |ms| :: ms[i]
  {
    forall i :: 0 <= i < |ms| ==> ms[i].heap == h && ms[i].Valid()
  }

  /** The handles of a sequence of manifolds, in order. */
  function Handles(ms: seq<Manifold>): (ps: seq<Ptr>)
    ensures |ps| == |ms| && forall i :: 0 <= i < |ms| ==> ps[i] == ms[i].ptr
  {
    seq(|ms|, i requires 0 <= i < |ms| => ms[i].ptr)
  }

  // The kernel calls of the operations, one function per C entry point.

  function CubeCall(x: real, y: real, z: real, originAtCenter: bool): Call
  {
    Call(Cube, [Real(x), Real(y), Real(z), Int(ManifoldParams.BoolToCInt(originAtCenter))])
  }

  function CylinderCall(a: ManifoldParams.CylinderArgs): Call
  {
    Call(Cylinder, [Real(a.height), Real(a.bottomRadius), Real(a.topRadius),
                    Int(a.circularSegments), Int(a.originAtCenter)])
  }

  function SphereCall(radius: real, segments: i32): Call
  {
    Call(Sphere, [Real(radius), Int(segments)])
  }

  function VecSetCall(vec: Ptr, index: nat, m: Ptr): Call
  {
    Call(ManifoldVecSet, [Obj(vec), Size(index), Obj(m)])
  }

  /** `manifold_manifold_vec_set(vec, i, slots[i])` for every slot, in order. */
  function SetCalls(vec: Ptr, slots: seq<Ptr>): (cs: seq<Call>)
    ensures |cs| == |slots| && forall i :: 0 <= i < |slots| ==> cs[i] == VecSetCall(vec, i, slots[i])
  {
    seq(|slots|, i requires 0 <= i < |slots| => VecSetCall(vec, i, slots[i]))
  }

  function BatchCall(codes: ManifoldParams.OpTypeCodes, vec: Ptr, op: ManifoldParams.BooleanOperation): Call
  {
    Call(Fn.BatchBoolean, [Obj(vec), Int(ManifoldParams.ToOpType(codes, op))])
  }

  /**
   * What `manifold_batch_boolean` leaves in the new manifold: the batch call and what it read,
   * the vector holding the value of every slot, in order.
   */
  function BatchResult(k: Kernel, vec: Ptr, slots: seq<Ptr>, op: ManifoldParams.BooleanOperation, contents: map<Ptr, Value>): Value
  {
    Built(BatchCall(k.opTypes, vec, op), [VecValue(vec, |slots|, slots, contents), NoRead], 0)
  }

  function PlaneArgs(plane: ManifoldParams.Plane): seq<Arg>
  {
    [Real(plane.xNormal), Real(plane.yNormal), Real(plane.zNormal), Real(plane.offset)]
  }

  function VecArgs(v: Vec3): seq<Arg>
  {
    [Real(v.x), Real(v.y), Real(v.z)]
  }

  function TranslateCall(p: Ptr, v: Vec3): Call
  {
    Call(Fn.Translate, [Obj(p)] + VecArgs(v))
  }

  /** The call `rotate` evidently means to make: `manifold_rotate` with the three angles. */
  function RotateCall(p: Ptr, v: Vec3): Call
  {
    Call(Fn.Rotate, [Obj(p)] + VecArgs(v))
  }

  /** A rotation never reaches the kernel as the translation it is mistaken for. */
  lemma RotateIsNotTranslate(p: Ptr, v: Vec3, w: Vec3)
    ensures RotateCall(p, v) != TranslateCall(p, w)
  {
  }

  /**
   * `check_error` (src/error.rs): the same manifold if its status translates to `NoError`;
   * otherwise its error, and the manifold, consumed by value, is dropped.
   */
  method CheckError(m: Manifold) returns (r: Result<Manifold, Error>)
    requires m.Valid()
    modifies m.heap
    ensures m.heap.Valid()
    ensures var e := Outcome(m.heap.kernel, old(m.heap.contents[m.ptr]));
      && (r.Ok? <==> e == ManifoldErrors.NoError)
      && (r.Ok? ==> r.value == m && m.Valid() && m.heap.Unchanged())
      && (r.Err? ==> r.error == e && m.heap.Deleted(m.ptr))
  {
    var e := ManifoldErrors.FromCode(m.heap.kernel.errors, m.heap.Status(m.ptr));
    if e == ManifoldErrors.NoError {
      return Ok(m);
    }
    m.Drop();
    return Err(e);
  }

  /** One more slot set: the calls for the first `i + 1` slots extend those for the first `i`. */
  lemma SetCallsSnoc(vec: Ptr, slots: seq<Ptr>, i: nat)
    requires i < |slots|
    ensures SetCalls(vec, slots[..i + 1]) == SetCalls(vec, slots[..i]) + [VecSetCall(vec, i, slots[i])]
  {
  }

  lemma AppendAssoc<T>(a: seq<T>, b: seq<T>, c: seq<T>)
    ensures (a + b) + c == a + (b + c)
  {
  }

  /**
   * What a kernel vector holds after `manifold_manifold_vec(n)` and the sets of slots
   * `0 .. |slots| - 1`, in order: each set reads the vector so far and the handle put in its slot.
   */
  function VecValue(vec: Ptr, n: nat, slots: seq<Ptr>, contents: map<Ptr, Value>): Value
    decreases |slots|
  {
    if |slots| == 0 then Built(Call(ManifoldVecNew, [Size(n)]), [NoRead], 0)
    else
      var k := |slots| - 1;
      Built(VecSetCall(vec, k, slots[k]), [VecValue(vec, n, slots[..k], contents), NoRead, ArgValue(contents, Obj(slots[k]))], 0)
  }

  /**
   * The filled vector determines the value of every slot, in order, and nothing else of the
   * heap: two heaps give the same vector exactly when their slot handles hold the same values.
   */
  lemma {:induction false} VecValueSeesEverySlot(vec: Ptr, n: nat, slots: seq<Ptr>, c1: map<Ptr, Value>, c2: map<Ptr, Value>)
    ensures VecValue(vec, n, slots, c1) == VecValue(vec, n, slots, c2)
            <==> forall j :: 0 <= j < |slots| ==> ArgValue(c1, Obj(slots[j])) == ArgValue(c2, Obj(slots[j]))
    decreases |slots|
  {
    if |slots| > 0 {
      var k := |slots| - 1;
      VecValueSeesEverySlot(vec, n, slots[..k], c1, c2);
      assert forall j :: 0 <= j < k ==> slots[..k][j] == slots[j];
    }
  }

  /** Setting slot `i` extends the vector of the first `i` slots by that slot's value. */
  lemma VecValueSnoc(vec: Ptr, n: nat, slots: seq<Ptr>, i: nat, contents: map<Ptr, Value>)
    requires i < |slots|
    ensures VecValue(vec, n, slots[..i + 1], contents)
            == Built(VecSetCall(vec, i, slots[i]), [VecValue(vec, n, slots[..i], contents), NoRead, ArgValue(contents, Obj(slots[i]))], 0)
  {
    assert slots[..i + 1][..i] == slots[..i];
  }

  /** `manifold_manifold_vec_set(vec, i, slot)`: the vector now also records the value of `slot` at `i`. */
  method SetSlot(h: Heap, vec: Ptr, i: nat, slot: Ptr)
    requires h.Valid() && vec in h.live && slot in h.live
    modifies h
    ensures h.Valid()
    ensures h.contents == old(h.contents)[vec := Built(VecSetCall(vec, i, slot), [old(h.contents)[vec], NoRead, old(h.contents)[slot]], 0)]
    ensures h.trace == old(h.trace) + [VecSetCall(vec, i, slot)]
    ensures h.next == old(h.next) && h.live == old(h.live) && h.kinds == old(h.kinds)
    ensures h.owned == old(h.owned) && h.faults == old(h.faults)
  {
    ReadsWithin(h.contents, VecSetCall(vec, i, slot).args, h.live);
    assert h.Dead(VecSetCall(vec, i, slot)) == {};
    InputsOfFew(h.contents, VecSetCall(vec, i, slot).args);
    h.Invoke(vec, VecSetCall(vec, i, slot), 0);
  }

  /**
   * The vector `batch_boolean` hands to the kernel: `manifold_manifold_vec(n)` of `n` slots,
   * then `manifold_manifold_vec_set(vec, i, slots[i])` for each `i` in turn.
   */
  method FillVector(h: Heap, slots: seq<Ptr>) returns (vec: Ptr)
    requires h.Valid() && forall i :: 0 <= i < |slots| ==> slots[i] in h.live
    modifies h
    ensures h.Valid()
    ensures vec == old(h.NextAddr()) && vec !in old(h.live)
    ensures h.next == old(h.next) + 1 && h.live == old(h.live) + {vec}
    ensures h.kinds == old(h.kinds)[vec := ManifoldVecKind]
    ensures h.owned == old(h.owned) && h.faults == old(h.faults)
    ensures h.trace == old(h.trace) + [Call(ManifoldVecNew, [Size(|slots|)])] + SetCalls(vec, slots)
    ensures h.contents == old(h.contents)[vec := VecValue(vec, |slots|, slots, old(h.contents))]
  {
    vec := NewVec(h, |slots|);
    ghost var made := h.contents;
    assert forall j :: 0 <= j < |slots| ==> slots[j] != vec;
    assert forall j :: 0 <= j < |slots| ==> ArgValue(made, Obj(slots[j])) == ArgValue(old(h.contents), Obj(slots[j]));
    VecValueSeesEverySlot(vec, |slots|, slots, made, old(h.contents));
    SetSlots(h, vec, slots);
  }

  /** `manifold_manifold_vec(n)`: a new kernel vector of `n` slots, none set yet. */
  method NewVec(h: Heap, n: nat) returns (vec: Ptr)
    requires h.Valid()
    modifies h
    ensures h.Valid()
    ensures vec == old(h.NextAddr()) && vec !in old(h.live)
    ensures h.next == old(h.next) + 1 && h.live == old(h.live) + {vec}
    ensures h.kinds == old(h.kinds)[vec := ManifoldVecKind]
    ensures h.contents == old(h.contents)[vec := VecValue(vec, n, [], old(h.contents))]
    ensures h.owned == old(h.owned) && h.faults == old(h.faults)
    ensures h.trace == old(h.trace) + [Call(ManifoldVecNew, [Size(n)])]
  {
    vec := h.Alloc(ManifoldVecKind);
    ReadsWithin(h.contents, [Size(n)], h.live);
    InputsOfFew(h.contents, [Size(n)]);
    h.Invoke(vec, Call(ManifoldVecNew, [Size(n)]), 0);
  }

  /** The loop of `batch_boolean` over the slots: `manifold_manifold_vec_set` for each, in order. */
  method SetSlots(h: Heap, vec: Ptr, slots: seq<Ptr>)
    requires h.Valid() && vec in h.live && forall i :: 0 <= i < |slots| ==> slots[i] in h.live && slots[i] != vec
    requires h.contents[vec] == VecValue(vec, |slots|, [], h.contents)
    modifies h
    ensures h.Valid()
    ensures h.contents == old(h.contents)[vec := VecValue(vec, |slots|, slots, old(h.contents))]
    ensures h.trace == old(h.trace) + SetCalls(vec, slots)
    ensures h.next == old(h.next) && h.live == old(h.live) && h.kinds == old(h.kinds)
    ensures h.owned == old(h.owned) && h.faults == old(h.faults)
  {
    var i := 0;
    assert slots[..0] == [] && h.contents == h.contents[vec := h.contents[vec]];
    while i < |slots|
      invariant 0 <= i <= |slots|
      invariant h.Valid()
      invariant h.next == old(h.next) && h.live == old(h.live) && h.kinds == old(h.kinds)
      invariant h.owned == old(h.owned) && h.faults == old(h.faults)
      invariant h.trace == old(h.trace) + SetCalls(vec, slots[..i])
      invariant h.contents == old(h.contents)[vec := VecValue(vec, |slots|, slots[..i], old(h.contents))]
    {
      SetCallsSnoc(vec, slots, i);
      VecValueSnoc(vec, |slots|, slots, i, old(h.contents));
      SetSlot(h, vec, i, slots[i]);
      i := i + 1;
    }
    assert slots[..i] == slots;
  }

  class Manifold {
    const heap: Heap
    const ptr: Ptr

    ghost predicate Valid()
      reads this, heap
    {
      heap.Valid() && ptr in heap.owned && heap.kinds[ptr] == ManifoldKind
    }

    /** `Manifold::from_ptr`: wraps a live manifold handle nobody owns yet. */
    constructor FromPtr(h: Heap, p: Ptr)
      requires h.Valid() && p in h.live && p !in h.owned && h.kinds[p] == ManifoldKind
      modifies h
      ensures heap == h && ptr == p && Valid()
      ensures h.Adopted(p)
    {
      heap := h;
      ptr := p;
      new;
      h.Adopt(p);
    }

    function Content(): Value
      reads this, heap
      requires Valid()
    {
      heap.contents[ptr]
    }

    /** `r` is a new manifold made by `c`; this one is still valid and keeps its handle. */
    twostate predicate Yields(new r: Manifold, c: Call)
      reads this, heap, r
    {
      Produces(heap, r, c) && Valid() && r.ptr != ptr
    }

    /**
     * Allocate a manifold, let the kernel fill it with `c`, and wrap it, whatever `c` reads:
     * a handle it reads that is not live joins `faults`.
     */
    static method Fill(h: Heap, c: Call) returns (m: Manifold)
      requires h.Valid()
      modifies h
      ensures fresh(m) && m.heap == h && m.Valid() && h.Produced(m.ptr, ManifoldKind, c)
    {
      var p := h.Alloc(ManifoldKind);
      h.Invoke(p, c, 0);
      m := new Manifold.FromPtr(h, p);
    }

    /** `Fill` followed by `check_error`. */
    static method FillChecked(h: Heap, c: Call) returns (r: Result<Manifold, Error>)
      requires h.Valid()
      modifies h
      ensures h.Valid()
      ensures var e := Outcome(h.kernel, old(h.Made(c)));
        && (r.Ok? <==> e == ManifoldErrors.NoError)
        && (r.Ok? ==> fresh(r.value) && r.value.heap == h && r.value.Valid() && h.Produced(r.value.ptr, ManifoldKind, c))
        && (r.Err? ==> r.error == e && h.ProducedAndDeleted(old(h.NextAddr()), c))
    {
      ghost var contents, kinds := h.contents, h.kinds;
      var m := Fill(h, c);
      UpdateThenRemove(contents, m.ptr, h.contents[m.ptr]);
      UpdateThenRemove(kinds, m.ptr, ManifoldKind);
      r := CheckError(m);
    }

    /** Allocate a manifold, let the kernel fill it with `c`, and wrap it. */
    static method Produce(h: Heap, c: Call) returns (m: Manifold)
      requires h.Valid() && HandleArgsIn(c.args, h.live)
      modifies h
      ensures Produces(h, m, c) && m.ptr !in old(h.live)
    {
      ReadsWithin(h.contents[h.NextAddr() := Uninit], c.args, h.live);
      m := Fill(h, c);
    }

    /** `Produce` followed by `check_error`. */
    static method ProduceChecked(h: Heap, c: Call) returns (r: Result<Manifold, Error>)
      requires h.Valid() && HandleArgsIn(c.args, h.live)
      modifies h
      ensures h.Valid() && ProducesChecked(h, c, r)
    {
      ReadsWithin(h.contents[h.NextAddr() := Uninit], c.args, h.live);
      r := FillChecked(h, c);
    }

    /** `new_tetrahedron`. */
    static method NewTetrahedron(h: Heap) returns (m: Manifold)
      requires h.Valid()
      modifies h
      ensures Produces(h, m, Call(Tetrahedron, []))
    {
      m := Produce(h, Call(Tetrahedron, []));
    }

    /** `new_cuboid_unchecked`: the three sizes and `origin_at_center as c_int`. */
    static method NewCuboidUnchecked(h: Heap, xSize: real, ySize: real, zSize: real, originAtCenter: bool) returns (m: Manifold)
      requires h.Valid()
      modifies h
      ensures Produces(h, m, CubeCall(xSize, ySize, zSize, originAtCenter))
    {
      m := Produce(h, CubeCall(xSize, ySize, zSize, originAtCenter));
    }

    /** `new_cuboid`: the unchecked constructor on the wrapped values. */
    static method NewCuboid(h: Heap, xSize: PositiveF64, ySize: PositiveF64, zSize: PositiveF64, originAtCenter: bool) returns (m: Manifold)
      requires h.Valid()
      modifies h
      ensures Produces(h, m, CubeCall(xSize.value, ySize.value, zSize.value, originAtCenter))
    {
      m := NewCuboidUnchecked(h, xSize.value, ySize.value, zSize.value, originAtCenter);
    }

    /** `new_cuboid_from_vec_unchecked`: the vector's components as the three sizes. */
    static method NewCuboidFromVecUnchecked(h: Heap, size: Vec3, originAtCenter: bool) returns (m: Manifold)
      requires h.Valid()
      modifies h
      ensures Produces(h, m, CubeCall(size.x, size.y, size.z, originAtCenter))
    {
      m := NewCuboidUnchecked(h, size.x, size.y, size.z, originAtCenter);
    }

    /**
     * `new_cylinder_unchecked`; `Err` is the panic of its `unwrap`, taken after `check_error`
     * has dropped the failed manifold.
     */
    static method NewCylinderUnchecked(h: Heap, height: real, bottomRadius: real, topRadius: real,
                                       circularSegments: i32, originAtCenter: bool)
      returns (r: Result<Manifold, Error>)
      requires h.Valid()
      modifies h
      ensures h.Valid()
      ensures ProducesChecked(h, CylinderCall(ManifoldParams.CylinderArgs(height, bottomRadius, topRadius,
                                              circularSegments, ManifoldParams.BoolToCInt(originAtCenter))), r)
    {
      r := ProduceChecked(h, CylinderCall(ManifoldParams.CylinderArgs(height, bottomRadius, topRadius,
                                          circularSegments, ManifoldParams.BoolToCInt(originAtCenter))));
    }

    /** `new_cylinder`: defaults filled in by `CylinderDefaults`; `Err` is the panic. */
    static method NewCylinder(h: Heap, height: PositiveF64, bottomRadius: PositiveF64, topRadius: Option<PositiveF64>,
                              circularSegments: Option<PositiveI32>, originAtCenter: bool)
      returns (r: Result<Manifold, Error>)
      requires h.Valid()
      modifies h
      ensures h.Valid()
      ensures ProducesChecked(h, CylinderCall(ManifoldParams.CylinderDefaults(height, bottomRadius, topRadius,
                                                                              circularSegments, originAtCenter)), r)
    {
      var a := ManifoldParams.CylinderDefaults(height, bottomRadius, topRadius, circularSegments, originAtCenter);
      r := NewCylinderUnchecked(h, a.height, a.bottomRadius, a.topRadius, a.circularSegments, originAtCenter);
    }

    /** `new_sphere_unchecked`: the segment count is cast from `f64` to `c_int`. */
    static method NewSphereUnchecked(h: Heap, radius: real, circularSegments: real) returns (r: Result<Manifold, Error>)
      requires h.Valid()
      modifies h
      ensures h.Valid()
      ensures ProducesChecked(h, SphereCall(radius, F64AsI32(circularSegments)), r)
    {
      r := ProduceChecked(h, SphereCall(radius, F64AsI32(circularSegments)));
    }

    /** `new_sphere`: missing segments become 0; `Err` is the panic of its `unwrap`. */
    static method NewSphere(h: Heap, radius: PositiveF64, circularSegments: Option<PositiveI32>) returns (r: Result<Manifold, Error>)
      requires h.Valid()
      modifies h
      ensures h.Valid()
      ensures ProducesChecked(h, SphereCall(radius.value, ManifoldParams.SphereSegments(circularSegments)), r)
    {
      r := NewSphereUnchecked(h, radius.value, ManifoldParams.SegmentsOrDefault(circularSegments) as real);
    }

    /** `new_empty`. */
    static method NewEmpty(h: Heap) returns (m: Manifold)
      requires h.Valid()
      modifies h
      ensures Produces(h, m, Call(Empty, []))
    {
      m := Produce(h, Call(Empty, []));
    }

    /** `from_mesh_gl`, that is `TryFrom<&MeshGL>`: `manifold_of_meshgl`, then `check_error`. */
    static method FromMeshGL(mesh: MeshGL) returns (r: Result<Manifold, Error>)
      requires mesh.Valid()
      modifies mesh.heap
      ensures mesh.heap.Valid()
      ensures ProducesChecked(mesh.heap, Call(OfMeshGL, [Obj(mesh.ptr)]), r)
      ensures r.Err? ==> mesh.Valid()
    {
      r := ProduceChecked(mesh.heap, Call(OfMeshGL, [Obj(mesh.ptr)]));
    }

    /** `boolean`: the operation reaches the kernel as its `ManifoldOpType` code. */
    method Boolean(other: Manifold, op: ManifoldParams.BooleanOperation) returns (r: Manifold)
      requires Valid() && other.heap == heap && other.Valid()
      modifies heap
      ensures Yields(r, Call(Fn.Boolean, [Obj(ptr), Obj(other.ptr), Int(ManifoldParams.ToOpType(heap.kernel.opTypes, op))]))
      ensures other.Valid() && r.ptr != other.ptr
    {
      r := Produce(heap, Call(Fn.Boolean, [Obj(ptr), Obj(other.ptr), Int(ManifoldParams.ToOpType(heap.kernel.opTypes, op))]));
    }

    /**
     * `batch_boolean`. With no others it is `clone`. Otherwise a kernel vector of `n + 1`
     * slots is made and slot `i` set to `[self] + others` at `i`, in order, before the batch
     * call; the vector is never deleted. `None` is the panic for `n >= usize::MAX`.
     */
    method BatchBoolean(others: seq<Manifold>, op: ManifoldParams.BooleanOperation) returns (r: Option<Manifold>)
      requires Valid() && AllValid(heap, others)
      modifies heap
      ensures Valid() && AllValid(heap, others)
      ensures r.None? <==> |others| >= USIZE_MAX
      ensures r.None? ==> heap.Unchanged()
      ensures |others| == 0 ==> r.Some? && Yields(r.value, Call(Copy, [Obj(ptr)]))
      ensures 0 < |others| < USIZE_MAX ==> r.Some? && BatchYields(r.value, others, op)
    {
      if |others| == 0 {
        var c := Clone();
        return Some(c);
      }
      if |others| >= USIZE_MAX {
        return None;
      }
      var m := BatchOfMany(others, op);
      r := Some(m);
    }

    /** The `n > 0` branch of `batch_boolean`. */
    method BatchOfMany(others: seq<Manifold>, op: ManifoldParams.BooleanOperation) returns (m: Manifold)
      requires Valid() && AllValid(heap, others) && 0 < |others|
      modifies heap
      ensures AllValid(heap, others) && BatchYields(m, others, op)
    {
      var slots := [ptr] + Handles(others);
      m := BatchOf(heap, slots, op);
      assert AllValid(heap, others) by {
        forall i | 0 <= i < |others| ensures others[i].Valid() {
          assert old(others[i].Valid());
        }
      }
    }

    /** The calls of `batch_boolean` for `n > 0`: fill a vector with `slots`, then the batch call. */
    static method BatchOf(h: Heap, slots: seq<Ptr>, op: ManifoldParams.BooleanOperation) returns (m: Manifold)
      requires h.Valid() && forall i :: 0 <= i < |slots| ==> slots[i] in h.live
      modifies h
      ensures var vec := old(h.NextAddr());
        && fresh(m) && m.heap == h && m.Valid()
        && m.ptr == Addr(old(h.next) + 1) && m.ptr !in old(h.live) && h.next == old(h.next) + 2
        && h.live == old(h.live) + {vec, m.ptr}
        && h.kinds == old(h.kinds)[vec := ManifoldVecKind][m.ptr := ManifoldKind]
        && h.contents == old(h.contents)[vec := VecValue(vec, |slots|, slots, old(h.contents))]
                                        [m.ptr := BatchResult(h.kernel, vec, slots, op, old(h.contents))]
        && h.owned == old(h.owned) + {m.ptr}
        && h.Leaked() == old(h.Leaked()) + {vec}
        && h.trace == old(h.trace) + [Call(ManifoldVecNew, [Size(|slots|)])] + SetCalls(vec, slots)
                      + [BatchCall(h.kernel.opTypes, vec, op)]
        && h.faults == old(h.faults)
    {
      var vec := FillVector(h, slots);
      m := ProduceBatch(h, vec, op);
    }

    /** `manifold_batch_boolean` on a filled vector: a new manifold made from what the vector holds. */
    static method ProduceBatch(h: Heap, vec: Ptr, op: ManifoldParams.BooleanOperation) returns (m: Manifold)
      requires h.Valid() && vec in h.live
      modifies h
      ensures Produces(h, m, BatchCall(h.kernel.opTypes, vec, op)) && m.ptr !in old(h.live)
      ensures m.Content() == Built(BatchCall(h.kernel.opTypes, vec, op), [old(h.contents)[vec], NoRead], 0)
    {
      h.NextAddrIsNew();
      InputsOfFew(h.contents[h.NextAddr() := Uninit], BatchCall(h.kernel.opTypes, vec, op).args);
      m := Produce(h, BatchCall(h.kernel.opTypes, vec, op));
    }

    /** The effect `batch_boolean` promises for `n > 0` others. */
    twostate predicate BatchYields(new r: Manifold, others: seq<Manifold>, op: ManifoldParams.BooleanOperation)
      reads this, heap, r
    {
      var vec := old(heap.NextAddr());
      var slots := [ptr] + Handles(others);
      && fresh(r) && r.heap == heap && r.Valid() && Valid()
      && r.ptr == Addr(old(heap.next) + 1) && r.ptr != ptr
      && heap.next == old(heap.next) + 2
      && heap.live == old(heap.live) + {vec, r.ptr}
      && heap.kinds == old(heap.kinds)[vec := ManifoldVecKind][r.ptr := ManifoldKind]
      && heap.contents == old(heap.contents)[vec := VecValue(vec, |slots|, slots, old(heap.contents))]
                                            [r.ptr := BatchResult(heap.kernel, vec, slots, op, old(heap.contents))]
      && r.Content() == BatchResult(heap.kernel, vec, slots, op, old(heap.contents))
      && heap.owned == old(heap.owned) + {r.ptr}
      && heap.Leaked() == old(heap.Leaked()) + {vec}
      && heap.trace == old(heap.trace) + [Call(ManifoldVecNew, [Size(|slots|)])] + SetCalls(vec, slots)
                       + [BatchCall(heap.kernel.opTypes, vec, op)]
      && heap.faults == old(heap.faults)
    }

    /**
     * `batch_boolean` as it evidently should end: the same calls, then the batch vector is
     * deleted, so nothing leaks.
     */
    method BatchBooleanCorrected(others: seq<Manifold>, op: ManifoldParams.BooleanOperation) returns (r: Option<Manifold>)
      requires Valid() && AllValid(heap, others)
      modifies heap
      ensures Valid() && AllValid(heap, others)
      ensures r.None? <==> |others| >= USIZE_MAX
      ensures r.None? ==> heap.Unchanged()
      ensures |others| == 0 ==> r.Some? && Yields(r.value, Call(Copy, [Obj(ptr)]))
      ensures 0 < |others| < USIZE_MAX ==> r.Some? && BatchFreed(r.value, others, op)
      ensures r.Some? ==> fresh(r.value) && r.value.heap == heap && r.value.Valid() && r.value.ptr != ptr
      ensures r.Some? ==> heap.Leaked() == old(heap.Leaked()) && heap.live == old(heap.live) + {r.value.ptr}
      ensures heap.faults == old(heap.faults)
    {
      if |others| == 0 {
        var c := Clone();
        return Some(c);
      }
      if |others| >= USIZE_MAX {
        return None;
      }
      var m := BatchOfManyAndFree(others, op);
      r := Some(m);
    }

    /** The `n > 0` branch of the corrected `batch_boolean`: the batch, then the vector deleted. */
    method BatchOfManyAndFree(others: seq<Manifold>, op: ManifoldParams.BooleanOperation) returns (m: Manifold)
      requires Valid() && AllValid(heap, others) && 0 < |others|
      modifies heap
      ensures AllValid(heap, others) && BatchFreed(m, others, op)
    {
      var vec := heap.NextAddr();
      m := BatchOfMany(others, op);
      heap.Delete(vec, ManifoldVecKind);
      UpdateSetThenRemove(old(heap.kinds), vec, ManifoldVecKind, m.ptr, ManifoldKind);
      UpdateSetThenRemove(old(heap.contents), vec, VecValue(vec, |others| + 1, [ptr] + Handles(others), old(heap.contents)),
        m.ptr, BatchResult(heap.kernel, vec, [ptr] + Handles(others), op, old(heap.contents)));
      assert AllValid(heap, others) by {
        forall i | 0 <= i < |others| ensures others[i].Valid() {
          assert old(others[i].Valid());
        }
      }
    }

    /**
     * The effect the corrected `batch_boolean` promises for `n > 0` others: one new manifold
     * holding the batch result; the vector is gone again, and nothing else changed.
     */
    twostate predicate BatchFreed(new r: Manifold, others: seq<Manifold>, op: ManifoldParams.BooleanOperation)
      reads this, heap, r
    {
      var vec := old(heap.NextAddr());
      var slots := [ptr] + Handles(others);
      var v := BatchResult(heap.kernel, vec, slots, op, old(heap.contents));
      && fresh(r) && r.heap == heap && r.Valid() && Valid()
      && r.ptr == Addr(old(heap.next) + 1) && r.ptr != ptr && r.Content() == v
      && heap.next == old(heap.next) + 2
      && heap.live == old(heap.live) + {r.ptr}
      && heap.kinds == old(heap.kinds)[r.ptr := ManifoldKind]
      && heap.contents == old(heap.contents)[r.ptr := v]
      && heap.owned == old(heap.owned) + {r.ptr}
      && heap.Leaked() == old(heap.Leaked())
      && heap.trace == old(heap.trace) + [Call(ManifoldVecNew, [Size(|slots|)])] + SetCalls(vec, slots)
                       + [BatchCall(heap.kernel.opTypes, vec, op)]
      && heap.faults == old(heap.faults)
    }

    /** `union`. */
    method Union(other: Manifold) returns (r: Manifold)
      requires Valid() && other.heap == heap && other.Valid()
      modifies heap
      ensures Yields(r, Call(Fn.Union, [Obj(ptr), Obj(other.ptr)])) && other.Valid() && r.ptr != other.ptr
    {
      r := Produce(heap, Call(Fn.Union, [Obj(ptr), Obj(other.ptr)]));
    }

    /** `difference`. */
    method Difference(other: Manifold) returns (r: Manifold)
      requires Valid() && other.heap == heap && other.Valid()
      modifies heap
      ensures Yields(r, Call(Fn.Difference, [Obj(ptr), Obj(other.ptr)])) && other.Valid() && r.ptr != other.ptr
    {
      r := Produce(heap, Call(Fn.Difference, [Obj(ptr), Obj(other.ptr)]));
    }

    /** `intersection`. */
    method Intersection(other: Manifold) returns (r: Manifold)
      requires Valid() && other.heap == heap && other.Valid()
      modifies heap
      ensures Yields(r, Call(Fn.Intersection, [Obj(ptr), Obj(other.ptr)])) && other.Valid() && r.ptr != other.ptr
    {
      r := Produce(heap, Call(Fn.Intersection, [Obj(ptr), Obj(other.ptr)]));
    }

    /** Allocate two manifolds, let one call fill both, and wrap them in order. */
    method ProducePair(c: Call) returns (first: Manifold, second: Manifold)
      requires Valid() && HandleArgsIn(c.args, heap.live)
      modifies heap
      ensures fresh(first) && fresh(second) && first.heap == heap && second.heap == heap
      ensures first.Valid() && second.Valid() && Valid()
      ensures first.ptr != second.ptr && first.ptr != ptr && second.ptr != ptr
      ensures heap.ProducedPair(first.ptr, second.ptr, ManifoldKind, c) && heap.faults == old(heap.faults)
    {
      var p := heap.Alloc(ManifoldKind);
      var q := heap.Alloc(ManifoldKind);
      ReadsWithin(heap.contents, c.args, old(heap.live));
      assert heap.Dead(c) == {};
      heap.InvokePair(p, q, c);
      first := new Manifold.FromPtr(heap, p);
      second := new Manifold.FromPtr(heap, q);
    }

    /** `split`: two new, distinct manifolds from one call. */
    method Split(other: Manifold) returns (first: Manifold, second: Manifold)
      requires Valid() && other.heap == heap && other.Valid()
      modifies heap
      ensures fresh(first) && fresh(second) && first.heap == heap && second.heap == heap
      ensures first.Valid() && second.Valid() && Valid() && other.Valid()
      ensures first.ptr != second.ptr && first.ptr != ptr && second.ptr != ptr
      ensures heap.ProducedPair(first.ptr, second.ptr, ManifoldKind, Call(Fn.Split, [Obj(ptr), Obj(other.ptr)]))
      ensures heap.faults == old(heap.faults)
    {
      first, second := ProducePair(Call(Fn.Split, [Obj(ptr), Obj(other.ptr)]));
    }

    /** `split_by_plane`: two new, distinct manifolds from one call. */
    method SplitByPlane(plane: ManifoldParams.Plane) returns (first: Manifold, second: Manifold)
      requires Valid()
      modifies heap
      ensures fresh(first) && fresh(second) && first.heap == heap && second.heap == heap
      ensures first.Valid() && second.Valid() && Valid()
      ensures first.ptr != second.ptr && first.ptr != ptr && second.ptr != ptr
      ensures heap.ProducedPair(first.ptr, second.ptr, ManifoldKind, Call(Fn.SplitByPlane, [Obj(ptr)] + PlaneArgs(plane)))
      ensures heap.faults == old(heap.faults)
    {
      first, second := ProducePair(Call(Fn.SplitByPlane, [Obj(ptr)] + PlaneArgs(plane)));
    }

    /** `trim_by_plane`. */
    method TrimByPlane(plane: ManifoldParams.Plane) returns (r: Manifold)
      requires Valid()
      modifies heap
      ensures Yields(r, Call(Fn.TrimByPlane, [Obj(ptr)] + PlaneArgs(plane)))
    {
      r := Produce(heap, Call(Fn.TrimByPlane, [Obj(ptr)] + PlaneArgs(plane)));
    }

    /** `translate`. */
    method Translate(translation: Vec3) returns (r: Manifold)
      requires Valid()
      modifies heap
      ensures Yields(r, TranslateCall(ptr, translation))
    {
      r := Produce(heap, TranslateCall(ptr, translation));
    }

    /** `rotate` as written: it issues `manifold_translate` with the rotation's components. */
    method Rotate(rotation: Vec3) returns (r: Manifold)
      requires Valid()
      modifies heap
      ensures Yields(r, TranslateCall(ptr, rotation))
    {
      r := Produce(heap, TranslateCall(ptr, rotation));
    }

    /** `rotate` as evidently intended: `manifold_rotate`. */
    method RotateCorrected(rotation: Vec3) returns (r: Manifold)
      requires Valid()
      modifies heap
      ensures Yields(r, RotateCall(ptr, rotation))
    {
      r := Produce(heap, RotateCall(ptr, rotation));
    }

    /** `scale`. */
    method Scale(scale: Vec3) returns (r: Manifold)
      requires Valid()
      modifies heap
      ensures Yields(r, Call(Fn.Scale, [Obj(ptr)] + VecArgs(scale)))
    {
      r := Produce(heap, Call(Fn.Scale, [Obj(ptr)] + VecArgs(scale)));
    }

    /** `mirror`. */
    method Mirror(normal: Vec3) returns (r: Manifold)
      requires Valid()
      modifies heap
      ensures Yields(r, Call(Fn.Mirror, [Obj(ptr)] + VecArgs(normal)))
    {
      r := Produce(heap, Call(Fn.Mirror, [Obj(ptr)] + VecArgs(normal)));
    }

    /** `warp`: the kernel is handed the trampoline that the warp's `ExternCWarpFn` impl names. */
    method Warp(warp: WarpMacro.Expansion) returns (r: Manifold)
      requires Valid()
      modifies heap
      ensures Yields(r, Call(Fn.Warp, [Obj(ptr), Callback(warp.externCWarpFn)]))
      ensures warp.externCWarpFn == warp.trampoline ==> Yields(r, Call(Fn.Warp, [Obj(ptr), Callback(warp.trampoline)]))
    {
      r := Produce(heap, Call(Fn.Warp, [Obj(ptr), Callback(warp.externCWarpFn)]));
    }

    /** `smooth_by_normals`. */
    method SmoothByNormals(vertexNormalPropertyIndex: MathNonNegativeNum.NonNegativeI32) returns (r: Manifold)
      requires Valid()
      modifies heap
      ensures Yields(r, Call(Fn.SmoothByNormals, [Obj(ptr), Int(vertexNormalPropertyIndex.value)]))
    {
      r := Produce(heap, Call(Fn.SmoothByNormals, [Obj(ptr), Int(MathNonNegativeNum.GetI32(vertexNormalPropertyIndex))]));
    }

    /** `smooth_out`: the angle in degrees and the smoothness, both as `f64`. */
    method SmoothOut(minSharpAngle: MathNormalizedAngle.NormalizedAngle, minSmoothness: ManifoldParams.MinimumSmoothness)
      returns (r: Manifold)
      requires Valid()
      modifies heap
      ensures Yields(r, Call(Fn.SmoothOut, [Obj(ptr), Real(minSharpAngle.degrees), Real(minSmoothness.value)]))
    {
      r := Produce(heap, Call(Fn.SmoothOut, [Obj(ptr), Real(MathNormalizedAngle.Into(minSharpAngle)),
                                             Real(ManifoldParams.SmoothnessIntoF64(minSmoothness))]));
    }

    /** `refine_via_edge_splits`. */
    method RefineViaEdgeSplits(edgeSplitCount: ManifoldParams.EdgeSplitCount) returns (r: Manifold)
      requires Valid()
      modifies heap
      ensures Yields(r, Call(Refine, [Obj(ptr), Int(edgeSplitCount.count.value)]))
    {
      r := Produce(heap, Call(Refine, [Obj(ptr), Int(ManifoldParams.EdgeSplitIntoI32(edgeSplitCount))]));
    }

    /** `refine_to_edge_length`. */
    method RefineToEdgeLength(edgeLength: MathNonNegativeNum.NonNegativeF64) returns (r: Manifold)
      requires Valid()
      modifies heap
      ensures Yields(r, Call(RefineToLength, [Obj(ptr), Real(edgeLength.value)]))
    {
      r := Produce(heap, Call(RefineToLength, [Obj(ptr), Real(MathNonNegativeNum.GetF64(edgeLength))]));
    }

    /** `refine_to_tolerance`. */
    method RefineToTolerance(tolerance: MathNonNegativeNum.NonNegativeF64) returns (r: Manifold)
      requires Valid()
      modifies heap
      ensures Yields(r, Call(Fn.RefineToTolerance, [Obj(ptr), Real(tolerance.value)]))
    {
      r := Produce(heap, Call(Fn.RefineToTolerance, [Obj(ptr), Real(MathNonNegativeNum.GetF64(tolerance))]));
    }

    /** `is_empty`: true iff the kernel answers exactly 1. */
    function IsEmpty(): (b: bool)
      reads this, heap
      requires Valid()
      ensures b <==> heap.kernel.intResult(Query(Call(Fn.IsEmpty, [Obj(ptr)]), [Content()])) == 1
    {
      InputsOfFew(heap.contents, [Obj(ptr)]);
      heap.kernel.intResult(heap.Ask(Call(Fn.IsEmpty, [Obj(ptr)]))) == 1
    }

    /** `vertex_count`: the kernel's answer about this manifold. */
    function VertexCount(): (n: u64)
      reads this, heap
      requires Valid()
      ensures n == heap.kernel.sizeResult(Query(Call(NumVert, [Obj(ptr)]), [Content()]))
    {
      InputsOfFew(heap.contents, [Obj(ptr)]);
      heap.kernel.sizeResult(heap.Ask(Call(NumVert, [Obj(ptr)])))
    }

    /** `edge_count`. */
    function EdgeCount(): (n: u64)
      reads this, heap
      requires Valid()
      ensures n == heap.kernel.sizeResult(Query(Call(NumEdge, [Obj(ptr)]), [Content()]))
    {
      InputsOfFew(heap.contents, [Obj(ptr)]);
      heap.kernel.sizeResult(heap.Ask(Call(NumEdge, [Obj(ptr)])))
    }

    /** `triangle_count`. */
    function TriangleCount(): (n: u64)
      reads this, heap
      requires Valid()
      ensures n == heap.kernel.sizeResult(Query(Call(NumTri, [Obj(ptr)]), [Content()]))
    {
      InputsOfFew(heap.contents, [Obj(ptr)]);
      heap.kernel.sizeResult(heap.Ask(Call(NumTri, [Obj(ptr)])))
    }

    /** `mesh`: a new `MeshGL` filled by `manifold_get_meshgl`. */
    method Mesh() returns (r: MeshGL)
      requires Valid()
      modifies heap
      ensures fresh(r) && r.heap == heap && r.Valid() && Valid()
      ensures heap.Produced(r.ptr, MeshGLKind, Call(GetMeshGL, [Obj(ptr)])) && heap.faults == old(heap.faults)
    {
      r := MeshGL.Produce(heap, Call(GetMeshGL, [Obj(ptr)]));
    }

    /** `bounding_box`: a new box filled by `manifold_bounding_box`. */
    method BoundingBox() returns (r: BoundingBoxes.BoundingBox)
      requires Valid()
      modifies heap
      ensures fresh(r) && r.heap == heap && r.Valid() && Valid()
      ensures heap.Produced(r.ptr, BoxKind, Call(BoundingBoxOf, [Obj(ptr)])) && heap.faults == old(heap.faults)
    {
      var p := heap.Alloc(BoxKind);
      ReadsWithin(heap.contents, [Obj(ptr)], heap.live);
      heap.Invoke(p, Call(BoundingBoxOf, [Obj(ptr)]), 0);
      r := new BoundingBoxes.BoundingBox.FromPtr(heap, p);
    }

    /** `impl Clone`: a distinct, freshly allocated handle filled by `manifold_copy`. */
    method Clone() returns (r: Manifold)
      requires Valid()
      modifies heap
      ensures Yields(r, Call(Copy, [Obj(ptr)]))
    {
      r := Produce(heap, Call(Copy, [Obj(ptr)]));
    }

    /** `impl Drop`: deletes the handle; afterwards the handle is no longer live. */
    method Drop()
      requires Valid()
      modifies heap
      ensures heap.Deleted(ptr) && !Valid()
    {
      heap.Delete(ptr, ManifoldKind);
    }
  }

  // ---------------------------------------------------------------------------------------
  // src/mesh_gl.rs

  /** `HalfEdgeIndex`, a `usize`. */
  type HalfEdgeIndex = u64

  /** `Iterator::unzip` of the pairs, keeping their order. */
  function Unzip(pairs: seq<(HalfEdgeIndex, real)>): (r: (seq<HalfEdgeIndex>, seq<real>))
    ensures |r.0| == |pairs| && |r.1| == |pairs|
    ensures forall i :: 0 <= i < |pairs| ==> r.0[i] == pairs[i].0 && r.1[i] == pairs[i].1
  {
    if |pairs| == 0 then ([], [])
    else
      var rest := Unzip(pairs[1..]);
      ([pairs[0].0] + rest.0, [pairs[0].1] + rest.1)
  }

  function Zip(indices: seq<HalfEdgeIndex>, smoothness: seq<real>): seq<(HalfEdgeIndex, real)>
    requires |indices| == |smoothness|
  {
    seq(|indices|, i requires 0 <= i < |indices| => (indices[i], smoothness[i]))
  }

  /** Unzipping loses nothing: zipping the two halves back gives the pairs. */
  lemma ZipUnzip(pairs: seq<(HalfEdgeIndex, real)>)
    ensures Zip(Unzip(pairs).0, Unzip(pairs).1) == pairs
  {
  }

  /** The pointers and length `smooth` hands the kernel, given the heap's next address `n`. */
  function SmoothBuffers(halfEdgeSmoothness: Option<seq<(HalfEdgeIndex, real)>>, n: nat): (Ptr, Ptr, nat)
  {
    match halfEdgeSmoothness
    case None => (Null, Null, 0)
    case Some(pairs) => if |pairs| == 0 then (Dangling, Dangling, 0) else (Addr(n), Addr(n + 1), |pairs|)
  }

  function SmoothCall(mesh: Ptr, buffers: (Ptr, Ptr, nat)): Call
  {
    Call(MeshGLSmooth, [Obj(mesh), Buf(buffers.0, buffers.2), Buf(buffers.1, buffers.2), Size(buffers.2)])
  }

  /** How many host buffers `smooth` allocates: two non-empty vectors, or none. */
  function HostAllocations(halfEdgeSmoothness: Option<seq<(HalfEdgeIndex, real)>>): nat
  {
    if halfEdgeSmoothness.Some? && |halfEdgeSmoothness.value| > 0 then 2 else 0
  }

  /** The host vectors among `smooth`'s buffers: none unless there are pairs. */
  function BufferSet(bufs: (Ptr, Ptr, nat)): set<Ptr>
  {
    if bufs.2 > 0 then {bufs.0, bufs.1} else {}
  }

  /** A buffer that is no longer live reads as `Garbage`, unless it is passed with length 0. */
  lemma FreedReads(contents: map<Ptr, Value>, live: set<Ptr>, bufs: (Ptr, Ptr, nat), at: Ptr)
    requires contents.Keys == live && BufferSet(bufs) !! live && at !in BufferSet(bufs)
    ensures var before := contents[at := Uninit];
      var v := if bufs.2 == 0 then NoRead else Garbage;
      ArgValue(before, Buf(bufs.0, bufs.2)) == v && ArgValue(before, Buf(bufs.1, bufs.2)) == v
  {
  }

  /** What `manifold_smooth` reads: the mesh, and both buffers when there are pairs. */
  lemma SmoothReads(contents: map<Ptr, Value>, mesh: Ptr, bufs: (Ptr, Ptr, nat))
    requires bufs.2 > 0 && bufs.0 in contents ==> !contents[bufs.0].HostPtrs?
    requires bufs.2 > 0 && bufs.1 in contents ==> !contents[bufs.1].HostPtrs?
    ensures Reads(contents, SmoothCall(mesh, bufs).args) == {mesh} + BufferSet(bufs)
    ensures Inputs(contents, SmoothCall(mesh, bufs).args) ==
      [ArgValue(contents, Obj(mesh)), ArgValue(contents, Buf(bufs.0, bufs.2)), ArgValue(contents, Buf(bufs.1, bufs.2)), NoRead]
  {
    var args := SmoothCall(mesh, bufs).args;
    assert args[1..][1..][1..][1..] == [];
    assert Reads(contents, args[1..][1..][1..]) == {};
    assert Reads(contents, args[1..][1..]) == ArgReads(contents, Buf(bufs.1, bufs.2));
    assert Reads(contents, args[1..]) == ArgReads(contents, Buf(bufs.0, bufs.2)) + ArgReads(contents, Buf(bufs.1, bufs.2));
    InputsOfFew(contents, args);
  }

  /** A `Vec<f32>` handed back to the caller: its buffer, length and capacity. */
  datatype F32Vec = F32Vec(buffer: Ptr, len: nat, capacity: nat)

  class MeshGL {
    const heap: Heap
    const ptr: Ptr

    ghost predicate Valid()
      reads this, heap
    {
      heap.Valid() && ptr in heap.owned && heap.kinds[ptr] == MeshGLKind
    }

    /** `MeshGL::from_ptr`. */
    constructor FromPtr(h: Heap, p: Ptr)
      requires h.Valid() && p in h.live && p !in h.owned && h.kinds[p] == MeshGLKind
      modifies h
      ensures heap == h && ptr == p && Valid()
      ensures h.Adopted(p)
    {
      heap := h;
      ptr := p;
      new;
      h.Adopt(p);
    }

    function Content(): Value
      reads this, heap
      requires Valid()
    {
      heap.contents[ptr]
    }

    /** Allocate a mesh, let the kernel fill it with `c`, and wrap it. */
    static method Produce(h: Heap, c: Call) returns (m: MeshGL)
      requires h.Valid() && HandleArgsIn(c.args, h.live)
      modifies h
      ensures fresh(m) && m.heap == h && m.Valid()
      ensures h.Produced(m.ptr, MeshGLKind, c) && h.faults == old(h.faults) && m.ptr !in old(h.live)
    {
      var p := h.Alloc(MeshGLKind);
      ReadsWithin(h.contents, c.args, h.live);
      h.Invoke(p, c, 0);
      m := new MeshGL.FromPtr(h, p);
    }

    /**
     * `merge`: `Some` wrapping the duplicate iff the kernel returns the duplicate's own
     * pointer; on `None` the duplicate is left allocated and nobody owns it.
     */
    method Merge() returns (r: Option<MeshGL>)
      requires Valid()
      modifies heap
      ensures Valid()
      ensures var dup := old(heap.NextAddr());
        && (r.Some? <==> heap.kernel.returned(dup, Query(Call(MeshGLMerge, [Obj(ptr)]), [old(Content())])) == dup)
        && (r.Some? ==> fresh(r.value) && r.value.heap == heap && r.value.ptr == dup && r.value.Valid())
        && heap.live == old(heap.live) + {dup} && heap.kinds == old(heap.kinds)[dup := MeshGLKind]
        && heap.contents == old(heap.contents)[dup := Built(Call(MeshGLMerge, [Obj(ptr)]), [old(Content())], 0)]
        && heap.trace == old(heap.trace) + [Call(MeshGLMerge, [Obj(ptr)])]
        && (r.Some? ==> heap.owned == old(heap.owned) + {dup} && heap.Leaked() == old(heap.Leaked()))
        && (r.None? ==> heap.owned == old(heap.owned) && heap.Leaked() == old(heap.Leaked()) + {dup})
        && heap.next == old(heap.next) + 1 && heap.faults == old(heap.faults)
    {
      var dup := heap.Alloc(MeshGLKind);
      InputsOfFew(heap.contents, [Obj(ptr)]);
      ReadsWithin(heap.contents, [Obj(ptr)], heap.live);
      var returned := heap.InvokeReturning(dup, Call(MeshGLMerge, [Obj(ptr)]));
      if dup == returned {
        var m := new MeshGL.FromPtr(heap, dup);
        return Some(m);
      }
      return None;
    }

    /** `merge` as it evidently should end: on `None` the duplicate is deleted. */
    method MergeCorrected() returns (r: Option<MeshGL>)
      requires Valid()
      modifies heap
      ensures Valid()
      ensures var dup := old(heap.NextAddr());
        && (r.Some? <==> heap.kernel.returned(dup, Query(Call(MeshGLMerge, [Obj(ptr)]), [old(Content())])) == dup)
        && (r.Some? ==> fresh(r.value) && r.value.heap == heap && r.value.ptr == dup && r.value.Valid())
        && (r.Some? ==>
              && heap.live == old(heap.live) + {dup} && heap.kinds == old(heap.kinds)[dup := MeshGLKind]
              && heap.contents == old(heap.contents)[dup := Built(Call(MeshGLMerge, [Obj(ptr)]), [old(Content())], 0)]
              && heap.owned == old(heap.owned) + {dup})
        && (r.None? ==>
              && heap.live == old(heap.live) && heap.kinds == old(heap.kinds)
              && heap.contents == old(heap.contents) && heap.owned == old(heap.owned))
        && heap.next == old(heap.next) + 1
        && heap.trace == old(heap.trace) + [Call(MeshGLMerge, [Obj(ptr)])]
        && heap.Leaked() == old(heap.Leaked())
        && heap.faults == old(heap.faults)
    {
      var dup := heap.NextAddr();
      ghost var live, kinds, contents := heap.live, heap.kinds, heap.contents;
      r := Merge();
      if r.None? {
        AddThenRemove(live, {dup});
        UpdateThenRemove(kinds, dup, MeshGLKind);
        UpdateThenRemove(contents, dup, heap.contents[dup]);
        heap.Delete(dup, MeshGLKind);
      }
    }

    /** Two new host vectors holding `indices` and `smoothness`, allocated in that order. */
    method StageVectors(indices: seq<HalfEdgeIndex>, smoothness: seq<real>) returns (indicesPtr: Ptr, smoothnessPtr: Ptr)
      requires Valid()
      modifies heap
      ensures Valid()
      ensures indicesPtr == Addr(old(heap.next)) && smoothnessPtr == Addr(old(heap.next) + 1)
      ensures heap.next == old(heap.next) + 2 && heap.live == old(heap.live) + {indicesPtr, smoothnessPtr}
      ensures heap.Leaked() == old(heap.Leaked()) + {indicesPtr, smoothnessPtr}
      ensures heap.kinds == old(heap.kinds)[indicesPtr := HostBuffer][smoothnessPtr := HostBuffer]
      ensures heap.contents == old(heap.contents)[indicesPtr := HostIndices(indices)][smoothnessPtr := HostReals(smoothness)]
      ensures heap.owned == old(heap.owned)
      ensures heap.trace == old(heap.trace) && heap.faults == old(heap.faults)
    {
      indicesPtr := heap.AllocHost(HostIndices(indices));
      smoothnessPtr := heap.AllocHost(HostReals(smoothness));
    }

    /**
     * The match in `smooth`: `None` passes null pointers, an empty vector dangling ones, and
     * otherwise the unzipped pairs are moved into two new host vectors, indices first.
     */
    method StageSmoothness(halfEdgeSmoothness: Option<seq<(HalfEdgeIndex, real)>>) returns (bufs: (Ptr, Ptr, nat))
      requires Valid()
      modifies heap
      ensures Valid()
      ensures bufs == SmoothBuffers(halfEdgeSmoothness, old(heap.next))
      ensures heap.next == old(heap.next) + HostAllocations(halfEdgeSmoothness)
      ensures bufs.2 > 0 ==> bufs.0 != bufs.1 && bufs.0 !in old(heap.live) && bufs.1 !in old(heap.live)
      ensures heap.live == old(heap.live) + BufferSet(bufs) && heap.owned == old(heap.owned)
      ensures HostAllocations(halfEdgeSmoothness) == 0 ==> heap.kinds == old(heap.kinds) && heap.contents == old(heap.contents)
      ensures HostAllocations(halfEdgeSmoothness) == 2 ==>
        var halves := Unzip(halfEdgeSmoothness.value);
        && heap.kinds == old(heap.kinds)[bufs.0 := HostBuffer][bufs.1 := HostBuffer]
        && heap.contents == old(heap.contents)[bufs.0 := HostIndices(halves.0)][bufs.1 := HostReals(halves.1)]
      ensures heap.trace == old(heap.trace) && heap.faults == old(heap.faults)
    {
      bufs := (Null, Null, 0);
      if halfEdgeSmoothness.Some? {
        var halves := Unzip(halfEdgeSmoothness.value);
        if |halfEdgeSmoothness.value| == 0 {
          bufs := (Dangling, Dangling, 0);
        } else {
          var indicesPtr, smoothnessPtr := StageVectors(halves.0, halves.1);
          bufs := (indicesPtr, smoothnessPtr, |halves.0|);
        }
      }
    }

    /**
     * The kernel call of `smooth` on the buffers `bufs`, into a new manifold `out` that
     * `check_error` then inspects. The kernel sees what each buffer holds at that moment.
     */
    method CallSmooth(bufs: (Ptr, Ptr, nat), ghost indices: Value, ghost smoothness: Value) returns (r: Result<Manifold, Error>)
      requires Valid()
      requires bufs.2 > 0 && bufs.0 in heap.contents ==> !heap.contents[bufs.0].HostPtrs?
      requires bufs.2 > 0 && bufs.1 in heap.contents ==> !heap.contents[bufs.1].HostPtrs?
      requires bufs.2 > 0 ==> bufs.0 != heap.NextAddr() && bufs.1 != heap.NextAddr()
      requires var before := heap.contents[heap.NextAddr() := Uninit];
        ArgValue(before, Buf(bufs.0, bufs.2)) == indices && ArgValue(before, Buf(bufs.1, bufs.2)) == smoothness
      modifies heap
      ensures Valid()
      ensures var out := old(heap.NextAddr());
        var seen := [old(Content()), indices, smoothness, NoRead];
        var v := Built(SmoothCall(ptr, bufs), seen, 0);
        var e := Outcome(heap.kernel, v);
        && heap.Leaked() == old(heap.Leaked())
        && heap.next == old(heap.next) + 1
        && heap.live == old(heap.live) + (if r.Ok? then {out} else {})
        && heap.kinds == (if r.Ok? then old(heap.kinds)[out := ManifoldKind] else old(heap.kinds))
        && heap.contents == (if r.Ok? then old(heap.contents)[out := v] else old(heap.contents))
        && heap.owned == (if r.Ok? then old(heap.owned) + {out} else old(heap.owned))
        && heap.trace == old(heap.trace) + [SmoothCall(ptr, bufs)]
        && heap.faults == old(heap.faults) + (BufferSet(bufs) - old(heap.live))
        && (r.Ok? <==> e == ManifoldErrors.NoError)
        && (r.Ok? ==> && fresh(r.value) && r.value.heap == heap && r.value.ptr == out && r.value.Valid()
                      && r.value.Content() == v)
        && (r.Err? ==> r.error == e)
    {
      SmoothReads(heap.contents[heap.NextAddr() := Uninit], ptr, bufs);
      ReadsBeyond(heap.live, ptr, BufferSet(bufs), heap.NextAddr());
      OwnNew(heap.live, heap.owned, heap.NextAddr());
      r := Manifold.FillChecked(heap, SmoothCall(ptr, bufs));
    }

    /** The end of the match arm in `smooth`: both host vectors, if any, are dropped. */
    method DropVectors(bufs: (Ptr, Ptr, nat))
      requires Valid()
      requires bufs.2 > 0 ==> && bufs.0 != bufs.1 && bufs.0 in heap.live && bufs.1 in heap.live
                              && heap.kinds[bufs.0] == HostBuffer && heap.kinds[bufs.1] == HostBuffer
      modifies heap
      ensures Valid()
      ensures heap.live == old(heap.live) - BufferSet(bufs) && heap.Leaked() == old(heap.Leaked()) - BufferSet(bufs)
      ensures heap.kinds == old(heap.kinds) - BufferSet(bufs) && heap.contents == old(heap.contents) - BufferSet(bufs)
      ensures heap.owned == old(heap.owned) - BufferSet(bufs)
      ensures heap.next == old(heap.next) && heap.trace == old(heap.trace) && heap.faults == old(heap.faults)
    {
      if bufs.2 > 0 {
        heap.Delete(bufs.0, HostBuffer);
        heap.Delete(bufs.1, HostBuffer);
        RemoveTwice(old(heap.live), bufs.0, bufs.1);
        RemoveTwice(old(heap.owned), bufs.0, bufs.1);
        RemoveKeysTwice(old(heap.kinds), bufs.0, bufs.1);
        RemoveKeysTwice(old(heap.contents), bufs.0, bufs.1);
      } else {
        assert old(heap.kinds) - {} == old(heap.kinds) && old(heap.contents) - {} == old(heap.contents);
      }
    }

    /**
     * The match in `smooth` as written: the vectors are made and, as the arm ends, dropped
     * again, so only their addresses remain, dangling, and they read as `Garbage`.
     */
    method StageAndDrop(halfEdgeSmoothness: Option<seq<(HalfEdgeIndex, real)>>) returns (bufs: (Ptr, Ptr, nat))
      requires Valid()
      modifies heap
      ensures Valid()
      ensures bufs == SmoothBuffers(halfEdgeSmoothness, old(heap.next))
      ensures heap.next == old(heap.next) + HostAllocations(halfEdgeSmoothness)
      ensures BufferSet(bufs) !! heap.live && heap.NextAddr() !in BufferSet(bufs)
      ensures heap.live == old(heap.live) && heap.owned == old(heap.owned)
      ensures heap.kinds == old(heap.kinds) && heap.contents == old(heap.contents)
      ensures heap.trace == old(heap.trace) && heap.faults == old(heap.faults)
      ensures var before := heap.contents[heap.NextAddr() := Uninit];
        var v := if bufs.2 == 0 then NoRead else Garbage;
        ArgValue(before, Buf(bufs.0, bufs.2)) == v && ArgValue(before, Buf(bufs.1, bufs.2)) == v
    {
      ghost var live, kinds, contents := heap.live, heap.kinds, heap.contents;
      bufs := StageSmoothness(halfEdgeSmoothness);
      DropVectors(bufs);
      AddThenRemove(live, BufferSet(bufs));
      if bufs.2 > 0 {
        var halves := Unzip(halfEdgeSmoothness.value);
        UpdateTwiceThenRemove(kinds, bufs.0, bufs.1, HostBuffer, HostBuffer);
        UpdateTwiceThenRemove(contents, bufs.0, bufs.1, HostIndices(halves.0), HostReals(halves.1));
      }
      FreedReads(heap.contents, heap.live, bufs, heap.NextAddr());
    }

    /**
     * `smooth` as written. The two unzipped vectors are owned by the `match` arm and freed
     * when it ends, before `manifold_smooth` reads them: when there are pairs, the kernel reads
     * two freed buffers (they join `faults`) and sees `Garbage` instead of the pairs.
     */
    method Smooth(halfEdgeSmoothness: Option<seq<(HalfEdgeIndex, real)>>) returns (r: Result<Manifold, Error>)
      requires Valid()
      modifies heap
      ensures Valid() && heap.Leaked() == old(heap.Leaked())
      ensures var bufs := SmoothBuffers(halfEdgeSmoothness, old(heap.next));
        var out := Addr(old(heap.next) + HostAllocations(halfEdgeSmoothness));
        var seen := if HostAllocations(halfEdgeSmoothness) == 0 then [old(Content()), NoRead, NoRead, NoRead]
                    else [old(Content()), Garbage, Garbage, NoRead];
        var e := Outcome(heap.kernel, Built(SmoothCall(ptr, bufs), seen, 0));
        && heap.next == old(heap.next) + HostAllocations(halfEdgeSmoothness) + 1
        && heap.live == old(heap.live) + (if r.Ok? then {out} else {})
        && heap.kinds == (if r.Ok? then old(heap.kinds)[out := ManifoldKind] else old(heap.kinds))
        && heap.contents == (if r.Ok? then old(heap.contents)[out := Built(SmoothCall(ptr, bufs), seen, 0)] else old(heap.contents))
        && heap.owned == (if r.Ok? then old(heap.owned) + {out} else old(heap.owned))
        && heap.trace == old(heap.trace) + [SmoothCall(ptr, bufs)]
        && heap.faults == old(heap.faults) + BufferSet(bufs)
        && (r.Ok? <==> e == ManifoldErrors.NoError)
        && (r.Ok? ==> fresh(r.value) && r.value.heap == heap && r.value.ptr == out && r.value.Valid()
                      && r.value.Content() == Built(SmoothCall(ptr, bufs), seen, 0))
        && (r.Err? ==> r.error == e)
    {
      var bufs := StageAndDrop(halfEdgeSmoothness);
      assert heap.NextAddr() == Addr(old(heap.next) + HostAllocations(halfEdgeSmoothness));
      ghost var freed := if bufs.2 == 0 then NoRead else Garbage;
      r := CallSmooth(bufs, freed, freed);
    }

    /** The kernel call of `smooth` while both vectors are alive, and their drop after it. */
    method CallThenDrop(bufs: (Ptr, Ptr, nat), ghost indices: Value, ghost smoothness: Value) returns (r: Result<Manifold, Error>)
      requires Valid() && bufs.2 > 0
      requires && bufs.0 != bufs.1 && bufs.0 in heap.live && bufs.1 in heap.live
               && heap.kinds[bufs.0] == HostBuffer && heap.kinds[bufs.1] == HostBuffer
               && !heap.contents[bufs.0].HostPtrs? && !heap.contents[bufs.1].HostPtrs?
      requires var before := heap.contents[heap.NextAddr() := Uninit];
        ArgValue(before, Buf(bufs.0, bufs.2)) == indices && ArgValue(before, Buf(bufs.1, bufs.2)) == smoothness
      modifies heap
      ensures Valid() && heap.Leaked() == old(heap.Leaked()) - BufferSet(bufs) && heap.faults == old(heap.faults)
      ensures var out := old(heap.NextAddr());
        var v := Built(SmoothCall(ptr, bufs), [old(Content()), indices, smoothness, NoRead], 0);
        var e := Outcome(heap.kernel, v);
        && heap.next == old(heap.next) + 1
        && heap.live == old(heap.live) - BufferSet(bufs) + (if r.Ok? then {out} else {})
        && heap.kinds == (if r.Ok? then old(heap.kinds)[out := ManifoldKind] else old(heap.kinds)) - BufferSet(bufs)
        && heap.contents == (if r.Ok? then old(heap.contents)[out := v] else old(heap.contents)) - BufferSet(bufs)
        && heap.owned == (if r.Ok? then old(heap.owned) + {out} else old(heap.owned)) - BufferSet(bufs)
        && heap.trace == old(heap.trace) + [SmoothCall(ptr, bufs)]
        && (r.Ok? <==> e == ManifoldErrors.NoError)
        && (r.Ok? ==> fresh(r.value) && r.value.heap == heap && r.value.ptr == out && r.value.Valid()
                      && r.value.Content() == v)
        && (r.Err? ==> r.error == e)
    {
      ghost var out := heap.NextAddr();
      heap.NextAddrIsNew();
      assert bufs.0 != out && bufs.1 != out && out !in BufferSet(bufs);
      assert BufferSet(bufs) - heap.live == {};
      r := CallSmooth(bufs, indices, smoothness);
      assert heap.faults == old(heap.faults) + {};
      DropVectors(bufs);
      MadeThenDrop(old(heap.live), BufferSet(bufs), if r.Ok? then {out} else {});
    }

    /**
     * `smooth` as evidently intended, when there are pairs: the two vectors are made, the
     * kernel reads the indices and smoothness values in order while they are alive, and they
     * are freed afterwards.
     */
    method SmoothPairs(pairs: seq<(HalfEdgeIndex, real)>) returns (r: Result<Manifold, Error>)
      requires Valid() && |pairs| > 0
      modifies heap
      ensures Valid() && heap.Leaked() == old(heap.Leaked()) && heap.faults == old(heap.faults)
      ensures var bufs := (Addr(old(heap.next)), Addr(old(heap.next) + 1), |pairs|);
        var out := Addr(old(heap.next) + 2);
        var seen := [old(Content()), HostIndices(Unzip(pairs).0), HostReals(Unzip(pairs).1), NoRead];
        var e := Outcome(heap.kernel, Built(SmoothCall(ptr, bufs), seen, 0));
        && heap.next == old(heap.next) + 3
        && heap.live == old(heap.live) + (if r.Ok? then {out} else {})
        && heap.kinds == (if r.Ok? then old(heap.kinds)[out := ManifoldKind] else old(heap.kinds))
        && heap.contents == (if r.Ok? then old(heap.contents)[out := Built(SmoothCall(ptr, bufs), seen, 0)] else old(heap.contents))
        && heap.owned == (if r.Ok? then old(heap.owned) + {out} else old(heap.owned))
        && heap.trace == old(heap.trace) + [SmoothCall(ptr, bufs)]
        && (r.Ok? <==> e == ManifoldErrors.NoError)
        && (r.Ok? ==> fresh(r.value) && r.value.heap == heap && r.value.ptr == out && r.value.Valid()
                      && r.value.Content() == Built(SmoothCall(ptr, bufs), seen, 0))
        && (r.Err? ==> r.error == e)
    {
      var halves := Unzip(pairs);
      var indicesPtr, smoothnessPtr := StageVectors(halves.0, halves.1);
      var bufs := (indicesPtr, smoothnessPtr, |pairs|);
      ghost var before := heap.contents[heap.NextAddr() := Uninit];
      assert before[ptr] == old(Content());
      assert ArgValue(before, Buf(bufs.0, bufs.2)) == HostIndices(halves.0);
      assert ArgValue(before, Buf(bufs.1, bufs.2)) == HostReals(halves.1);
      ghost var out := heap.NextAddr();
      r := CallThenDrop(bufs, HostIndices(halves.0), HostReals(halves.1));
      AddThenRemove(old(heap.Leaked()), BufferSet(bufs));
      StageCallDrop(old(heap.live), BufferSet(bufs), if r.Ok? then {out} else {});
      RemoveAbsent(if r.Ok? then old(heap.owned) + {out} else old(heap.owned), BufferSet(bufs));
      StagedThenDropped(old(heap.kinds), bufs.0, bufs.1, HostBuffer, HostBuffer, BufferSet(bufs), r.Ok?, out, ManifoldKind);
      StagedThenDropped(old(heap.contents), bufs.0, bufs.1, HostIndices(halves.0), HostReals(halves.1), BufferSet(bufs), r.Ok?,
        out, Built(SmoothCall(ptr, bufs), [old(Content()), HostIndices(halves.0), HostReals(halves.1), NoRead], 0));
    }

    /**
     * `smooth` as evidently intended: `None` and an empty vector pass no buffers; otherwise
     * the vectors outlive the kernel call, which then reads the indices and smoothness values
     * in order, and they are freed afterwards.
     */
    method SmoothCorrected(halfEdgeSmoothness: Option<seq<(HalfEdgeIndex, real)>>) returns (r: Result<Manifold, Error>)
      requires Valid()
      modifies heap
      ensures Valid() && heap.Leaked() == old(heap.Leaked()) && heap.faults == old(heap.faults)
      ensures var bufs := SmoothBuffers(halfEdgeSmoothness, old(heap.next));
        var out := Addr(old(heap.next) + HostAllocations(halfEdgeSmoothness));
        var seen := if HostAllocations(halfEdgeSmoothness) == 0 then [old(Content()), NoRead, NoRead, NoRead]
                    else [old(Content()), HostIndices(Unzip(halfEdgeSmoothness.value).0),
                          HostReals(Unzip(halfEdgeSmoothness.value).1), NoRead];
        var e := Outcome(heap.kernel, Built(SmoothCall(ptr, bufs), seen, 0));
        && heap.next == old(heap.next) + HostAllocations(halfEdgeSmoothness) + 1
        && heap.live == old(heap.live) + (if r.Ok? then {out} else {})
        && heap.kinds == (if r.Ok? then old(heap.kinds)[out := ManifoldKind] else old(heap.kinds))
        && heap.contents == (if r.Ok? then old(heap.contents)[out := Built(SmoothCall(ptr, bufs), seen, 0)] else old(heap.contents))
        && heap.owned == (if r.Ok? then old(heap.owned) + {out} else old(heap.owned))
        && heap.trace == old(heap.trace) + [SmoothCall(ptr, bufs)]
        && (r.Ok? <==> e == ManifoldErrors.NoError)
        && (r.Ok? ==> fresh(r.value) && r.value.heap == heap && r.value.ptr == out && r.value.Valid()
                      && r.value.Content() == Built(SmoothCall(ptr, bufs), seen, 0))
        && (r.Err? ==> r.error == e)
    {
      if HostAllocations(halfEdgeSmoothness) == 2 {
        assert SmoothBuffers(halfEdgeSmoothness, heap.next) == (Addr(heap.next), Addr(heap.next + 1), |halfEdgeSmoothness.value|);
        r := SmoothPairs(halfEdgeSmoothness.value);
      } else {
        var bufs := SmoothBuffers(halfEdgeSmoothness, heap.next);
        r := CallSmooth(bufs, NoRead, NoRead);
      }
    }

    /** `properties_per_vertex_count`. */
    function PropertiesPerVertexCount(): (n: i32)
      reads this, heap
      requires Valid()
      ensures n == heap.kernel.intResult(Query(Call(MeshGLNumProp, [Obj(ptr)]), [Content()]))
    {
      InputsOfFew(heap.contents, [Obj(ptr)]);
      heap.kernel.intResult(heap.Ask(Call(MeshGLNumProp, [Obj(ptr)])))
    }

    /** `vertex_count`. */
    function VertexCount(): (n: i32)
      reads this, heap
      requires Valid()
      ensures n == heap.kernel.intResult(Query(Call(MeshGLNumVert, [Obj(ptr)]), [Content()]))
    {
      InputsOfFew(heap.contents, [Obj(ptr)]);
      heap.kernel.intResult(heap.Ask(Call(MeshGLNumVert, [Obj(ptr)])))
    }

    /** `triangle_count`. */
    function TriangleCount(): (n: i32)
      reads this, heap
      requires Valid()
      ensures n == heap.kernel.intResult(Query(Call(MeshGLNumTri, [Obj(ptr)]), [Content()]))
    {
      InputsOfFew(heap.contents, [Obj(ptr)]);
      heap.kernel.intResult(heap.Ask(Call(MeshGLNumTri, [Obj(ptr)])))
    }

    /** A `usize` length query about this mesh (`vertex_property_count` and the seven after it). */
    function Length(f: Fn): (n: u64)
      reads this, heap
      requires Valid() && MeshGLLengthFn(f)
      ensures n == heap.kernel.sizeResult(Query(Call(f, [Obj(ptr)]), [Content()]))
    {
      InputsOfFew(heap.contents, [Obj(ptr)]);
      heap.kernel.sizeResult(heap.Ask(Call(f, [Obj(ptr)])))
    }

    /** `vertex_property_count`: the length of the flat list of vertex properties. */
    function VertexPropertyCount(): (n: u64)
      reads this, heap
      requires Valid()
      ensures n == Length(MeshGLVertPropertiesLength)
    {
      Length(MeshGLVertPropertiesLength)
    }

    /**
     * `vertex_properties`: a buffer of `vertex_property_count()` elements is allocated, filled
     * by the kernel and handed over as a `Vec` whose length and capacity are that count.
     * `None` is the panic of `Layout::array::<f32>(count).unwrap()`, when `4 * count`
     * exceeds `isize::MAX`.
     */
    method VertexProperties() returns (r: Option<F32Vec>)
      requires Valid()
      modifies heap
      ensures Valid() && Content() == old(Content())
      ensures r.None? <==> 4 * old(VertexPropertyCount()) > ISIZE_MAX
      ensures r.None? ==> heap.Unchanged()
      ensures r.Some? ==>
        && r.value.len == VertexPropertyCount() && r.value.capacity == VertexPropertyCount()
        && r.value.buffer == old(heap.NextAddr())
        && heap.Produced(r.value.buffer, HostBuffer, Call(MeshGLVertProperties, [Obj(ptr)]))
        && heap.faults == old(heap.faults) && heap.Leaked() == old(heap.Leaked())
    {
      var count := VertexPropertyCount();
      if 4 * count > ISIZE_MAX {
        return None;
      }
      var buffer := heap.Alloc(HostBuffer);
      ReadsWithin(heap.contents, [Obj(ptr)], heap.live);
      heap.Invoke(buffer, Call(MeshGLVertProperties, [Obj(ptr)]), 0);
      heap.Adopt(buffer);
      InputsOfFew(heap.contents, [Obj(ptr)]);
      InputsOfFew(old(heap.contents), [Obj(ptr)]);
      r := Some(F32Vec(buffer, count, count));
    }

    /** `impl Clone`: a distinct, freshly allocated handle filled by `manifold_meshgl_copy`. */
    method Clone() returns (r: MeshGL)
      requires Valid()
      modifies heap
      ensures fresh(r) && r.heap == heap && r.Valid() && Valid() && r.ptr != ptr
      ensures heap.Produced(r.ptr, MeshGLKind, Call(MeshGLCopy, [Obj(ptr)])) && heap.faults == old(heap.faults)
    {
      r := Produce(heap, Call(MeshGLCopy, [Obj(ptr)]));
    }

    /** `impl Drop`: deletes the handle; afterwards the handle is no longer live. */
    method Drop()
      requires Valid()
      modifies heap
      ensures heap.Deleted(ptr) && !Valid()
    {
      heap.Delete(ptr, MeshGLKind);
    }
  }
}
