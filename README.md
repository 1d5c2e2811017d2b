# manifold3d binding, modelled in Dafny

This project models the Rust binding `manifold3d` over the native Manifold geometry kernel. The
kernel itself (booleans, refinement, smoothing, bounding-box maths) sits behind a C interface and
is not modelled; what is modelled is what the binding decides on its own:

- the validated scalars and value types (`PositiveNum`, `NonNegativeNum`, `NormalizedAngle`,
  `MinimumSmoothness`, `EdgeSplitCount`, `Point2`, `Point3`, `Vec2`, `Vec3`, `Matrix4x3`), each
  divergent copy kept as written (`src/types.rs`, `src/types/*.rs`,
  `crates/types/src/math/*.rs`);
- the translation of kernel status codes, fill rules and boolean operations to and from their
  C constants, which stay symbolic (a record of constants plus a `Distinct` predicate);
- the handle-ownership layer: a kernel heap (`KernelHeap.Heap`) with live handles, their kinds
  and their values, where every kernel call that fills a handle is recorded as the symbolic
  value `Built(call, inputs, part)` and every query is answered by an uninterpreted `Kernel`
  record of total functions. Each wrapper (`Manifold`, two copies of `MeshGL`, `BoundingBox`,
  `Polygons`, `SimplePolygon`, `ManifoldVec`) is a class holding one handle. Ghost fields of the
  heap record which handles some wrapper owns (so `Leaked()` is what nothing will ever free),
  the trace of kernel calls, and `faults`: every handle a call read after it was freed;
- the `#[manifold_warp]` attribute macro: its counter of unique ids, the exported symbol name
  and the trampoline it generates.

`f64` is modelled as `real`; Rust's `%` on `f64` is the truncated remainder
`Numeric.Rem360`. Panics (`unwrap`, `panic!`) are modelled as an `Err` or `None` result.
Integer widths are subset types of `int` (`Numeric.u32`, `Numeric.i32`, `Numeric.u64`).

Two imports of the crate name paths that src/types/mod.rs does not declare:
`crate::types::math::{PositiveF64, PositiveI32, Vec3}` in src/manifold.rs and
`crate::types::Point3` in src/bounding_box.rs. The model resolves them to the nearest
definitions it has: `PositiveF64` and `PositiveI32` to `TypesPositiveNum`
(src/types/positive_num.rs), `Vec3` to `TypesVec3` (src/types/vec3.rs) and `Point3` to
`MathPoint3` (crates/types/src/math/point3.rs). Only the fields of these values are passed on
to the kernel, so the choice does not change what the wrappers do.

Module per source file: `manifold.dfy` (module `Manifolds`) holds both `src/manifold.rs` and
`src/mesh_gl.rs`, because each refers to the other; the pure parts of `src/manifold.rs` are in
`manifold_params.dfy`. `types_legacy.dfy` is `src/types.rs`; `meshgl_legacy.dfy` is
`src/meshgl.rs`.

## Model

| member | source | states |
|---|---|---|
| ManifoldErrors.FromCode | src/error.rs:31-52 | a named variant is returned only for a code equal to its constant; any other result is `Unknown(v)` keeping `v`; the constants are tried in the order of the `match` arms |
| ManifoldErrors.FirstMatch | src/error.rs:33-51 | the first listed name whose constant equals the value, or `Unknown(value)`; the result is `Unknown` or a listed name with that constant |
| ManifoldErrors.FirstMatchUnknown | src/error.rs:33-51 | over named variants only, the match falls through to `Unknown` iff no listed constant equals the value |
| ManifoldErrors.UnknownExactlyUnnamed | src/error.rs:31-52 | `from(v)` is `Unknown` iff no named constant equals `v`, both directions |
| ManifoldErrors.FromNamedCode | src/error.rs:35-48 | with distinct constants, each of the twelve named constants maps to its same-named variant |
| ManifoldErrors.NamedCodeNeverUnknown | src/error.rs:31-51 | with distinct constants, `from` never yields `Unknown(c)` for a named constant `c` |
| ManifoldErrors.IsError | src/error.rs:65-69 | `is_error(code)` holds iff `code != 0` |
| ManifoldErrors.IsErrorAgreesWithFrom | src/error.rs:31-69 | `is_error` agrees with `from(c) != NoError` on every code iff the `NO_ERROR` constant is 0 |
| ManifoldErrors.TestErrorFromU32 | src/error.rs:77-85 | `from(NO_ERROR) == NoError` and `from(NON_FINITE_VERTEX) == NonFiniteVertex` |
| Manifolds.CheckError | src/error.rs:58-63 | `Ok` of the same manifold, heap unchanged, iff its status maps to `NoError`; otherwise `Err` of that variant and the handle is deleted |
| FillRules.FromCode | src/fill_rule.rs:10-20 | `Unknown(v)` exactly for a value that is none of the four named constants, keeping `v` |
| FillRules.ToCode | src/fill_rule.rs:22-32 | named variants go to named constants; `Unknown(v)` goes to `v` |
| FillRules.CodeRoundTrip | src/fill_rule.rs:10-32 | `u32::from(FillRule::from(c)) == c` for every `c`, whatever the constants |
| FillRules.RuleRoundTrip | src/fill_rule.rs:10-32 | with distinct constants, `from(into(f)) == f` for named variants and for `Unknown(v)` with `v` not named; `Unknown(named)` becomes a named variant |
| ManifoldParams.ToOpType | src/manifold.rs:550-558 | `Add`, `Subtract`, `Intersect` go to the `ADD`, `SUBTRACT`, `INTERSECT` constants |
| ManifoldParams.ToOpTypeInjective | src/manifold.rs:550-558 | with distinct constants, two operations share a code iff they are equal |
| ManifoldParams.NewMinimumSmoothness | src/manifold.rs:574-599 | `Ok` iff `0 <= v <= 1`, then `get` and `f64::from` return `v`; otherwise `OutOfBounds{0, 1, v}` |
| ManifoldParams.SmoothnessBounds | src/manifold.rs:578-588 | both ends of [0, 1] are accepted; -0.5 and 1.5 are rejected with their values |
| ManifoldParams.NewEdgeSplitCount | src/manifold.rs:609-631 | `TooSmall{2, n}` iff `n < 2`; on success `get` and `i32::from` return `n` |
| ManifoldParams.EdgeSplitBoundary | src/manifold.rs:612-621 | a validated count of 1 is rejected with `TooSmall{2, 1}`; 2 is accepted |
| ManifoldParams.NewPlane | src/manifold.rs:641-651 | the four fields hold the four arguments |
| ManifoldParams.BoolToCInt | src/manifold.rs:106 | `origin_at_center as c_int` is 1 for true and 0 for false |
| ManifoldParams.SegmentsOrDefault | src/manifold.rs:172-173 | missing segments become 0, given ones keep their value |
| ManifoldParams.CylinderDefaults | src/manifold.rs:162-183 | missing top radius becomes the bottom radius, missing segments 0; the other arguments pass unchanged |
| ManifoldParams.SphereSegments | src/manifold.rs:205-226 | `new_sphere`'s segments: 0 when missing, the given value otherwise |
| Numeric.F64AsI32 | src/manifold.rs:222 | `as c_int` truncates toward zero and saturates at the `i32` bounds |
| Numeric.F64AsI32OfInteger | src/manifold.rs:222 | an `i32` survives the widening to `f64` and the cast back |
| Numeric.Rem360Range | src/types.rs:238 | `x % 360.0` has the sign of `x` and magnitude below 360 |
| Manifolds.Manifold.NewTetrahedron | src/manifold.rs:26-30 | one fresh handle, owned, filled by `manifold_tetrahedron`; nothing else changes |
| Manifolds.Manifold.NewCuboidUnchecked | src/manifold.rs:93-111 | one fresh handle filled by `manifold_cube` with the sizes and `origin_at_center as c_int` |
| Manifolds.Manifold.NewCuboid | src/manifold.rs:53-67 | the unchecked constructor on the wrapped sizes |
| Manifolds.Manifold.NewCuboidFromVecUnchecked | src/manifold.rs:154-160 | the vector's x, y, z become the three sizes |
| Manifolds.Manifold.NewCylinderUnchecked | src/manifold.rs:185-203 | `Ok` with a fresh owned handle iff the status is `NoError`; otherwise the error (the `unwrap` panic) and the handle is already deleted |
| Manifolds.Manifold.NewCylinder | src/manifold.rs:162-183 | the unchecked cylinder call on `CylinderDefaults` of the arguments |
| Manifolds.Manifold.NewSphereUnchecked | src/manifold.rs:214-226 | `manifold_sphere` with the segment count cast to `c_int`, then `check_error` |
| Manifolds.Manifold.NewSphere | src/manifold.rs:205-212 | missing segments become 0; `Err` is the `unwrap` panic |
| Manifolds.Manifold.NewEmpty | src/manifold.rs:228-230 | one fresh handle filled by `manifold_empty` |
| Manifolds.Manifold.FromMeshGL | src/manifold.rs:518-526 | `manifold_of_meshgl` on the mesh into a fresh handle, then `check_error`; the mesh stays valid |
| Manifolds.Manifold.Boolean | src/manifold.rs:245-255 | one fresh handle distinct from both operands, filled by `manifold_boolean` with the operation's code |
| Manifolds.FillVector | src/manifold.rs:266-279 | a vector of `n + 1` slots is made, then slot `i` set to handle `i` of `[self] + others`, in order, index ending at `n + 1`; the vector's value is `VecValue` of those slots, and no other handle changes |
| Manifolds.NewVec | src/manifold.rs:266-271 | `manifold_manifold_vec(n)` fills one new, unowned handle of vector kind with the empty vector of `n` slots; nothing else changes |
| Manifolds.SetSlot | src/manifold.rs:273 | one `manifold_manifold_vec_set` records the slot's index and the value of the handle stored there; only the vector's value and the trace change |
| Manifolds.SetSlots | src/manifold.rs:272-279 | the slots are set in order: the vector's value becomes `VecValue` of all of them and the trace gains one set call per slot; no other handle changes |
| Manifolds.VecValueSeesEverySlot | src/manifold.rs:272-279 | two filled vectors are equal iff every slot's handle had the same value in both heaps: the batch result depends on every input and on nothing else |
| Manifolds.Manifold.BatchBoolean | src/manifold.rs:257-288 | no others: exactly `clone`; `n >= usize::MAX`: the panic, heap unchanged; otherwise `BatchYields`: the vector and its `n + 1` set calls, the batch call, one fresh owned manifold whose value is the batch result over the vector of `[self] + others`, every other handle's kind and value unchanged, and the vector handle left in `Leaked()` |
| Manifolds.Manifold.BatchOf | src/manifold.rs:266-286 | the vector filled from the slots, then the batch call: two new handles, the manifold owned and filled by the call that read the vector, all else unchanged |
| Manifolds.Manifold.BatchBooleanCorrected | src/manifold.rs:257-288 | the same operation with the vector deleted afterwards: on `None` nothing changes; with no others exactly `clone`; otherwise `BatchFreed`: the same value and trace as `BatchYields`, one new owned live handle and no other change to live handles, kinds, values or ownership, nothing leaks |
| Manifolds.Manifold.BatchOfManyAndFree | src/manifold.rs:266-287 | the `n > 0` branch followed by deleting the vector: exactly `BatchFreed` |
| Manifolds.Manifold.Union | src/manifold.rs:290-294 | one fresh handle, distinct from both operands, filled by `manifold_union` |
| Manifolds.Manifold.Difference | src/manifold.rs:296-301 | one fresh handle filled by `manifold_difference` |
| Manifolds.Manifold.Intersection | src/manifold.rs:303-308 | one fresh handle filled by `manifold_intersection` |
| Manifolds.Manifold.Split | src/manifold.rs:310-323 | two fresh, distinct handles, parts 0 and 1 of one `manifold_split` call |
| Manifolds.Manifold.SplitByPlane | src/manifold.rs:325-341 | two fresh, distinct handles from one call with the plane's four fields in order |
| Manifolds.Manifold.TrimByPlane | src/manifold.rs:343-355 | one fresh handle; the plane's fields in order |
| Manifolds.Manifold.Translate | src/manifold.rs:359-371 | one fresh handle filled by `manifold_translate` with x, y, z |
| Manifolds.Manifold.Rotate | src/manifold.rs:373-385 | as written: exactly the call `translate` makes, `manifold_translate` with the rotation's components |
| Manifolds.Manifold.RotateCorrected | src/manifold.rs:373-385 | `manifold_rotate` with the three angles |
| Manifolds.RotateIsNotTranslate | src/manifold.rs:359-385 | a rotation call never equals a translation call |
| Manifolds.Manifold.Scale | src/manifold.rs:387-399 | one fresh handle filled by `manifold_scale` |
| Manifolds.Manifold.Mirror | src/manifold.rs:401-413 | one fresh handle filled by `manifold_mirror` |
| Manifolds.Manifold.Warp | src/manifold.rs:415-427 | one fresh handle; the kernel is handed the function the warp's `ExternCWarpFn` impl returns, the generated trampoline |
| Manifolds.Manifold.SmoothByNormals | src/manifold.rs:429-438 | one fresh handle; the property index passes unchanged |
| Manifolds.Manifold.SmoothOut | src/manifold.rs:440-454 | one fresh handle; the angle's degrees and the smoothness pass as `f64` |
| Manifolds.Manifold.RefineViaEdgeSplits | src/manifold.rs:456-465 | one fresh handle; the split count passes unchanged |
| Manifolds.Manifold.RefineToEdgeLength | src/manifold.rs:467-476 | one fresh handle; the length passes unchanged |
| Manifolds.Manifold.RefineToTolerance | src/manifold.rs:478-487 | one fresh handle; the tolerance passes unchanged |
| Manifolds.Manifold.IsEmpty | src/manifold.rs:489-491 | true iff the kernel answers exactly 1 about this manifold's value |
| Manifolds.Manifold.VertexCount | src/manifold.rs:493-495 | the kernel's answer about this manifold's value, nothing allocated |
| Manifolds.Manifold.EdgeCount | src/manifold.rs:497-499 | the kernel's answer about this manifold's value |
| Manifolds.Manifold.TriangleCount | src/manifold.rs:501-503 | the kernel's answer about this manifold's value |
| Manifolds.Manifold.Mesh | src/manifold.rs:505-509 | one fresh `MeshGL` handle filled by `manifold_get_meshgl` |
| Manifolds.Manifold.BoundingBox | src/manifold.rs:511-515 | one fresh box handle filled by `manifold_bounding_box` |
| Manifolds.Manifold.Clone | src/manifold.rs:528-534 | a fresh handle distinct from this one, filled by `manifold_copy` |
| Manifolds.Manifold.Drop | src/manifold.rs:536-542 | the handle is deleted once and is no longer live or owned |
| Manifolds.Unzip | src/mesh_gl.rs:89-91 | both halves have the input's length; element `i` of each is the matching half of pair `i` |
| Manifolds.ZipUnzip | src/mesh_gl.rs:89-91 | zipping the two halves back gives the pairs: unzipping loses nothing |
| Manifolds.MeshGL.StageSmoothness | src/mesh_gl.rs:83-101 | `None`: two null pointers and length 0; an empty vector: dangling pointers, length 0; otherwise two new host vectors holding the unzipped halves, indices first, and their length |
| Manifolds.MeshGL.Smooth | src/mesh_gl.rs:79-113 | as written: the vectors are freed before `manifold_smooth` reads them, so with pairs both buffers join `faults`; `Ok` iff the status is `NoError`; live handles, kinds, values and ownership change only by the new manifold on `Ok` |
| Manifolds.MeshGL.SmoothCorrected | src/mesh_gl.rs:79-113 | the vectors outlive the call: the kernel reads the indices and smoothness in order, no fault, and they are freed afterwards; `Ok` iff `NoError`; live handles, kinds, values and ownership change only by the new manifold on `Ok` |
| Manifolds.MeshGL.Merge | src/mesh_gl.rs:26-35 | `Some` wrapping exactly the duplicate iff the kernel returns the duplicate's pointer; on `None` the duplicate stays live and joins `Leaked()` |
| Manifolds.MeshGL.MergeCorrected | src/mesh_gl.rs:26-35 | the same, with the duplicate deleted on `None`: nothing leaks; on `Some` live handles, kinds, values and ownership gain exactly the duplicate, on `None` they are as before |
| Manifolds.MeshGL.PropertiesPerVertexCount | src/mesh_gl.rs:115-117 | the kernel's answer about this mesh's value |
| Manifolds.MeshGL.VertexCount | src/mesh_gl.rs:119-121 | the kernel's answer about this mesh's value |
| Manifolds.MeshGL.TriangleCount | src/mesh_gl.rs:123-125 | the kernel's answer about this mesh's value |
| Manifolds.MeshGL.Length | src/mesh_gl.rs:128-158 | each of the eight `usize` length queries is the kernel's answer about this mesh's value |
| Manifolds.MeshGL.VertexPropertyCount | src/mesh_gl.rs:127-130 | the length of the flat vertex-property list, as the kernel reports it |
| Manifolds.MeshGL.VertexProperties | src/mesh_gl.rs:161-168 | a `Vec` whose length and capacity both equal `vertex_property_count()`, over one new host buffer the kernel filled; `None` is the `Layout` panic |
| Manifolds.MeshGL.Clone | src/mesh_gl.rs:171-177 | a fresh handle distinct from this one, filled by `manifold_meshgl_copy` |
| Manifolds.MeshGL.Drop | src/mesh_gl.rs:179-183 | the handle is deleted once |
| LegacyMeshGL.MeshGL.Merge | src/meshgl.rs:23-33 | `Some` wrapping the duplicate iff the kernel returns its pointer; otherwise the duplicate leaks; one handle allocated, and every other handle keeps its kind, value and ownership |
| LegacyMeshGL.MeshGL.PropertiesPerVertexCount | src/meshgl.rs:35-37 | the kernel's answer; nothing allocated |
| LegacyMeshGL.MeshGL.VertexCount | src/meshgl.rs:39-41 | the kernel's answer; nothing allocated |
| LegacyMeshGL.MeshGL.TriangleCount | src/meshgl.rs:43-45 | the kernel's answer; nothing allocated |
| LegacyMeshGL.MeshGL.Length | src/meshgl.rs:47-78 | the kernel's answer to each of the eight length queries; nothing allocated |
| LegacyMeshGL.MeshGL.VertexProperties | src/meshgl.rs:80-90 | length and capacity equal `vertex_property_count()`; `None` is the `Layout` panic |
| LegacyMeshGL.MeshGL.Clone | src/meshgl.rs:99-105 | allocates first, then copies into that handle; the copy is distinct from this mesh |
| LegacyMeshGL.MeshGL.Handle | src/meshgl.rs:19-21 | the owned handle itself, still owned |
| LegacyMeshGL.MeshGL.Drop | src/meshgl.rs:93-97 | the handle is deleted once |
| BoundingBoxes.New | src/bounding_box.rs:13-27 | one fresh box filled with min x, y, z then max x, y, z |
| BoundingBoxes.BoundingBox.MinPoint | src/bounding_box.rs:34-36 | the kernel's answer about this box, copied field by field |
| BoundingBoxes.BoundingBox.MaxPoint | src/bounding_box.rs:38-40 | the kernel's answer about this box, copied field by field |
| BoundingBoxes.BoundingBox.Dimensions | src/bounding_box.rs:42-44 | the kernel's answer about this box, copied field by field |
| BoundingBoxes.BoundingBox.Center | src/bounding_box.rs:46-48 | the kernel's answer about this box, copied field by field |
| BoundingBoxes.BoundingBox.Scale | src/bounding_box.rs:50-52 | the kernel's answer about this box |
| BoundingBoxes.BoundingBox.ContainsPoint | src/bounding_box.rs:54-57 | true iff the kernel answers exactly 1 |
| BoundingBoxes.BoundingBox.ContainsBoundingBox | src/bounding_box.rs:59-61 | true iff the kernel answers exactly 1 about both boxes |
| BoundingBoxes.BoundingBox.ExpandToIncludePoint | src/bounding_box.rs:63-66 | the same handle is updated in place; nothing is allocated |
| BoundingBoxes.BoundingBox.Union | src/bounding_box.rs:68-78 | a fresh handle distinct from both boxes; the operands keep their values |
| BoundingBoxes.MatrixArgs | src/bounding_box.rs:87-98 | twelve entries, `rows[0].x` through `rows[3].z`, row by row |
| BoundingBoxes.BoundingBox.Transform | src/bounding_box.rs:80-102 | a fresh handle; the matrix goes to the kernel as `MatrixArgs` |
| BoundingBoxes.BoundingBox.Translate | src/bounding_box.rs:104-117 | a fresh handle distinct from this box |
| BoundingBoxes.BoundingBox.Multiply | src/bounding_box.rs:119-132 | a fresh handle distinct from this box |
| BoundingBoxes.BoundingBox.OverlapsPoint | src/bounding_box.rs:134-138 | as written: the answer is the query on a fresh unfilled box, independent of this box, and that box joins `Leaked()`; one handle allocated, of box kind, and every other handle keeps its kind, value and ownership |
| BoundingBoxes.OverlapsPointIgnoresSelf | src/bounding_box.rs:134-138 | a kernel exists under which the as-written and the intended answers differ for every filled box |
| BoundingBoxes.BoundingBox.OverlapsPointCorrected | src/bounding_box.rs:134-138 | the query on this box's own value |
| BoundingBoxes.BoundingBox.OverlapsBoundingBox | src/bounding_box.rs:140-142 | true iff the kernel answers exactly 1 about both boxes |
| BoundingBoxes.BoundingBox.IsFinite | src/bounding_box.rs:144-146 | true iff the kernel answers exactly 1 |
| BoundingBoxes.BoundingBox.Drop | src/bounding_box.rs:149-155 | the handle is deleted once |
| Polygons.Polygons.FromSimplePolygons | src/polygons.rs:18-33 | as written: every polygon's handle is deleted inside the `map` closure before the kernel reads them, so the kernel sees only freed values and every handle joins `faults`; the length is the input length; every other live handle keeps its kind, value and ownership |
| Polygons.Polygons.FromSimplePolygonsCorrected | src/polygons.rs:18-33 | the polygons stay alive until the call: the kernel reads their values in input order with the input length, no fault, and they are deleted afterwards; every other live handle keeps its kind, value and ownership |
| Polygons.DropAll | src/polygons.rs:20-23 | every polygon's handle is deleted, in order: live handles, ownership, kinds and values lose exactly those handles |
| Polygons.DropEach | src/polygons.rs:20-23 | the loop of drops: after it, live handles, ownership, kinds and values lack exactly the handles dropped so far |
| Polygons.TopScalingOrDefault | src/polygons.rs:48-50 | a missing top scaling is (1.0, 1.0) |
| Polygons.Polygons.Extrude | src/polygons.rs:39-64 | `Ok` with a fresh manifold iff the status is `NoError`; the default top scaling is used |
| Polygons.SegmentsOrDefault | src/polygons.rs:72 | missing segments become 0 |
| Polygons.DegreesOrDefault | src/polygons.rs:73-75 | a missing angle becomes 360 degrees |
| Polygons.Polygons.Revolve | src/polygons.rs:66-85 | `Ok` iff the status is `NoError`; the two defaults are used |
| Polygons.Polygons.Count | src/polygons.rs:98-100 | the kernel's answer about this handle |
| Polygons.Polygons.Get | src/polygons.rs:102-115 | `None`, heap unchanged, iff `index >= count()`; otherwise one fresh owned simple polygon |
| Polygons.Polygons.AsVec | src/polygons.rs:117-125 | exactly `count()` elements; element `i` is what `get(i)` makes; the `unwrap` never fails; nothing leaks; every handle live before keeps its kind, value and ownership |
| Polygons.Polygons.Drop | src/polygons.rs:128-132 | the handle is deleted once |
| SimplePolygons.Convert | src/simple_polygon.rs:13 | each point converted, in input order, same length |
| SimplePolygons.SimplePolygon.NewFromPoints | src/simple_polygon.rs:12-25 | one fresh owned polygon filled from the converted points with the input length; the host vector is freed after the call, so nothing leaks and no fault arises; every handle live before keeps its kind, value and ownership |
| SimplePolygons.SimplePolygon.PointCount | src/simple_polygon.rs:31-33 | the kernel's answer about this polygon |
| SimplePolygons.SimplePolygon.GetPoint | src/simple_polygon.rs:35-41 | `None` iff `index >= point_count()`; otherwise the wire vector copied field for field |
| SimplePolygons.SimplePolygon.Handle | src/simple_polygon.rs:43-45 | the owned handle itself, still owned |
| SimplePolygons.SimplePolygon.Drop | src/simple_polygon.rs:48-52 | the handle is deleted once |
| ManifoldVecs.ManifoldVec.FromPtr | src/manifold_vec.rs:11-13 | wraps the handle without taking ownership: it stays in `Leaked()` |
| ManifoldVecs.ManifoldVec.NeverFreed | src/manifold_vec.rs:8-45 | with no `Drop`, a valid vector's handle is live and in `Leaked()` |
| ManifoldVecs.ManifoldVec.Compose | src/manifold_vec.rs:15-19 | one fresh manifold; the vector keeps its handle and value |
| ManifoldVecs.ManifoldVec.Count | src/manifold_vec.rs:21-23 | the kernel's answer; a read that changes nothing |
| ManifoldVecs.ManifoldVec.Get | src/manifold_vec.rs:25-34 | `None`, heap unchanged, iff `index >= count()`; otherwise one fresh manifold |
| ManifoldVecs.ManifoldVec.AsVec | src/manifold_vec.rs:36-44 | exactly `count()` elements; element `i` is what `get(i)` makes; nothing new leaks; every handle live before keeps its kind, value and ownership |
| WarpMacro.AsciiLowercase | crates/macros/src/lib.rs:23 | same length; each character lower-cased if it is an ASCII capital |
| WarpMacro.Decimal | crates/macros/src/lib.rs:24 | non-empty, digits only, one digit iff below 10 |
| WarpMacro.DecimalInjective | crates/macros/src/lib.rs:24 | different numbers are written differently |
| WarpMacro.UniqueCounter.TakeId | crates/macros/src/lib.rs:15-18 | the old value is the id and the counter grows by 1; a poisoned lock is the panic and consumes no id |
| WarpMacro.SymbolsDistinct | crates/macros/src/lib.rs:15-28 | different ids give different symbols, whatever the struct names |
| WarpMacro.CaseFolded | crates/macros/src/lib.rs:20-28 | the exported name of `MyWarp` with id 3 is the fixed prefix, `mywarp`, `_` and `3` |
| WarpMacro.SameSymbolIffSameUpToCase | crates/macros/src/lib.rs:20-28 | for one id, two struct names give the same symbol iff they agree up to ASCII case, both directions |
| WarpMacro.Expand | crates/macros/src/lib.rs:10-66 | the struct re-emitted unchanged, the trampoline named by `SymbolName` of the old counter value, `extern_c_warp_fn` naming that trampoline, a `Warp` impl for the struct |
| WarpMacro.ExpandTwice | crates/macros/src/lib.rs:15-28 | two expansions in a row export different trampolines |
| WarpMacro.Trampoline | crates/macros/src/lib.rs:38-47 | x, y, z go unchanged into `Point3::new`; the result is `warp_vertex`'s point copied field for field |
| WarpMacro.TrampolineOfTranslateByOne | crates/macros/src/lib.rs:38-47 | with the warp that adds 1.0, the trampoline returns (x + 1, y + 1, z + 1) |
| Types.Vec2FromWire | src/types.rs:17-24 | copies x and y |
| Types.Vec3FromWire | src/types.rs:43-51 | copies x, y and z |
| Types.Point2ToWire | src/types.rs:70-86 | undoes `Point2FromWire` |
| Types.Point2WireRoundTrip | src/types.rs:70-86 | the round trip from the wire struct is the identity too |
| Types.Point3FromWire | src/types.rs:95-103 | copies x, y and z |
| Types.NewPositiveI32 | src/types.rs:155-171 | `Ok` iff `v > 0`, then valid with `get() == v`; otherwise `NonPositiveValue` |
| Types.NewPositiveF64 | src/types.rs:155-171 | `Ok` iff `v > 0`, then valid with `get() == v`; otherwise `NonPositiveValue` |
| Types.PositiveI32FromUnsigned | src/types.rs:174-184 | wraps the widened value unchecked |
| Types.PositiveF64FromUnsigned | src/types.rs:174-184 | wraps the widened value unchecked |
| Types.UncheckedFromBreaksInvariant | src/types.rs:174-184 | `from(0)` holds 0 and breaks the `> 0` invariant, which `new(0)` refuses |
| Types.PositiveI32TryFrom | src/types.rs:186-198 | goes through `new`: `Ok` iff `v > 0` |
| Types.PositiveF64TryFrom | src/types.rs:186-198 | goes through `new`: `Ok` iff `v > 0` |
| Types.CheckedConstructionKeepsInvariant | src/types.rs:186-198 | every checked result is valid and keeps the value |
| Types.FromDegrees | src/types.rs:226-231 | the stored degrees are `normalize(v)` |
| Types.NormalizeNonNegative | src/types.rs:237-243 | for `v >= 0` the result is `v % 360`, in [0, 360), and `v` itself when `v < 360` |
| Types.NormalizeNegativeEscapesRange | src/types.rs:237-243 | for `v < 0` with non-zero remainder `r` the result is `360 - r`, in (360, 720), outside the documented [-360, 360] |
| Types.NormalizeMinus90 | src/types.rs:237-243 | `normalize(-90) == 450` |
| Types.NormalizeCorrectedRange | src/types.rs:237-243 | the intended rule `360 + r` maps every input into [0, 360), fixes [0, 360), and sends -90 to 270 |
| Types.AngleFromPositive | src/types.rs:246-254 | for every non-negative value, including the zero `From<u8>` builds, `value % 360` with no negative branch lies in [0, 360) |
| Types.Add | src/types.rs:256-262 | `from_degrees(a + b)`, in [0, 360) for a non-negative sum |
| Types.Sub | src/types.rs:270-276 | `from_degrees(a - b)`, in [0, 360) for a non-negative difference |
| Types.AngleVar.AddAssign | src/types.rs:264-268 | the receiver afterwards holds what `add` returns |
| Types.AngleVar.SubAssign | src/types.rs:278-282 | the receiver afterwards holds what `sub` returns |
| TypesPositiveNum.NewI32 | src/types/positive_num.rs:13-31 | `Ok` iff `v > 0`, then valid with `get() == v`; otherwise `NonPositiveValue` |
| TypesPositiveNum.NewF64 | src/types/positive_num.rs:13-31 | `Ok` iff `v > 0`, then valid with `get() == v`; otherwise `NonPositiveValue` |
| TypesPositiveNum.TryFromI32 | src/types/positive_num.rs:33-45 | every conversion goes through `new` |
| TypesPositiveNum.TryFromF64 | src/types/positive_num.rs:33-45 | every conversion goes through `new` |
| TypesPositiveNum.TryFromZeroFails | src/types/positive_num.rs:84-90 | an unsigned source succeeds iff it is non-zero; `try_from(0)` is `NonPositiveValue` |
| TypesPositiveNum.CompareInt | src/types/positive_num.rs:70-80 | the three-way comparison: `Less`, `Equal`, `Greater` iff `<`, `==`, `>` |
| TypesPositiveNum.CompareReal | src/types/positive_num.rs:70-80 | the same for reals |
| TypesPositiveNum.PrimitiveComparisonsAgree | src/types/positive_num.rs:58-92 | `==` and `<` against a primitive follow the wrapped value, and agree with `partial_cmp` |
| TypesPositiveNum.DerivedOrdIsTotalOrder | src/types/positive_num.rs:10 | the derived order is that of the wrapped values: antisymmetric, transitive, `Equal` iff equal |
| MathNonNegativeNum.NewI32 | crates/types/src/math/non_negative_num.rs:12-30 | `Ok` iff `v >= 0` (0 accepted); rejection is `NonPositiveValue` |
| MathNonNegativeNum.NewF64 | crates/types/src/math/non_negative_num.rs:12-30 | `Ok` iff `v >= 0`; rejection is `NonPositiveValue` |
| MathNonNegativeNum.FromUnsignedI32 | crates/types/src/math/non_negative_num.rs:32-42 | unchecked, and always valid with the value kept |
| MathNonNegativeNum.FromUnsignedF64 | crates/types/src/math/non_negative_num.rs:32-42 | unchecked, and always valid with the value kept |
| MathNonNegativeNum.TryFromI32 | crates/types/src/math/non_negative_num.rs:44-56 | goes through `new` |
| MathNonNegativeNum.TryFromF64 | crates/types/src/math/non_negative_num.rs:44-56 | goes through `new` |
| MathNonNegativeNum.UncheckedAgreesWithChecked | crates/types/src/math/non_negative_num.rs:32-77 | the unchecked and checked conversions agree on unsigned values; 0 is accepted, -1 refused |
| MathNormalizedAngle.FromDegrees | crates/types/src/math/normalized_angle.rs:9-14 | the stored degrees are `normalize(v)` |
| MathNormalizedAngle.AccessorsAgree | crates/types/src/math/normalized_angle.rs:16-30 | `as_degrees`, `get` and `Into<f64>` return the same stored value |
| MathNormalizedAngle.AgreesWithFirstCopy | crates/types/src/math/normalized_angle.rs:20-26 | this `normalize` computes what the one in `src/types.rs` computes |
| MathNormalizedAngle.NormalizeNonNegative | crates/types/src/math/normalized_angle.rs:20-26 | for `v >= 0` the result is in [0, 360) |
| MathNormalizedAngle.NormalizeNegativeEscapesRange | crates/types/src/math/normalized_angle.rs:20-26 | for negative `v` with non-zero remainder the result is in (360, 720) |
| MathNormalizedAngle.NormalizeIdempotentOnNonNegative | crates/types/src/math/normalized_angle.rs:20-26 | idempotent on non-negative inputs |
| MathNormalizedAngle.NormalizeNotIdempotentOnNegative | crates/types/src/math/normalized_angle.rs:20-26 | for negative inputs with non-zero remainder re-normalising changes the value |
| MathNormalizedAngle.FromPositive | crates/types/src/math/normalized_angle.rs:33-41 | for every non-negative value, `value % 360` lies in [0, 360) and is the value itself below 360 |
| MathNormalizedAngle.Add | crates/types/src/math/normalized_angle.rs:43-49 | `from_degrees(a + b)` |
| MathNormalizedAngle.Sub | crates/types/src/math/normalized_angle.rs:57-63 | `from_degrees(a - b)` |
| MathNormalizedAngle.AngleVar.AddAssign | crates/types/src/math/normalized_angle.rs:51-55 | the receiver afterwards holds what `add` returns |
| MathNormalizedAngle.AngleVar.SubAssign | crates/types/src/math/normalized_angle.rs:65-69 | the receiver afterwards holds what `sub` returns |
| MathPoint3.New | crates/types/src/math/point3.rs:11-15 | stores x, y, z unchanged |
| MathPoint3.WireRoundTrip | crates/types/src/math/point3.rs:17-35 | both conversions copy the fields; each round trip is the identity |
| MathPoint3.ComponentWise | crates/types/src/math/point3.rs:37-64 | `p + q` and `p - q` work field by field; in the real-valued model `(p + q) - q == p` (not so for `f64`, where rounding can lose the smaller operand) |
| MathPoint3.ScalarBroadcasts | crates/types/src/math/point3.rs:45-77 | a scalar acts as (s, s, s); in the real-valued model `(p + s) - s == p` (not so for `f64`, where rounding can lose the smaller operand) |
| TypesPoint2.New | src/types/point2.rs:11-15 | stores x and y unchanged |
| TypesPoint2.WireRoundTrip | src/types/point2.rs:17-33 | both conversions copy the fields; each round trip is the identity |
| TypesPoint2.ComponentWise | src/types/point2.rs:35-62 | field-by-field `+` and `-`, `+` commutes, and in the real-valued model `(p + q) - q == p` (not so for `f64`, where rounding can lose the smaller operand) |
| TypesPoint2.ScalarBroadcasts | src/types/point2.rs:43-75 | a scalar acts as (s, s); in the real-valued model `(p + s) - s == p` (not so for `f64`, where rounding can lose the smaller operand) |
| TypesVec2.New | src/types/vec2.rs:11-15 | stores x and y unchanged |
| TypesVec2.FromWire | src/types/vec2.rs:17-24 | copies x and y |
| TypesVec2.FromWireInjective | src/types/vec2.rs:17-24 | the conversion loses nothing |
| TypesVec2.ComponentWise | src/types/vec2.rs:26-53 | field-by-field `+` and `-`, `+` commutes, and in the real-valued model `(v + w) - w == v` (not so for `f64`, where rounding can lose the smaller operand) |
| TypesVec2.ScalarBroadcasts | src/types/vec2.rs:34-66 | a scalar acts as (s, s); in the real-valued model `(v + s) - s == v` (not so for `f64`, where rounding can lose the smaller operand) |
| TypesVec3.New | src/types/vec3.rs:11-15 | stores x, y and z unchanged |
| TypesVec3.FromWire | src/types/vec3.rs:17-25 | copies x, y and z |
| TypesVec3.FromWireInjective | src/types/vec3.rs:17-25 | the conversion loses nothing |
| TypesVec3.ComponentWise | src/types/vec3.rs:27-54 | field-by-field `+` and `-`, `+` commutes, and in the real-valued model `(v + w) - w == v` (not so for `f64`, where rounding can lose the smaller operand) |
| TypesVec3.ScalarBroadcasts | src/types/vec3.rs:35-67 | a scalar acts as (s, s, s); in the real-valued model `(v + s) - s == v` (not so for `f64`, where rounding can lose the smaller operand) |
| TypesMatrix4x3.New | src/types/matrix4x3.rs:8-12 | the rows are the given four rows |
| TypesMatrix4x3.FromEntries | src/types/matrix4x3.rs:14-42 | row `i` is `(m_i1, m_i2, m_i3)`, no transposition |
| TypesMatrix4x3.EqualityIsRowWise | src/types/matrix4x3.rs:3-6 | two matrices are equal iff their four rows agree field by field |
| MathMatrix4x3.New | crates/types/src/math/matrix4x3.rs:8-12 | the rows are the given four rows |
| MathMatrix4x3.FromEntries | crates/types/src/math/matrix4x3.rs:14-42 | row `i` is `(m_i1, m_i2, m_i3)`, no transposition |
| MathMatrix4x3.FromEntriesInjective | crates/types/src/math/matrix4x3.rs:14-42 | the conversion loses no entry |
| MathMatrix4x3.EqualityIsRowWise | crates/types/src/math/matrix4x3.rs:3-6 | two matrices are equal iff their four rows agree field by field |

## Left out

- Kernel geometry: every kernel result is a symbolic value (the call and what it read), and
  statuses, counts, points and query answers come from an uninterpreted `Kernel` record. The
  numeric scenarios of tests/manifold.rs and crates/tests/src/manifold3d/manifold.rs depend on
  the kernel and are not stated.
- Every kernel call is taken to return the handle it was given to fill, so `from_ptr` wraps the
  allocated handle; only `merge` inspects the returned pointer, and there it is the kernel's answer.
- IEEE-754: `f64` is `real`, so rounding, NaN, the infinities and `-0.0` are absent
  (`normalize(-360.0)` is `-0.0` in Rust and 0 here; `MinimumSmoothness::new(NaN)` is not a case).
- Numeric.F64AsI32: the `f64 -> c_int` cast in `new_sphere_unchecked` is modelled as
  truncation with saturation; NaN going to 0 is not modelled.
- Manifolds.Manifold.Warp: the context pointer `warp_ptr` handed to the kernel next to the
  trampoline, and `Pin`, are not modelled; only the function pointer is an argument of the call.
- WarpMacro.Expand: `syn` parsing and `quote!` token generation are represented by the fields
  of `Expansion`; the `Mutex<AtomicU64>` is a plain counter whose lock poisoning is a flag.
- WarpMacro.Trampoline: reading the struct back from the raw context pointer is modelled as
  calling its `warp_vertex` directly.
- Panics are results (`Err`/`None`); unwinding across the C interface is not modelled.
- The `ptr()` accessors of `Manifold` and `MeshGL` are the `ptr` field of the classes.
- `Polygons::cross_section`: the `CrossSection` wrapper of src/cross_section.rs is not part of
  this model, which also leaves out src/quality.rs (global kernel settings), src/lib.rs,
  src/types/mod.rs and build.rs (module wiring and build configuration).
- The vertex-property replacement bridge (`replace_vertex_properties` and its macro) is not
  part of this model; the test fixture using it asserts nothing.
- The `nalgebra` conversions of `Vec2`, `Vec3` and `Point3` are left out; the 4x3 matrix
  conversion is modelled over its twelve named entries.
- crates/types/src/manifold/vertex.rs contributes only the `warp_vertex` signature, used as
  `WarpMacro.WarpFn`.
- The values the kernel writes into the buffer of `vertex_properties` are not modelled: the
  result records the buffer, its length and capacity, and the call that filled it.
- src/meshgl.rs is not declared as a module of the crate; it is modelled as written all the same.
- Types.AngleFromPositive: `From<PositiveNum<T>>` is generic over the float type; only the
  `f64` instance is modelled, and the same holds for MathNormalizedAngle.FromPositive.
- MathNormalizedAngle.FromPositive: the argument type `math::PositiveNum` is not part of this
  model; the `PositiveF64` of src/types/positive_num.rs (module `TypesPositiveNum`) stands in for
  it, and the contract asks of it only a non-negative value.
- The documentation comment of `NormalizedAngle` promises degrees in [-360, 360]; the code
  does not keep that promise, and the model follows the code.

## Findings

| source | as written | input that shows it | evidently intended | confidence | as-written member | corrected member |
|---|---|---|---|---|---|---|
| src/types.rs:237-243 | a negative remainder `r` becomes `360 - r`, in (360, 720) | `normalize(-90.0)` is 450 | `360 + r`, in [0, 360): 270 | high, not executed | Types.NormalizeMinus90 | Types.NormalizeCorrectedRange |
| src/manifold.rs:373-385 | `rotate` calls `manifold_translate` | `rotate((90, 0, 0))` translates by (90, 0, 0) | `manifold_rotate` with the angles | high, not executed | Manifolds.Manifold.Rotate | Manifolds.Manifold.RotateCorrected |
| src/manifold.rs:266-287 | the batch vector is never deleted | `a.batch_boolean(&[b], Add)` leaves one vector handle live and unowned | delete the vector after the batch call | high, not executed | Manifolds.Manifold.BatchBoolean | Manifolds.Manifold.BatchBooleanCorrected |
| src/mesh_gl.rs:26-35 | on `None` the duplicate is not freed | a kernel returning a pointer other than the duplicate's | delete the duplicate before returning `None` | medium, not executed | Manifolds.MeshGL.Merge | Manifolds.MeshGL.MergeCorrected |
| src/mesh_gl.rs:89-111 | the unzipped vectors are dropped at the end of the match arm, before `manifold_smooth` reads them | `smooth(Some(vec![(0, 0.5)]))` | keep the vectors alive until after the call | high, not executed | Manifolds.MeshGL.Smooth | Manifolds.MeshGL.SmoothCorrected |
| src/polygons.rs:18-33 | each `SimplePolygon` is dropped inside `map`, deleting its handle before `manifold_polygons` reads it | `from_simple_polygons(vec![p])` for any polygon `p` | keep the polygons alive until after the call | high, not executed | Polygons.Polygons.FromSimplePolygons | Polygons.Polygons.FromSimplePolygonsCorrected |
| src/bounding_box.rs:134-138 | the query goes to a new, unfilled box, which is then leaked | `b.overlaps_point(p)` for a box `b` that contains `p` | query `self.0` | high, not executed | BoundingBoxes.OverlapsPointIgnoresSelf | BoundingBoxes.BoundingBox.OverlapsPointCorrected |
| src/types.rs:174-184 | `From<u8/u16/u32>` wraps without checking | `PositiveI32::from(0u8)` holds 0 | validate through `new`, as the later copy does | high, not executed | Types.UncheckedFromBreaksInvariant | TypesPositiveNum.TryFromZeroFails |
