/**
 * src/meshgl.rs: an older copy of the `MeshGL` wrapper, kept beside src/mesh_gl.rs but not
 * declared as a module of the crate. It has `merge`, the count queries, `vertex_properties`,
 * `Clone` and `Drop`, and no `smooth`. Its `clone` allocates the copy first and then wraps its
 * own pointer rather than the pointer the kernel returns.
 */
module LegacyMeshGL {
  import opened Numeric
  import opened Wrappers
  import opened KernelHeap
  import Manifolds

  type F32Vec = Manifolds.F32Vec

  class MeshGL {
    const heap: Heap
    const ptr: Ptr

    ghost predicate Valid()
      reads this, heap
    {
      heap.Valid() && ptr in heap.owned && heap.kinds[ptr] == MeshGLKind
    }

    /** `MeshGL::from_ptr`. */
    constructor FromPtr(h: Heap, p: Ptr)
      requires h.Valid() && p in h.live && p !in h.owned && h.kinds[p] == MeshGLKind
      modifies h
      ensures heap == h && ptr == p && Valid()
      ensures h.Adopted(p)
    {
      heap := h;
      ptr := p;
      new;
      h.Adopt(p);
    }

    function Content(): Value
      reads this, heap
      requires Valid()
    {
      heap.contents[ptr]
    }

    /** `ptr`: the owned handle itself; ownership stays with this wrapper. */
    function Handle(): (p: Ptr)
      reads this, heap
      requires Valid()
      ensures p == ptr && p in heap.owned && heap.kinds[p] == MeshGLKind
    {
      ptr
    }

    /**
     * `merge`: `Some` wrapping the duplicate iff the kernel returns the duplicate's own
     * pointer; on `None` the duplicate stays allocated and nobody owns it.
     */
    method Merge() returns (r: Option<MeshGL>)
      requires Valid()
      modifies heap
      ensures Valid() && Content() == old(Content())
      ensures var dup := old(heap.NextAddr());
        && (r.Some? <==> heap.kernel.returned(dup, Query(Call(MeshGLMerge, [Obj(ptr)]), [old(Content())])) == dup)
        && (r.Some? ==> fresh(r.value) && r.value.heap == heap && r.value.ptr == dup && r.value.Valid())
        && heap.next == old(heap.next) + 1
        && heap.live == old(heap.live) + {dup} && heap.kinds == old(heap.kinds)[dup := MeshGLKind]
        && heap.contents == old(heap.contents)[dup := Built(Call(MeshGLMerge, [Obj(ptr)]), [old(Content())], 0)]
        && heap.trace == old(heap.trace) + [Call(MeshGLMerge, [Obj(ptr)])]
        && (r.Some? ==> heap.owned == old(heap.owned) + {dup} && heap.Leaked() == old(heap.Leaked()))
        && (r.None? ==> heap.owned == old(heap.owned) && heap.Leaked() == old(heap.Leaked()) + {dup})
        && heap.faults == old(heap.faults)
    {
      var dup := heap.Alloc(MeshGLKind);
      InputsOfFew(heap.contents, [Obj(ptr)]);
      ReadsWithin(heap.contents, [Obj(ptr)], heap.live);
      var returned := heap.InvokeReturning(dup, Call(MeshGLMerge, [Obj(ptr)]));
      if dup == returned {
        var m := new MeshGL.FromPtr(heap, dup);
        return Some(m);
      }
      return None;
    }

    /** `properties_per_vertex_count`. */
    function PropertiesPerVertexCount(): (n: i32)
      reads this, heap
      requires Valid()
      ensures n == heap.kernel.intResult(Query(Call(MeshGLNumProp, [Obj(ptr)]), [Content()]))
    {
      InputsOfFew(heap.contents, [Obj(ptr)]);
      heap.kernel.intResult(heap.Ask(Call(MeshGLNumProp, [Obj(ptr)])))
    }

    /** `vertex_count`. */
    function VertexCount(): (n: i32)
      reads this, heap
      requires Valid()
      ensures n == heap.kernel.intResult(Query(Call(MeshGLNumVert, [Obj(ptr)]), [Content()]))
    {
      InputsOfFew(heap.contents, [Obj(ptr)]);
      heap.kernel.intResult(heap.Ask(Call(MeshGLNumVert, [Obj(ptr)])))
    }

    /** `triangle_count`. */
    function TriangleCount(): (n: i32)
      reads this, heap
      requires Valid()
      ensures n == heap.kernel.intResult(Query(Call(MeshGLNumTri, [Obj(ptr)]), [Content()]))
    {
      InputsOfFew(heap.contents, [Obj(ptr)]);
      heap.kernel.intResult(heap.Ask(Call(MeshGLNumTri, [Obj(ptr)])))
    }

    /**
     * A `usize` length query about this mesh: `vertex_property_count`, `vertex_index_count`,
     * `mesh_merge_count`, `run_index_count`, `run_original_id_count`, `run_transform_count`,
     * `face_id_count` and `tangent_count`, one kernel function each.
     */
    function Length(f: Fn): (n: u64)
      reads this, heap
      requires Valid() && MeshGLLengthFn(f)
      ensures n == heap.kernel.sizeResult(Query(Call(f, [Obj(ptr)]), [Content()]))
    {
      InputsOfFew(heap.contents, [Obj(ptr)]);
      heap.kernel.sizeResult(heap.Ask(Call(f, [Obj(ptr)])))
    }

    /**
     * `vertex_properties`: a buffer of `vertex_property_count()` elements is allocated, filled
     * by the kernel and handed over as a `Vec` whose length and capacity are that count.
     * `None` is the panic of `Layout::array::<f32>(count).unwrap()`, when `4 * count`
     * exceeds `isize::MAX`.
     */
    method VertexProperties() returns (r: Option<F32Vec>)
      requires Valid()
      modifies heap
      ensures Valid() && Content() == old(Content())
      ensures r.None? <==> 4 * old(Length(MeshGLVertPropertiesLength)) > ISIZE_MAX
      ensures r.None? ==> heap.Unchanged()
      ensures r.Some? ==>
        && r.value.len == Length(MeshGLVertPropertiesLength) && r.value.capacity == Length(MeshGLVertPropertiesLength)
        && r.value.buffer == old(heap.NextAddr())
        && heap.Produced(r.value.buffer, HostBuffer, Call(MeshGLVertProperties, [Obj(ptr)]))
        && heap.faults == old(heap.faults) && heap.Leaked() == old(heap.Leaked())
    {
      var count := Length(MeshGLVertPropertiesLength);
      if 4 * count > ISIZE_MAX {
        return None;
      }
      var buffer := heap.Alloc(HostBuffer);
      ReadsWithin(heap.contents, [Obj(ptr)], heap.live);
      heap.Invoke(buffer, Call(MeshGLVertProperties, [Obj(ptr)]), 0);
      heap.Adopt(buffer);
      InputsOfFew(heap.contents, [Obj(ptr)]);
      InputsOfFew(old(heap.contents), [Obj(ptr)]);
      r := Some(Manifolds.F32Vec(buffer, count, count));
    }

    /**
     * `impl Clone`: `manifold_alloc_meshgl` first, then `manifold_meshgl_copy` into that
     * handle, which is wrapped; it is distinct from this mesh's handle.
     */
    method Clone() returns (r: MeshGL)
      requires Valid()
      modifies heap
      ensures fresh(r) && r.heap == heap && r.Valid() && Valid() && r.ptr != ptr
      ensures r.Content() == Built(Call(MeshGLCopy, [Obj(ptr)]), [old(Content())], 0)
      ensures heap.Produced(r.ptr, MeshGLKind, Call(MeshGLCopy, [Obj(ptr)])) && heap.faults == old(heap.faults)
    {
      var p := heap.Alloc(MeshGLKind);
      InputsOfFew(heap.contents, [Obj(ptr)]);
      ReadsWithin(heap.contents, [Obj(ptr)], heap.live);
      heap.Invoke(p, Call(MeshGLCopy, [Obj(ptr)]), 0);
      r := new MeshGL.FromPtr(heap, p);
    }

    /** `impl Drop`: deletes the handle; afterwards the handle is no longer live. */
    method Drop()
      requires Valid()
      modifies heap
      ensures heap.Deleted(ptr) && !Valid()
    {
      heap.Delete(ptr, MeshGLKind);
    }
  }
}
