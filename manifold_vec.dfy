/**
 * src/manifold_vec.rs: `ManifoldVec`, a wrapper over a kernel vector of manifolds with indexed
 * access and `compose`. It has no `Drop` impl, so nothing ever deletes its handle: a valid
 * `ManifoldVec` is never among the handles some wrapper owns, and stays in `Leaked()`.
 */
module ManifoldVecs {
  import opened Numeric
  import opened Wrappers
  import opened KernelHeap
  import Manifolds

  type Manifold = Manifolds.Manifold

  /** `manifold_manifold_vec_get(manifold_alloc_manifold(), vec, index)`. */
  function GetCall(vec: Ptr, index: nat): Call
  {
    Call(ManifoldVecGet, [Obj(vec), Size(index)])
  }

  /** `manifold_manifold_vec_get(.., vec, i)` for `i` from 0 up to `n`, in order. */
  function GetCalls(vec: Ptr, n: nat): (cs: seq<Call>)
    ensures |cs| == n && forall i :: 0 <= i < n ==> cs[i] == GetCall(vec, i)
  {
    seq(n, i requires 0 <= i < n => GetCall(vec, i))
  }

  class ManifoldVec {
    const heap: Heap
    const ptr: Ptr

    /** A live vector handle that no wrapper will ever delete. */
    ghost predicate Valid()
      reads this, heap
    {
      heap.Valid() && ptr in heap.live && ptr !in heap.owned && heap.kinds[ptr] == ManifoldVecKind
    }

    /**
     * `ManifoldVec::from_ptr`: wraps the handle without taking responsibility for deleting
     * it, since the type has no `Drop`; the heap is untouched and the handle remains leaked.
     */
    constructor FromPtr(h: Heap, p: Ptr)
      requires h.Valid() && p in h.live && p !in h.owned && h.kinds[p] == ManifoldVecKind
      ensures heap == h && ptr == p && Valid()
      ensures p in h.Leaked()
    {
      heap := h;
      ptr := p;
    }

    function Content(): Value
      reads this, heap
      requires Valid()
    {
      heap.contents[ptr]
    }

    /** With no `Drop`, the handle of a valid vector is one that nothing will free. */
    lemma NeverFreed()
      requires Valid()
      ensures ptr in heap.live && ptr in heap.Leaked()
    {
    }

    /**
     * `compose`: one new manifold filled by `manifold_compose` from this vector; the vector
     * keeps its handle and its content, and stays leaked.
     */
    method Compose() returns (m: Manifold)
      requires Valid()
      modifies heap
      ensures Valid() && Content() == old(Content())
      ensures Manifolds.Produces(heap, m, Call(Fn.Compose, [Obj(ptr)])) && m.ptr != ptr
    {
      m := Manifolds.Manifold.Produce(heap, Call(Fn.Compose, [Obj(ptr)]));
    }

    /** `count`: the kernel's answer about this vector; a read that changes nothing. */
    function Count(): (n: u64)
      reads this, heap
      requires Valid()
      ensures n == heap.kernel.sizeResult(Query(Call(ManifoldVecLength, [Obj(ptr)]), [Content()]))
    {
      InputsOfFew(heap.contents, [Obj(ptr)]);
      heap.kernel.sizeResult(heap.Ask(Call(ManifoldVecLength, [Obj(ptr)])))
    }

    /**
     * `get`: `None`, allocating nothing, iff the index is out of range; otherwise a new
     * manifold filled by `manifold_manifold_vec_get`.
     */
    method Get(index: u64) returns (r: Option<Manifold>)
      requires Valid()
      modifies heap
      ensures Valid() && Content() == old(Content())
      ensures r.None? <==> index >= old(Count())
      ensures r.None? ==> heap.Unchanged()
      ensures r.Some? ==> Manifolds.Produces(heap, r.value, GetCall(ptr, index)) && r.value.ptr != ptr
    {
      if index >= Count() {
        return None;
      }
      var m := Manifolds.Manifold.Produce(heap, GetCall(ptr, index));
      return Some(m);
    }

    /** `get(index).unwrap()` for an index in range: the `unwrap` never fails. */
    method GetUnwrapped(index: u64) returns (m: Manifold)
      requires Valid() && index < Count()
      modifies heap
      ensures Valid() && Content() == old(Content())
      ensures fresh(m) && m.heap == heap && m.Valid() && m.ptr == old(heap.NextAddr())
      ensures m.Content() == Built(GetCall(ptr, index), [old(Content()), NoRead], 0)
      ensures heap.next == old(heap.next) + 1
      ensures forall q | q in old(heap.live) ::
        && q in heap.live && heap.kinds[q] == old(heap.kinds)[q] && heap.contents[q] == old(heap.contents)[q]
        && (q in old(heap.owned) ==> q in heap.owned)
      ensures heap.trace == old(heap.trace) + [GetCall(ptr, index)]
      ensures heap.Leaked() == old(heap.Leaked()) && heap.faults == old(heap.faults)
    {
      ghost var contents, live, owned := heap.contents, heap.live, heap.owned;
      var r := Get(index);
      assert r.Some?;
      InputsOfFew(contents, GetCall(ptr, index).args);
      OwnNew(live, owned, r.value.ptr);
      m := r.value;
    }

    /**
     * `as_vec`: `get(i).unwrap()` for every `i` below `count()`, in order. The `unwrap`
     * never fails, and element `i` is the manifold `get(i)` makes.
     */
    method AsVec() returns (ms: seq<Manifold>)
      requires Valid()
      modifies heap
      ensures Valid() && Content() == old(Content())
      ensures |ms| == old(Count())
      ensures forall i :: 0 <= i < |ms| ==>
        && fresh(ms[i]) && ms[i].heap == heap && ms[i].Valid()
        && ms[i].ptr == Addr(old(heap.next) + i)
        && ms[i].Content() == Built(GetCall(ptr, i), [old(Content()), NoRead], 0)
      ensures heap.trace == old(heap.trace) + GetCalls(ptr, |ms|)
      ensures heap.next == old(heap.next) + |ms| && heap.Kept({})
      ensures heap.Leaked() == old(heap.Leaked()) && heap.faults == old(heap.faults)
    {
      var count := Count();
      ms := [];
      var i: u64 := 0;
      while i < count
        invariant i <= count && |ms| == i
        invariant Valid() && Content() == old(Content()) && count == Count()
        invariant heap.next == old(heap.next) + i
        invariant forall j :: 0 <= j < i ==>
          && fresh(ms[j]) && ms[j].heap == heap && ms[j].Valid()
          && ms[j].ptr == Addr(old(heap.next) + j)
          && ms[j].Content() == Built(GetCall(ptr, j), [old(Content()), NoRead], 0)
        invariant heap.trace == old(heap.trace) + GetCalls(ptr, i)
        invariant heap.Kept({})
        invariant heap.Leaked() == old(heap.Leaked()) && heap.faults == old(heap.faults)
      {
        var m := GetUnwrapped(i);
        assert GetCalls(ptr, i + 1) == GetCalls(ptr, i) + [GetCall(ptr, i)];
        ms := ms + [m];
        i := i + 1;
      }
    }
  }
}
