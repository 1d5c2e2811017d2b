/**
 * An abstract model of the memory the Manifold kernel hands out through its C interface.
 *
 * Every `manifold_alloc_*` function returns a handle to uninitialised memory, which a kernel
 * function then fills ("alloc-then-populate"); `manifold_delete_*` frees it. Only a live
 * handle can be deleted, so no handle is ever freed twice in the model. The geometry the
 * kernel computes is not visible, so the content of a handle is a symbolic term recording the
 * call that filled it and the values it read. Queries (counts, statuses, tests) are answered by
 * an uninterpreted `Kernel` oracle applied to those terms. Rust-side buffers (`Vec`s whose
 * pointers are passed to the kernel) live in the same heap with kind `HostBuffer`.
 *
 * Ghost bookkeeping makes the binding's ownership decisions visible:
 *  - `owned`: handles some wrapper object is responsible for; `Leaked()` are the rest;
 *  - `trace`: the state-changing kernel calls, in order;
 *  - `faults`: handles a kernel call read after they were freed.
 */
module KernelHeap {
  import opened Numeric
  import opened Sys
  import ManifoldErrors
  import ManifoldParams

  datatype Ptr = Null | Dangling | Addr(n: nat)

  datatype Kind =
    | ManifoldKind | MeshGLKind | BoxKind | PolygonsKind | SimplePolygonKind | ManifoldVecKind
    | HostBuffer

  /** The kernel functions the binding calls, named after `manifold_<name>` in the C interface. */
  datatype Fn =
    | Tetrahedron | Cube | Cylinder | Sphere | Empty | OfMeshGL | Copy
    | Boolean | BatchBoolean | Union | Difference | Intersection
    | Split | SplitByPlane | TrimByPlane
    | Translate | Rotate | Scale | Mirror | Warp
    | SmoothByNormals | SmoothOut | Refine | RefineToLength | RefineToTolerance
    | IsEmpty | NumVert | NumEdge | NumTri | GetMeshGL | BoundingBoxOf
    | ManifoldVecNew | ManifoldVecSet | ManifoldVecLength | ManifoldVecGet | Compose
    | MeshGLMerge | MeshGLSmooth | MeshGLCopy | MeshGLVertProperties
    | MeshGLNumProp | MeshGLNumVert | MeshGLNumTri | MeshGLVertPropertiesLength | MeshGLTriLength
    | MeshGLMergeLength | MeshGLRunIndexLength | MeshGLRunOriginalIdLength
    | MeshGLRunTransformLength | MeshGLFaceIdLength | MeshGLTangentLength
    | BoxNew | BoxMin | BoxMax | BoxDimensions | BoxCenter | BoxScale
    | BoxContainsPt | BoxContainsBox | BoxIncludePt | BoxUnion | BoxTransform | BoxTranslate
    | BoxMul | BoxDoesOverlapPt | BoxDoesOverlapBox | BoxIsFinite
    | PolygonsNew | Extrude | Revolve | PolygonsLength | PolygonsGetSimple
    | SimplePolygonNew | SimplePolygonLength | SimplePolygonGetPoint

  /** The eight `usize` length queries about a `MeshGL`, one kernel function per list. */
  predicate MeshGLLengthFn(f: Fn)
  {
    f.MeshGLVertPropertiesLength? || f.MeshGLTriLength? || f.MeshGLMergeLength? || f.MeshGLRunIndexLength?
    || f.MeshGLRunOriginalIdLength? || f.MeshGLRunTransformLength? || f.MeshGLFaceIdLength? || f.MeshGLTangentLength?
  }

  /**
   * An argument of a kernel call. `Obj` is a handle the kernel reads; `Buf` a pointer to `len`
   * elements of host memory (the kernel reads nothing when `len == 0`); `Callback` a function
   * pointer, identified by its exported symbol.
   */
  datatype Arg =
    | Obj(p: Ptr)
    | Buf(p: Ptr, len: nat)
    | Real(r: real)
    | Int(i: int)
    | Size(n: nat)
    | Callback(symbol: string)

  datatype Call = Call(fn: Fn, args: seq<Arg>)

  /** The content of a handle. */
  datatype Value =
    | Uninit
    | Built(call: Call, inputs: seq<Value>, part: nat)
    | HostIndices(indices: seq<nat>)
    | HostReals(reals: seq<real>)
    | HostPoints(points: seq<ManifoldVec2>)
    | HostPtrs(ptrs: seq<Ptr>)
    | Gathered(items: seq<Value>)
    | Garbage
    | NoRead

  /** A kernel query: the call together with the values it reads. */
  datatype Query = Query(call: Call, inputs: seq<Value>)

  /**
   * The kernel's answers, uninterpreted, and the values of the C interface's enum constants,
   * which are not visible either.
   */
  datatype Kernel = Kernel(
    errors: ManifoldErrors.ErrorCodes,
    opTypes: ManifoldParams.OpTypeCodes,
    status: Value -> u32,
    sizeResult: Query -> u64,
    intResult: Query -> i32,
    realResult: Query -> real,
    vec2: Query -> ManifoldVec2,
    vec3: Query -> ManifoldVec3,
    returned: (Ptr, Query) -> Ptr)

  /** What the kernel sees through one argument, given the heap's contents. */
  function ArgValue(contents: map<Ptr, Value>, a: Arg): Value
  {
    match a
    case Obj(p) => if p in contents then contents[p] else Garbage
    case Buf(p, len) =>
      if len == 0 then NoRead
      else if p !in contents then Garbage
      else if contents[p].HostPtrs? then
        var ps := contents[p].ptrs;
        Gathered(seq(|ps|, j requires 0 <= j < |ps| => if ps[j] in contents then contents[ps[j]] else Garbage))
      else contents[p]
    case _ => NoRead
  }

  function Inputs(contents: map<Ptr, Value>, args: seq<Arg>): (vs: seq<Value>)
    ensures |vs| == |args|
  {
    seq(|args|, i requires 0 <= i < |args| => ArgValue(contents, args[i]))
  }

  /** The handles one argument makes the kernel read, including those stored in a handle buffer. */
  function ArgReads(contents: map<Ptr, Value>, a: Arg): set<Ptr>
  {
    match a
    case Obj(p) => {p}
    case Buf(p, len) =>
      if len == 0 then {}
      else if p in contents && contents[p].HostPtrs? then {p} + set q | q in contents[p].ptrs
      else {p}
    case _ => {}
  }

  function Reads(contents: map<Ptr, Value>, args: seq<Arg>): set<Ptr>
  {
    if |args| == 0 then {} else ArgReads(contents, args[0]) + Reads(contents, args[1..])
  }

  /** The call passes no host buffer, and every handle it passes is in `s`. */
  predicate HandleArgsIn(args: seq<Arg>, s: set<Ptr>)
  {
    forall i :: 0 <= i < |args| ==> !args[i].Buf? && (args[i].Obj? ==> args[i].p in s)
  }

  /** A call without buffer arguments reads only its handle arguments. */
  lemma {:induction false} ReadsWithin(contents: map<Ptr, Value>, args: seq<Arg>, s: set<Ptr>)
    requires HandleArgsIn(args, s)
    ensures Reads(contents, args) <= s
  {
    if |args| > 0 {
      ReadsWithin(contents, args[1..], s);
    }
  }

  /** What a call with one to four arguments reads, argument by argument. */
  lemma InputsOfFew(contents: map<Ptr, Value>, args: seq<Arg>)
    requires 1 <= |args| <= 4
    ensures |args| == 1 ==> Inputs(contents, args) == [ArgValue(contents, args[0])]
    ensures |args| == 2 ==> Inputs(contents, args) == [ArgValue(contents, args[0]), ArgValue(contents, args[1])]
    ensures |args| == 3 ==>
      Inputs(contents, args) == [ArgValue(contents, args[0]), ArgValue(contents, args[1]), ArgValue(contents, args[2])]
    ensures |args| == 4 ==>
      Inputs(contents, args) ==
      [ArgValue(contents, args[0]), ArgValue(contents, args[1]), ArgValue(contents, args[2]), ArgValue(contents, args[3])]
  {
  }

  /** What a call passing one host buffer and its length reads and sees. */
  lemma BufferCallReads(contents: map<Ptr, Value>, p: Ptr, n: nat)
    ensures Reads(contents, [Buf(p, n), Size(n)]) == ArgReads(contents, Buf(p, n))
    ensures Inputs(contents, [Buf(p, n), Size(n)]) == [ArgValue(contents, Buf(p, n)), NoRead]
  {
    var args := [Buf(p, n), Size(n)];
    assert args[1..] == [Size(n)] && args[1..][1..] == [];
    assert Reads(contents, args[1..]) == ArgReads(contents, Size(n)) + Reads(contents, []) == {};
    InputsOfFew(contents, args);
  }

  class Heap {
    const kernel: Kernel
    var next: nat
    var live: set<Ptr>
    var kinds: map<Ptr, Kind>
    var contents: map<Ptr, Value>
    ghost var owned: set<Ptr>
    ghost var trace: seq<Call>
    ghost var faults: set<Ptr>

    ghost predicate Valid()
      reads this
    {
      && (forall p :: p in live ==> p.Addr? && p.n < next)
      && kinds.Keys == live
      && contents.Keys == live
      && owned <= live
    }

    /** Handles no wrapper is responsible for: nothing will ever delete them. */
    ghost function Leaked(): set<Ptr>
      reads this
    {
      live - owned
    }

    constructor (k: Kernel)
      ensures Valid() && kernel == k
      ensures live == {} && owned == {} && trace == [] && faults == {}
    {
      kernel := k;
      next := 0;
      live := {};
      kinds := map[];
      contents := map[];
      owned := {};
      trace := [];
      faults := {};
    }

    /** The handle that the next allocation returns. */
    function NextAddr(): Ptr
      reads this
    {
      Addr(next)
    }

    /** A handle that has never been returned before. */
    lemma NextAddrIsNew()
      requires Valid()
      ensures NextAddr() !in live
    {
    }

    /** `manifold_alloc_*`, or a Rust allocation when `k == HostBuffer`. */
    method Alloc(k: Kind) returns (p: Ptr)
      requires Valid()
      modifies this
      ensures Valid()
      ensures p == old(NextAddr()) && p !in old(live)
      ensures next == old(next) + 1
      ensures live == old(live) + {p}
      ensures kinds == old(kinds)[p := k]
      ensures contents == old(contents)[p := Uninit]
      ensures owned == old(owned) && trace == old(trace) && faults == old(faults)
    {
      p := Addr(next);
      next := next + 1;
      live := live + {p};
      kinds := kinds[p := k];
      contents := contents[p := Uninit];
    }

    /** The value a call leaves in the handle it writes: the call and what it read. */
    function Result(c: Call, part: nat): Value
      reads this
    {
      Built(c, Inputs(contents, c.args), part)
    }

    /** The value a call writes into a handle allocated just before it. */
    function Made(c: Call): Value
      reads this
    {
      Built(c, Inputs(contents[NextAddr() := Uninit], c.args), 0)
    }

    /** The handles a call reads that are no longer (or never were) live. */
    function Dead(c: Call): set<Ptr>
      reads this
    {
      Reads(contents, c.args) - live
    }

    /**
     * A kernel call that writes `dest`: a freshly allocated handle it populates, or an existing
     * one it updates in place (the old value is then among the inputs).
     */
    method Invoke(dest: Ptr, c: Call, part: nat)
      requires Valid() && dest in live
      modifies this
      ensures Valid()
      ensures contents == old(contents)[dest := old(Result(c, part))]
      ensures trace == old(trace) + [c]
      ensures faults == old(faults) + old(Dead(c))
      ensures next == old(next) && live == old(live) && kinds == old(kinds)
      ensures owned == old(owned)
    {
      faults := faults + Dead(c);
      contents := contents[dest := Result(c, part)];
      trace := trace + [c];
    }

    /** A kernel call with two results, such as `manifold_split`: part 0 and part 1 of one call. */
    method InvokePair(first: Ptr, second: Ptr, c: Call)
      requires Valid() && first in live && second in live && first != second
      modifies this
      ensures Valid()
      ensures contents == old(contents)[first := old(Result(c, 0))][second := old(Result(c, 1))]
      ensures trace == old(trace) + [c]
      ensures faults == old(faults) + old(Dead(c))
      ensures next == old(next) && live == old(live) && kinds == old(kinds)
      ensures owned == old(owned)
    {
      faults := faults + Dead(c);
      contents := contents[first := Result(c, 0)][second := Result(c, 1)];
      trace := trace + [c];
    }

    /** A kernel call that writes `dest` and returns a pointer chosen by the kernel. */
    method InvokeReturning(dest: Ptr, c: Call) returns (ret: Ptr)
      requires Valid() && dest in live
      modifies this
      ensures Valid()
      ensures ret == kernel.returned(dest, old(Query(c, Inputs(contents, c.args))))
      ensures contents == old(contents)[dest := old(Result(c, 0))]
      ensures trace == old(trace) + [c]
      ensures faults == old(faults) + old(Dead(c))
      ensures next == old(next) && live == old(live) && kinds == old(kinds)
      ensures owned == old(owned)
    {
      ret := kernel.returned(dest, Query(c, Inputs(contents, c.args)));
      Invoke(dest, c, 0);
    }

    /** Rust allocating a buffer of its own (a `Vec`) that holds `v`. */
    method AllocHost(v: Value) returns (p: Ptr)
      requires Valid()
      modifies this
      ensures Valid()
      ensures p == old(NextAddr()) && p !in old(live)
      ensures next == old(next) + 1
      ensures live == old(live) + {p}
      ensures kinds == old(kinds)[p := HostBuffer]
      ensures contents == old(contents)[p := v]
      ensures owned == old(owned) && trace == old(trace) && faults == old(faults)
    {
      p := Addr(next);
      next := next + 1;
      live := live + {p};
      kinds := kinds[p := HostBuffer];
      contents := contents[p := v];
    }

    /** A wrapper takes responsibility for a live handle nobody else owns. */
    method Adopt(p: Ptr)
      requires Valid() && p in live && p !in owned
      modifies this
      ensures Valid() && Adopted(p)
    {
      owned := owned + {p};
    }

    /** `manifold_delete_*` (or dropping a Rust buffer): frees a live handle of the right kind. */
    method Delete(p: Ptr, k: Kind)
      requires Valid() && p in live && kinds[p] == k
      modifies this
      ensures Valid() && Deleted(p)
    {
      live := live - {p};
      kinds := kinds - {p};
      contents := contents - {p};
      owned := owned - {p};
    }

    /** A query function of the kernel, answered from the values the call reads. */
    function Ask(c: Call): Query
      reads this
    {
      Query(c, Inputs(contents, c.args))
    }

    function Status(p: Ptr): u32
      reads this
      requires p in contents
    {
      kernel.status(contents[p])
    }

    /**
     * The effect of the usual sequence "alloc a handle of kind `k`, let the kernel populate it
     * with `c`, wrap it": one new handle, owned, holding the call's result; nothing freed.
     */
    twostate predicate Produced(p: Ptr, k: Kind, c: Call)
      reads this
    {
      && p == old(NextAddr())
      && next == old(next) + 1
      && live == old(live) + {p}
      && kinds == old(kinds)[p := k]
      && contents == old(contents)[p := old(Made(c))]
      && owned == old(owned) + {p}
      && trace == old(trace) + [c]
      && faults == old(faults) + (Reads(old(contents)[p := Uninit], c.args) - old(live) - {p})
    }

    /**
     * The effect of producing a handle as above and deleting it again before anyone owns it:
     * only the call and the deletion are recorded.
     */
    twostate predicate ProducedAndDeleted(p: Ptr, c: Call)
      reads this
    {
      && p == old(NextAddr())
      && next == old(next) + 1
      && live == old(live) && kinds == old(kinds) && contents == old(contents)
      && owned == old(owned)
      && trace == old(trace) + [c]
      && faults == old(faults) + (Reads(old(contents)[p := Uninit], c.args) - old(live) - {p})
    }

    /** The effect of allocating two handles, letting one call fill both, and wrapping both. */
    twostate predicate ProducedPair(p: Ptr, q: Ptr, k: Kind, c: Call)
      reads this
    {
      var before := old(contents)[p := Uninit][q := Uninit];
      && p == old(NextAddr()) && q == Addr(old(next) + 1)
      && next == old(next) + 2
      && live == old(live) + {p, q}
      && kinds == old(kinds)[p := k][q := k]
      && contents == before[p := Built(c, Inputs(before, c.args), 0)][q := Built(c, Inputs(before, c.args), 1)]
      && owned == old(owned) + {p, q}
      && trace == old(trace) + [c]
      && faults == old(faults) + (Reads(before, c.args) - old(live) - {p, q})
    }

    /** The effect of a wrapper taking responsibility for `p`: nothing else changes. */
    twostate predicate Adopted(p: Ptr)
      reads this
    {
      && owned == old(owned) + {p}
      && next == old(next) && live == old(live) && kinds == old(kinds) && contents == old(contents)
      && trace == old(trace) && faults == old(faults)
    }

    /** The effect of deleting `p`: it is gone, and nothing else changes. */
    twostate predicate Deleted(p: Ptr)
      reads this
    {
      && live == old(live) - {p}
      && kinds == old(kinds) - {p} && contents == old(contents) - {p}
      && owned == old(owned) - {p}
      && next == old(next) && trace == old(trace) && faults == old(faults)
    }

    /**
     * Every handle live before, other than those in `gone`, is still live, of the same kind,
     * with the same value, and still owned if it was.
     */
    twostate predicate Kept(gone: set<Ptr>)
      reads this
    {
      forall q {:trigger q in old(live)} | q in old(live) && q !in gone ::
        && q in live && (q in old(owned) ==> q in owned)
        && q in kinds && q in old(kinds) && kinds[q] == old(kinds)[q]
        && q in contents && q in old(contents) && contents[q] == old(contents)[q]
    }

    /** Nothing observable changed. */
    twostate predicate Unchanged()
      reads this
    {
      && next == old(next) && live == old(live) && kinds == old(kinds) && contents == old(contents)
      && owned == old(owned) && trace == old(trace) && faults == old(faults)
    }
  }

  /** Adding handles to a set that lacks them and removing them again gives back the set. */
  lemma AddThenRemove<T>(s: set<T>, extra: set<T>)
    requires s !! extra
    ensures (s + extra) - extra == s
  {
  }

  /** Owning a new handle leaves the leaked handles as they were. */
  lemma OwnNew<T>(live: set<T>, owned: set<T>, p: T)
    requires p !in live
    ensures (live + {p}) - (owned + {p}) == live - owned
  {
  }

  /** What a call into a fresh handle `p` reads beyond the live handles, when it reads `q` and `extra`. */
  lemma ReadsBeyond<T>(live: set<T>, q: T, extra: set<T>, p: T)
    requires q in live && p !in extra
    ensures ({q} + extra) - live - {p} == extra - live
  {
  }

  /**
   * A temporary `b` allocated before a new owned handle `p` and freed after it: only `p`
   * remains, and the leaked handles are as before.
   */
  lemma StageThenDrop<T>(live: set<T>, owned: set<T>, b: T, p: T)
    requires b !in live && p !in live && b != p
    ensures (live + {b} + {p}) - {b} == live + {p}
    ensures ((live + {b} + {p}) - {b}) - ((owned + {p}) - {b}) == live - owned
  {
  }

  /** Removing one handle from both the live and the owned handles removes it from the leaked ones. */
  lemma RemoveBoth<T>(live: set<T>, owned: set<T>, p: T)
    ensures (live - {p}) - (owned - {p}) == (live - owned) - {p}
  {
  }

  /** Adding two fresh keys and removing both again gives back the map. */
  lemma UpdateTwiceThenRemove<K, V>(m: map<K, V>, k1: K, k2: K, v1: V, v2: V)
    requires k1 !in m && k2 !in m
    ensures m[k1 := v1][k2 := v2] - {k1, k2} == m
  {
  }

  /** Removing two elements one after the other removes both. */
  lemma RemoveTwice<T>(s: set<T>, a: T, b: T)
    ensures s - {a} - {b} == s - {a, b}
  {
  }

  /** Removing two keys one after the other removes both. */
  lemma RemoveKeysTwice<K, V>(m: map<K, V>, a: K, b: K)
    ensures m - {a} - {b} == m - {a, b}
  {
  }

  /**
   * Temporaries `b` added to `s`, then handles `m` made, then the temporaries removed: `s`
   * and the new handles remain.
   */
  lemma StageCallDrop<T>(s: set<T>, b: set<T>, m: set<T>)
    requires s !! b && m !! b
    ensures s + b + m - b == s + m
  {
  }

  /** Handles `m` made and then temporaries `b` removed: the order does not matter. */
  lemma MadeThenDrop<T>(s: set<T>, b: set<T>, m: set<T>)
    requires m !! b
    ensures s + m - b == s - b + m
  {
  }

  /** Removing a set of elements and then one more removes their union. */
  lemma RemoveOneMore<T>(s: set<T>, g: set<T>, p: T)
    ensures s - g - {p} == s - (g + {p})
  {
  }

  /** Removing a set of keys and then one more removes their union. */
  lemma RemoveOneMoreKey<K, V>(m: map<K, V>, g: set<K>, p: K)
    ensures m - g - {p} == m - (g + {p})
  {
  }

  /** Removing owned handles from both the live and the owned handles leaves the leaked ones. */
  lemma RemoveOwned<T>(live: set<T>, owned: set<T>, g: set<T>)
    requires g <= owned
    ensures (live - g) - (owned - g) == live - owned
  {
  }

  /** Two fresh keys added, a third key set, and the two fresh keys removed again: only the third remains. */
  lemma UpdateTwiceSetThenRemove<K, V>(m: map<K, V>, k1: K, k2: K, v1: V, v2: V, k3: K, v3: V)
    requires k1 !in m && k2 !in m && k3 != k1 && k3 != k2
    ensures m[k1 := v1][k2 := v2][k3 := v3] - {k1, k2} == m[k3 := v3]
  {
  }

  /**
   * Two fresh keys added, a third key set only if `ok`, and the two fresh keys removed again:
   * what remains is the map with the third key set only if `ok`.
   */
  lemma StagedThenDropped<K, V>(m: map<K, V>, k1: K, k2: K, v1: V, v2: V, gone: set<K>, ok: bool, k3: K, v3: V)
    requires k1 !in m && k2 !in m && k3 != k1 && k3 != k2 && gone == {k1, k2}
    ensures (if ok then m[k1 := v1][k2 := v2][k3 := v3] else m[k1 := v1][k2 := v2]) - gone
            == (if ok then m[k3 := v3] else m)
  {
    if ok {
      UpdateTwiceSetThenRemove(m, k1, k2, v1, v2, k3, v3);
    } else {
      UpdateTwiceThenRemove(m, k1, k2, v1, v2);
    }
  }

  /** Removing elements a set does not hold leaves it as it was. */
  lemma RemoveAbsent<T>(s: set<T>, b: set<T>)
    requires s !! b
    ensures s - b == s
  {
  }

  /** A fresh key added, another key set, and the fresh key removed again: only the other remains. */
  lemma UpdateSetThenRemove<K, V>(m: map<K, V>, k1: K, v1: V, k2: K, v2: V)
    requires k1 !in m && k2 != k1
    ensures m[k1 := v1][k2 := v2] - {k1} == m[k2 := v2]
  {
  }

  /** Adding a fresh key and removing it again gives back the map. */
  lemma UpdateThenRemove<K, V>(m: map<K, V>, k: K, v: V)
    requires k !in m
    ensures m[k := v] - {k} == m
  {
  }
}
