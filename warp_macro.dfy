/**
 * crates/macros/src/lib.rs: the `#[manifold_warp]` attribute macro. Each expansion takes a
 * fresh id from a process-wide counter, names an exported C trampoline after the struct and the
 * id, and emits the struct unchanged together with the trait impls that hand the trampoline to
 * the kernel. The token-level work of `syn` and `quote` is represented by the fields of
 * `Expansion`.
 */
module WarpMacro {
  import opened Numeric
  import opened Wrappers
  import opened Sys
  import MathPoint3

  const SYMBOL_PREFIX: string := "manifold3d_manifold_extern_c_warp_fn_"

  /** `str::to_ascii_lowercase` on one character. */
  function AsciiLower(c: char): (d: char)
    ensures 'A' <= c <= 'Z' ==> d as int == c as int + 32
    ensures !('A' <= c <= 'Z') ==> d == c
  {
    if 'A' <= c <= 'Z' then (c as int + 32) as char else c
  }

  function AsciiLowercase(s: string): (t: string)
    ensures |t| == |s| && forall i :: 0 <= i < |s| ==> t[i] == AsciiLower(s[i])
  {
    seq(|s|, i requires 0 <= i < |s| => AsciiLower(s[i]))
  }

  function DigitChar(d: nat): (c: char)
    requires d < 10
    ensures '0' <= c <= '9'
  {
    "0123456789"[d]
  }

  /** The decimal notation `format!` produces for an unsigned integer. */
  function Decimal(n: nat): (s: string)
    ensures |s| >= 1 && forall i :: 0 <= i < |s| ==> '0' <= s[i] <= '9'
    ensures |s| == 1 <==> n < 10
  {
    if n < 10 then [DigitChar(n)] else Decimal(n / 10) + [DigitChar(n % 10)]
  }

  /** Different numbers are written differently. */
  lemma {:induction false} DecimalInjective(n: nat, m: nat)
    requires Decimal(n) == Decimal(m)
    ensures n == m
  {
    if n >= 10 && m >= 10 {
      var dn, dm := Decimal(n), Decimal(m);
      assert dn[|dn| - 1] == DigitChar(n % 10) && dm[|dm| - 1] == DigitChar(m % 10);
      assert n % 10 == m % 10;
      assert dn[..|dn| - 1] == Decimal(n / 10);
      assert dm[..|dm| - 1] == Decimal(m / 10);
      DecimalInjective(n / 10, m / 10);
    } else if n < 10 && m < 10 {
      assert DigitChar(n) == Decimal(n)[0] == Decimal(m)[0] == DigitChar(m);
    }
  }

  /** The trampoline's exported name, as built at crates/macros/src/lib.rs:20-28. */
  function SymbolName(structName: string, id: u64): string
  {
    SYMBOL_PREFIX + AsciiLowercase(structName) + "_" + Decimal(id)
  }

  /** Where the `_` and the digits sit in `p + "_" + d`. */
  lemma Layout(p: string, d: string)
    ensures (p + "_" + d)[|p|] == '_'
    ensures forall i :: 0 <= i < |d| ==> (p + "_" + d)[|p| + 1 + i] == d[i]
  {
  }

  /**
   * Two names of the form `p + "_" + digits` are equal only if their digit suffixes are: the
   * last `_` separates them, since digits contain none.
   */
  lemma DigitSuffixDetermined(p1: string, d1: string, p2: string, d2: string)
    requires forall i :: 0 <= i < |d1| ==> '0' <= d1[i] <= '9'
    requires forall i :: 0 <= i < |d2| ==> '0' <= d2[i] <= '9'
    requires p1 + "_" + d1 == p2 + "_" + d2
    ensures d1 == d2
  {
    var s1, s2 := p1 + "_" + d1, p2 + "_" + d2;
    Layout(p1, d1);
    Layout(p2, d2);
    if |d1| < |d2| {
      assert false;
    } else if |d2| < |d1| {
      assert false;
    }
    assert d1 == s1[|s1| - |d1|..];
    assert d2 == s2[|s2| - |d2|..];
  }

  /**
   * Expansions with different ids never clash, whatever the struct names, including names that
   * coincide or differ only in case.
   */
  lemma SymbolsDistinct(name1: string, id1: u64, name2: string, id2: u64)
    requires id1 != id2
    ensures SymbolName(name1, id1) != SymbolName(name2, id2)
  {
    if SymbolName(name1, id1) == SymbolName(name2, id2) {
      DigitSuffixDetermined(SYMBOL_PREFIX + AsciiLowercase(name1), Decimal(id1),
                            SYMBOL_PREFIX + AsciiLowercase(name2), Decimal(id2));
      DecimalInjective(id1, id2);
    }
  }

  /** The two names agree character by character once ASCII capitals are lower-cased. */
  predicate SameUpToCase(a: string, b: string)
  {
    |a| == |b| && forall i :: 0 <= i < |a| ==> AsciiLower(a[i]) == AsciiLower(b[i])
  }

  /**
   * Case is folded: with the same id, two struct names give the same symbol exactly when they
   * differ only in ASCII case.
   */
  lemma SameSymbolIffSameUpToCase(name1: string, name2: string, id: u64)
    ensures SymbolName(name1, id) == SymbolName(name2, id) <==> SameUpToCase(name1, name2)
  {
    var l1, l2 := AsciiLowercase(name1), AsciiLowercase(name2);
    if SameUpToCase(name1, name2) {
      assert l1 == l2;
    }
    if SymbolName(name1, id) == SymbolName(name2, id) {
      var s1, s2 := SymbolName(name1, id), SymbolName(name2, id);
      assert |l1| == |l2|;
      forall i | 0 <= i < |l1|
        ensures AsciiLower(name1[i]) == AsciiLower(name2[i])
      {
        assert s1[|SYMBOL_PREFIX| + i] == l1[i];
        assert s2[|SYMBOL_PREFIX| + i] == l2[i];
      }
    }
  }

  /** For example, `MyWarp` with id 3 is exported under its lower-cased name. */
  lemma CaseFolded()
    ensures SymbolName("MyWarp", 3) == "manifold3d_manifold_extern_c_warp_fn_mywarp_3"
  {
    assert AsciiLowercase("MyWarp") == "mywarp";
  }

  /**
   * `static UNIQUE_COUNTER: Mutex<AtomicU64>`. `poisoned` stands for a lock that a panicking
   * holder left poisoned, so that `lock()` returns `Err`.
   */
  class UniqueCounter {
    var value: u64
    var poisoned: bool

    constructor ()
      ensures value == 0 && !poisoned
    {
      value := 0;
      poisoned := false;
    }

    /**
     * The `match UNIQUE_COUNTER.lock()` block: `fetch_add(1)` returns the old value and wraps at
     * 2^64. `None` is the panic on a poisoned lock, which consumes no id.
     */
    method TakeId() returns (id: Option<u64>)
      modifies this
      ensures poisoned == old(poisoned)
      ensures old(poisoned) ==> id.None? && value == old(value)
      ensures !old(poisoned) ==> id == Some(old(value)) && value == (old(value) + 1) % U64_LIMIT
    {
      if poisoned {
        return None;
      }
      id := Some(value);
      value := (value + 1) % U64_LIMIT;
    }
  }

  /** The struct the attribute is applied to, as `syn` parses it. */
  datatype ItemStruct = ItemStruct(ident: string, body: seq<string>)

  /**
   * What one expansion emits: the struct itself; the `#[no_mangle] extern "C"` trampoline's
   * name; the function named by the `ExternCWarpFn` impl; and the type given a `Warp` impl.
   */
  datatype Expansion = Expansion(item: ItemStruct, trampoline: string, externCWarpFn: string, warpImplFor: string)

  /** `manifold_warp`. */
  method Expand(counter: UniqueCounter, item: ItemStruct) returns (r: Option<Expansion>)
    modifies counter
    ensures counter.poisoned == old(counter.poisoned)
    ensures old(counter.poisoned) ==> r.None? && counter.value == old(counter.value)
    ensures !old(counter.poisoned) ==>
      && counter.value == (old(counter.value) + 1) % U64_LIMIT
      && r == Some(Expansion(item, SymbolName(item.ident, old(counter.value)),
                             SymbolName(item.ident, old(counter.value)), item.ident))
  {
    var id := counter.TakeId();
    if id.None? {
      return None;
    }
    var symbol := SymbolName(item.ident, id.value);
    r := Some(Expansion(item, symbol, symbol, item.ident));
  }

  /** Two expansions in a row, on any structs, export different trampolines. */
  method ExpandTwice(counter: UniqueCounter, a: ItemStruct, b: ItemStruct) returns (ra: Option<Expansion>, rb: Option<Expansion>)
    modifies counter
    ensures ra.Some? && rb.Some? ==> ra.value.trampoline != rb.value.trampoline
    ensures !old(counter.poisoned) ==> ra.Some? && rb.Some?
  {
    ghost var first := counter.value;
    ra := Expand(counter, a);
    rb := Expand(counter, b);
    if ra.Some? && rb.Some? {
      assert first != (first + 1) % U64_LIMIT;
      SymbolsDistinct(a.ident, first, b.ident, (first + 1) % U64_LIMIT);
    }
  }

  /** `WarpImpl::warp_vertex` of the annotated struct. */
  type WarpFn = MathPoint3.Point3 -> MathPoint3.Point3

  /**
   * The generated trampoline: the context pointer is read back as the struct (modelled as its
   * `warp_vertex`), x, y and z go into `Point3::new`, and the result is converted to the wire
   * struct.
   */
  function Trampoline(warpVertex: WarpFn, x: real, y: real, z: real): (w: ManifoldVec3)
    ensures var p := warpVertex(MathPoint3.Point3(x, y, z)); w.x == p.x && w.y == p.y && w.z == p.z
  {
    MathPoint3.ToWire(warpVertex(MathPoint3.New(x, y, z)))
  }

  /** The warp of the crate's tests, which adds 1.0 to every coordinate. */
  function TranslateByOne(p: MathPoint3.Point3): MathPoint3.Point3
  {
    MathPoint3.AddScalar(p, 1.0)
  }

  lemma TrampolineOfTranslateByOne(x: real, y: real, z: real)
    ensures Trampoline(TranslateByOne, x, y, z) == ManifoldVec3(x + 1.0, y + 1.0, z + 1.0)
  {
  }
}
