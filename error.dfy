/**
 * The binding's error taxonomy (src/error.rs): translation of the kernel's `ManifoldError`
 * status codes into `Error`, and the `is_error` test on a raw code.
 *
 * The twelve `ManifoldError_MANIFOLD_*` constants of the C interface are not visible here, so
 * they stay symbolic: an `ErrorCodes` value gives the constant of each named variant, and the
 * properties that need the constants to differ assume `Distinct`.
 */
module ManifoldErrors {
  import opened Numeric

  datatype Error =
    | NoError
    | NonFiniteVertex
    | NotManifold
    | VertexIndexOutOfBounds
    | PropertiesWrongLength
    | MissingPositionProperties
    | MergeVectorsDifferentLengths
    | MergeIndexOutOfBounds
    | TransformWrongLength
    | RunIndexWrongLength
    | FaceIdWrongLength
    | InvalidConstruction
    | Unknown(value: u32)

  /** The twelve named variants, in the order the Rust enum declares them. */
  const NamedErrors: seq<Error> := [
    NoError, NonFiniteVertex, NotManifold, VertexIndexOutOfBounds, PropertiesWrongLength,
    MissingPositionProperties, MergeVectorsDifferentLengths, MergeIndexOutOfBounds,
    TransformWrongLength, RunIndexWrongLength, FaceIdWrongLength, InvalidConstruction]

  /** `code(e)` is the C constant whose Rust name matches the named variant `e`. */
  datatype ErrorCodes = ErrorCodes(code: Error -> u32)

  /** No two named variants share a constant. */
  ghost predicate Distinct(codes: ErrorCodes)
  {
    forall a, b | a in NamedErrors && b in NamedErrors && a != b :: codes.code(a) != codes.code(b)
  }

  /**
   * `impl From<u32> for Error`: the match tries the named constants in declaration order,
   * so the result is the first named variant whose constant equals `value`, else `Unknown`.
   */
  function FromCode(codes: ErrorCodes, value: u32): (e: Error)
    ensures e.Unknown? ==> e.value == value
    ensures !e.Unknown? ==> e in NamedErrors && codes.code(e) == value
  {
    FirstMatch(codes, NamedErrors, value)
  }

  /** The match arms from `names` on: the first variant whose constant is `value`, else `Unknown(value)`. */
  function FirstMatch(codes: ErrorCodes, names: seq<Error>, value: u32): (e: Error)
    ensures e == Unknown(value) || (e in names && codes.code(e) == value)
    decreases |names|
  {
    if |names| == 0 then Unknown(value)
    else if value == codes.code(names[0]) then names[0]
    else FirstMatch(codes, names[1..], value)
  }

  /** Over arms that are all named, the search falls through to `Unknown` exactly when no arm matches. */
  lemma {:induction false} FirstMatchUnknown(codes: ErrorCodes, names: seq<Error>, value: u32)
    requires forall n | n in names :: !n.Unknown?
    ensures FirstMatch(codes, names, value).Unknown? <==> forall n | n in names :: codes.code(n) != value
    decreases |names|
  {
    if |names| > 0 && value != codes.code(names[0]) {
      FirstMatchUnknown(codes, names[1..], value);
      assert forall n | n in names :: n == names[0] || n in names[1..];
    }
  }

  /** `from` gives `Unknown` exactly for a value that no named constant equals. */
  lemma UnknownExactlyUnnamed(codes: ErrorCodes, value: u32)
    ensures FromCode(codes, value).Unknown? <==> forall n | n in NamedErrors :: codes.code(n) != value
  {
    forall n | n in NamedErrors
      ensures !n.Unknown?
    {
      NamedIsListed(n);
    }
    FirstMatchUnknown(codes, NamedErrors, value);
  }

  /** Membership in `NamedErrors` spelled out variant by variant. */
  lemma NamedIsListed(n: Error)
    requires n in NamedErrors
    ensures !n.Unknown?
    ensures n == NoError || n == NonFiniteVertex || n == NotManifold || n == VertexIndexOutOfBounds
      || n == PropertiesWrongLength || n == MissingPositionProperties
      || n == MergeVectorsDifferentLengths || n == MergeIndexOutOfBounds
      || n == TransformWrongLength || n == RunIndexWrongLength || n == FaceIdWrongLength
      || n == InvalidConstruction
  {
    var i :| 0 <= i < |NamedErrors| && NamedErrors[i] == n;
  }

  /** With distinct constants, two named variants with the same constant are the same variant. */
  lemma SameCodeSameName(codes: ErrorCodes, a: Error, b: Error)
    requires Distinct(codes) && a in NamedErrors && b in NamedErrors && codes.code(a) == codes.code(b)
    ensures a == b
  {
  }

  /** With distinct constants, every named constant translates to its same-named variant. */
  lemma FromNamedCode(codes: ErrorCodes, e: Error)
    requires Distinct(codes)
    requires e in NamedErrors
    ensures FromCode(codes, codes.code(e)) == e
  {
    var r := FromCode(codes, codes.code(e));
    UnknownExactlyUnnamed(codes, codes.code(e));
    SameCodeSameName(codes, r, e);
  }

  /** Hence `from` never yields `Unknown(c)` for a named constant `c`. */
  lemma NamedCodeNeverUnknown(codes: ErrorCodes, c: u32)
    requires Distinct(codes)
    requires exists e | e in NamedErrors :: codes.code(e) == c
    ensures !FromCode(codes, c).Unknown?
  {
    var e :| e in NamedErrors && codes.code(e) == c;
    FromNamedCode(codes, e);
    NamedIsListed(e);
  }

  /** `ManifoldErrorExt::is_error`: any non-zero code is an error. */
  function IsError(code: u32): (b: bool)
    ensures b <==> code != 0
  {
    code != 0
  }

  /**
   * `is_error` compares with the literal 0 while `from` compares with the NO_ERROR constant;
   * the two agree on every code exactly when that constant is 0.
   */
  lemma IsErrorAgreesWithFrom(codes: ErrorCodes)
    requires Distinct(codes)
    ensures (forall c: u32 :: IsError(c) <==> FromCode(codes, c) != NoError) <==> codes.code(NoError) == 0
  {
    if codes.code(NoError) != 0 {
      FromNamedCode(codes, NoError);
      assert !(IsError(codes.code(NoError)) <==> FromCode(codes, codes.code(NoError)) != NoError);
    }
  }

  /** The two assertions of `test_error_from_u32`. */
  lemma TestErrorFromU32(codes: ErrorCodes)
    requires Distinct(codes)
    ensures FromCode(codes, codes.code(NoError)) == NoError
    ensures FromCode(codes, codes.code(NonFiniteVertex)) == NonFiniteVertex
  {
    FromNamedCode(codes, NoError);
    FromNamedCode(codes, NonFiniteVertex);
  }
}
