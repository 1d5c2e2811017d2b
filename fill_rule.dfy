/**
 * `FillRule` (src/fill_rule.rs) and its translation to and from the kernel's u32 constants.
 * The four `ManifoldFillRule_MANIFOLD_FILL_RULE_*` constants stay symbolic.
 */
module FillRules {
  import opened Numeric

  datatype FillRule = EvenOdd | NonZero | Positive | Negative | Unknown(value: u32)

  datatype FillRuleCodes = FillRuleCodes(evenOdd: u32, nonZero: u32, positive: u32, negative: u32)
  {
    predicate Distinct()
    {
      evenOdd != nonZero && evenOdd != positive && evenOdd != negative
      && nonZero != positive && nonZero != negative && positive != negative
    }

    predicate IsNamed(v: u32)
    {
      v == evenOdd || v == nonZero || v == positive || v == negative
    }
  }

  /** `impl From<u32> for FillRule`. */
  function FromCode(codes: FillRuleCodes, value: u32): (f: FillRule)
    ensures f.Unknown? <==> !codes.IsNamed(value)
    ensures f.Unknown? ==> f.value == value
  {
    if value == codes.evenOdd then EvenOdd
    else if value == codes.nonZero then NonZero
    else if value == codes.positive then Positive
    else if value == codes.negative then Negative
    else Unknown(value)
  }

  /** `impl From<FillRule> for u32`. */
  function ToCode(codes: FillRuleCodes, f: FillRule): (v: u32)
    ensures f.Unknown? ==> v == f.value
    ensures !f.Unknown? ==> codes.IsNamed(v)
  {
    match f
    case EvenOdd => codes.evenOdd
    case NonZero => codes.nonZero
    case Positive => codes.positive
    case Negative => codes.negative
    case Unknown(v) => v
  }

  /** Every code survives the round trip u32 -> FillRule -> u32, whatever the constants are. */
  lemma CodeRoundTrip(codes: FillRuleCodes, c: u32)
    ensures ToCode(codes, FromCode(codes, c)) == c
  {
  }

  /**
   * FillRule -> u32 -> FillRule is the identity on the named variants (given distinct
   * constants) and on `Unknown(v)` for a `v` that is not a named constant; `Unknown` of a named
   * constant normalises to that named variant.
   */
  lemma {:induction false} RuleRoundTrip(codes: FillRuleCodes, f: FillRule)
    requires codes.Distinct()
    ensures !f.Unknown? ==> FromCode(codes, ToCode(codes, f)) == f
    ensures f.Unknown? && !codes.IsNamed(f.value) ==> FromCode(codes, ToCode(codes, f)) == f
    ensures f.Unknown? && codes.IsNamed(f.value) ==> !FromCode(codes, ToCode(codes, f)).Unknown?
  {
    match f
    case EvenOdd =>
    case NonZero =>
    case Positive =>
    case Negative =>
    case Unknown(v) =>
  }
}
