/** IEEE-754 single-precision values without rounding: a finite real, one of
    the two infinities, or NaN. The renderer's bounding boxes start at the
    +/-infinity sentinel and its bucket computation can divide by zero, so the
    model keeps these cases instead of assuming finite reals. Rounding is not
    modelled. */
module ExtReal {

  datatype Float = Fin(v: real) | PosInf | NegInf | NaN {
    predicate IsFinite() { Fin? }
  }

  const USIZE_MAX: nat := 0x1_0000_0000_0000_0000 - 1

  /** Position of a non-NaN value on the extended real line. */
  function Rank(a: Float): int
  {
    match a
    case NegInf => 0
    case Fin(_) => 1
    case PosInf => 2
    case NaN => 1
  }

  /** a < b; false whenever either side is NaN. */
  predicate Lt(a: Float, b: Float)
  {
    !a.NaN? && !b.NaN? &&
    (if a.Fin? && b.Fin? then a.v < b.v else Rank(a) < Rank(b))
  }

  /** a <= b; false whenever either side is NaN. */
  predicate Le(a: Float, b: Float)
  {
    !a.NaN? && !b.NaN? &&
    (if a.Fin? && b.Fin? then a.v <= b.v else Rank(a) <= Rank(b))
  }

  predicate Gt(a: Float, b: Float) { Lt(b, a) }

  predicate Ge(a: Float, b: Float) { Le(b, a) }

  /** Float equality: NaN is unequal to everything, itself included. */
  predicate FEq(a: Float, b: Float) { !a.NaN? && a == b }

  /** f32::min: a NaN operand yields the other operand. */
  function Min(a: Float, b: Float): Float
  {
    if a.NaN? then b else if b.NaN? then a else if Lt(b, a) then b else a
  }

  /** f32::max: a NaN operand yields the other operand. */
  function Max(a: Float, b: Float): Float
  {
    if a.NaN? then b else if b.NaN? then a else if Lt(a, b) then b else a
  }

  function Neg(a: Float): Float
  {
    match a
    case Fin(x) => Fin(-x)
    case PosInf => NegInf
    case NegInf => PosInf
    case NaN => NaN
  }

  function Add(a: Float, b: Float): Float
  {
    if a.NaN? || b.NaN? then NaN
    else if (a.PosInf? && b.NegInf?) || (a.NegInf? && b.PosInf?) then NaN
    else if a.PosInf? || b.PosInf? then PosInf
    else if a.NegInf? || b.NegInf? then NegInf
    else Fin(a.v + b.v)
  }

  function Sub(a: Float, b: Float): Float
  {
    Add(a, Neg(b))
  }

  /** Sign of a non-NaN value: -1, 0 or 1. */
  function Sign(a: Float): int
  {
    match a
    case Fin(x) => if x < 0.0 then -1 else if x == 0.0 then 0 else 1
    case PosInf => 1
    case NegInf => -1
    case NaN => 0
  }

  function InfOfSign(s: int): Float
  {
    if s < 0 then NegInf else PosInf
  }

  function Mul(a: Float, b: Float): Float
  {
    if a.NaN? || b.NaN? then NaN
    else if a.Fin? && b.Fin? then Fin(a.v * b.v)
    else if Sign(a) == 0 || Sign(b) == 0 then NaN
    else InfOfSign(Sign(a) * Sign(b))
  }

  /** Division; a zero divisor is the positive zero (reals carry no sign on 0). */
  function Div(a: Float, b: Float): Float
  {
    if a.NaN? || b.NaN? then NaN
    else if !a.Fin? && !b.Fin? then NaN
    else if a.Fin? && !b.Fin? then Fin(0.0)
    else if !a.Fin? then InfOfSign(Sign(a) * (if Sign(b) < 0 then -1 else 1))
    else if b.v == 0.0 then (if a.v == 0.0 then NaN else InfOfSign(Sign(a)))
    else Fin(a.v / b.v)
  }

  function Abs(a: Float): Float
  {
    match a
    case Fin(x) => Fin(if x < 0.0 then -x else x)
    case NegInf => PosInf
    case PosInf => PosInf
    case NaN => NaN
  }

  /** Rust's `x as usize` for an f32: NaN and values below one give 0, other
      values are truncated towards zero, and the result saturates at usize::MAX. */
  function ToUsize(a: Float): (r: nat)
    ensures r <= USIZE_MAX
  {
    match a
    case NaN => 0
    case NegInf => 0
    case PosInf => USIZE_MAX
    case Fin(x) =>
      if x < 1.0 then 0
      else if x.Floor >= USIZE_MAX then USIZE_MAX
      else x.Floor
  }

  // ---------------------------------------------------------------------
  // Order and lattice laws used by the bounding-box algebra.

  /** On non-NaN values, Lt and Ge are complementary: every comparison the
      two-pointer partitions make is decided. */
  lemma LtOrGe(a: Float, b: Float)
    requires !a.NaN? && !b.NaN?
    ensures Lt(a, b) != Ge(a, b)
  {
  }

  lemma LeTransitive(a: Float, b: Float, c: Float)
    requires Le(a, b) && Le(b, c)
    ensures Le(a, c)
  {
  }

  lemma LeTotal(a: Float, b: Float)
    requires !a.NaN? && !b.NaN?
    ensures Le(a, b) || Le(b, a)
  {
  }

  lemma MinIsGlb(a: Float, b: Float)
    ensures !a.NaN? ==> Le(Min(a, b), a)
    ensures !b.NaN? ==> Le(Min(a, b), b)
    ensures Min(a, b) == a || Min(a, b) == b
  {
  }

  lemma MaxIsLub(a: Float, b: Float)
    ensures !a.NaN? ==> Le(a, Max(a, b))
    ensures !b.NaN? ==> Le(b, Max(a, b))
    ensures Max(a, b) == a || Max(a, b) == b
  {
  }

  lemma MinMaxLaws(a: Float, b: Float, c: Float)
    ensures Min(a, b) == Min(b, a) && Max(a, b) == Max(b, a)
    ensures Min(Min(a, b), c) == Min(a, Min(b, c))
    ensures Max(Max(a, b), c) == Max(a, Max(b, c))
    ensures Min(a, a) == a && Max(a, a) == a
  {
  }

  /** +inf is the identity of Min and -inf the identity of Max, except on NaN. */
  lemma SentinelIdentity(a: Float)
    requires !a.NaN?
    ensures Min(PosInf, a) == a && Max(NegInf, a) == a
  {
  }
}
