/** Floating-point values as NumPy sees them element by element: a finite
    value, one of the two infinities, or not-a-number. Arithmetic on finite
    values is exact (rounding and signed zeros are not modelled); the special
    values follow IEEE 754: NaN propagates and compares false, an infinity
    absorbs finite operands, and the undefined forms (inf - inf, 0 * inf,
    0 / 0, inf / inf) give NaN. */
module Floats {
  import opened Wrappers

  datatype Float = Finite(value: real) | PosInf | NegInf | NaN {
    predicate IsFinite() { Finite? }
  }

  /** The sign of a non-NaN value: -1, 0 or 1. */
  function Sign(a: Float): int
    requires !a.NaN?
  {
    match a
    case PosInf => 1
    case NegInf => -1
    case Finite(r) => if r > 0.0 then 1 else if r < 0.0 then -1 else 0
  }

  function Infinity(sign: int): Float {
    if sign < 0 then NegInf else PosInf
  }

  function Neg(a: Float): (r: Float)
    ensures a.Finite? ==> r == Finite(-a.value)
    ensures a.NaN? <==> r.NaN?
  {
    match a
    case Finite(x) => Finite(-x)
    case PosInf => NegInf
    case NegInf => PosInf
    case NaN => NaN
  }

  function Add(a: Float, b: Float): (r: Float)
    ensures a.Finite? && b.Finite? ==> r == Finite(a.value + b.value)
    ensures a.NaN? || b.NaN? ==> r.NaN?
  {
    if a.NaN? || b.NaN? then NaN
    else if a.Finite? && b.Finite? then Finite(a.value + b.value)
    else if a.Finite? then b
    else if b.Finite? then a
    else if a == b then a
    else NaN
  }

  function Sub(a: Float, b: Float): (r: Float)
    ensures a.Finite? && b.Finite? ==> r == Finite(a.value - b.value)
    ensures a.NaN? || b.NaN? ==> r.NaN?
  {
    Add(a, Neg(b))
  }

  function Mul(a: Float, b: Float): (r: Float)
    ensures a.Finite? && b.Finite? ==> r == Finite(a.value * b.value)
    ensures a.NaN? || b.NaN? ==> r.NaN?
  {
    if a.NaN? || b.NaN? then NaN
    else if a.Finite? && b.Finite? then Finite(a.value * b.value)
    else if Sign(a) == 0 || Sign(b) == 0 then NaN
    else Infinity(Sign(a) * Sign(b))
  }

  function Div(a: Float, b: Float): (r: Float)
    ensures a.Finite? && b.Finite? && b.value != 0.0 ==> r == Finite(a.value / b.value)
    ensures a.NaN? || b.NaN? ==> r.NaN?
  {
    if a.NaN? || b.NaN? then NaN
    else if a.Finite? && b.Finite? then
      if b.value != 0.0 then Finite(a.value / b.value)
      else if a.value == 0.0 then NaN
      else Infinity(Sign(a))
    else if a.Finite? then Finite(0.0)
    else if b.Finite? then Infinity(if Sign(b) == 0 then Sign(a) else Sign(a) * Sign(b))
    else NaN
  }

  /** `np.square`. */
  function Square(a: Float): (r: Float)
    ensures r.NaN? <==> a.NaN?
    ensures a.Finite? ==> r.Finite? && r.value == a.value * a.value && r.value >= 0.0
    ensures a.PosInf? || a.NegInf? ==> r.PosInf?
  {
    Mul(a, a)
  }

  /** The order of the extended reals; false whenever NaN is involved. */
  predicate Less(a: Float, b: Float) {
    match (a, b)
    case (Finite(x), Finite(y)) => x < y
    case (NegInf, Finite(_)) => true
    case (NegInf, PosInf) => true
    case (Finite(_), PosInf) => true
    case _ => false
  }

  /** Python's `==` on floats: NaN is unequal to everything, itself included. */
  predicate Equal(a: Float, b: Float) {
    !a.NaN? && a == b
  }

  /** `np.maximum(a, lo)`, propagating NaN. */
  function AtLeast(a: Float, lo: real): (r: Float)
    ensures a.NaN? <==> r.NaN?
    ensures !a.NaN? ==> !Less(r, Finite(lo))
  {
    if a.NaN? then NaN else if Less(a, Finite(lo)) then Finite(lo) else a
  }

  /** `np.minimum(a, hi)`, propagating NaN. */
  function AtMost(a: Float, hi: real): (r: Float)
    ensures a.NaN? <==> r.NaN?
    ensures !a.NaN? ==> !Less(Finite(hi), r)
  {
    if a.NaN? then NaN else if Less(Finite(hi), a) then Finite(hi) else a
  }

  /** `np.clip(a, lo, hi)`: the lower bound first, then the upper bound; an
      absent bound is not applied. */
  function Clip(a: Float, lo: Option<real>, hi: Option<real>): (r: Float)
    ensures a.NaN? <==> r.NaN?
    ensures hi.Some? && !a.NaN? ==> !Less(Finite(hi.value), r)
    ensures lo.Some? && hi.Some? && lo.value <= hi.value && !a.NaN? ==>
              r.Finite? && lo.value <= r.value <= hi.value
    ensures lo.None? && hi.None? ==> r == a
  {
    var b := if lo.Some? then AtLeast(a, lo.value) else a;
    if hi.Some? then AtMost(b, hi.value) else b
  }

  /** Zero is neutral for addition and subtraction of non-NaN values. */
  lemma AddZero(a: Float)
    requires !a.NaN?
    ensures Add(a, Finite(0.0)) == a && Sub(a, Finite(0.0)) == a
  {
    assert Neg(Finite(0.0)) == Finite(0.0);
  }
}
