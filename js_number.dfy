/** JavaScript numbers as exact values: a real, either infinity, or NaN.
    The operators follow the IEEE rules for the special values (NaN is
    contagious, infinity absorbs finite values, 0 * Infinity and
    Infinity - Infinity are NaN) without rounding and without a signed zero. */
module JsNumber {

  datatype Num = NaN | PosInf | NegInf | Fin(v: real)

  /** Every value but NaN (isNaN). */
  predicate IsNumber(a: Num) { !a.NaN? }

  function Neg(a: Num): Num {
    match a
    case NaN => NaN
    case PosInf => NegInf
    case NegInf => PosInf
    case Fin(x) => Fin(-x)
  }

  function Add(a: Num, b: Num): (r: Num)
    ensures a.Fin? && b.Fin? ==> r == Fin(a.v + b.v)
    ensures a.NaN? || b.NaN? ==> r.NaN?
  {
    match (a, b)
    case (NaN, _) => NaN
    case (_, NaN) => NaN
    case (PosInf, NegInf) => NaN
    case (NegInf, PosInf) => NaN
    case (PosInf, _) => PosInf
    case (_, PosInf) => PosInf
    case (NegInf, _) => NegInf
    case (_, NegInf) => NegInf
    case (Fin(x), Fin(y)) => Fin(x + y)
  }

  function Sub(a: Num, b: Num): (r: Num)
    ensures a.Fin? && b.Fin? ==> r == Fin(a.v - b.v)
    ensures a.NaN? || b.NaN? ==> r.NaN?
  {
    Add(a, Neg(b))
  }

  /** The sign of a non-NaN value: 1, -1 or 0. */
  function Sign(a: Num): int
    requires IsNumber(a)
  {
    match a
    case PosInf => 1
    case NegInf => -1
    case Fin(x) => if x > 0.0 then 1 else if x < 0.0 then -1 else 0
  }

  /** The infinity of the given non-zero sign. */
  function Infinity(sign: int): Num {
    if sign > 0 then PosInf else NegInf
  }

  function Mul(a: Num, b: Num): (r: Num)
    ensures a.Fin? && b.Fin? ==> r == Fin(a.v * b.v)
    ensures a.NaN? || b.NaN? ==> r.NaN?
  {
    if a.NaN? || b.NaN? then NaN
    else if a.Fin? && b.Fin? then Fin(a.v * b.v)
    else if Sign(a) == 0 || Sign(b) == 0 then NaN
    else Infinity(Sign(a) * Sign(b))
  }

  function Div(a: Num, b: Num): (r: Num)
    ensures a.Fin? && b.Fin? && b.v != 0.0 ==> r == Fin(a.v / b.v)
    ensures a.NaN? || b.NaN? ==> r.NaN?
  {
    if a.NaN? || b.NaN? then NaN
    else if a.Fin? && b.Fin? then
      if b.v != 0.0 then Fin(a.v / b.v)
      else if a.v == 0.0 then NaN
      else Infinity(Sign(a))
    else if !a.Fin? && !b.Fin? then NaN
    else if b.PosInf? || b.NegInf? then Fin(0.0)
    else if Sign(b) == 0 then a
    else Infinity(Sign(a) * Sign(b))
  }

  /** a < b on non-NaN values, infinities at the two ends. */
  predicate Below(a: Num, b: Num)
    requires IsNumber(a) && IsNumber(b)
  {
    match (a, b)
    case (NegInf, _) => !b.NegInf?
    case (_, PosInf) => !a.PosInf?
    case (Fin(x), Fin(y)) => x < y
    case _ => false
  }

  /** Math.max of two values: NaN when either is NaN. */
  function Max(a: Num, b: Num): (r: Num)
    ensures a.Fin? && b.Fin? ==> r == Fin(if a.v >= b.v then a.v else b.v)
    ensures r.NaN? <==> a.NaN? || b.NaN?
    ensures !r.NaN? ==> r == a || r == b
  {
    if a.NaN? || b.NaN? then NaN else if Below(a, b) then b else a
  }

  /** Math.min of two values: NaN when either is NaN. */
  function Min(a: Num, b: Num): (r: Num)
    ensures a.Fin? && b.Fin? ==> r == Fin(if a.v <= b.v then a.v else b.v)
    ensures r.NaN? <==> a.NaN? || b.NaN?
    ensures !r.NaN? ==> r == a || r == b
  {
    if a.NaN? || b.NaN? then NaN else if Below(b, a) then b else a
  }

  /** Math.min at the two ends of the line: min(+Infinity, b) is b and
      min(-Infinity, b) is -Infinity, and Math.max mirrors it. */
  lemma InfinityBounds(b: Num)
    requires IsNumber(b)
    ensures Min(PosInf, b) == b && Min(NegInf, b) == NegInf
    ensures Max(NegInf, b) == b && Max(PosInf, b) == PosInf
  {
  }
}
