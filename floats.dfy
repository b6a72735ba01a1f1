/**
 * The few IEEE-754 values beyond the reals that the engine really produces: the
 * infinite seeds of a running minimum/maximum that no term ever lowered, and the NaN
 * obtained from their midpoint.
 */
module Floats {

  datatype Float = NegInf | Fin(r: real) | PosInf | NaN

  /** math.Min: -Inf wins, then NaN, then the usual order on the extended line. */
  function Min(a: Float, b: Float): (m: Float)
    ensures a.Fin? && b.Fin? ==> m == Fin(if a.r <= b.r then a.r else b.r)
    ensures a == PosInf && b != NaN ==> m == b
    ensures a == NegInf || b == NegInf ==> m == NegInf
  {
    if a.NegInf? || b.NegInf? then NegInf
    else if a.NaN? || b.NaN? then NaN
    else if a.PosInf? then b
    else if b.PosInf? then a
    else if a.r <= b.r then a else b
  }

  /** math.Max: +Inf wins, then NaN, then the usual order on the extended line. */
  function Max(a: Float, b: Float): (m: Float)
    ensures a.Fin? && b.Fin? ==> m == Fin(if a.r >= b.r then a.r else b.r)
    ensures a == NegInf && b != NaN ==> m == b
    ensures a == PosInf || b == PosInf ==> m == PosInf
  {
    if a.PosInf? || b.PosInf? then PosInf
    else if a.NaN? || b.NaN? then NaN
    else if a.NegInf? then b
    else if b.NegInf? then a
    else if a.r >= b.r then a else b
  }

  /** `(a + b) / 2` in float64: finite for finite bounds, NaN for +Inf and -Inf. */
  function Midpoint(a: Float, b: Float): (m: Float)
    ensures a.Fin? && b.Fin? ==> m == Fin((a.r + b.r) / 2.0)
    ensures (a == PosInf && b == NegInf) || (a == NegInf && b == PosInf) ==> m == NaN
  {
    match (a, b)
    case (Fin(x), Fin(y)) => Fin((x + y) / 2.0)
    case (NaN, _) => NaN
    case (_, NaN) => NaN
    case (PosInf, NegInf) => NaN
    case (NegInf, PosInf) => NaN
    case (PosInf, _) => PosInf
    case (_, PosInf) => PosInf
    case (NegInf, _) => NegInf
    case (_, NegInf) => NegInf
  }
}
