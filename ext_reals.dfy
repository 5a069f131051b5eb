/** The doubles used as interval bounds: finite values and the two
    infinities (NaN is not modelled). */
module ExtReals {
  import opened Options

  datatype ExtReal = NegInf | Fin(v: real) | PosInf

  /** a <= b on the extended reals. */
  predicate Le(a: ExtReal, b: ExtReal) {
    match a
    case NegInf => true
    case PosInf => b == PosInf
    case Fin(x) => b == PosInf || (b.Fin? && x <= b.v)
  }

  /** a < b on the extended reals. */
  predicate Lt(a: ExtReal, b: ExtReal) {
    !Le(b, a)
  }

  /** Unary minus. */
  function Negate(a: ExtReal): ExtReal {
    match a
    case NegInf => PosInf
    case PosInf => NegInf
    case Fin(x) => Fin(-x)
  }

  /** IEEE subtraction a - b; None is the NaN of inf - inf. */
  function Minus(a: ExtReal, b: ExtReal): (r: Option<ExtReal>)
    ensures r.None? <==> (a == b && !a.Fin?)
    ensures a.Fin? && b.Fin? ==> r == Some(Fin(a.v - b.v))
  {
    match (a, b)
    case (Fin(x), Fin(y)) => Some(Fin(x - y))
    case (PosInf, PosInf) => None
    case (NegInf, NegInf) => None
    case (PosInf, _) => Some(PosInf)
    case (NegInf, _) => Some(NegInf)
    case (Fin(_), PosInf) => Some(NegInf)
    case (Fin(_), NegInf) => Some(PosInf)
  }

  lemma LeTotal(a: ExtReal, b: ExtReal)
    ensures Le(a, b) || Le(b, a)
  {
  }

  lemma LeTrans(a: ExtReal, b: ExtReal, c: ExtReal)
    requires Le(a, b) && Le(b, c)
    ensures Le(a, c)
  {
  }

  lemma LeAntisym(a: ExtReal, b: ExtReal)
    requires Le(a, b) && Le(b, a)
    ensures a == b
  {
  }
}
