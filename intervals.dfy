/** Interval: a [min, max] range of doubles used to bound hit parameters. */
module Intervals {
  import opened Options
  import opened ExtReals
  import Utils

  datatype Interval = Interval(min: ExtReal, max: ExtReal) {

    /** max - min; None is the NaN of subtracting equal infinities. */
    function Size(): (r: Option<ExtReal>)
      ensures r.None? <==> (min == max && !min.Fin?)
      ensures min.Fin? && max.Fin? ==> r == Some(Fin(max.v - min.v))
      ensures min.Fin? && max.Fin? ==> (r.value.v >= 0.0 <==> Le(min, max))
    {
      Minus(max, min)
    }

    /** Closed membership: min <= x <= max. */
    predicate Contains(x: ExtReal) {
      Le(min, x) && Le(x, max)
    }

    /** Strict membership: min < x < max. */
    predicate Surrounds(x: ExtReal) {
      Lt(min, x) && Lt(x, max)
    }

    /** Saturates x into [min, max], testing the lower bound first. */
    function Clamp(x: ExtReal): (r: ExtReal)
      ensures Le(min, max) ==> Contains(r)
      ensures r == x <==> Contains(x)
      ensures min.Fin? && max.Fin? ==> r.Fin?
    {
      if Lt(x, min) then min
      else if Lt(max, x) then max
      else x
    }
  }

  /** Interval::empty: no value lies in it. */
  const Empty: Interval := Interval(Utils.Infinity, Negate(Utils.Infinity))

  /** Interval::universe: every value lies in it. */
  const Universe: Interval := Interval(Negate(Utils.Infinity), Utils.Infinity)

  /** The default constructor Interval(). */
  function DefaultInterval(): Interval {
    Interval(Utils.Infinity, Negate(Utils.Infinity))
  }

  lemma SurroundsImpliesContains(iv: Interval, x: ExtReal)
    requires iv.Surrounds(x)
    ensures iv.Contains(x)
  {
  }

  /** surrounds excludes both endpoints; contains includes both of a non-empty interval. */
  lemma Endpoints(iv: Interval)
    ensures !iv.Surrounds(iv.min) && !iv.Surrounds(iv.max)
    ensures Le(iv.min, iv.max) ==> iv.Contains(iv.min) && iv.Contains(iv.max)
  {
  }

  lemma ClampIdempotent(iv: Interval, x: ExtReal)
    requires Le(iv.min, iv.max)
    ensures iv.Clamp(iv.Clamp(x)) == iv.Clamp(x)
  {
  }

  lemma ClampMonotone(iv: Interval, x: ExtReal, y: ExtReal)
    requires Le(iv.min, iv.max)
    requires Le(x, y)
    ensures Le(iv.Clamp(x), iv.Clamp(y))
  {
  }

  /** Without min <= max, clamping twice can move the value again. */
  lemma ClampNotIdempotentOnInverted()
    ensures var iv := Interval(Fin(5.0), Fin(3.0));
            iv.Clamp(iv.Clamp(Fin(4.0))) != iv.Clamp(Fin(4.0))
  {
  }

  lemma EmptyHoldsNothing(x: ExtReal)
    ensures !Empty.Contains(x) && !Empty.Surrounds(x)
    ensures Empty.Size() == Some(NegInf)
  {
  }

  lemma UniverseHoldsEverything(x: ExtReal)
    ensures Universe.Contains(x)
    ensures x.Fin? ==> Universe.Surrounds(x)
    ensures Universe.Clamp(x) == x
    ensures Universe.Size() == Some(PosInf)
  {
  }

  lemma DefaultIsEmpty()
    ensures DefaultInterval() == Empty
  {
  }
}
