/** The constants and the angle conversion of the Utils namespace. */
module Utils {
  import opened ExtReals

  /** std::numeric_limits<double>::infinity() */
  const Infinity: ExtReal := PosInf

  const Pi: real := 3.1415926535897932385

  function DegToRad(deg: real): real {
    deg * Pi / 180.0
  }

  lemma DegToRadZero()
    ensures DegToRad(0.0) == 0.0
  {
  }

  lemma DegToRadStraightAngle()
    ensures DegToRad(180.0) == Pi
  {
  }

  lemma DegToRadAdditive(a: real, b: real)
    ensures DegToRad(a + b) == DegToRad(a) + DegToRad(b)
  {
  }

  lemma DegToRadStrictlyIncreasing(a: real, b: real)
    requires a < b
    ensures DegToRad(a) < DegToRad(b)
  {
  }
}
