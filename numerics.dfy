/**
 * Shared vocabulary of the model: the single failure outcome that the engine's
 * public operations report, the library functions of System.Math that the
 * engine calls (kept abstract), and the double constants it uses.
 */
module Numerics {

  /** Every public operation of the engine catches whatever is thrown inside it
      and rethrows it as an InvalidOperationException; the property setters
      throw an ArgumentException. Either way the caller gets no value, so one
      failure outcome stands for all of them. */
  datatype Result<T> = Success(value: T) | Failure

  /** Math.Sqrt, Math.Exp, Math.Log and Math.Pow, whose real values are not
      modelled: an operation that calls them takes them as a parameter. */
  datatype Maths = Maths(sqrt: real -> real, exp: real -> real, log: real -> real, pow: (real, real) -> real)
  {
    /** The only facts about the library functions assumed globally; each
        holds of the IEEE implementations (underflow gives 0, not a negative
        number). A few lemmas take further facts as their own hypotheses. */
    ghost predicate Valid()
    {
      (forall x: real :: x >= 0.0 ==> sqrt(x) >= 0.0) &&
      (forall x: real :: exp(x) >= 0.0) &&
      (forall e: real :: pow(10.0, e) >= 0.0)
    }
  }

  /** Math.PI, the double closest to pi. */
  const Pi: real := 3.141592653589793

  /** double.MaxValue, the initial "smallest difference" of the critical-pair search. */
  const DoubleMax: real := 1.7976931348623157e308

  /** The overflow cap 1E32 applied to retention factors. */
  const RetentionCap: real := 1.0e32

  /** Offset from degrees Celsius to kelvin. */
  const KelvinOffset: real := 273.15

  /** The product of two positive reals is positive. */
  lemma ProductPositive(x: real, y: real)
    requires x > 0.0 && y > 0.0
    ensures x * y > 0.0
  {
  }

  /** A non-negative part of a non-zero non-negative total is a share in [0, 1]. */
  lemma ShareInUnitInterval(a: real, b: real)
    requires a >= 0.0 && b >= 0.0 && a + b != 0.0
    ensures 0.0 <= a / (a + b) <= 1.0
  {
    assert a / (a + b) * (a + b) == a;
  }

  function Abs(x: real): (r: real)
    ensures r >= 0.0
    ensures r == x || r == -x
  {
    if x < 0.0 then -x else x
  }

  function Min(x: real, y: real): (r: real)
    ensures r <= x && r <= y
    ensures r == x || r == y
  {
    if x <= y then x else y
  }

  function Max(x: real, y: real): (r: real)
    ensures r >= x && r >= y
    ensures r == x || r == y
  {
    if x >= y then x else y
  }
}
