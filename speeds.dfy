/**
 * The speed column's values. Pandas stores the speed as a double: besides
 * finite values it can hold NaN (the "undefined" speed at a track start, and
 * 0/0) and the infinities that a division by a zero elapsed time produces.
 * Finite values are modelled as exact reals (rounding is not modelled).
 */
module Speeds {

  datatype Speed = NaN | PosInf | NegInf | Finite(mph: real)

  /** Statute miles per kilometre, the factor the distance column is scaled by. */
  const KmToMiles: real := 0.621371

  /** Seconds per hour: elapsed seconds are divided by this to get hours. */
  const SecondsPerHour: real := 3600.0

  /** Division of two finite doubles as numpy performs it: division by zero gives an infinity, or NaN for 0/0. */
  function Divide(num: real, den: real): (q: Speed)
  {
    if den != 0.0 then Finite(num / den)
    else if num > 0.0 then PosInf
    else if num < 0.0 then NegInf
    else NaN
  }

  /** `Distance / (TimeDifference / 3600)`: miles over elapsed seconds, as a speed in miles per hour. */
  function MilesPerHour(miles: real, seconds: int): (v: Speed)
  {
    Divide(miles, seconds as real / SecondsPerHour)
  }

  /**
   * For a leg of non-negative length and a non-negative elapsed time: a positive
   * time gives a finite, non-negative speed; a zero time gives an infinite speed,
   * or NaN when the leg has length 0 as well.
   */
  lemma MilesPerHourCases(miles: real, seconds: int)
    requires miles >= 0.0 && seconds >= 0
    ensures seconds > 0 ==> MilesPerHour(miles, seconds) == Finite(miles / (seconds as real / 3600.0))
    ensures seconds > 0 ==> MilesPerHour(miles, seconds).mph >= 0.0
    ensures seconds == 0 ==> MilesPerHour(miles, seconds) == if miles == 0.0 then NaN else PosInf
  {
  }

  /** Python's `val < c` for a speed value and a numeric constant: false whenever `val` is NaN. */
  predicate Less(val: Speed, c: real)
  {
    match val
    case Finite(v) => v < c
    case NegInf => true
    case PosInf => false
    case NaN => false
  }

  /** Python's `c <= val`: false whenever `val` is NaN. */
  predicate AtLeast(c: real, val: Speed)
  {
    match val
    case Finite(v) => c <= v
    case NegInf => false
    case PosInf => true
    case NaN => false
  }
}
