/**
 * The colour of a `Speed (mph)` cell in `highlight_cells`: a chain of five
 * branches with thresholds 75, 100, 350 and 575. A NaN speed fails every
 * comparison and lands in the last branch.
 */
module SpeedBands {
  import opened Speeds

  /** The five branches of the chain, in order; the last one is the final `else`. */
  datatype Band = Green | Orange | Red | Blue | Otherwise

  /** The branch the `if`/`elif` chain takes for `val`, written with Python's comparisons. */
  function Classify(val: Speed): (b: Band)
    ensures b == Green <==> val.NegInf? || (val.Finite? && val.mph < 75.0)
    ensures b == Orange <==> val.Finite? && 75.0 <= val.mph < 100.0
    ensures b == Red <==> val.Finite? && 100.0 <= val.mph < 350.0
    ensures b == Blue <==> val.Finite? && 350.0 <= val.mph < 575.0
    ensures b == Otherwise <==> val.NaN? || val.PosInf? || (val.Finite? && val.mph >= 575.0)
  {
    if Less(val, 75.0) then Green
    else if AtLeast(75.0, val) && Less(val, 100.0) then Orange
    else if AtLeast(100.0, val) && Less(val, 350.0) then Red
    else if AtLeast(350.0, val) && Less(val, 575.0) then Blue
    else Otherwise
  }

  /** The cell's `background-color`. */
  function Colour(b: Band): (colour: string)
  {
    match b
    case Green => "green"
    case Orange => "orange"
    case Red => "red"
    case Blue => "blue"
    case Otherwise => "red"
  }

  /**
   * An undefined speed (every track start) and an infinite one (zero elapsed
   * time) take the final branch and are coloured red.
   */
  lemma NonFiniteSpeedsAreRed(val: Speed)
    requires val.NaN? || val.PosInf?
    ensures Classify(val) == Otherwise && Colour(Classify(val)) == "red"
  {
  }

  /** The colour of a cell, stated by ranges of the speed. */
  lemma ColourBySpeed(val: Speed)
    ensures Colour(Classify(val)) == "green" <==> val.NegInf? || (val.Finite? && val.mph < 75.0)
    ensures Colour(Classify(val)) == "orange" <==> val.Finite? && 75.0 <= val.mph < 100.0
    ensures Colour(Classify(val)) == "blue" <==> val.Finite? && 350.0 <= val.mph < 575.0
    ensures Colour(Classify(val)) == "red" <==>
      val.NaN? || val.PosInf? || (val.Finite? && (100.0 <= val.mph < 350.0 || val.mph >= 575.0))
  {
  }
}
