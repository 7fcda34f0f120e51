/**
  The +/- buttons of a partial counter (morning, midday, evening): minus
  takes one step off and stops at zero, plus adds one step with no cap.
*/
module Counter {

  /** The minus button: one step down, floored at zero. */
  function Minus(v: int, step: int): (r: int)
    ensures r >= 0 && r >= v - step
    ensures r == 0 || r == v - step
  {
    if v - step > 0 then v - step else 0
  }

  /** The plus button: one step up. */
  function Plus(v: int, step: int): (r: int)
    ensures r - step == v
  {
    v + step
  }

  /** Pressing minus on an empty counter leaves it empty. */
  lemma MinusAtZero(step: int)
    requires step >= 0
    ensures Minus(0, step) == 0
  {
  }

  /** Plus followed by minus gives back any counter value that is not negative, whatever the step. */
  lemma PlusThenMinus(v: int, step: int)
    requires v >= 0
    ensures Minus(Plus(v, step), step) == v
  {
  }

  /** Minus followed by plus gives back a value that had at least one step in it. */
  lemma MinusThenPlus(v: int, step: int)
    requires v >= step
    ensures Plus(Minus(v, step), step) == v
  {
  }
}
