/** The points one answer earns. */
module Scoring {

  /**
   * The points for an answer: -1 when the time ran out whatever else
   * happened, 0 for a wrong answer and for a right one given after a hint,
   * 1 for a right answer without a hint.
   */
  function PointsFor(correct: bool, usedHint: bool, timedOut: bool): (p: int)
    ensures p == -1 || p == 0 || p == 1
    ensures p == -1 <==> timedOut
    ensures p == 1 <==> correct && !usedHint && !timedOut
    ensures p == 0 <==> !timedOut && (!correct || usedHint)
  {
    if timedOut then -1
    else if !correct then 0
    else if usedHint then 0
    else 1
  }

  /** Answering right never earns less than answering wrong, a hint never earns more, and running out of time earns the least. */
  lemma PointsOrder(correct: bool, usedHint: bool, timedOut: bool)
    ensures PointsFor(true, usedHint, timedOut) >= PointsFor(false, usedHint, timedOut)
    ensures PointsFor(correct, true, timedOut) <= PointsFor(correct, false, timedOut)
    ensures PointsFor(correct, usedHint, true) <= PointsFor(correct, usedHint, timedOut)
  {
  }
}
