/**
 * The range [0, 100] shared by the bouncing ball's box and a goal's progress
 * percentage, and the clamp into it that both prototypes apply.
 */
module Percent {
  const Lo: int := 0
  const Hi: int := 100

  /**
   * `Math.max(0, Math.min(100, v))`, written `Math.min(100, Math.max(0, v))`
   * in the career coach; the two agree because 0 <= 100.
   */
  function Clamp(v: int): (r: int)
    ensures Lo <= r <= Hi
    ensures Lo <= v <= Hi ==> r == v
    ensures v < Lo ==> r == Lo
    ensures v > Hi ==> r == Hi
  {
    if v < Lo then Lo else if v > Hi then Hi else v
  }
}
