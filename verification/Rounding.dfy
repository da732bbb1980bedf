/** Rounding as the sources use it. */
module Rounding {

  /** math.Trunc and Math.trunc: towards zero. */
  function Trunc(x: real): int {
    if x >= 0.0 then x.Floor else -(-x).Floor
  }
}
