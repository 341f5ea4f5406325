/** Facts about reals that the solver needs to be told. */
module Reals {

  /** `math.ceil` */
  function Ceil(r: real): int {
    -((-r).Floor)
  }

  lemma Product(a: real, b: real)
    requires a >= 0.0 && b >= 0.0
    ensures a * b >= 0.0
  {
  }
}
