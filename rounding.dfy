/**
 * Rounding a real up to an integer, as std::ceil in the drawer's map size
 * and the element count of numpy.arange in the point-cloud node.
 */
module Rounding {

  /** The least integer not below x. */
  function Ceil(x: real): (c: int)
    ensures x <= c as real < x + 1.0
  {
    -((-x).Floor)
  }
}
