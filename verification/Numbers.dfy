/** Comparison of reals, shared by the other modules. */
module Numbers {

  /** max(a, b) */
  function Larger(a: real, b: real): (m: real)
    ensures m >= a && m >= b && (m == a || m == b)
  {
    if a < b then b else a
  }
}
