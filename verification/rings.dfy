/** Positions on a ring of `n` places, as the menu screens and the
    resolution cycle both use them. */
module Rings {

  /** The position after `k` in a ring of `n` positions, wrapping from the
      last to the first. */
  function Next(k: nat, n: nat): (r: nat)
    requires k < n
    ensures r < n
  {
    if k + 1 < n then k + 1 else 0
  }
}
