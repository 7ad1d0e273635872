/**
 The clamping the look cursor and the history cursor use,
 max(lo, min(x, hi)) in input_handlers.py.
 */
module Bounds {

  /** max(lo, min(x, hi)) */
  function Clamp(x: int, lo: int, hi: int): (r: int)
    ensures lo <= hi ==> lo <= r <= hi
    ensures lo <= x <= hi ==> r == x
  {
    var m := if x < hi then x else hi;
    if lo < m then m else lo
  }

  /** Clamping picks the point of [lo, hi] nearest to x. */
  lemma ClampIsNearest(x: int, lo: int, hi: int, u: int)
    requires lo <= u <= hi
    ensures var r := Clamp(x, lo, hi);
            (r - x) * (r - x) <= (u - x) * (u - x)
  {
    var r := Clamp(x, lo, hi);
    if x < lo {
      assert r == lo && 0 < r - x <= u - x;
    } else if x > hi {
      assert r == hi && u - x <= r - x < 0;
    }
  }
}
