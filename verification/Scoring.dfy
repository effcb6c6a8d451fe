/** Score arithmetic: rounding to the 0.0001 grid and clamping to [0, 1]. */
module Scoring {

  /** Python's `round(x, 4)`: to the nearest multiple of 0.0001, ties to the even one. */
  function Round4(x: real): real {
    Units(x) as real / 10000.0
  }

  /** The nearest multiple of 0.0001, counted in units of 0.0001. */
  function Units(x: real): int {
    var f := (x * 10000.0).Floor;
    var d := x * 10000.0 - f as real;
    if d < 0.5 then f else if d > 0.5 then f + 1 else if f % 2 == 0 then f else f + 1
  }

  /** `_clamp`. */
  function Clamp(x: real): (r: real)
    ensures 0.0 <= r <= 1.0
  {
    var r := Round4(x);
    if r > 1.0 then 1.0 else if r < 0.0 then 0.0 else r
  }

  predicate OnGrid(t: real) {
    (t * 10000.0).Floor as real == t * 10000.0
  }

  lemma ClampMonotone(x: real, y: real)
    requires x <= y
    ensures Clamp(x) <= Clamp(y)
  {
    var fx, fy := (x * 10000.0).Floor, (y * 10000.0).Floor;
    assert x * 10000.0 <= y * 10000.0;
    assert fx <= fy;
    assert Units(x) <= Units(y);
  }

  lemma ClampOnGrid(t: real)
    requires 0.0 <= t <= 1.0 && OnGrid(t)
    ensures Clamp(t) == t
  {
    assert Units(t) as real == t * 10000.0;
  }

  function Distance(x: real, y: real): real {
    if x < y then y - x else x - y
  }

  /** No multiple of 0.0001 is nearer than the one chosen, and of two equally near ones it is the even one. */
  lemma RoundsToNearest(x: real, k: int)
    ensures Distance(x, Round4(x)) <= Distance(x, k as real / 10000.0)
    ensures Distance(x, Round4(x)) == Distance(x, k as real / 10000.0) ==> k == Units(x) || Units(x) % 2 == 0
  {
    var y := x * 10000.0;
    assert Round4(x) * 10000.0 == Units(x) as real;
    assert (k as real / 10000.0) * 10000.0 == k as real;
    assert y.Floor as real <= y < y.Floor as real + 1.0;
    assert k <= y.Floor || k >= y.Floor + 1;
  }

  /** x kept within [0, 1]. */
  function Bounded(x: real): real {
    if x < 0.0 then 0.0 else if x > 1.0 then 1.0 else x
  }

  /** Rounding moves a score by at most half of 0.0001. */
  lemma RoundIsClose(x: real)
    ensures Distance(x, Round4(x)) <= 0.00005
  {
    var y := x * 10000.0;
    assert Round4(x) * 10000.0 == Units(x) as real;
    assert y.Floor as real <= y < y.Floor as real + 1.0;
    assert -0.5 <= Units(x) as real - y <= 0.5;
  }

  lemma OnTheGrid(u: int)
    ensures OnGrid(u as real / 10000.0) && OnGrid(0.0) && OnGrid(1.0)
  {
    assert (u as real / 10000.0) * 10000.0 == u as real;
  }

  /** Clamping moves a bounded score by at most half of 0.0001, onto the grid. */
  lemma ClampIsClose(x: real)
    ensures Distance(Bounded(x), Clamp(x)) <= 0.00005 && OnGrid(Clamp(x))
  {
    RoundIsClose(x);
    OnTheGrid(Units(x));
    hide Units, OnGrid;
  }
}
