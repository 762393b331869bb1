/** Exact decimal rounding standing in for `Number(x.toFixed(p))`.
    `toFixed` picks the nearest multiple of 10^-p and, on a tie, the one of larger magnitude
    (it formats |x| and then prefixes the sign). Here `scale` is 10^p. */
module Decimal {

  /** `n` is an integer nearest to `y`, ties away from zero. */
  predicate NearestUnits(y: real, n: int) {
    if y >= 0.0 then n as real - 0.5 <= y < n as real + 0.5
    else n as real - 0.5 < y <= n as real + 0.5
  }

  /** `v` is a whole number, and the one nearest to `y` (ties away from zero). */
  predicate NearestWhole(y: real, v: real) {
    v == v.Floor as real && NearestUnits(y, v.Floor)
  }

  /** `r` is `x` rounded to a multiple of 1/scale, ties away from zero. */
  predicate RoundsTo(x: real, r: real, scale: nat) {
    NearestWhole(x * scale as real, r * scale as real)
  }

  /** The number of 1/scale units that `x` rounds to. */
  function Units(x: real, scale: nat): (n: int)
    requires scale > 0
    ensures NearestUnits(x * scale as real, n)
  {
    var y := x * scale as real;
    if y >= 0.0 then (y + 0.5).Floor else -((-y + 0.5).Floor)
  }

  function Round(x: real, scale: nat): (r: real)
    requires scale > 0
    ensures RoundsTo(x, r, scale)
  {
    var n := Units(x, scale);
    ScaleBack(n, scale as real);
    var r := n as real / scale as real;
    assert r * scale as real == n as real;
    assert (r * scale as real).Floor == n;
    assert NearestWhole(x * scale as real, r * scale as real);
    assert RoundsTo(x, r, scale);
    r
  }

  /** `toFixed(3)` and `toFixed(6)` read back as numbers. */
  function ToFixed3(x: real): real { Round(x, 1000) }
  function ToFixed6(x: real): real { Round(x, 1000000) }

  // Small facts of real arithmetic the solver needs spelled out.

  lemma ScaleBack(n: int, s: real)
    requires s > 0.0
    ensures (n as real / s) * s == n as real
    ensures ((n as real / s) * s).Floor == n
  {
  }

  lemma IntGap(a: int, b: int)
    requires a as real < b as real + 1.0
    ensures a <= b
  {
  }

  // Facts about the nearest whole number, free of any scaling.

  lemma NearestWholeUnique(y: real, v1: real, v2: real)
    requires NearestWhole(y, v1) && NearestWhole(y, v2)
    ensures v1 == v2
  {
    IntGap(v1.Floor, v2.Floor);
    IntGap(v2.Floor, v1.Floor);
  }

  lemma NearestWholeMonotone(y1: real, y2: real, v1: real, v2: real)
    requires y1 <= y2 && NearestWhole(y1, v1) && NearestWhole(y2, v2)
    ensures v1 <= v2
  {
    IntGap(v1.Floor, v2.Floor);
  }

  lemma NearestWholeNonNegative(y: real, v: real)
    requires y >= 0.0 && NearestWhole(y, v)
    ensures v >= 0.0
    ensures v > 0.0 <==> y >= 0.5
  {
    IntGap(0, v.Floor);
    if y >= 0.5 {
      IntGap(1, v.Floor);
    }
  }

  // Facts about values rounded to three decimals, the precision the emissions properties use.
  // With the scale written as a literal the solver's arithmetic stays linear.

  /** The rounded value is determined by the rounding rule alone. */
  lemma ThousandthsUnique(x: real, r1: real, r2: real)
    requires RoundsTo(x, r1, 1000) && RoundsTo(x, r2, 1000)
    ensures r1 == r2
  {
    NearestWholeUnique(x * 1000.0, r1 * 1000.0, r2 * 1000.0);
  }

  /** The rounding error is at most half a unit of the last place. */
  lemma ThousandthsError(x: real, r: real)
    requires RoundsTo(x, r, 1000)
    ensures -0.0005 <= r - x <= 0.0005
  {
  }

  /** A non-negative value rounds to something non-negative, and to something positive exactly
      when it reaches half a thousandth. */
  lemma ThousandthsNonNegative(x: real, r: real)
    requires RoundsTo(x, r, 1000) && x >= 0.0
    ensures r >= 0.0
    ensures r > 0.0 <==> x >= 0.0005
  {
    NearestWholeNonNegative(x * 1000.0, r * 1000.0);
  }

  /** A value with at most three decimals rounds to itself. */
  lemma ThousandthsExact(x: real)
    requires x * 1000.0 == (x * 1000.0).Floor as real
    ensures RoundsTo(x, x, 1000)
  {
  }

  /** Rounding never reverses the order of two values. */
  lemma ThousandthsMonotone(x: real, y: real, rx: real, ry: real)
    requires x <= y && RoundsTo(x, rx, 1000) && RoundsTo(y, ry, 1000)
    ensures rx <= ry
  {
    NearestWholeMonotone(x * 1000.0, y * 1000.0, rx * 1000.0, ry * 1000.0);
  }

  lemma ToFixed3Monotone(x: real, y: real)
    requires x <= y
    ensures ToFixed3(x) <= ToFixed3(y)
  {
    ThousandthsMonotone(x, y, ToFixed3(x), ToFixed3(y));
  }

  lemma ToFixed3NonNegative(x: real)
    requires x >= 0.0
    ensures ToFixed3(x) >= 0.0
    ensures ToFixed3(x) > 0.0 <==> x >= 0.0005
  {
    ThousandthsNonNegative(x, ToFixed3(x));
  }
}
