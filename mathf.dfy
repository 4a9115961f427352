/** The few `UnityEngine.Mathf` helpers the game logic relies on, as Unity defines
    them, over mathematical integers and reals. */
module Mathf {

  /** `Mathf.Clamp(int, int, int)`: a value below `min` becomes `min`, one above
      `max` becomes `max`, anything else is returned as it is. */
  function Clamp(value: int, min: int, max: int): (r: int)
    ensures min <= max ==> min <= r <= max
    ensures min <= value <= max ==> r == value
    ensures value < min ==> r == min
    ensures min <= max < value ==> r == max
  {
    if value < min then min
    else if value > max then max
    else value
  }

  lemma ClampMonotone(x: int, y: int, min: int, max: int)
    requires x <= y && min <= max
    ensures Clamp(x, min, max) <= Clamp(y, min, max)
  {
  }

  /** `Mathf.Clamp01(float)`: the interpolation parameter forced into 0..1. */
  function Clamp01(t: real): (r: real)
    ensures 0.0 <= r <= 1.0
    ensures 0.0 <= t <= 1.0 ==> r == t
    ensures t >= 1.0 ==> r == 1.0
    ensures t <= 0.0 ==> r == 0.0
  {
    if t < 0.0 then 0.0
    else if t > 1.0 then 1.0
    else t
  }

  /** `Mathf.Lerp(a, b, t)`: linear interpolation from `a` to `b`, with `t`
      clamped to 0..1 first. */
  function Lerp(a: real, b: real, t: real): (r: real)
    ensures t >= 1.0 ==> r == b
    ensures t <= 0.0 ==> r == a
    ensures a <= b ==> a <= r <= b
  {
    a + Scale(b - a, Clamp01(t))
  }

  /** The portion `c` (in 0..1) of the distance `x`. */
  function Scale(x: real, c: real): (p: real)
    requires 0.0 <= c <= 1.0
    ensures 0.0 <= x ==> 0.0 <= p <= x
    ensures c == 0.0 ==> p == 0.0
    ensures c == 1.0 ==> p == x
  {
    // The branch exists only to hold the lemma calls that bound the product.
    if 0.0 <= x then
      MulNonNegative(x, c);
      MulNonNegative(x, 1.0 - c);
      assert x * (1.0 - c) == x - x * c;
      x * c
    else
      x * c
  }

  lemma MulNonNegative(x: real, y: real)
    requires 0.0 <= x && 0.0 <= y
    ensures 0.0 <= x * y
  {
  }

  /** Moving the parameter forward never moves the interpolated point back. */
  lemma LerpMonotone(a: real, b: real, s: real, t: real)
    requires a <= b && s <= t
    ensures Lerp(a, b, s) <= Lerp(a, b, t)
  {
    var cs, ct := Clamp01(s), Clamp01(t);
    MulNonNegative(b - a, ct - cs);
    assert (b - a) * (ct - cs) == (b - a) * ct - (b - a) * cs;
    assert Scale(b - a, ct) - Scale(b - a, cs) == (b - a) * (ct - cs);
  }

  /** `Mathf.RoundToInt(f)`, that is `(int)Math.Round(f)`: the nearest integer,
      with a tie going to the even neighbour. */
  function RoundToInt(x: real): (r: int)
    ensures x - 0.5 <= r as real <= x + 0.5
    ensures (r as real - x == 0.5 || x - r as real == 0.5) ==> r % 2 == 0
  {
    var f := x.Floor;
    var frac := x - f as real;
    if frac < 0.5 then f
    else if frac > 0.5 then f + 1
    else if f % 2 == 0 then f
    else f + 1
  }

  /** Rounding never reverses the order of two values. */
  lemma RoundToIntMonotone(x: real, y: real)
    requires x <= y
    ensures RoundToInt(x) <= RoundToInt(y)
  {
  }
}
