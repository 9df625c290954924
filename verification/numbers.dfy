/** Arithmetic on JavaScript numbers, taken as exact reals: `Math.min`,
    `Math.max`, the three-way `clamp` the controls and the scene tools both
    define, and the remainder operator `%`, which truncates toward zero. */
module Numbers {

  function Min(a: real, b: real): (r: real)
    ensures r <= a && r <= b && (r == a || r == b)
  {
    if a <= b then a else b
  }

  function Max(a: real, b: real): (r: real)
    ensures r >= a && r >= b && (r == a || r == b)
  {
    if a >= b then a else b
  }

  function Abs(a: real): (r: real)
    ensures r >= 0.0 && (r == a || r == -a)
  {
    if a < 0.0 then -a else a
  }

  /** `clamp(num, min, max)`: `min` when num is at or below it, otherwise
      `max` when num is at or above that, otherwise num itself. */
  function Clamp(num: real, min: real, max: real): (r: real)
    ensures num <= min ==> r == min
    ensures min < num && max <= num ==> r == max
    ensures min < num < max ==> r == num
    ensures min <= max ==> min <= r <= max
  {
    if num <= min then min
    else if max <= num then max
    else num
  }

  /** Clamping twice into the same interval is clamping once. */
  lemma ClampIdempotent(num: real, min: real, max: real)
    requires min <= max
    ensures Clamp(Clamp(num, min, max), min, max) == Clamp(num, min, max)
  {
  }

  /** Clamping preserves order: a smaller number never clamps to a larger
      one. */
  lemma ClampMonotone(a: real, b: real, min: real, max: real)
    requires a <= b && min <= max
    ensures Clamp(a, min, max) <= Clamp(b, min, max)
  {
  }

  /** The integer part of `x`, rounding toward zero. */
  function Trunc(x: real): (r: int)
    ensures x >= 0.0 ==> 0.0 <= x - r as real < 1.0
    ensures x < 0.0 ==> -1.0 < x - r as real <= 0.0
  {
    if x >= 0.0 then x.Floor else -((-x).Floor)
  }

  /** JavaScript's `num % denom`: the result has the sign of `num` and is
      smaller in size than `denom`. */
  function JsRem(num: real, denom: real): (r: real)
    requires denom > 0.0
    ensures num >= 0.0 ==> 0.0 <= r < denom
    ensures num < 0.0 ==> -denom < r <= 0.0
    ensures (num - r) / denom == Trunc(num / denom) as real
  {
    var r := num - denom * Trunc(num / denom) as real;
    JsRemBounds(num, denom, Trunc(num / denom), r);
    r
  }

  lemma JsRemBounds(num: real, denom: real, q: int, r: real)
    requires denom > 0.0 && q == Trunc(num / denom) && r == num - denom * q as real
    ensures num >= 0.0 ==> 0.0 <= r < denom
    ensures num < 0.0 ==> -denom < r <= 0.0
    ensures (num - r) / denom == q as real
  {
    var f := num / denom - q as real;
    assert r == denom * f;
    if num >= 0.0 {
      assert num / denom >= 0.0;
      ScaleFraction(denom, f, r);
    } else {
      NegativeFraction(num, denom, q, f);
      ScaleFraction(denom, -f, -r);
    }
    assert num - r == denom * q as real;
  }

  lemma NegativeFraction(num: real, denom: real, q: int, f: real)
    requires denom > 0.0 && num < 0.0 && q == Trunc(num / denom) && f == num / denom - q as real
    ensures -1.0 < f <= 0.0
  {
    assert num / denom < 0.0;
  }

  /** A positive number times a fraction in [0, 1) stays below it. */
  lemma ScaleFraction(d: real, f: real, r: real)
    requires d > 0.0 && 0.0 <= f < 1.0 && r == d * f
    ensures 0.0 <= r < d
  {
    assert d * f < d * 1.0;
  }

  /** Products named as parameters, so that the solver meets them as
      plain terms. */
  lemma NonNegativeProduct(a: real, b: real, p: real)
    requires a >= 0.0 && b >= 0.0 && p == a * b
    ensures p >= 0.0
  {
  }

  lemma PositiveProduct(a: real, b: real, p: real)
    requires a > 0.0 && b > 0.0 && p == a * b
    ensures p > 0.0
  {
  }

  /** `(x / d)` is a whole number: `x` is a multiple of `d`. */
  predicate MultipleOf(x: real, d: real)
    requires d != 0.0
  {
    (x / d).Floor as real == x / d
  }
}
