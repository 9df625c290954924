/** The orbit controls' numeric helpers: wrapping an angle difference into
    the shorter way round, and the cubic ease the animations follow. */
module OrbitMath {
  import opened Numbers

  /** `signedRemainder(num, denom)`: the JavaScript remainder, moved by one
      `denom` when it lies more than half a `denom` from zero. */
  function SignedRemainder(num: real, denom: real): (r: real)
    requires denom > 0.0
    ensures -denom / 2.0 <= r <= denom / 2.0
    ensures MultipleOf(num - r, denom)
  {
    var remain := JsRem(num, denom);
    var r := if remain > 0.5 * denom then remain - denom
             else if remain < -0.5 * denom then remain + denom
             else remain;
    var turns := Trunc(num / denom) + (if remain > 0.5 * denom then 1 else if remain < -0.5 * denom then -1 else 0);
    WholeQuotient(num - r, denom, turns);
    r
  }

  lemma WholeQuotient(x: real, d: real, k: int)
    requires d > 0.0 && x == k as real * d
    ensures MultipleOf(x, d)
  {
    assert x / d == k as real;
  }

  /** A difference already within half a turn is kept as it is. */
  lemma SignedRemainderOfSmall(num: real, denom: real)
    requires denom > 0.0 && -denom / 2.0 <= num <= denom / 2.0
    ensures SignedRemainder(num, denom) == num
  {
    var remain := JsRem(num, denom);
    JsRemOfSmall(num, denom);
  }

  lemma JsRemOfSmall(num: real, denom: real)
    requires denom > 0.0 && -denom < num < denom
    ensures JsRem(num, denom) == num
  {
    var q := num / denom;
    assert q * denom == num;
    assert -1.0 < q < 1.0 by {
      if q >= 1.0 {
        Grows(q, 1.0, denom, q * denom);
      } else if q <= -1.0 {
        Grows(-1.0, q, denom, q * denom);
      }
    }
  }

  /** Scaling by a positive number keeps order. */
  lemma Grows(a: real, b: real, c: real, p: real)
    requires a >= b && c > 0.0
    requires p == a * c || p == b * c
    ensures p == a * c ==> p >= b * c
    ensures p == b * c ==> p <= a * c
  {
  }

  /** `easeInEaseOut(t) = 3t^2 - 2t^3`. */
  function EaseInEaseOut(t: real): (r: real)
    ensures t == 0.0 ==> r == 0.0
    ensures t == 1.0 ==> r == 1.0
  {
    3.0 * t * t - 2.0 * t * t * t
  }

  /** On [0, 1] the ease stays in [0, 1]. */
  lemma EaseBounded(t: real)
    requires 0.0 <= t <= 1.0
    ensures 0.0 <= EaseInEaseOut(t) <= 1.0
  {
    EaseMonotone(0.0, t);
    EaseMonotone(t, 1.0);
  }

  /** On [0, 1] the ease never goes backwards. */
  lemma EaseMonotone(t: real, u: real)
    requires 0.0 <= t <= u <= 1.0
    ensures EaseInEaseOut(t) <= EaseInEaseOut(u)
  {
    // E(u) - E(t) = (u - t) * (3(u + t) - 2(u^2 + ut + t^2)), and on [0, 1]
    // each of u^2, ut, t^2 is at most (u + t) / 2.
    var uu, ut, tt := u * u, u * t, t * t;
    var g := 3.0 * (u + t) - 2.0 * (uu + ut + tt);
    Below(u, u, uu);
    Below(t, t, tt);
    Below(u, t, ut);
    Below(t, u, ut);
    assert g >= 0.0;
    var d := u - t;
    assert EaseInEaseOut(u) - EaseInEaseOut(t) == d * g;
    NonNegativeProduct(d, g, d * g);
  }

  lemma Below(a: real, b: real, p: real)
    requires 0.0 <= a <= 1.0 && 0.0 <= b <= 1.0 && (p == a * b || p == b * a)
    ensures p <= a
  {
    assert a * b <= a * 1.0;
  }

  /** The ease is symmetric: running it backwards mirrors it. */
  lemma EaseSymmetric(t: real)
    ensures EaseInEaseOut(1.0 - t) == 1.0 - EaseInEaseOut(t)
  {
  }

  /** Below the end of [0, 1] the ease has not arrived: an animation stops
      exactly when its clamped time reaches 1. */
  lemma EaseReachesOneOnlyAtOne(t: real)
    requires 0.0 <= t < 1.0
    ensures EaseInEaseOut(t) < 1.0
  {
    // 1 - E(t) = (1 - t)^2 (1 + 2t)
    var s := 1.0 - t;
    assert 1.0 - EaseInEaseOut(t) == s * s * (1.0 + 2.0 * t);
    PositiveProduct(s, s, s * s);
    PositiveProduct(s * s, 1.0 + 2.0 * t, s * s * (1.0 + 2.0 * t));
  }
}
