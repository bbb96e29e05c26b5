/**
 * Geometry used by the image handler: JavaScript's Math.round, the
 * aspect-ratio fill-in of a missing width or height, and the centring of the
 * background inside the drawing container. JavaScript numbers are modelled as
 * exact integers and reals.
 */
module Geometry {

  /** An intrinsic width or height of a decoded image, in pixels. */
  type Pixels = n: int | 0 < n witness 1

  /**
   * `r` is `num * t / den` rounded as Math.round rounds, stated without
   * division: `r - 1/2 <= num * t / den < r + 1/2`, scaled by `2 * den`.
   */
  predicate RoundsTo(num: int, den: Pixels, t: int, r: int)
  {
    2 * (den * r) - den <= 2 * (num * t) < 2 * (den * r) + den
  }

  /**
   * Math.round(num / den * t) in exact arithmetic: the floor of
   * `num * t / den + 1/2`, which is `(2 * num * t + den) / (2 * den)`.
   */
  function RoundRatio(num: int, den: Pixels, t: int): (r: int)
    ensures RoundsTo(num, den, t, r)
  {
    var n, d := 2 * (num * t) + den, 2 * den;
    var q := n / d;
    assert d * q <= n < d * q + d;
    assert d * q == 2 * (den * q);
    q
  }

  /** Math.round on a real: the nearest integer, a half rounded towards +infinity. */
  function JsRound(v: real): (r: int)
    ensures r as real - 0.5 <= v < r as real + 0.5
  {
    (v + 0.5).Floor
  }

  /** The integer formula is Math.round applied to the real quotient `num / den * t`. */
  lemma RoundRatioIsJsRound(num: int, den: Pixels, t: int)
    ensures RoundRatio(num, den, t) == JsRound((num as real / den as real) * t as real)
  {
    var d := den as real;
    var v := (num as real / d) * t as real;
    assert (num as real / d) * d == num as real;
    assert v * d == (num as real / d) * d * t as real;
    CastProduct(num, t);
    var r := JsRound(v);
    RealScaled(r as real, v, d, (num * t) as real);
    CastProduct(r, den);
    Unscale(r * den, den, num * t);
    RoundsToUnique(num, den, t, RoundRatio(num, den, t), r);
  }

  lemma RealScaled(r: real, v: real, d: real, p: real)
    requires r - 0.5 <= v < r + 0.5 && 0.0 < d && v * d == p
    ensures 2.0 * (r * d) - d <= 2.0 * p < 2.0 * (r * d) + d
  {
    BelowProduct(r - 0.5, v, d, p);
    AboveProduct(v, r + 0.5, d, p);
    assert (r - 0.5) * d == r * d - 0.5 * d;
    assert (r + 0.5) * d == r * d + 0.5 * d;
  }

  /** Scaling `a <= b` by a positive `d`, when `b * d` is known to be `p`. */
  lemma BelowProduct(a: real, b: real, d: real, p: real)
    requires a <= b && 0.0 < d && b * d == p
    ensures a * d <= p
  {
    assert b * d - a * d == (b - a) * d;
  }

  /** Scaling `a < b` by a positive `d`, when `a * d` is known to be `p`. */
  lemma AboveProduct(a: real, b: real, d: real, p: real)
    requires a < b && 0.0 < d && a * d == p
    ensures p < b * d
  {
    assert b * d - a * d == (b - a) * d;
  }

  lemma CastProduct(a: int, b: int)
    ensures (a * b) as real == a as real * b as real
  {
  }

  lemma Unscale(a: int, den: int, p: int)
    requires 2.0 * a as real - den as real <= 2.0 * p as real < 2.0 * a as real + den as real
    ensures 2 * a - den <= 2 * p < 2 * a + den
  {
  }

  /** The height that keeps an `iw` x `ih` image's aspect ratio at width `w`. */
  function ProportionalHeight(iw: Pixels, ih: Pixels, w: int): (h: int)
    ensures RoundsTo(ih, iw, w, h)
  {
    RoundRatioIsJsRound(ih, iw, w);
    JsRound((ih as real / iw as real) * w as real)
  }

  /** The width that keeps an `iw` x `ih` image's aspect ratio at height `h`. */
  function ProportionalWidth(iw: Pixels, ih: Pixels, h: int): (w: int)
    ensures RoundsTo(iw, ih, h, w)
  {
    RoundRatioIsJsRound(iw, ih, h);
    JsRound((iw as real / ih as real) * h as real)
  }

  /** RoundsTo pins the rounded value down: there is only one. */
  lemma RoundsToUnique(num: int, den: Pixels, t: int, r1: int, r2: int)
    requires RoundsTo(num, den, t, r1) && RoundsTo(num, den, t, r2)
    ensures r1 == r2
  {
    if r1 < r2 {
      MulMonotone(den, r1 + 1, r2);
    } else if r2 < r1 {
      MulMonotone(den, r2 + 1, r1);
    }
  }

  lemma MulMonotone(c: Pixels, a: int, b: int)
    requires a <= b
    ensures c * a <= c * b
  {
    assert c * b - c * a == c * (b - a);
  }

  /**
   * Deriving the longer side from the shorter one and then the shorter side
   * back from the result gives the original value exactly.
   */
  lemma HeightThenWidth(iw: Pixels, ih: Pixels, w: int)
    requires iw <= ih
    ensures ProportionalWidth(iw, ih, ProportionalHeight(iw, ih, w)) == w
  {
    var h := ProportionalHeight(iw, ih, w);
    RoundTrip(iw, ih, w, h, ProportionalWidth(iw, ih, h));
  }

  /** The same round trip for a wide image, starting from the height. */
  lemma WidthThenHeight(iw: Pixels, ih: Pixels, h: int)
    requires ih <= iw
    ensures ProportionalHeight(iw, ih, ProportionalWidth(iw, ih, h)) == h
  {
    var w := ProportionalWidth(iw, ih, h);
    RoundTrip(ih, iw, h, w, ProportionalHeight(iw, ih, w));
  }

  /** `b` rounds `t * long / short`; rounding `b * short / long` gives back `t`. */
  lemma RoundTrip(short: Pixels, long: Pixels, t: int, b: int, r: int)
    requires short <= long
    requires RoundsTo(long, short, t, b) && RoundsTo(short, long, b, r)
    ensures r == t
  {
    if short == long {
      // An aspect ratio of one: both roundings are exact.
      RoundsToUnique(long, short, t, b, t);
      RoundsToUnique(short, long, b, r, b);
    } else {
      var sb, lt, lr := short * b, long * t, long * r;
      // 2*lr - long <= 2*sb <= 2*lt + short < 2*lt + long, and
      // 2*lr + long > 2*sb > 2*lt - short > 2*lt - long.
      assert lr < lt + long && lt - long < lr;
      if r > t {
        MulMonotone(long, t + 1, r);
      } else if r < t {
        MulMonotone(long, r, t - 1);
      }
    }
  }

  /**
   * Deriving the shorter side first does not round-trip within one pixel:
   * a 100 x 1 image at width 50 gets height 1, and height 1 gives width 100.
   */
  lemma WideImageDrifts()
    ensures ProportionalHeight(100, 1, 50) == 1
    ensures ProportionalWidth(100, 1, 1) == 100
  {
    RoundsToUnique(1, 100, 50, ProportionalHeight(100, 1, 50), 1);
    RoundsToUnique(100, 1, 1, ProportionalWidth(100, 1, 1), 100);
  }

  /**
   * The same round trip can also miss by exactly one pixel: a 3 x 2 image
   * at width 1 gets height 1, and height 1 gives width 2.
   */
  lemma WideImageOffByOne()
    ensures ProportionalHeight(3, 2, 1) == 1
    ensures ProportionalWidth(3, 2, 1) == 2
  {
    RoundsToUnique(2, 3, 1, ProportionalHeight(3, 2, 1), 1);
    RoundsToUnique(3, 2, 1, ProportionalWidth(3, 2, 1), 2);
  }

  /**
   * The offset that centres an image of size `image` inside `container`:
   * the margin before it equals the margin after it.
   */
  function CentredOffset(container: int, image: Pixels): (x: real)
    ensures x == container as real - (x + image as real)
  {
    (container - image) as real / 2.0
  }
}
