/** The camera arithmetic both hosts share: the centre that keeps the view on
    the map, and the rubber-band smoothing Game applies towards it. Each axis
    is computed on its own, so the functions work on one coordinate. */
module Camera {
  import opened Geometry
  import opened FixedStep

  /** Game::update's "tightness" factor of the smoothing. */
  const LERP_SPEED: real := 5.0

  /** The centre coordinate pushed into [view/2, mapLen - view/2], the upper
      bound applied last: LoadLevel's clamp, which has no centring case. */
  function Clamp(mapLen: real, view: real, p: real): (c: real)
    ensures c <= mapLen - view / 2.0
    ensures view <= mapLen ==> view / 2.0 <= c
    ensures view / 2.0 <= p <= mapLen - view / 2.0 ==> c == p
  {
    Min(Max(p, view / 2.0), mapLen - view / 2.0)
  }

  /** The centre coordinate of the per-frame camera: the map's middle when
      the map is shorter than the view, otherwise the clamp. */
  function Axis(mapLen: real, view: real, p: real): (c: real)
    ensures mapLen < view ==> c == mapLen / 2.0
    ensures view <= mapLen ==> view / 2.0 <= c <= mapLen - view / 2.0
    ensures view <= mapLen && view / 2.0 <= p <= mapLen - view / 2.0 ==> c == p
  {
    if mapLen < view then mapLen / 2.0 else Clamp(mapLen, view, p)
  }

  /** The camera target for a position, per axis. */
  function Target(mapSize: Vec2, view: Vec2, p: Vec2): Vec2 {
    Vec2(Axis(mapSize.x, view.x, p.x), Axis(mapSize.y, view.y, p.y))
  }

  /** The visible interval [c - view/2, c + view/2] never leaves a map at
      least as long as the view, and a shorter map sits in the middle of the
      view with equal margins. */
  lemma AxisKeepsViewOnMap(mapLen: real, view: real, p: real)
    requires 0.0 <= mapLen
    ensures var c := Axis(mapLen, view, p);
            (view <= mapLen ==> 0.0 <= c - view / 2.0 && c + view / 2.0 <= mapLen) &&
            (mapLen < view ==> c - view / 2.0 < 0.0 && mapLen < c + view / 2.0 &&
                               0.0 - (c - view / 2.0) == (c + view / 2.0) - mapLen)
  {
  }

  /** The target follows the tracked position: moving it forward never moves
      the target back. */
  lemma AxisMonotone(mapLen: real, view: real, p: real, q: real)
    requires p <= q
    ensures Axis(mapLen, view, p) <= Axis(mapLen, view, q)
  {
  }

  /** One step of the rubber band: the centre moves the fraction k of the way
      to the target. */
  function Smooth(c: real, t: real, k: real): real {
    c + (t - c) * k
  }

  /** For k in [0, 1] a step lands between the centre and the target, so it
      is never farther from the target than the centre was. */
  lemma SmoothStaysBetween(c: real, t: real, k: real)
    requires 0.0 <= k <= 1.0
    ensures Min(c, t) <= Smooth(c, t, k) <= Max(c, t)
  {
    var d := t - c;
    if 0.0 <= d {
      ProductBounds(d, k);
    } else {
      ProductBounds(-d, k);
      assert (-d) * k == -(d * k);
    }
  }

  /** A fraction in [0, 1] of a non-negative d lies between 0 and d. */
  lemma ProductBounds(d: real, k: real)
    requires 0.0 <= d && 0.0 <= k <= 1.0
    ensures 0.0 <= d * k <= d
  {
    assert d - d * k == d * (1.0 - k);
  }

  /** After one step the gap to the target is the old gap times 1 - k. */
  lemma SmoothGap(c: real, t: real, k: real)
    ensures Smooth(c, t, k) - t == (c - t) * (1.0 - k)
  {
  }

  /** Game::update's step: the gap times the speed, times the tick. */
  function Lerp(c: real, t: real, dt: real): real {
    c + (t - c) * LERP_SPEED * dt
  }

  /** The step is the rubber band with factor LERP_SPEED * dt. */
  lemma LerpIsSmooth(c: real, t: real, dt: real)
    ensures Lerp(c, t, dt) == Smooth(c, t, LERP_SPEED * dt)
  {
    MulAssoc(t - c, LERP_SPEED, dt);
  }

  lemma MulAssoc(x: real, y: real, z: real)
    ensures x * y * z == x * (y * z)
  {
  }

  /** At the fixed tick the factor 5 * 16666/1000000 lies in (0, 1), so each
      step of the camera lands between its centre and its target. */
  lemma LerpAtFrameStaysBetween(c: real, t: real)
    ensures 0.0 < LERP_SPEED * FRAME_SECONDS < 1.0
    ensures Min(c, t) <= Lerp(c, t, FRAME_SECONDS) <= Max(c, t)
  {
    LerpIsSmooth(c, t, FRAME_SECONDS);
    SmoothStaysBetween(c, t, LERP_SPEED * FRAME_SECONDS);
  }

  /** n steps of the rubber band towards a fixed target. */
  function SmoothN(c: real, t: real, k: real, n: nat): real {
    if n == 0 then c else Smooth(SmoothN(c, t, k, n - 1), t, k)
  }

  function Power(a: real, n: nat): real {
    if n == 0 then 1.0 else Power(a, n - 1) * a
  }

  /** The gap g scaled by a, n times over. */
  function Shrunk(g: real, a: real, n: nat): real {
    if n == 0 then g else Shrunk(g, a, n - 1) * a
  }

  /** With the target held still, each step multiplies the gap to the target
      by 1 - k. */
  lemma {:induction false} SmoothNShrinks(c: real, t: real, k: real, n: nat)
    ensures SmoothN(c, t, k, n) - t == Shrunk(c - t, 1.0 - k, n)
  {
    if n > 0 {
      SmoothNShrinks(c, t, k, n - 1);
      SmoothGap(SmoothN(c, t, k, n - 1), t, k);
    }
  }

  /** Scaling n times by a is scaling once by a^n. */
  lemma {:induction false} ShrunkIsPower(g: real, a: real, n: nat)
    ensures Shrunk(g, a, n) == g * Power(a, n)
  {
    if n > 0 {
      ShrunkIsPower(g, a, n - 1);
      MulAssoc(g, Power(a, n - 1), a);
    }
  }

  /** So the gap shrinks geometrically: after n steps it is the first gap
      times (1 - k)^n. */
  lemma SmoothNGap(c: real, t: real, k: real, n: nat)
    ensures SmoothN(c, t, k, n) - t == (c - t) * Power(1.0 - k, n)
  {
    SmoothNShrinks(c, t, k, n);
    ShrunkIsPower(c - t, 1.0 - k, n);
  }
}
