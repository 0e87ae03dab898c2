/** What each shape writer puts into one particle's slots. Math.random
    draws and the sines and cosines of the drawn angles are inputs here:
    each writer takes one draw record per particle (or per slot, for
    scatter). A random draw of the source lies in [0, 1). */
module Shapes {
  import opened Geometry

  /** The colours the writers give every particle. */
  const HeartColour := Vec3(1.0, 0.0, 0.4)
  const CircleColour := Vec3(0.4, 0.0, 1.0)
  const TextColour := Vec3(0.0, 1.0, 1.0)

  predicate UnitDraw(u: real) {
    0.0 <= u < 1.0
  }

  // ---------------------------------------------------------------- scatter

  /** Target slot k of scatter: draw 2k, rescaled to [-12.5, 12.5). */
  function ScatterCoord(u: real): real {
    (u - 0.5) * 25.0
  }

  /** scatter draws twice per slot k: first the target (draw 2k), then the
      colour (draw 2k+1). */
  function ScatterTargets(slots: nat, draws: seq<real>): (r: seq<real>)
    requires |draws| == 2 * slots
    ensures |r| == slots
  {
    seq(slots, k requires 0 <= k < slots => ScatterCoord(draws[2 * k]))
  }

  function ScatterColours(slots: nat, draws: seq<real>): (r: seq<real>)
    requires |draws| == 2 * slots
    ensures |r| == slots
  {
    seq(slots, k requires 0 <= k < slots => draws[2 * k + 1])
  }

  /** With draws in [0, 1), scatter keeps targets in the cube [-12.5, 12.5)
      and colours in [0, 1). */
  lemma ScatterRanges(slots: nat, draws: seq<real>)
    requires |draws| == 2 * slots
    requires forall k :: 0 <= k < |draws| ==> UnitDraw(draws[k])
    ensures forall k :: 0 <= k < slots ==>
              -12.5 <= ScatterTargets(slots, draws)[k] < 12.5 && UnitDraw(ScatterColours(slots, draws)[k])
  {
  }

  // ------------------------------------------------------------------ heart

  /** The draws of one heart particle: sin t, cos t, cos 2t, cos 3t, cos 4t
      for the drawn angle t, and the draw for z. */
  datatype HeartDraw = HeartDraw(sinT: real, cosT: real, cos2T: real, cos3T: real, cos4T: real, zDraw: real)

  /** The heart curve x = 16 sin^3 t, y = 13 cos t - 5 cos 2t - 2 cos 3t - cos 4t,
      scaled by 0.25, with z = draw - 0.5. */
  function HeartPoint(d: HeartDraw): Vec3 {
    Vec3(16.0 * (d.sinT * d.sinT * d.sinT) * 0.25,
         (13.0 * d.cosT - 5.0 * d.cos2T - 2.0 * d.cos3T - d.cos4T) * 0.25,
         d.zDraw - 0.5)
  }

  predicate Trig(c: real) {
    -1.0 <= c <= 1.0
  }

  lemma CubeBound(s: real)
    requires Trig(s)
    ensures -1.0 <= s * s * s <= 1.0
  {
    assert 0.0 <= s * s <= 1.0;
    if s >= 0.0 {
      assert s * s * s <= s * s;
    } else {
      assert s * s * s >= -(s * s);
    }
  }

  /** With sines and cosines in [-1, 1] the heart lies within |x| <= 4,
      |y| <= 5.25, -0.5 <= z < 0.5. */
  lemma {:induction false} HeartBounded(d: HeartDraw)
    requires Trig(d.sinT) && Trig(d.cosT) && Trig(d.cos2T) && Trig(d.cos3T) && Trig(d.cos4T)
    requires UnitDraw(d.zDraw)
    ensures Abs(HeartPoint(d).x) <= 4.0 && Abs(HeartPoint(d).y) <= 5.25
    ensures -0.5 <= HeartPoint(d).z < 0.5
  {
    CubeBound(d.sinT);
  }

  // ----------------------------------------------------------------- circle

  /** The draws of one circle particle: cos and sin of the drawn angle, the
      radius draw and the z draw. */
  datatype CircleDraw = CircleDraw(cosA: real, sinA: real, radiusDraw: real, zDraw: real)

  function CircleRadius(d: CircleDraw): real {
    5.0 + (d.radiusDraw - 0.5) * 0.5
  }

  function CirclePoint(d: CircleDraw): Vec3 {
    Vec3(d.cosA * CircleRadius(d), d.sinA * CircleRadius(d), (d.zDraw - 0.5) * 2.0)
  }

  /** On the unit circle the drawn point lies at distance CircleRadius from the
      z axis, within the ring 4.75 <= radius < 5.25, and -1 <= z < 1. */
  lemma {:induction false} CircleRing(d: CircleDraw)
    requires d.cosA * d.cosA + d.sinA * d.sinA == 1.0
    requires UnitDraw(d.radiusDraw) && UnitDraw(d.zDraw)
    ensures CirclePoint(d).x * CirclePoint(d).x + CirclePoint(d).y * CirclePoint(d).y
              == CircleRadius(d) * CircleRadius(d)
    ensures 4.75 <= CircleRadius(d) < 5.25 && -1.0 <= CirclePoint(d).z < 1.0
  {
  }

  // ------------------------------------------------------------------- text

  /** Particle i's point in the plane: pts[i mod |pts|], or the origin when
      the bitmap has no bright sample. */
  function TextPoint(pts: seq<Point2>, i: nat): (p: Point2)
    ensures |pts| == 0 ==> p == Point2(0.0, 0.0)
    ensures |pts| > 0 ==> p in pts
    ensures i < |pts| ==> p == pts[i]
  {
    if |pts| == 0 then Point2(0.0, 0.0) else pts[i % |pts|]
  }

  /** Cyclic reuse: particles |pts| apart get the same point. */
  lemma TextPointPeriodic(pts: seq<Point2>, i: nat)
    requires |pts| > 0
    ensures TextPoint(pts, i + |pts|) == TextPoint(pts, i)
  {
    ModShift(i, |pts|);
  }

  lemma ModShift(i: nat, n: nat)
    requires n > 0
    ensures (i + n) % n == i % n
  {
    var q, r := i / n, i % n;
    assert i == q * n + r && 0 <= r < n;
    assert i + n == (q + 1) * n + r by { MulSucc(q, n); }
    ModUnique(i + n, n, q + 1, r);
  }

  lemma MulSucc(q: int, n: int)
    ensures (q + 1) * n == q * n + n
  {
  }

  /** The remainder is the r of any decomposition a == q * n + r with 0 <= r < n. */
  lemma ModUnique(a: nat, n: nat, q: int, r: int)
    requires n > 0 && a == q * n + r && 0 <= r < n
    ensures a % n == r
  {
    var q', r' := a / n, a % n;
    assert a == q' * n + r';
    var d := q - q';
    assert d * n == r' - r by { MulSub(q, q', n); }
    if d > 0 {
      MulMono(d, n);
    } else if d < 0 {
      MulMono(-d, n);
    }
  }

  lemma MulSub(a: int, b: int, n: int)
    ensures (a - b) * n == a * n - b * n
  {
  }

  lemma MulMono(d: int, n: int)
    requires d >= 1 && n > 0
    ensures d * n >= n
  {
  }

  /** Every point of pts is some particle's target when there are at least as
      many particles as points. */
  lemma TextPointsCovered(pts: seq<Point2>, n: nat, q: Point2)
    requires |pts| <= n && q in pts
    ensures exists i :: 0 <= i < n && TextPoint(pts, i) == q
  {
    var j :| 0 <= j < |pts| && pts[j] == q;
    assert TextPoint(pts, j) == q;
  }

  /** Particle i's text target, with z = draw - 0.5. */
  function TextTarget(pts: seq<Point2>, i: nat, zDraw: real): Vec3 {
    Vec3(TextPoint(pts, i).x, TextPoint(pts, i).y, zDraw - 0.5)
  }

  // ------------------------------------------------- whole target buffers

  /** The flat target buffer createHeart leaves: particle i on the heart
      curve of its draw. */
  function HeartTargets(ds: seq<HeartDraw>): (r: seq<real>)
    ensures |r| == 3 * |ds|
  {
    Flatten(seq(|ds|, i requires 0 <= i < |ds| => HeartPoint(ds[i])))
  }

  /** The flat target buffer createCircle leaves. */
  function CircleTargets(ds: seq<CircleDraw>): (r: seq<real>)
    ensures |r| == 3 * |ds|
  {
    Flatten(seq(|ds|, i requires 0 <= i < |ds| => CirclePoint(ds[i])))
  }

  /** The flat target buffer createText leaves, one z draw per particle. */
  function TextTargets(pts: seq<Point2>, zDraws: seq<real>): (r: seq<real>)
    ensures |r| == 3 * |zDraws|
  {
    Flatten(seq(|zDraws|, i requires 0 <= i < |zDraws| => TextTarget(pts, i, zDraws[i])))
  }

  /** The flat colour buffer of n particles all coloured c. */
  function Colours(n: nat, c: Vec3): (r: seq<real>)
    ensures |r| == 3 * n
    ensures forall i :: 0 <= i < n ==> r[3 * i] == c.x && r[3 * i + 1] == c.y && r[3 * i + 2] == c.z
  {
    Flatten(Uniform(n, c))
  }

  /** With no glyph point, every text target lies on the z axis, x = y = 0. */
  lemma TextTargetsCollapse(pts: seq<Point2>, zDraws: seq<real>)
    requires |pts| == 0
    ensures forall i :: 0 <= i < |zDraws| ==>
              TextTargets(pts, zDraws)[3 * i] == 0.0 && TextTargets(pts, zDraws)[3 * i + 1] == 0.0
  {
    var ps := seq(|zDraws|, i requires 0 <= i < |zDraws| => TextTarget(pts, i, zDraws[i]));
    var r := TextTargets(pts, zDraws);
    assert r == Flatten(ps);
    forall i | 0 <= i < |zDraws|
      ensures r[3 * i] == 0.0 && r[3 * i + 1] == 0.0
    {
      assert r[3 * i] == ps[i].x && r[3 * i + 1] == ps[i].y;
    }
  }
}
