/** The particle buffers and the code that writes them in place: the colour
    setter, the four shape writers, the gesture callback's dispatch and the
    animation tick. Particle i occupies slots 3i, 3i+1 and 3i+2 of each of
    the three parallel buffers. */
module Particles {
  import opened Geometry
  import opened Glyph
  import opened Shapes
  import opened Gestures
  import opened Animation

  /** The number of particles the demo allocates. */
  const ParticleCount: nat := 8000

  /** The inputs a shape writer consumes in place of Math.random, the sines
      and cosines of the drawn angles, and the rasterised greeting. */
  datatype Draws = Draws(
    scatter: seq<real>,
    heart: seq<HeartDraw>,
    circle: seq<CircleDraw>,
    bitmap: seq<Byte>,
    textZ: seq<real>)

  /** The draws hold enough for the writer of shape s on n particles. */
  predicate Supplies(s: Shape, d: Draws, n: nat) {
    match s
    case Scatter => |d.scatter| == 6 * n
    case Heart => |d.heart| == n
    case Circle => |d.circle| == n
    case Text(_) => |d.bitmap| == ImageBytes && |d.textZ| == n
  }

  class ParticleSet {
    const count: nat
    /** Current positions, the shape's targets and the colours. */
    const pos: array<real>
    const target: array<real>
    const color: array<real>
    /** The arrays the renderer's position and colour attributes wrap:
        the very arrays pos and color, not copies. */
    const posAttr: array<real>
    const colorAttr: array<real>

    ghost predicate Valid()
      reads this
    {
      pos.Length == 3 * count && target.Length == 3 * count && color.Length == 3 * count &&
      pos != target && pos != color && target != color &&
      posAttr == pos && colorAttr == color
    }

    /** The demo's start-up: three zeroed buffers of 3 * 8000 slots, the
        renderer's attributes wrapping the position and colour buffers, and
        an initial scatter. */
    constructor (draws: seq<real>)
      requires |draws| == 6 * ParticleCount
      ensures Valid() && count == ParticleCount
      ensures fresh(pos) && fresh(target) && fresh(color)
      ensures forall k :: 0 <= k < 3 * count ==> pos[k] == 0.0
      ensures target[..] == ScatterTargets(3 * count, draws)
      ensures color[..] == ScatterColours(3 * count, draws)
    {
      count := ParticleCount;
      pos := new real[3 * ParticleCount](_ => 0.0);
      target := new real[3 * ParticleCount](_ => 0.0);
      color := new real[3 * ParticleCount](_ => 0.0);
      posAttr := pos;
      colorAttr := color;
      new;
      Scatter(draws);
    }

    /** Sets particle i's colour. A store outside the buffer is dropped, as a
        typed array drops it, so an out-of-range i changes nothing. */
    method UpdateColor(i: int, r: real, g: real, b: real)
      requires Valid()
      modifies color
      ensures 0 <= i < count ==> color[..] == old(color[..])[3 * i := r][3 * i + 1 := g][3 * i + 2 := b]
      ensures !(0 <= i < count) ==> color[..] == old(color[..])
    {
      if 0 <= 3 * i < color.Length { color[3 * i] := r; }
      if 0 <= 3 * i + 1 < color.Length { color[3 * i + 1] := g; }
      if 0 <= 3 * i + 2 < color.Length { color[3 * i + 2] := b; }
    }

    /** Every target slot k gets draw 2k rescaled, every colour slot k gets
        draw 2k+1; positions are not touched. */
    method Scatter(draws: seq<real>)
      requires Valid() && |draws| == 6 * count
      modifies target, color
      ensures target[..] == ScatterTargets(3 * count, draws)
      ensures color[..] == ScatterColours(3 * count, draws)
      ensures unchanged(pos)
    {
      for k := 0 to 3 * count
        invariant forall j :: 0 <= j < k ==> target[j] == ScatterCoord(draws[2 * j])
        invariant forall j :: 0 <= j < k ==> color[j] == draws[2 * j + 1]
      {
        target[k] := (draws[2 * k] - 0.5) * 25.0;
        color[k] := draws[2 * k + 1];
      }
    }

    /** Every particle moves onto the heart curve of its draw and turns
        pink (1, 0, 0.4); positions are not touched. */
    method CreateHeart(draws: seq<HeartDraw>)
      requires Valid() && |draws| == count
      modifies target, color
      ensures target[..] == HeartTargets(draws)
      ensures color[..] == Colours(count, HeartColour)
      ensures unchanged(pos)
    {
      for i := 0 to count
        invariant forall j :: 0 <= j < i ==>
                    target[3 * j] == HeartPoint(draws[j]).x && target[3 * j + 1] == HeartPoint(draws[j]).y &&
                    target[3 * j + 2] == HeartPoint(draws[j]).z
        invariant forall j :: 0 <= j < i ==>
                    color[3 * j] == 1.0 && color[3 * j + 1] == 0.0 && color[3 * j + 2] == 0.4
      {
        var d := draws[i];
        var x := 16.0 * (d.sinT * d.sinT * d.sinT);
        var y := 13.0 * d.cosT - 5.0 * d.cos2T - 2.0 * d.cos3T - d.cos4T;
        target[3 * i] := x * 0.25;
        target[3 * i + 1] := y * 0.25;
        target[3 * i + 2] := d.zDraw - 0.5;
        UpdateColor(i, 1.0, 0.0, 0.4);
      }
      var ps := seq(count, j requires 0 <= j < count => HeartPoint(draws[j]));
      FlattenUnique(target[..], ps);
      FlattenUnique(color[..], Uniform(count, HeartColour));
    }

    /** Every particle moves onto the ring of its draw and turns purple
        (0.4, 0, 1); positions are not touched. */
    method CreateCircle(draws: seq<CircleDraw>)
      requires Valid() && |draws| == count
      modifies target, color
      ensures target[..] == CircleTargets(draws)
      ensures color[..] == Colours(count, CircleColour)
      ensures unchanged(pos)
    {
      for i := 0 to count
        invariant forall j :: 0 <= j < i ==>
                    target[3 * j] == CirclePoint(draws[j]).x && target[3 * j + 1] == CirclePoint(draws[j]).y &&
                    target[3 * j + 2] == CirclePoint(draws[j]).z
        invariant forall j :: 0 <= j < i ==>
                    color[3 * j] == 0.4 && color[3 * j + 1] == 0.0 && color[3 * j + 2] == 1.0
      {
        var d := draws[i];
        var radius := 5.0 + (d.radiusDraw - 0.5) * 0.5;
        target[3 * i] := d.cosA * radius;
        target[3 * i + 1] := d.sinA * radius;
        target[3 * i + 2] := (d.zDraw - 0.5) * 2.0;
        UpdateColor(i, 0.4, 0.0, 1.0);
      }
      var ps := seq(count, j requires 0 <= j < count => CirclePoint(draws[j]));
      FlattenUnique(target[..], ps);
      FlattenUnique(color[..], Uniform(count, CircleColour));
    }

    /** Samples the rasterised message, then gives particle i the point
        pts[i mod |pts|] (the origin when pts is empty) and turns every
        particle cyan (0, 1, 1); positions are not touched. */
    method CreateText(bitmap: seq<Byte>, zDraws: seq<real>)
      requires Valid() && |bitmap| == ImageBytes && |zDraws| == count
      modifies target, color
      ensures target[..] == TextTargets(GlyphPoints(bitmap), zDraws)
      ensures color[..] == Colours(count, TextColour)
      ensures unchanged(pos)
    {
      var pts := SamplePoints(bitmap);
      for i := 0 to count
        invariant forall j :: 0 <= j < i ==>
                    target[3 * j] == TextTarget(pts, j, zDraws[j]).x &&
                    target[3 * j + 1] == TextTarget(pts, j, zDraws[j]).y &&
                    target[3 * j + 2] == TextTarget(pts, j, zDraws[j]).z
        invariant forall j :: 0 <= j < i ==>
                    color[3 * j] == 0.0 && color[3 * j + 1] == 1.0 && color[3 * j + 2] == 1.0
      {
        var p := if |pts| > 0 then pts[i % |pts|] else Point2(0.0, 0.0);
        target[3 * i] := p.x;
        target[3 * i + 1] := p.y;
        target[3 * i + 2] := zDraws[i] - 0.5;
        UpdateColor(i, 0.0, 1.0, 1.0);
      }
      var ps := seq(count, j requires 0 <= j < count => TextTarget(pts, j, zDraws[j]));
      FlattenUnique(target[..], ps);
      FlattenUnique(color[..], Uniform(count, TextColour));
    }

    /** The hand-tracking callback: the shape Dispatch picks is written in
        full; with no hand, or no gesture, targets and colours stay. */
    method OnResults(hands: seq<Hand>, draws: Draws)
      requires Valid()
      requires Dispatch(hands) != None ==> Supplies(Dispatch(hands).value, draws, count)
      modifies target, color
      ensures Dispatch(hands) == None ==> target[..] == old(target[..]) && color[..] == old(color[..])
      ensures Dispatch(hands) == Some(Shape.Scatter) ==>
                target[..] == ScatterTargets(3 * count, draws.scatter) &&
                color[..] == ScatterColours(3 * count, draws.scatter)
      ensures Dispatch(hands) == Some(Circle) ==>
                target[..] == CircleTargets(draws.circle) && color[..] == Colours(count, CircleColour)
      ensures Dispatch(hands) == Some(Heart) ==>
                target[..] == HeartTargets(draws.heart) && color[..] == Colours(count, HeartColour)
      ensures Dispatch(hands) == Some(Text(Greeting)) ==>
                target[..] == TextTargets(GlyphPoints(draws.bitmap), draws.textZ) &&
                color[..] == Colours(count, TextColour)
      ensures unchanged(pos)
    {
      if |hands| > 0 {
        var marks := hands[0];
        var isPinch := IsPinch(marks);
        var isPeace := IsPeace(marks);
        var isFist := IsFist(marks);
        var isWave := IsWave(marks);
        if isFist {
          Scatter(draws.scatter);
        } else if isWave {
          CreateCircle(draws.circle);
        } else if isPinch {
          CreateHeart(draws.heart);
        } else if isPeace {
          CreateText(draws.bitmap, draws.textZ);
        }
      }
    }

    /** One frame: each position slot moves a tenth of the way to its target.
        The colour blend reads and writes the same array, since the colour
        attribute wraps color itself, so colours do not change. */
    method Animate()
      requires Valid()
      modifies pos, color
      ensures pos[..] == Tick(old(pos[..]), target[..])
      ensures color[..] == old(color[..])
      ensures unchanged(target)
    {
      var p := posAttr;
      var c := colorAttr;
      for k := 0 to 3 * count
        invariant forall j :: 0 <= j < k ==> pos[j] == Step(old(pos[j]), target[j])
        invariant forall j :: k <= j < 3 * count ==> pos[j] == old(pos[j])
        invariant color[..] == old(color[..])
      {
        p[k] := p[k] + (target[k] - p[k]) * Smoothing;
        c[k] := c[k] + (color[k] - c[k]) * Smoothing;
      }
    }
  }
}
