# Gesture-driven particle field: a Dafny model of its core

The demo keeps 8000 particles in three parallel flat buffers: current
positions (`posArray`), target positions (`targetArray`) and colours
(`colorArray`). Particle i occupies slots 3i, 3i+1 and 3i+2 of each buffer.
Shape writers (scatter, heart, circle, text) overwrite the targets and
colours. A hand-tracking callback picks a writer from four gesture
predicates. Each animation frame moves every position a tenth of the way
to its target.

The model has six modules, one per concern:

- `Geometry` (geometry.dfy): points, three-slot vectors, and `Flatten`, the
  per-particle slot layout.
- `Glyph` (glyph.dfy): the bitmap scan of `createText`. `GlyphPoints` is the
  pure row-major scan. `SamplePoints` is the nested `pts.push` loop, proved
  equal to it.
- `Shapes` (shapes.dfy): what each writer puts into one particle, and whole
  buffers as functions of the draws.
- `Gestures` (gestures.dfy): the four predicates, the if/else dispatch chain,
  and a reference "first rule that holds" over the precedence list.
- `Animation` (animation.dfy): the per-slot step over `real`, its
  contraction and fixed point, and k-frame decay.
- `Particles` (particles.dfy): class `ParticleSet`, owning the three
  buffers as arrays. `posAttr` and `colorAttr` are the arrays the renderer's
  attributes wrap. `Valid()` states that they are `pos` and `color`
  themselves (dp1.js:29-30). The class's methods are `UpdateColor`, the four
  writers, `OnResults` and `Animate`.

Inputs the model cannot compute are parameters:

- every `Math.random` draw;
- the sines and cosines of the drawn angles (`HeartDraw`, `CircleDraw`);
- the RGBA bytes of the rasterised greeting (`Draws.bitmap`, 400×100×4 bytes).

A random draw is taken to lie in [0, 1) wherever a range lemma needs it.

Because the colour attribute wraps `color` itself, the colour half of the
animation loop (dp1.js:120) reads and writes the same slot.
`col[i] += (colorArray[i] - col[i]) * 0.1` adds zero. `Animate` proves that
colours are unchanged, so displayed colours change only when a shape writer
runs.

## Model

| member | source | states |
|---|---|---|
| `Geometry.Flatten` | dp1.js:12-17 | the flat buffer of per-particle vectors has 3·n slots and slot 3i+c holds component c of particle i |
| `Geometry.FlattenUnique` | dp1.js:42-43 | a buffer whose every particle triple matches the vectors is exactly their flattening, so a loop that writes all three slots of every particle fixes the whole buffer |
| `Glyph.Bright` | dp1.js:66 | the pixel test `data[(y*400+x)*4] > 128`: the red byte of pixel (x, y) of the 400×100 RGBA bitmap exceeds 128 |
| `Glyph.ToScene` | dp1.js:66 | the pixel-to-scene mapping `{x: (x-200)*0.05, y: -(y-50)*0.05}` |
| `Glyph.GlyphPoints` | dp1.js:65-66 | the list `pts`: kept pixels of rows 0, 2, …, 98, each row scanned over columns 0, 2, …, 398, mapped by `ToScene`, in that order |
| `Glyph.SamplePoints` | dp1.js:65-66 | the nested loop over y = 0,2,…,98 and x = 0,2,…,398 that appends ToScene(x, y) for every red byte > 128 builds exactly `GlyphPoints` |
| `Glyph.GlyphPointsBound` | dp1.js:66 | at most one point per sampled pixel: the point list has at most 200·50 entries |
| `Glyph.GlyphPointsMembers` | dp1.js:66 | a point is in the list iff it is ((x-200)·0.05, -(y-50)·0.05) for some even x < 400, even y < 100 whose byte at (y·400+x)·4 exceeds 128 |
| `Glyph.GlyphPointsRowMajor` | dp1.js:66 | the list is strictly ordered row by row, top to bottom, then left to right, so it has no repeats |
| `Shapes.ScatterCoord` | dp1.js:23 | a scatter target slot, `(draw - 0.5) * 25` |
| `Shapes.ScatterRanges` | dp1.js:21-26 | with draws in [0,1), every target slot lies in [-12.5, 12.5) and every colour slot in [0,1) |
| `Shapes.HeartPoint` | dp1.js:39-42 | a heart particle: x = 16·sin³t·0.25, y = (13 cos t − 5 cos 2t − 2 cos 3t − cos 4t)·0.25, z = draw − 0.5, with `Math.pow(sin t, 3)` as sin t·sin t·sin t |
| `Shapes.HeartBounded` | dp1.js:39-42 | with sines and cosines in [-1,1], the heart point satisfies \|x\| ≤ 4 and \|y\| ≤ 5.25, with z in [-0.5, 0.5) |
| `Shapes.CircleRadius` | dp1.js:50 | the ring radius `5 + (draw - 0.5) * 0.5` |
| `Shapes.CirclePoint` | dp1.js:51-53 | a circle particle: (cos a·radius, sin a·radius, (draw − 0.5)·2) |
| `Shapes.CircleRing` | dp1.js:49-53 | for a unit (cos, sin) pair, x² + y² is the radius squared, with the radius in [4.75, 5.25) and z in [-1, 1) |
| `Shapes.TextPoint` | dp1.js:68 | particle i's point is the origin when the list is empty; otherwise it is a member of the list, and pts[i] itself when i < \|pts\| |
| `Shapes.TextPointPeriodic` | dp1.js:68 | cyclic reuse: particles \|pts\| apart get the same point |
| `Shapes.TextPointsCovered` | dp1.js:67-68 | when there are at least as many particles as points, every point is some particle's target |
| `Shapes.TextTargetsCollapse` | dp1.js:68-69 | with an empty point list every particle's x and y targets are 0 |
| `Shapes.Colours` | dp1.js:43-70 | the colour buffer of a fixed-colour shape holds that colour's (r, g, b) in every particle's three slots: (1, 0, 0.4) from line 43, (0.4, 0, 1) from line 54, (0, 1, 1) from line 70 |
| `Gestures.IsPinch` | dp1.js:87 | `Math.hypot(m8 - m4) < 0.05`, written as the squared distance dx² + dy² < 0.0025 of landmarks 8 and 4; `PinchIsDistance` shows it agrees with the distance test |
| `Gestures.IsPeace` | dp1.js:88 | m8.y < m6.y, m12.y < m10.y and m16.y > m14.y |
| `Gestures.IsFist` | dp1.js:89 | m8.y > m6.y, m12.y > m10.y and m16.y > m14.y |
| `Gestures.IsWave` | dp1.js:91 | m4.x < m3.x, m20.x > m19.x and m8.y > m6.y |
| `Gestures.FirstIndex` | dp1.js:93-96 | the index of the first rule that holds is one that holds, and no rule before it holds; it is \|rules\| when none holds |
| `Gestures.PrecedenceIndex` | dp1.js:93-96 | over the order fist, wave, pinch, peace, the first rule that holds is the first of the four tests that succeeds |
| `Gestures.Dispatch` | dp1.js:84-96 | no shape without a hand; with a hand, the shape is the one of the first gesture in fist, wave, pinch, peace order that holds, and none when no predicate holds |
| `Gestures.FistExcludesPeace` | dp1.js:88-89 | fist and peace never hold together (landmark 8 against 6) |
| `Gestures.WaveExcludesPeace` | dp1.js:88-91 | wave and peace never hold together (landmark 8 against 6) |
| `Gestures.FistAndWaveOverlap` | dp1.js:89-94 | some hand is both a fist and a wave, and for it scatter is chosen |
| `Gestures.FistBeatsWave` | dp1.js:93-94 | for every hand that is both a fist and a wave, scatter is chosen |
| `Gestures.PinchIsDistance` | dp1.js:87 | for any non-negative d with d² the squared distance of landmarks 8 and 4, d < 0.05 iff the squared-distance pinch test holds |
| `Animation.Step` | dp1.js:119 | one slot's update `pos + (target - pos) * 0.1` |
| `Animation.StepContracts` | dp1.js:119 | after one tick the distance to the target is exactly 0.9 times the old one |
| `Animation.StepBetween` | dp1.js:119 | no overshoot: the new value lies between the old value and the target |
| `Animation.StepFixed` | dp1.js:119 | a tick leaves a slot where it is iff the slot is at its target |
| `Animation.TickFixed` | dp1.js:118-119 | a whole buffer is unchanged by a tick iff it equals its targets |
| `Animation.IterateDistance` | dp1.js:114-119 | after k ticks against a fixed target the distance is 0.9^k times the first one |
| `Animation.IterateMonotone` | dp1.js:114-119 | no tick increases a slot's distance to its target |
| `Animation.TicksAt` | dp1.js:114-119 | after k buffer ticks each slot equals that slot ticked k times alone, at 0.9^k of its first distance |
| `Particles.ParticleSet.constructor` | dp1.js:10-30 | three zeroed buffers of 3·8000 slots; the attributes wrap the position and colour buffers; then scatter fills targets and colours |
| `Particles.ParticleSet.UpdateColor` | dp1.js:16-18 | slots 3i, 3i+1, 3i+2 of the colour buffer become r, g, b and every other slot keeps its value; an out-of-range i writes nothing |
| `Particles.ParticleSet.Scatter` | dp1.js:21-26 | target slot k becomes (draw 2k − 0.5)·25 and colour slot k becomes draw 2k+1, for every slot; positions unchanged |
| `Particles.ParticleSet.CreateHeart` | dp1.js:37-45 | every particle's three target slots hold its heart point and its colour is (1, 0, 0.4); positions unchanged |
| `Particles.ParticleSet.CreateCircle` | dp1.js:47-56 | every particle's three target slots hold its ring point and its colour is (0.4, 0, 1); positions unchanged |
| `Particles.ParticleSet.CreateText` | dp1.js:58-72 | every particle i targets (pts[i mod \|pts\|], z), or the origin's x, y when pts is empty, where pts is the glyph scan of the bitmap; its colour is (0, 1, 1); positions unchanged |
| `Particles.ParticleSet.OnResults` | dp1.js:83-100 | the writer of the shape `Dispatch` picks rewrites targets and colours in full; with no hand or no gesture both buffers are unchanged; positions are never touched |
| `Particles.ParticleSet.Animate` | dp1.js:114-121 | every position slot becomes pos + (target − pos)·0.1; because the colour attribute is the colour buffer itself, colours are unchanged; targets are unchanged |

## Left out

- The three.js scene, camera, renderer, material, `needsUpdate` flags and the draw call (dp1.js:1-8, 11, 29-34, 122-124) are calls into a rendering library. The model keeps only which arrays the attributes wrap.
- MediaPipe `Hands`, `Camera`, the CDN loading and the async frame hand-off (dp1.js:80-81, 102-106) are external inference and camera I/O. The callback's input is a sequence of detected hands, each exactly 21 landmarks.
- The status label ("Loading REYU AI...", "Gesture Detected!"), the one-shot click listener and the resize handler (dp1.js:75-79, 98, 109-111, 128-132) are DOM plumbing.
- Canvas rasterisation of the message (dp1.js:59-64) is font rendering. `CreateText` takes the resulting 160000 RGBA bytes as input. The message text therefore appears only as the `Text("I LOVE YOU ")` shape.
- The values of `Math.random`, `Math.sin`, `Math.cos` and `Math.pow` (dp1.js:23-24, 39-42, 49-53, 69) are randomness and transcendental functions. They enter as draw records. Each writer requires as many draws as it consumes, since the source's random stream never runs out.
- Float32 storage and IEEE rounding are not modelled. Buffers hold `real`, so the interpolation and the coordinate mapping are exact.
- `requestAnimationFrame` scheduling, and the interleaving of the detection callback with frames, depend on host timing and are not modelled. Each method runs to completion.
- `Gestures.IsPinch`: `Math.hypot(dx, dy) < 0.05` is modelled as `dx² + dy² < 0.0025`, since `real` has no square root. `PinchIsDistance` shows the two agree for any non-negative root.
- `Particles.ParticleSet.UpdateColor`: JavaScript would also accept a non-integer index. The model takes an `int`.
