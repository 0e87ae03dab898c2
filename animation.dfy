/** The per-slot update of the animation loop: each tick moves a value a
    tenth of the way towards its target. Over the reals the step is exact,
    so the contraction and the fixed point can be stated outright. */
module Animation {
  import opened Geometry

  const Smoothing: real := 0.1

  /** One tick for one slot: pos + (target - pos) * 0.1. */
  function Step(p: real, t: real): real {
    p + (t - p) * Smoothing
  }

  /** The distance to the target shrinks by exactly the factor 0.9. */
  lemma StepContracts(p: real, t: real)
    ensures Abs(Step(p, t) - t) == 0.9 * Abs(p - t)
  {
  }

  /** No overshoot: the new value lies between the old value and the target. */
  lemma StepBetween(p: real, t: real)
    ensures p <= t ==> p <= Step(p, t) <= t
    ensures t <= p ==> t <= Step(p, t) <= p
  {
  }

  /** The target is the one and only fixed point of a tick. */
  lemma StepFixed(p: real, t: real)
    ensures Step(p, t) == p <==> p == t
  {
  }

  /** One tick of a whole buffer against a buffer of targets. */
  function Tick(pos: seq<real>, target: seq<real>): (r: seq<real>)
    requires |pos| == |target|
    ensures |r| == |pos|
  {
    seq(|pos|, k requires 0 <= k < |pos| => Step(pos[k], target[k]))
  }

  /** A buffer already at its targets stays there, and only such a buffer does. */
  lemma TickFixed(pos: seq<real>, target: seq<real>)
    requires |pos| == |target|
    ensures Tick(pos, target) == pos <==> pos == target
  {
  }

  /** k ticks of one slot against a fixed target. */
  function Iterate(p: real, t: real, k: nat): real {
    if k == 0 then p else Step(Iterate(p, t, k - 1), t)
  }

  function Pow(b: real, k: nat): real {
    if k == 0 then 1.0 else b * Pow(b, k - 1)
  }

  /** Geometric decay: after k ticks the distance is 0.9^k of the first one. */
  lemma {:induction false} IterateDistance(p: real, t: real, k: nat)
    ensures Abs(Iterate(p, t, k) - t) == Pow(0.9, k) * Abs(p - t)
  {
    if k > 0 {
      IterateDistance(p, t, k - 1);
      StepContracts(Iterate(p, t, k - 1), t);
    }
  }

  /** Convergence is monotone: no tick moves a slot further from its target. */
  lemma IterateMonotone(p: real, t: real, k: nat)
    ensures Abs(Iterate(p, t, k + 1) - t) <= Abs(Iterate(p, t, k) - t)
  {
  }

  /** k ticks of a whole buffer against a fixed buffer of targets. */
  function Ticks(pos: seq<real>, target: seq<real>, k: nat): (r: seq<real>)
    requires |pos| == |target|
    ensures |r| == |pos|
  {
    if k == 0 then pos else Tick(Ticks(pos, target, k - 1), target)
  }

  /** After k ticks of the buffer, each slot is that slot iterated k times,
      so every slot is 0.9^k of its first distance from its target. */
  lemma {:induction false} TicksAt(pos: seq<real>, target: seq<real>, k: nat, i: nat)
    requires |pos| == |target| && i < |pos|
    ensures Ticks(pos, target, k)[i] == Iterate(pos[i], target[i], k)
    ensures Abs(Ticks(pos, target, k)[i] - target[i]) == Pow(0.9, k) * Abs(pos[i] - target[i])
  {
    if k > 0 {
      TicksAt(pos, target, k - 1, i);
    }
    IterateDistance(pos[i], target[i], k);
  }
}
