/** The gesture predicates of the hand-tracking callback and the if/else
    chain that picks a shape writer from them. Landmark coordinates are
    normalised image coordinates with y growing downwards. */
module Gestures {

  datatype Option<T> = None | Some(value: T)

  datatype Landmark = Landmark(x: real, y: real)

  /** One detected hand: the 21 landmarks of the hand model, indexed by
      anatomical position (4 thumb tip, 8 index tip, 20 pinky tip, ...). */
  type Hand = m: seq<Landmark> | |m| == 21 witness seq(21, _ => Landmark(0.0, 0.0))

  /** Index and thumb tips closer than 0.05, compared as squared distances
      (0.05 * 0.05 == 0.0025). */
  predicate IsPinch(m: Hand) {
    var dx, dy := m[8].x - m[4].x, m[8].y - m[4].y;
    dx * dx + dy * dy < 0.0025
  }

  /** Index and middle fingers up, ring finger down. */
  predicate IsPeace(m: Hand) {
    m[8].y < m[6].y && m[12].y < m[10].y && m[16].y > m[14].y
  }

  /** Index, middle and ring fingers down. */
  predicate IsFist(m: Hand) {
    m[8].y > m[6].y && m[12].y > m[10].y && m[16].y > m[14].y
  }

  /** Thumb and pinky spread outwards, index finger down. */
  predicate IsWave(m: Hand) {
    m[4].x < m[3].x && m[20].x > m[19].x && m[8].y > m[6].y
  }

  datatype Gesture = Fist | Wave | Pinch | Peace

  predicate Holds(g: Gesture, m: Hand) {
    match g
    case Fist => IsFist(m)
    case Wave => IsWave(m)
    case Pinch => IsPinch(m)
    case Peace => IsPeace(m)
  }

  /** The order in which the callback tests the predicates. */
  const Precedence: seq<Gesture> := [Fist, Wave, Pinch, Peace]

  /** Reference definition of an ordered rule list: the index of the first
      rule that holds, or |rules| when none does. */
  function FirstIndex(rules: seq<Gesture>, m: Hand): (r: nat)
    ensures r <= |rules|
    ensures r < |rules| ==> Holds(rules[r], m)
    ensures forall j :: 0 <= j < r ==> !Holds(rules[j], m)
  {
    if rules == [] then 0
    else if Holds(rules[0], m) then 0
    else
      var r := 1 + FirstIndex(rules[1..], m);
      assert forall j :: 1 <= j < r ==> rules[j] == rules[1..][j - 1];
      r
  }

  /** The greeting the peace sign writes. */
  const Greeting: string := "I LOVE YOU "

  datatype Shape = Scatter | Circle | Heart | Text(message: string)

  function ShapeFor(g: Gesture): Shape {
    match g
    case Fist => Scatter
    case Wave => Circle
    case Pinch => Heart
    case Peace => Text(Greeting)
  }

  /** The callback's choice: no shape without a hand; otherwise the first
      of fist, wave, pinch, peace that holds of the first hand picks its
      shape, and none holding picks nothing. */
  function Dispatch(hands: seq<Hand>): (s: Option<Shape>)
    ensures s == None <==> |hands| == 0 || FirstIndex(Precedence, hands[0]) == |Precedence|
    ensures s != None ==> s.value == ShapeFor(Precedence[FirstIndex(Precedence, hands[0])])
  {
    if |hands| == 0 then None
    else
      var m := hands[0];
      PrecedenceIndex(m);
      if IsFist(m) then Some(Scatter)
      else if IsWave(m) then Some(Circle)
      else if IsPinch(m) then Some(Heart)
      else if IsPeace(m) then Some(Text(Greeting))
      else None
  }

  /** FirstIndex over Precedence, one rule at a time. */
  lemma PrecedenceIndex(m: Hand)
    ensures FirstIndex(Precedence, m) ==
              if IsFist(m) then 0 else if IsWave(m) then 1 else if IsPinch(m) then 2
              else if IsPeace(m) then 3 else 4
  {
    var r0 := Precedence;
    var r1, r2, r3 := r0[1..], r0[1..][1..], r0[1..][1..][1..];
    assert r1 == [Wave, Pinch, Peace] && r2 == [Pinch, Peace] && r3 == [Peace] && r3[1..] == [];
    assert FirstIndex(r3, m) == if IsPeace(m) then 0 else 1;
    assert FirstIndex(r2, m) == if IsPinch(m) then 0 else 1 + FirstIndex(r3, m);
    assert FirstIndex(r1, m) == if IsWave(m) then 0 else 1 + FirstIndex(r2, m);
    assert FirstIndex(r0, m) == if IsFist(m) then 0 else 1 + FirstIndex(r1, m);
  }

  /** A fist and a peace sign disagree on landmark 8 against landmark 6. */
  lemma FistExcludesPeace(m: Hand)
    ensures !(IsFist(m) && IsPeace(m))
  {
  }

  /** A wave and a peace sign disagree on landmark 8 against landmark 6. */
  lemma WaveExcludesPeace(m: Hand)
    ensures !(IsWave(m) && IsPeace(m))
  {
  }

  /** Fist and wave are not exclusive; when both hold, scatter is chosen. */
  lemma FistAndWaveOverlap()
    ensures exists m: Hand :: IsFist(m) && IsWave(m) && Dispatch([m]) == Some(Scatter)
  {
    var m: Hand := seq(21, i => Landmark(if i == 4 then 0.0 else i as real, i as real));
    assert IsFist(m) && IsWave(m);
  }

  /** Whenever a hand is both a fist and a wave, scatter wins. */
  lemma FistBeatsWave(m: Hand)
    requires IsFist(m) && IsWave(m)
    ensures Dispatch([m]) == Some(Scatter)
  {
  }

  /** Pinch against the Euclidean distance: for any non-negative root d of
      the squared distance, d < 0.05 exactly when the hand pinches. */
  lemma {:induction false} PinchIsDistance(m: Hand, d: real)
    requires d >= 0.0
    requires d * d == (m[8].x - m[4].x) * (m[8].x - m[4].x) + (m[8].y - m[4].y) * (m[8].y - m[4].y)
    ensures d < 0.05 <==> IsPinch(m)
  {
    if d < 0.05 {
      assert d * d <= d * 0.05 < 0.05 * 0.05;
    } else {
      assert d * d >= d * 0.05 >= 0.05 * 0.05;
    }
  }
}
