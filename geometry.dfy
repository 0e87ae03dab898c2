/** Values shared by the shape writers and the particle buffers: points,
    three-component vectors, and the flat layout in which particle i
    occupies slots 3i, 3i+1 and 3i+2 of a buffer. */
module Geometry {

  /** A point in the plane of the scene (a glyph sample after mapping). */
  datatype Point2 = Point2(x: real, y: real)

  /** One particle's three slots: a position (x, y, z) or a colour (r, g, b). */
  datatype Vec3 = Vec3(x: real, y: real, z: real)

  function Abs(r: real): real {
    if r < 0.0 then -r else r
  }

  /** The flat buffer holding the given per-particle vectors one after another. */
  function Flatten(ps: seq<Vec3>): (r: seq<real>)
    ensures |r| == 3 * |ps|
    ensures forall i :: 0 <= i < |ps| ==>
              r[3 * i] == ps[i].x && r[3 * i + 1] == ps[i].y && r[3 * i + 2] == ps[i].z
  {
    if ps == [] then []
    else
      var rest := Flatten(ps[1..]);
      assert forall i :: 1 <= i < |ps| ==> ps[1..][i - 1] == ps[i];
      [ps[0].x, ps[0].y, ps[0].z] + rest
  }

  /** n copies of the same vector, as for a shape whose colour is fixed. */
  function Uniform(n: nat, v: Vec3): (r: seq<Vec3>)
    ensures |r| == n && forall i :: 0 <= i < n ==> r[i] == v
  {
    seq(n, _ => v)
  }

  /** A buffer whose every particle triple agrees with ps is Flatten(ps). */
  lemma {:induction false} FlattenUnique(a: seq<real>, ps: seq<Vec3>)
    requires |a| == 3 * |ps|
    requires forall i :: 0 <= i < |ps| ==>
               a[3 * i] == ps[i].x && a[3 * i + 1] == ps[i].y && a[3 * i + 2] == ps[i].z
    ensures a == Flatten(ps)
  {
    var f := Flatten(ps);
    forall k | 0 <= k < |a|
      ensures a[k] == f[k]
    {
      var i := k / 3;
      assert 0 <= i < |ps|;
      assert a[3 * i] == f[3 * i] && a[3 * i + 1] == f[3 * i + 1] && a[3 * i + 2] == f[3 * i + 2];
      assert k == 3 * i || k == 3 * i + 1 || k == 3 * i + 2;
    }
  }
}
