/**
 * Points, axis-aligned boxes and the per-axis extrema both pipeline stages
 * compute over a mesh's vertex arena. Coordinates are exact reals; the
 * single-precision floats of the mesh files are not modelled.
 */
module Geometry {
  import opened Wrappers

  /** A vertex position (x, y, z). */
  datatype Vec3 = Vec3(x: real, y: real, z: real)

  /** An axis-aligned box given by its minimum and maximum corner. */
  datatype Box = Box(lo: Vec3, hi: Vec3)

  function Abs(r: real): real { if r < 0.0 then -r else r }

  /** Component-wise `a <= b` on all three axes. */
  predicate LessEq(a: Vec3, b: Vec3) { a.x <= b.x && a.y <= b.y && a.z <= b.z }

  /** Inclusive membership on every axis: `lo[i] <= v[i] <= hi[i]` for i = 0, 1, 2. */
  predicate InBox(b: Box, v: Vec3) { LessEq(b.lo, v) && LessEq(v, b.hi) }

  /** `a` lies inside `b` (every point of `a` is a point of `b`). */
  predicate Encloses(b: Box, a: Box) { LessEq(b.lo, a.lo) && LessEq(a.hi, b.hi) }

  /** The column of one coordinate: `vertices[:, 0]`, `[:, 1]` and `[:, 2]`. */
  function Xs(vs: seq<Vec3>): (r: seq<real>)
    ensures |r| == |vs| && forall i :: 0 <= i < |vs| ==> r[i] == vs[i].x
  {
    seq(|vs|, i requires 0 <= i < |vs| => vs[i].x)
  }

  function Ys(vs: seq<Vec3>): (r: seq<real>)
    ensures |r| == |vs| && forall i :: 0 <= i < |vs| ==> r[i] == vs[i].y
  {
    seq(|vs|, i requires 0 <= i < |vs| => vs[i].y)
  }

  function Zs(vs: seq<Vec3>): (r: seq<real>)
    ensures |r| == |vs| && forall i :: 0 <= i < |vs| ==> r[i] == vs[i].z
  {
    seq(|vs|, i requires 0 <= i < |vs| => vs[i].z)
  }

  /** The smallest element of a non-empty column (`np.min`, `np.amin`). */
  function Min(xs: seq<real>): (m: real)
    requires xs != []
    ensures m in xs
    ensures forall i :: 0 <= i < |xs| ==> m <= xs[i]
  {
    if |xs| == 1 then xs[0]
    else
      var rest := Min(xs[1..]);
      if xs[0] <= rest then xs[0] else rest
  }

  /** The largest element of a non-empty column (`np.max`, `np.amax`). */
  function Max(xs: seq<real>): (m: real)
    requires xs != []
    ensures m in xs
    ensures forall i :: 0 <= i < |xs| ==> xs[i] <= m
  {
    if |xs| == 1 then xs[0]
    else
      var rest := Max(xs[1..]);
      if rest <= xs[0] then xs[0] else rest
  }

  /**
   * The per-axis minimum and maximum of a vertex list. Reducing an empty
   * list has no identity and raises, which is `None` here.
   */
  function BoundingBox(vs: seq<Vec3>): (r: Option<Box>)
    ensures r.Some? <==> vs != []
    ensures r.Some? ==> forall i :: 0 <= i < |vs| ==> InBox(r.value, vs[i])
    ensures r.Some? ==> forall b :: (forall i :: 0 <= i < |vs| ==> InBox(b, vs[i])) ==> Encloses(b, r.value)
  {
    if vs == [] then None
    else
      var r := Some(Box(Vec3(Min(Xs(vs)), Min(Ys(vs)), Min(Zs(vs))),
                        Vec3(Max(Xs(vs)), Max(Ys(vs)), Max(Zs(vs)))));
      assert forall b :: (forall i :: 0 <= i < |vs| ==> InBox(b, vs[i])) ==> Encloses(b, r.value) by {
        forall b | forall i :: 0 <= i < |vs| ==> InBox(b, vs[i])
          ensures Encloses(b, r.value)
        {
          BoxAttained(vs, r.value);
        }
      }
      r
  }

  /** Each bound of the extracted box is the coordinate of some vertex. */
  lemma BoxAttained(vs: seq<Vec3>, b: Box)
    requires vs != []
    requires b == Box(Vec3(Min(Xs(vs)), Min(Ys(vs)), Min(Zs(vs))), Vec3(Max(Xs(vs)), Max(Ys(vs)), Max(Zs(vs))))
    ensures exists i :: 0 <= i < |vs| && vs[i].x == b.lo.x
    ensures exists i :: 0 <= i < |vs| && vs[i].y == b.lo.y
    ensures exists i :: 0 <= i < |vs| && vs[i].z == b.lo.z
    ensures exists i :: 0 <= i < |vs| && vs[i].x == b.hi.x
    ensures exists i :: 0 <= i < |vs| && vs[i].y == b.hi.y
    ensures exists i :: 0 <= i < |vs| && vs[i].z == b.hi.z
  {
  }

  /** Sum of absolute per-axis differences. */
  function L1(p: Vec3, q: Vec3): real
  {
    Abs(p.x - q.x) + Abs(p.y - q.y) + Abs(p.z - q.z)
  }
}
