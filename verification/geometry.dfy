/** Three-component vectors and axis-aligned boxes, standing in for the
    rendering library's `Vector3` and `Box3`. Only the operations the game
    logic uses are modelled; square roots are avoided by comparing squared
    lengths, which is exact because both sides of each comparison are
    non-negative. */
module Geometry {

  datatype Vec3 = Vec3(x: real, y: real, z: real)

  const Zero: Vec3 := Vec3(0.0, 0.0, 0.0)

  function Add(a: Vec3, b: Vec3): Vec3
  {
    Vec3(a.x + b.x, a.y + b.y, a.z + b.z)
  }

  function Sub(a: Vec3, b: Vec3): Vec3
  {
    Vec3(a.x - b.x, a.y - b.y, a.z - b.z)
  }

  function Scale(a: Vec3, k: real): Vec3
  {
    Vec3(a.x * k, a.y * k, a.z * k)
  }

  /** `Vector3.addScaledVector(d, k)` applied to a copy of `p`. */
  function AddScaled(p: Vec3, d: Vec3, k: real): Vec3
  {
    Add(p, Scale(d, k))
  }

  function Dot(a: Vec3, b: Vec3): real
  {
    a.x * b.x + a.y * b.y + a.z * b.z
  }

  function LengthSq(a: Vec3): (r: real)
    ensures r >= 0.0
  {
    var r := Dot(a, a);
    assert a.x * a.x >= 0.0 && a.y * a.y >= 0.0 && a.z * a.z >= 0.0;
    r
  }

  /** `Vector3.distanceToSquared`. */
  function DistSq(a: Vec3, b: Vec3): (r: real)
    ensures r >= 0.0
  {
    LengthSq(Sub(a, b))
  }

  /** An axis-aligned box given by its two corners. */
  datatype Box3 = Box3(lo: Vec3, hi: Vec3)

  /** The box centred on `c` with half-extent `h` along each axis. */
  function BoxAround(c: Vec3, h: Vec3): Box3
  {
    Box3(Sub(c, h), Add(c, h))
  }

  /** Closed intervals [a0, a1] and [b0, b1] share a point. */
  predicate Overlap(a0: real, a1: real, b0: real, b1: real)
  {
    !(a1 < b0 || a0 > b1)
  }

  /** `Box3.intersectsBox`: boxes that only touch do intersect. */
  predicate Intersects(a: Box3, b: Box3)
  {
    && Overlap(a.lo.x, a.hi.x, b.lo.x, b.hi.x)
    && Overlap(a.lo.y, a.hi.y, b.lo.y, b.hi.y)
    && Overlap(a.lo.z, a.hi.z, b.lo.z, b.hi.z)
  }

  /** Two centred boxes with non-negative half-extents intersect exactly when,
      on every axis, their centres are no further apart than the sum of their
      half-extents. */
  lemma CentredBoxesIntersect(c: Vec3, h: Vec3, d: Vec3, k: Vec3)
    requires h.x >= 0.0 && h.y >= 0.0 && h.z >= 0.0
    requires k.x >= 0.0 && k.y >= 0.0 && k.z >= 0.0
    ensures Intersects(BoxAround(c, h), BoxAround(d, k)) <==>
      && -(h.x + k.x) <= c.x - d.x <= h.x + k.x
      && -(h.y + k.y) <= c.y - d.y <= h.y + k.y
      && -(h.z + k.z) <= c.z - d.z <= h.z + k.z
  {
  }
}
