/**
 * Points and vectors as the tools use them (Babylon's `Vector3`), over exact
 * reals, with the per-axis access `v[axis]` the source writes as
 * `position[cutAxis]`.
 */
module Geometry {
  datatype Vec3 = Vec3(x: real, y: real, z: real)

  /** The three world axes a cut, a drag or a gizmo can be restricted to. */
  datatype Axis = X | Y | Z

  function Comp(v: Vec3, a: Axis): real
  {
    match a
    case X => v.x
    case Y => v.y
    case Z => v.z
  }

  /** `v` with its `a` component replaced by `c`. */
  function WithComp(v: Vec3, a: Axis, c: real): (r: Vec3)
    ensures Comp(r, a) == c
    ensures forall b :: b != a ==> Comp(r, b) == Comp(v, b)
  {
    match a
    case X => v.(x := c)
    case Y => v.(y := c)
    case Z => v.(z := c)
  }

  function Add(u: Vec3, v: Vec3): (r: Vec3)
    ensures forall a :: Comp(r, a) == Comp(u, a) + Comp(v, a)
  {
    Vec3(u.x + v.x, u.y + v.y, u.z + v.z)
  }

  function Sub(u: Vec3, v: Vec3): (r: Vec3)
    ensures forall a :: Comp(r, a) == Comp(u, a) - Comp(v, a)
  {
    Vec3(u.x - v.x, u.y - v.y, u.z - v.z)
  }

  /** Moving by `Sub(v, u)` from `u` lands on `v`. */
  lemma AddSub(u: Vec3, v: Vec3)
    ensures Add(u, Sub(v, u)) == v
  {
  }

  /** A point in the plane (a sketch coordinate or a screen position). */
  datatype Vec2 = Vec2(x: real, y: real)
}
