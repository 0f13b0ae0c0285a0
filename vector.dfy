/**
 * Three-component vectors over the reals, standing for the game's `vec3`
 * objects. Only the component-wise operations whose meaning is fixed by their
 * names are defined here (add, subtract, scale, multiply, dot, cross, lerp);
 * length, normalisation and plane clipping are supplied from outside
 * (see module Primitives), because their implementation is not part of this
 * model.
 */
module Vector {

  datatype Vec3 = Vec3(x: real, y: real, z: real)

  const Zero := Vec3(0.0, 0.0, 0.0)
  const One := Vec3(1.0, 1.0, 1.0)
  /** `vec3_Y`, the world's up axis. */
  const UnitY := Vec3(0.0, 1.0, 0.0)

  function Add(a: Vec3, b: Vec3): Vec3 {
    Vec3(a.x + b.x, a.y + b.y, a.z + b.z)
  }

  function Sub(a: Vec3, b: Vec3): Vec3 {
    Vec3(a.x - b.x, a.y - b.y, a.z - b.z)
  }

  function Scale(a: Vec3, s: real): Vec3 {
    Vec3(a.x * s, a.y * s, a.z * s)
  }

  function Neg(a: Vec3): Vec3 {
    Vec3(-a.x, -a.y, -a.z)
  }

  /** Component-wise product (`vec3_multiply`). */
  function Mul(a: Vec3, b: Vec3): Vec3 {
    Vec3(a.x * b.x, a.y * b.y, a.z * b.z)
  }

  function Dot(a: Vec3, b: Vec3): real {
    a.x * b.x + a.y * b.y + a.z * b.z
  }

  function Cross(a: Vec3, b: Vec3): Vec3 {
    Vec3(a.y * b.z - a.z * b.y, a.z * b.x - a.x * b.z, a.x * b.y - a.y * b.x)
  }

  /** `vec3_lerpVectors(out, a, b, t)`: a + (b - a) * t. */
  function Lerp(a: Vec3, b: Vec3, t: real): (r: Vec3)
    ensures t == 1.0 ==> r == b
    ensures t == 0.0 ==> r == a
  {
    Add(a, Scale(Sub(b, a), t))
  }

  /** `vec3_setScalar`. */
  function Splat(s: real): Vec3 {
    Vec3(s, s, s)
  }

  /** Squared Euclidean distance (`vec3_distanceToSquared`). */
  function DistanceSquared(a: Vec3, b: Vec3): real {
    var d := Sub(a, b);
    Dot(d, d)
  }

  /** A coordinate axis, as the property names `'x'`, `'y'`, `'z'` select one. */
  datatype Axis = X | Y | Z

  /** `v[axis]` */
  function Component(v: Vec3, axis: Axis): real {
    match axis
    case X => v.x
    case Y => v.y
    case Z => v.z
  }

  /** `v` with `v[axis] = s`. */
  function WithComponent(v: Vec3, axis: Axis, s: real): (r: Vec3)
    ensures Component(r, axis) == s
    ensures forall other: Axis :: other != axis ==> Component(r, other) == Component(v, other)
  {
    match axis
    case X => v.(x := s)
    case Y => v.(y := s)
    case Z => v.(z := s)
  }
}
