/**
 * The collaborators the movement code imports but whose code is not part of
 * this model: the box helpers of `box3.js`, the swept-box query `sweptAABB` of
 * `physics.js`, and `vec3_length`, `vec3_normalize`, `pm_clipVelocity` (with its
 * fixed `OVERCLIP` bias) of `vec3.js`, together with `Math.sqrt`. They are
 * carried as function values in an `Externals` record, so that every property
 * proved below holds whatever those functions compute, unless a lemma names an
 * assumption about them explicitly.
 */
module Primitives {
  import opened Vector

  /** An axis-aligned box `{min, max}`. */
  datatype Box = Box(min: Vec3, max: Vec3)

  /**
   * A body of the physics scene as the player's trace sees it: its identity
   * (bodies are compared by reference in the source), its local bounding box,
   * and the world position of the scene node it belongs to.
   */
  datatype Body = Body(id: nat, boundingBox: Box, position: Vec3)

  /** What one `sweptAABB` call reports: the three fields the trace keeps. */
  datatype Hit = Hit(allsolid: bool, fraction: real, normal: Vec3)

  datatype Externals = Externals(
    /** `vec3_length` */
    length: Vec3 -> real,
    /** `vec3_normalize` */
    normalize: Vec3 -> Vec3,
    /** `pm_clipVelocity(v, normal, OVERCLIP)` */
    clipVelocity: (Vec3, Vec3) -> Vec3,
    /** `Math.sqrt` */
    sqrt: real -> real,
    /** `box3_translate` applied to a copy */
    translate: (Box, Vec3) -> Box,
    /** `box3_expandByPoint` */
    expandByPoint: (Box, Vec3) -> Box,
    /** `box3_overlapsBox` */
    overlaps: (Box, Box) -> bool,
    /**
     * `sweptAABB(trace, moverBody, targetBody, moverBox, targetBox)`: the mover's
     * velocity holds the displacement being tested.
     */
    sweep: (Vec3, Body, Box, Box) -> Hit
  )

  // The helpers as a statement calls them (a method applying a function value
  // directly would make each call depend on the heap at that point).

  function Length(ext: Externals, v: Vec3): real {
    ext.length(v)
  }

  function Normalize(ext: Externals, v: Vec3): Vec3 {
    ext.normalize(v)
  }

  function ClipVelocity(ext: Externals, v: Vec3, normal: Vec3): Vec3 {
    ext.clipVelocity(v, normal)
  }

  function Overlaps(ext: Externals, a: Box, b: Box): bool {
    ext.overlaps(a, b)
  }

  function Sweep(ext: Externals, displacement: Vec3, target: Body, moverBox: Box, targetBox: Box): Hit {
    ext.sweep(displacement, target, moverBox, targetBox)
  }

  /** The scene as the movement code sees it during one tick. */
  datatype World = World(bodies: seq<Body>, ext: Externals)

  /** `Math.sqrt` returns the non-negative square root of a non-negative number. */
  ghost predicate IsSquareRoot(sqrt: real -> real) {
    forall x: real {:trigger sqrt(x)} :: 0.0 <= x ==> 0.0 <= sqrt(x) && sqrt(x) * sqrt(x) == x
  }

  /** `vec3_length` is the Euclidean norm. */
  ghost predicate IsNorm(length: Vec3 -> real) {
    forall v: Vec3 {:trigger length(v)} :: 0.0 <= length(v) && length(v) * length(v) == Dot(v, v)
  }
}
