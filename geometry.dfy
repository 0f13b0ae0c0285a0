/**
 * The parts of a geometry object that the box transforms and colourings
 * touch: its vertex positions and its triangular faces, each face naming three
 * vertices `a`, `b`, `c` and holding per-corner colours in `vertexColors`.
 * Vertex and face objects are updated in place by their index in these
 * arrays.
 */
module Geometry {
  import opened Vector

  /** A face: three vertex indices and the colours set so far for its corner slots 0, 1, 2. */
  datatype Face = Face(a: nat, b: nat, c: nat, vertexColors: map<nat, Vec3>)

  class Geom {
    const vertices: array<Vec3>
    const faces: array<Face>

    constructor (vertices: array<Vec3>, faces: array<Face>)
      ensures this.vertices == vertices && this.faces == faces
    {
      this.vertices := vertices;
      this.faces := faces;
    }
  }

  /** Every vertex of `vs` moved by `d`. */
  function TranslateAll(vs: seq<Vec3>, d: Vec3): (r: seq<Vec3>)
    ensures |r| == |vs| && forall i :: 0 <= i < |vs| ==> r[i] == Add(vs[i], d)
  {
    seq(|vs|, i requires 0 <= i < |vs| => Add(vs[i], d))
  }

  /**
   * `geom_translate(geom, x, y, z)`, whose code is not part of this model, taken
   * to move every vertex of the geometry by `(x, y, z)`; the same geometry is returned.
   */
  method Translate(geom: Geom, d: Vec3) returns (r: Geom)
    modifies geom.vertices
    ensures r == geom
    ensures geom.vertices[..] == TranslateAll(old(geom.vertices[..]), d)
  {
    var i := 0;
    while i < geom.vertices.Length
      invariant 0 <= i <= geom.vertices.Length
      invariant forall k :: 0 <= k < i ==> geom.vertices[k] == Add(old(geom.vertices[k]), d)
      invariant forall k :: i <= k < geom.vertices.Length ==> geom.vertices[k] == old(geom.vertices[k])
    {
      geom.vertices[i] := Add(geom.vertices[i], d);
      i := i + 1;
    }
    return geom;
  }
}
