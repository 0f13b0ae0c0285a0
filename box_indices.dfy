/**
 * `boxIndices.js`: the index tables naming the eight corners of a box
 * geometry, its twelve edges and six faces, and all corners at once. Each
 * name says on which side of each axis the corners lie (`p` positive,
 * `n` negative); the corner order on the `nx` side runs `nz` before `pz`.
 * The transforms and colourings look a table up by its name, which here is
 * the map `Table`.
 */
module BoxIndices {

  // Corners.
  const PxPyPz: seq<nat> := [0]
  const PxPyNz: seq<nat> := [1]
  const PxNyPz: seq<nat> := [2]
  const PxNyNz: seq<nat> := [3]
  const NxPyNz: seq<nat> := [4]
  const NxPyPz: seq<nat> := [5]
  const NxNyNz: seq<nat> := [6]
  const NxNyPz: seq<nat> := [7]

  // Edges, each the two corners it joins.
  const PxPy: seq<nat> := PxPyPz + PxPyNz
  const PxNy: seq<nat> := PxNyPz + PxNyNz
  const NxPy: seq<nat> := NxPyNz + NxPyPz
  const NxNy: seq<nat> := NxNyNz + NxNyPz

  const PxPz: seq<nat> := PxPyPz + PxNyPz
  const PxNz: seq<nat> := PxPyNz + PxNyNz
  const NxNz: seq<nat> := NxPyNz + NxNyNz
  const NxPz: seq<nat> := NxPyPz + NxNyPz

  const PyPz: seq<nat> := PxPyPz + NxPyPz
  const PyNz: seq<nat> := PxPyNz + NxPyNz
  const NyPz: seq<nat> := PxNyPz + NxNyPz
  const NyNz: seq<nat> := PxNyNz + NxNyNz

  // Faces, each two opposite edges.
  const Px: seq<nat> := PxPy + PxNy
  const Nx: seq<nat> := NxPy + NxNy
  const Py: seq<nat> := PxPy + NxPy
  const Ny: seq<nat> := PxNy + NxNy
  const Pz: seq<nat> := PxPz + NxPz
  const Nz: seq<nat> := PxNz + NxNz

  /** Every corner. */
  const All: seq<nat> := Px + Nx

  /** The tables by the names the transforms and colourings use as keys. */
  const Table: map<string, seq<nat>> := map[
    "px_py_pz" := PxPyPz, "px_py_nz" := PxPyNz, "px_ny_pz" := PxNyPz, "px_ny_nz" := PxNyNz,
    "nx_py_nz" := NxPyNz, "nx_py_pz" := NxPyPz, "nx_ny_nz" := NxNyNz, "nx_ny_pz" := NxNyPz,
    "px_py" := PxPy, "px_ny" := PxNy, "nx_py" := NxPy, "nx_ny" := NxNy,
    "px_pz" := PxPz, "px_nz" := PxNz, "nx_nz" := NxNz, "nx_pz" := NxPz,
    "py_pz" := PyPz, "py_nz" := PyNz, "ny_pz" := NyPz, "ny_nz" := NyNz,
    "px" := Px, "nx" := Nx, "py" := Py, "ny" := Ny, "pz" := Pz, "nz" := Nz,
    "all" := All
  ]

  /**
   * The table named `key`. The source fails on a name it does not have; the
   * operations that look names up require them to be in `Table`, and for any
   * other name this gives the empty list.
   */
  function Indices(key: string): seq<nat> {
    if key in Table then Table[key] else []
  }

  /** No index appears twice in `s`. */
  predicate Distinct(s: seq<nat>) {
    forall i, j :: 0 <= i < j < |s| ==> s[i] != s[j]
  }

  /** The eight corner tables are single indices, together 0 to 7 with none repeated. */
  lemma CornersDistinct()
    ensures var corners := [PxPyPz, PxPyNz, PxNyPz, PxNyNz, NxPyNz, NxPyPz, NxNyNz, NxNyPz];
      && (forall k :: 0 <= k < 8 ==> corners[k] == [k])
  {}

  /** Each face has four corners; `px` is 0 to 3 and `nx` is 4 to 7. */
  lemma FaceSizes()
    ensures |Px| == |Nx| == |Py| == |Ny| == |Pz| == |Nz| == 4
    ensures Px == [0, 1, 2, 3] && Nx == [4, 5, 6, 7]
  {}

  /** `all` lists the eight corners in order. */
  lemma AllInOrder()
    ensures All == [0, 1, 2, 3, 4, 5, 6, 7]
  {}

  /** Opposite faces share no corner and together hold all eight. */
  lemma OppositeFacesPartition(i: nat)
    ensures !(i in Px && i in Nx) && (i in Px || i in Nx <==> i in All)
    ensures !(i in Py && i in Ny) && (i in Py || i in Ny <==> i in All)
    ensures !(i in Pz && i in Nz) && (i in Pz || i in Nz <==> i in All)
  {}

  /** Each edge is exactly the corners its two faces share. */
  lemma EdgesAreFaceIntersections(i: nat)
    ensures (i in PxPy <==> i in Px && i in Py) && (i in PxNy <==> i in Px && i in Ny)
    ensures (i in NxPy <==> i in Nx && i in Py) && (i in NxNy <==> i in Nx && i in Ny)
    ensures (i in PxPz <==> i in Px && i in Pz) && (i in PxNz <==> i in Px && i in Nz)
    ensures (i in NxNz <==> i in Nx && i in Nz) && (i in NxPz <==> i in Nx && i in Pz)
    ensures (i in PyPz <==> i in Py && i in Pz) && (i in PyNz <==> i in Py && i in Nz)
    ensures (i in NyPz <==> i in Ny && i in Pz) && (i in NyNz <==> i in Ny && i in Nz)
  {}

  /** Every corner lies on exactly one face per axis, so on exactly three faces. */
  lemma ThreeFacesPerCorner(i: nat)
    requires i < 8
    ensures (i in Px) != (i in Nx) && (i in Py) != (i in Ny) && (i in Pz) != (i in Nz)
  {}

  /** Every table is non-empty and names corners of the box only. */
  lemma TablesInBox()
    ensures forall key :: key in Table ==>
      |Table[key]| > 0 && forall k :: 0 <= k < |Table[key]| ==> Table[key][k] < 8
  {}

  /** Whatever the name, the list looked up names no index twice. */
  lemma IndicesDistinct(key: string)
    ensures Distinct(Indices(key))
  {}
}
