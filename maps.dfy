/**
 * The pieces of the map script in `maps.js` that this model covers: picking
 * the object nearest to a point, snapping positions to the 32-unit grid, finding
 * the file mesh standing in a grid cell, and placing a new "safe" file in a
 * free cell after at most four random tries.
 */
module Maps {
  import opened Vector
  import opened Options

  // ---------------------------------------------------------------------------
  // findNearestObject

  /**
   * `objects[i]` is the one `findNearestObject(point, objects)` picks: no object
   * is closer (in squared distance), and every earlier object is strictly
   * farther.
   */
  predicate IsNearest(point: Vec3, objects: seq<Vec3>, i: nat) {
    && i < |objects|
    && (forall j :: 0 <= j < |objects| ==> DistanceSquared(objects[i], point) <= DistanceSquared(objects[j], point))
    && (forall j :: 0 <= j < i ==> DistanceSquared(objects[i], point) < DistanceSquared(objects[j], point))
  }

  /** At most one object is the nearest in that sense: ties go to the earliest. */
  lemma NearestIsUnique(point: Vec3, objects: seq<Vec3>, i: nat, j: nat)
    requires IsNearest(point, objects, i) && IsNearest(point, objects, j)
    ensures i == j
  {
    var di, dj := DistanceSquared(objects[i], point), DistanceSquared(objects[j], point);
  }

  /**
   * `findNearestObject(point, objects)`, returning the index of the object
   * (objects given by their positions). The running minimum starts at
   * `Infinity`, which here is "nothing found yet".
   */
  method FindNearestObject(point: Vec3, objects: seq<Vec3>) returns (nearest: Option<nat>)
    ensures nearest.None? <==> |objects| == 0
    ensures nearest.Some? ==> IsNearest(point, objects, nearest.value)
  {
    nearest := None;
    var minDistanceSquared := 0.0;
    var k := 0;
    while k < |objects|
      invariant 0 <= k <= |objects|
      invariant nearest.None? <==> k == 0
      invariant nearest.Some? ==> IsNearest(point, objects[..k], nearest.value)
      invariant nearest.Some? ==> minDistanceSquared == DistanceSquared(objects[nearest.value], point)
    {
      var distanceSquared := DistanceSquared(objects[k], point);
      if nearest.None? || distanceSquared < minDistanceSquared {
        minDistanceSquared := distanceSquared;
        nearest := Some(k);
      }
      k := k + 1;
    }
    assert objects[..k] == objects;
  }

  // ---------------------------------------------------------------------------
  // The grid

  /** `CELL_SIZE` */
  const CellSize: real := 32.0

  /** `Math.round`: the nearest integer, halves rounded up. */
  function Round(x: real): (r: int)
    ensures x - 0.5 < r as real <= x + 0.5
  {
    (x + 0.5).Floor
  }

  /** `worldToGrid(v)`: each component divided by the cell size and rounded. */
  function WorldToGrid(v: Vec3): Vec3 {
    Vec3(Round(v.x / CellSize) as real, Round(v.y / CellSize) as real, Round(v.z / CellSize) as real)
  }

  /** `gridToWorld(v)`: each component multiplied by the cell size. */
  function GridToWorld(v: Vec3): Vec3 {
    Scale(v, CellSize)
  }

  /** All three components are whole numbers. */
  predicate OnGrid(v: Vec3) {
    v.x == v.x.Floor as real && v.y == v.y.Floor as real && v.z == v.z.Floor as real
  }

  /** Rounding a whole number gives it back. */
  lemma RoundWhole(k: int)
    ensures Round(k as real) == k
  {}

  /** A grid cell taken to the world and back is the same cell. */
  lemma GridRoundTrip(g: Vec3)
    requires OnGrid(g)
    ensures WorldToGrid(GridToWorld(g)) == g
  {
    RoundWhole(g.x.Floor);
    RoundWhole(g.y.Floor);
    RoundWhole(g.z.Floor);
  }

  /**
   * Snapping lands on grid coordinates, at most half a cell from the original
   * position along each axis.
   */
  lemma SnapNearby(v: Vec3)
    ensures OnGrid(WorldToGrid(v))
    ensures var w := GridToWorld(WorldToGrid(v));
      && -16.0 < w.x - v.x <= 16.0 && -16.0 < w.y - v.y <= 16.0 && -16.0 < w.z - v.z <= 16.0
  {
    var g := WorldToGrid(v);
    assert g.x.Floor == Round(v.x / CellSize);
    assert g.y.Floor == Round(v.y / CellSize);
    assert g.z.Floor == Round(v.z / CellSize);
  }

  /** The grid cell of a world position. */
  function Cell(v: Vec3): Vec3 {
    WorldToGrid(v)
  }

  /**
   * `findFileAt(mesh)`: the index of the first file whose cell is the cell of
   * `position`, if any. The source snaps copies made into scratch vectors, so
   * no position changes.
   */
  function FindFileAt(files: seq<Vec3>, position: Vec3): (r: Option<nat>)
    ensures r.None? <==> forall j :: 0 <= j < |files| ==> Cell(files[j]) != Cell(position)
    ensures r.Some? ==> (r.value < |files| && Cell(files[r.value]) == Cell(position)
                         && forall j :: 0 <= j < r.value ==> Cell(files[j]) != Cell(position))
    decreases |files|
  {
    if |files| == 0 then None
    else if Cell(files[0]) == Cell(position) then Some(0)
    else match FindFileAt(files[1..], position)
      case None => None
      case Some(j) => Some(j + 1)
  }

  // ---------------------------------------------------------------------------
  // Placing a safe file

  /** The four spots a safe file may be placed at. */
  const SafePositions: seq<Vec3> := [
    Vec3(96.0, 96.0, 292.0), Vec3(-256.0, 160.0, 480.0), Vec3(352.0, 128.0, -48.0), Vec3(-256.0, 160.0, -544.0)
  ]

  const MaxTries: nat := 4

  /** The four spots lie in four different cells. */
  lemma SafeCellsDistinct()
    ensures forall i, j :: 0 <= i < j < |SafePositions| ==> Cell(SafePositions[i]) != Cell(SafePositions[j])
  {
    assert Cell(SafePositions[0]) == Vec3(3.0, 3.0, 9.0);
    assert Cell(SafePositions[1]) == Vec3(-8.0, 5.0, 15.0);
    assert Cell(SafePositions[2]) == Vec3(11.0, 4.0, -1.0);
    assert Cell(SafePositions[3]) == Vec3(-8.0, 5.0, -17.0);
  }

  /** The spots drawn by `sample(safePositions)` on each try; each draw is an index into the four. */
  predicate ValidDraws(draws: seq<nat>) {
    |draws| == MaxTries && forall t :: 0 <= t < |draws| ==> draws[t] < |SafePositions|
  }

  /** The first try, from `t` on, whose spot is in a cell no file occupies. */
  function FirstFreeTry(files: seq<Vec3>, draws: seq<nat>, t: nat): (r: Option<nat>)
    requires ValidDraws(draws) && t <= MaxTries
    ensures r.None? <==> forall u :: t <= u < MaxTries ==> FindFileAt(files, SafePositions[draws[u]]).Some?
    ensures r.Some? ==> (t <= r.value < MaxTries && FindFileAt(files, SafePositions[draws[r.value]]).None?
                         && forall u :: t <= u < r.value ==> FindFileAt(files, SafePositions[draws[u]]).Some?)
    decreases MaxTries - t
  {
    if t == MaxTries then None
    else if FindFileAt(files, SafePositions[draws[t]]).None? then Some(t)
    else FirstFreeTry(files, draws, t + 1)
  }

  /** A new file in a free cell is the only file in that cell. */
  lemma AppendedFileIsFound(files: seq<Vec3>, position: Vec3)
    requires FindFileAt(files, position).None?
    ensures FindFileAt(files + [position], position) == Some(|files|)
  {
    var r := FindFileAt(files + [position], position);
    assert (files + [position])[|files|] == position;
    assert forall j :: 0 <= j < |files| ==> (files + [position])[j] == files[j];
  }

  /** The list `fileMeshes`, by the files' positions. */
  class FileRegistry {
    var files: seq<Vec3>

    /** `fileMeshes = [initialFileMesh]` */
    constructor (initial: Vec3)
      ensures files == [initial]
    {
      files := [initial];
    }

    /**
     * The safe-file placement: up to four tries, each at a drawn spot; the
     * first spot whose cell holds no file gets the new file and the loop
     * stops. With every drawn cell taken, nothing is added.
     */
    method PlaceSafeFile(draws: seq<nat>) returns (placed: bool, position: Vec3)
      requires ValidDraws(draws)
      modifies this
      ensures var first := FirstFreeTry(old(files), draws, 0);
        && (placed <==> first.Some?)
        && (placed ==> position == SafePositions[draws[first.value]] && files == old(files) + [position])
        && (!placed ==> files == old(files))
    {
      var tryCount := 0;
      position := SafePositions[draws[0]];
      while tryCount < MaxTries
        invariant 0 <= tryCount <= MaxTries
        invariant files == old(files)
        invariant FirstFreeTry(files, draws, 0) == FirstFreeTry(files, draws, tryCount)
      {
        position := SafePositions[draws[tryCount]];
        if FindFileAt(files, position).None? {
          files := files + [position];
          return true, position;
        }
        tryCount := tryCount + 1;
      }
      return false, position;
    }
  }

  /**
   * A placement adds at most one file, and a placed file stands in a cell no
   * other file occupied: it is the file `findFileAt` finds there.
   */
  lemma PlacementInFreeCell(files: seq<Vec3>, draws: seq<nat>)
    requires ValidDraws(draws)
    ensures var first := FirstFreeTry(files, draws, 0);
      first.Some? ==>
        var position := SafePositions[draws[first.value]];
        FindFileAt(files, position).None? && FindFileAt(files + [position], position) == Some(|files|)
  {
    var first := FirstFreeTry(files, draws, 0);
    if first.Some? {
      AppendedFileIsFound(files, SafePositions[draws[first.value]]);
    }
  }
}
