/**
 * `boxColors.js`: colouring the corners of a box geometry's faces. Each entry
 * names an index table of module `BoxIndices` and a colour; every face corner
 * that is one of the table's vertices gets that colour, and later entries
 * overwrite earlier ones.
 *
 * The loops run entry by entry, face by face, index by index; `ApplyColors`
 * is what they do to the face array and `PaintFace` what one face goes
 * through on its own (`ApplyColorsPointwise`); `LastColorWins` and
 * `UnpaintedKeepsColor` say which colour each corner ends with.
 */
module BoxColors {
  import opened Vector
  import opened Options
  import opened Geometry
  import opened BoxIndices
  import opened BoxTransforms

  /** The vertex index held in corner slot `slot` (0, 1, 2 for `a`, `b`, `c`). */
  function Corner(face: Face, slot: nat): nat
    requires slot < 3
  {
    if slot == 0 then face.a else if slot == 1 then face.b else face.c
  }

  /** The colour set for slot `slot` of the face, if any. */
  function ColorAt(face: Face, slot: nat): Option<Vec3> {
    if slot in face.vertexColors then Some(face.vertexColors[slot]) else None
  }

  /** The two faces name the same three vertices. */
  predicate SameCorners(f: Face, g: Face) {
    f.a == g.a && f.b == g.b && f.c == g.c
  }

  /**
   * `setFaceVertexColor(face, index, color)`: every slot whose vertex is
   * `index` takes `color`; the vertices and the other slots are untouched.
   */
  function SetFaceVertexColor(face: Face, index: nat, color: Vec3): (r: Face)
    ensures SameCorners(r, face)
    ensures forall s: nat :: ColorAt(r, s) == if s < 3 && Corner(face, s) == index then Some(color) else ColorAt(face, s)
  {
    var m0 := if face.a == index then face.vertexColors[0 := color] else face.vertexColors;
    var m1 := if face.b == index then m0[1 := color] else m0;
    var m2 := if face.c == index then m1[2 := color] else m1;
    face.(vertexColors := m2)
  }

  /** `boxIndices[key].map(index => setFaceVertexColor(face, index, color))` on one face. */
  function ColorFace(face: Face, idx: seq<nat>, color: Vec3): (r: Face)
    ensures SameCorners(r, face)
    decreases |idx|
  {
    if |idx| == 0 then face
    else SetFaceVertexColor(ColorFace(face, idx[..|idx| - 1], color), idx[|idx| - 1], color)
  }

  /** A face coloured through a table: exactly the slots whose vertex the table lists take the colour. */
  lemma {:induction false} ColorFaceSlots(face: Face, idx: seq<nat>, color: Vec3, s: nat)
    ensures ColorAt(ColorFace(face, idx, color), s)
         == if s < 3 && Corner(face, s) in idx then Some(color) else ColorAt(face, s)
    decreases |idx|
  {
    if |idx| > 0 {
      var front := idx[..|idx| - 1];
      ColorFaceSlots(face, front, color, s);
      assert s < 3 ==> (Corner(face, s) in idx <==> Corner(face, s) in front || Corner(face, s) == idx[|idx| - 1]);
    }
  }

  /** Every face coloured through the table. */
  function ColorFaces(faces: seq<Face>, idx: seq<nat>, color: Vec3): (r: seq<Face>)
    ensures |r| == |faces| && forall i :: 0 <= i < |faces| ==> r[i] == ColorFace(faces[i], idx, color)
  {
    seq(|faces|, i requires 0 <= i < |faces| => ColorFace(faces[i], idx, color))
  }

  /**
   * The colour an entry's value gives: an array is read as a colour, any other
   * object (`null` included) is laid over black, and a number or anything else
   * makes the entry be skipped.
   */
  function ColorOf(value: Value): (r: Option<Vec3>)
    ensures r.None? <==> value.NumberValue? || value.OtherValue?
    ensures value.ArrayValue? ==> r == Some(value.v)
    ensures value == ObjectValue(None, None, None) ==> r == Some(Zero)
  {
    match value
    case ArrayValue(v) => Some(v)
    case ObjectValue(x, y, z) => Some(Assign(Zero, x, y, z))
    case NumberValue(_) => None
    case OtherValue => None
  }

  /** What the entry loop does to the face array, entry after entry (keys resolved to their tables). */
  function ApplyColors(faces: seq<Face>, lists: seq<(seq<nat>, Value)>): (r: seq<Face>)
    ensures |r| == |faces|
    decreases |lists|
  {
    if |lists| == 0 then faces
    else
      var p := ApplyColors(faces, lists[..|lists| - 1]);
      match ColorOf(lists[|lists| - 1].1)
      case None => p
      case Some(color) => ColorFaces(p, lists[|lists| - 1].0, color)
  }

  /** One face through all the entries. */
  function PaintFace(face: Face, lists: seq<(seq<nat>, Value)>): (r: Face)
    ensures SameCorners(r, face)
    decreases |lists|
  {
    if |lists| == 0 then face
    else
      var p := PaintFace(face, lists[..|lists| - 1]);
      match ColorOf(lists[|lists| - 1].1)
      case None => p
      case Some(color) => ColorFace(p, lists[|lists| - 1].0, color)
  }

  /** The loops read off one face: each face goes through the entries on its own. */
  lemma {:induction false} ApplyColorsPointwise(faces: seq<Face>, lists: seq<(seq<nat>, Value)>, i: nat)
    requires i < |faces|
    ensures ApplyColors(faces, lists)[i] == PaintFace(faces[i], lists)
    decreases |lists|
  {
    if |lists| > 0 {
      ApplyColorsPointwise(faces, lists[..|lists| - 1], i);
    }
  }

  /** Whether an entry colours vertex `v`: its value is accepted and its table lists `v`. */
  predicate Paints(entry: (seq<nat>, Value), v: nat) {
    ColorOf(entry.1).Some? && v in entry.0
  }

  /** Entry `k` is the last of `lists` that colours vertex `v`. */
  predicate LastPainter(lists: seq<(seq<nat>, Value)>, k: int, v: nat) {
    0 <= k < |lists| && Paints(lists[k], v) && forall l :: k < l < |lists| ==> !Paints(lists[l], v)
  }

  /** The last entry sets the slot when it colours the slot's vertex, and passes it through otherwise. */
  lemma PaintFaceLast(face: Face, lists: seq<(seq<nat>, Value)>, s: nat)
    requires s < 3 && |lists| > 0
    ensures var last := lists[|lists| - 1];
      ColorAt(PaintFace(face, lists), s)
      == if Paints(last, Corner(face, s)) then ColorOf(last.1) else ColorAt(PaintFace(face, lists[..|lists| - 1]), s)
  {
    var last := lists[|lists| - 1];
    var p := PaintFace(face, lists[..|lists| - 1]);
    assert Corner(p, s) == Corner(face, s);
    if ColorOf(last.1).Some? {
      ColorFaceSlots(p, last.0, ColorOf(last.1).value, s);
    }
  }

  /** A corner slot whose vertex no accepted entry lists keeps its colour. */
  lemma {:induction false} UnpaintedKeepsColor(face: Face, lists: seq<(seq<nat>, Value)>, s: nat)
    requires s < 3
    requires forall k :: 0 <= k < |lists| ==> !Paints(lists[k], Corner(face, s))
    ensures ColorAt(PaintFace(face, lists), s) == ColorAt(face, s)
    decreases |lists|
  {
    if |lists| > 0 {
      var front := lists[..|lists| - 1];
      assert forall k :: 0 <= k < |front| ==> front[k] == lists[k];
      UnpaintedKeepsColor(face, front, s);
      PaintFaceLast(face, lists, s);
    }
  }

  /** A corner slot ends with the colour of the last accepted entry whose table lists the slot's vertex. */
  lemma {:induction false} LastColorWins(face: Face, lists: seq<(seq<nat>, Value)>, s: nat, k: nat)
    requires s < 3
    requires LastPainter(lists, k, Corner(face, s))
    ensures ColorAt(PaintFace(face, lists), s) == ColorOf(lists[k].1)
    decreases |lists|
  {
    var n := |lists| - 1;
    PaintFaceLast(face, lists, s);
    if k < n {
      var front := lists[..n];
      assert front[k] == lists[k];
      assert forall l :: k < l < n ==> front[l] == lists[l];
      LastColorWins(face, front, s, k);
    }
  }

  /**
   * `applyBoxVertexColors(geom, colors)`: for each entry in order whose value
   * is an array or an object, colour every face corner the entry's table
   * lists; the same geometry is returned.
   */
  method ApplyBoxVertexColors(geom: Geom, entries: seq<(string, Value)>) returns (r: Geom)
    requires forall k :: 0 <= k < |entries| ==> entries[k].0 in Table
    modifies geom.faces
    ensures r == geom
    ensures geom.faces[..] == ApplyColors(old(geom.faces[..]), Resolve(entries))
  {
    r := geom;
    PaintEntries(geom, Resolve(entries));
  }

  /** The entry loop, over the resolved entries. */
  method PaintEntries(geom: Geom, lists: seq<(seq<nat>, Value)>)
    modifies geom.faces
    ensures geom.faces[..] == ApplyColors(old(geom.faces[..]), lists)
  {
    var k := 0;
    while k < |lists|
      invariant 0 <= k <= |lists|
      invariant geom.faces[..] == ApplyColors(old(geom.faces[..]), lists[..k])
    {
      assert lists[..k + 1][..k] == lists[..k];
      var color := ColorOf(lists[k].1);
      if color.Some? {
        ColorAllFaces(geom, lists[k].0, color.value);
      }
      k := k + 1;
    }
    assert lists[..k] == lists;
  }

  /** `geom.faces.map(face => …)` for one entry. */
  method ColorAllFaces(geom: Geom, idx: seq<nat>, color: Vec3)
    modifies geom.faces
    ensures geom.faces[..] == ColorFaces(old(geom.faces[..]), idx, color)
  {
    var i := 0;
    while i < geom.faces.Length
      invariant 0 <= i <= geom.faces.Length
      invariant forall j :: 0 <= j < i ==> geom.faces[j] == ColorFace(old(geom.faces[j]), idx, color)
      invariant forall j :: i <= j < geom.faces.Length ==> geom.faces[j] == old(geom.faces[j])
    {
      ColorFaceAt(geom, i, idx, color);
      i := i + 1;
    }
  }

  /** The index loop on face `i`. */
  method ColorFaceAt(geom: Geom, i: nat, idx: seq<nat>, color: Vec3)
    requires i < geom.faces.Length
    modifies geom.faces
    ensures geom.faces[..] == old(geom.faces[..])[i := ColorFace(old(geom.faces[i]), idx, color)]
  {
    var k := 0;
    while k < |idx|
      invariant 0 <= k <= |idx|
      invariant geom.faces[..] == old(geom.faces[..])[i := ColorFace(old(geom.faces[i]), idx[..k], color)]
    {
      assert idx[..k + 1][..k] == idx[..k];
      geom.faces[i] := SetFaceVertexColor(geom.faces[i], idx[k], color);
      k := k + 1;
    }
    assert idx[..k] == idx;
  }
}
