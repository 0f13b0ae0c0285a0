/**
 * The parts of `models.js` with behaviour of their own: the evenly spaced
 * values of `spaceBetween`, the pier arithmetic of `bridge_create`, the
 * per-string geometry cache of `text_create`, and the fixed pool of eight
 * footprint meshes that `trail_create` recycles every frame.
 */
module Models {
  import opened Vector
  import opened Options
  import opened Primitives

  // ---------------------------------------------------------------------------
  // spaceBetween

  /** `(end - start) / (count + 1)`: the gap between neighbouring values. */
  function Spacing(start: real, end: real, count: nat): real {
    (end - start) / (count + 1) as real
  }

  /** `spaceBetween(start, end, count)`: value `i` is `start + spacing * (i + 1)`. */
  function SpaceBetween(start: real, end: real, count: nat): (r: seq<real>)
    ensures |r| == count
    ensures count == 0 ==> r == []
  {
    seq(count, i requires 0 <= i < count => start + Spacing(start, end, count) * (i + 1) as real)
  }

  /** `count + 1` gaps make up the whole span. */
  lemma SpacingSpan(start: real, end: real, count: nat)
    ensures Spacing(start, end, count) * (count + 1) as real == end - start
  {}

  /** A positive factor keeps the order of the other. */
  lemma MulMonotone(s: real, a: real, b: real)
    requires s > 0.0 && a < b
    ensures s * a < s * b
  {
    assert s * b - s * a == s * (b - a);
  }

  /**
   * The values cut `[start, end]` into `count + 1` equal gaps: from `start` to
   * the first value, between neighbours, and from the last value to `end`.
   */
  lemma SpaceBetweenGaps(start: real, end: real, count: nat)
    ensures var r := SpaceBetween(start, end, count);
      var gap := (end - start) / (count + 1) as real;
      && (count > 0 ==> r[0] - start == gap && end - r[count - 1] == gap)
      && (forall i :: 0 <= i < count - 1 ==> r[i + 1] - r[i] == gap)
  {
    var r := SpaceBetween(start, end, count);
    if count > 0 {
      EndGaps(start, end, count);
    }
    forall i | 0 <= i < count - 1
      ensures r[i + 1] - r[i] == Spacing(start, end, count)
    {
      NeighbourGap(start, end, count, i);
    }
  }

  /** The first value is one gap after `start`, the last one gap before `end`. */
  lemma EndGaps(start: real, end: real, count: nat)
    requires count > 0
    ensures var r := SpaceBetween(start, end, count);
      r[0] - start == Spacing(start, end, count) && end - r[count - 1] == Spacing(start, end, count)
  {
    var gap := Spacing(start, end, count);
    SpacingSpan(start, end, count);
    MulSucc(gap, count as real);
  }

  /** Neighbouring values are one gap apart. */
  lemma NeighbourGap(start: real, end: real, count: nat, i: nat)
    requires i + 1 < count
    ensures var r := SpaceBetween(start, end, count);
      r[i + 1] - r[i] == Spacing(start, end, count)
  {
    var gap := Spacing(start, end, count);
    MulSucc(gap, (i + 1) as real);
    assert ((i + 1) + 1) as real == (i + 1) as real + 1.0;
  }

  /** One more gap adds one gap. */
  lemma MulSucc(g: real, n: real)
    ensures g * (n + 1.0) == g * n + g
  {}

  /** When `start < end` the values rise strictly and all lie strictly between the two. */
  lemma SpaceBetweenInside(start: real, end: real, count: nat)
    requires start < end
    ensures var r := SpaceBetween(start, end, count);
      && (forall i :: 0 <= i < count ==> start < r[i] < end)
      && (forall i, j :: 0 <= i < j < count ==> r[i] < r[j])
  {
    var r := SpaceBetween(start, end, count);
    var gap := Spacing(start, end, count);
    SpacingSpan(start, end, count);
    assert gap > 0.0;
    forall i | 0 <= i < count
      ensures start < r[i] < end
    {
      MulMonotone(gap, 0.0, (i + 1) as real);
      MulMonotone(gap, (i + 1) as real, (count + 1) as real);
    }
    forall i, j | 0 <= i < j < count
      ensures r[i] < r[j]
    {
      MulMonotone(gap, (i + 1) as real, (j + 1) as real);
    }
  }

  // ---------------------------------------------------------------------------
  // bridge_create: the piers

  /**
   * `x | 0` for a finite number: truncate toward zero, then wrap to a signed
   * 32-bit integer.
   */
  function ToInt32(x: real): (r: int)
    ensures -0x8000_0000 <= r < 0x8000_0000
  {
    var t := if x >= 0.0 then x.Floor else -((-x).Floor);
    (t + 0x8000_0000) % 0x1_0000_0000 - 0x8000_0000
  }

  /** On numbers from 0 up to `2^31`, `x | 0` is the whole part of `x`. */
  lemma ToInt32Small(x: real)
    requires 0.0 <= x < 2147483648.0
    ensures ToInt32(x) == x.Floor
  {
    assert 0 <= x.Floor < 0x8000_0000;
  }

  const DeckHeight: real := 12.0
  const CapHeight: real := 8.0
  const PierSpacing: real := 128.0

  /** The piers of a bridge: their height and how far along the deck each one stands. */
  datatype Piers = Piers(pierHeight: real, offsets: seq<real>)

  /** Building the list of piers either succeeds or `Array(pierCount)` throws a `RangeError`. */
  datatype PierResult = PiersOk(piers: Piers) | RangeError

  /** `((length / 128) | 0) - 1` */
  function PierCount(length: real): int {
    ToInt32(length / PierSpacing) - 1
  }

  /**
   * The pier arithmetic of `bridge_create(start, end, height)` for a deck of
   * `length` (the length of `start - end`): pier `index` stands at
   * `128 * (index + 1)` and is `height - 12 - 8` tall; a negative pier count
   * makes `Array` throw.
   */
  function PierLayout(length: real, height: real): PierResult {
    var count := PierCount(length);
    if count < 0 then RangeError
    else PiersOk(Piers(height - DeckHeight - CapHeight, seq(count, i requires 0 <= i < count => PierSpacing * (i + 1) as real)))
  }

  /** `height` defaults to `start.y`. */
  function BridgeHeight(start: Vec3, height: Option<real>): real {
    if height.Some? then height.value else start.y
  }

  /** A deck shorter than one pier spacing gives `pierCount == -1`, which `Array` rejects. */
  lemma ShortBridgeThrows(length: real, height: real)
    requires 0.0 <= length < PierSpacing
    ensures PierLayout(length, height) == RangeError
  {
    ToInt32Small(length / PierSpacing);
  }

  /**
   * A deck of at least one spacing (and below `2^31` spacings, where `| 0`
   * would wrap) gets `floor(length / 128) - 1` piers, each `height - 20` tall,
   * spaced 128 apart and all at least 128 short of the far end.
   */
  lemma BridgePiers(length: real, height: real)
    requires PierSpacing <= length < PierSpacing * 2147483648.0
    ensures PierLayout(length, height).PiersOk?
    ensures var p := PierLayout(length, height).piers;
      && |p.offsets| == (length / PierSpacing).Floor - 1
      && p.pierHeight == height - 20.0
      && (forall i :: 0 <= i < |p.offsets| ==> 0.0 < p.offsets[i] && p.offsets[i] + PierSpacing <= length)
      && (forall i :: 0 <= i < |p.offsets| - 1 ==> p.offsets[i + 1] - p.offsets[i] == PierSpacing)
  {
    var q := length / PierSpacing;
    ToInt32Small(q);
    var f := q.Floor;
    assert f as real <= q;
    assert f as real * PierSpacing <= length;
    var p := PierLayout(length, height).piers;
    forall i | 0 <= i < |p.offsets|
      ensures 0.0 < p.offsets[i] && p.offsets[i] + PierSpacing <= length
    {
      assert (i + 1) as real <= (f - 1) as real;
    }
  }

  // ---------------------------------------------------------------------------
  // text_create

  /** One bar of a glyph: `[x, y, xt = 0, yt = 0]`, a box `x` by `y` moved right by `xt` and down by `yt`. */
  datatype Bar = Bar(x: real, y: real, xt: real, yt: real)

  /** The glyph table of `text_create`; a character without a glyph has no bars. */
  function Parameters(c: char): Option<seq<Bar>> {
    match c
    case 'C' => Some([Bar(1.0, 4.0, 0.0, 0.0), Bar(3.0, 1.0, 0.0, 0.0), Bar(3.0, 1.0, 0.0, 4.0)])
    case 'H' => Some([Bar(1.0, 5.0, 0.0, 0.0), Bar(1.0, 1.0, 1.0, 2.0), Bar(1.0, 5.0, 2.0, 0.0)])
    case 'J' => Some([Bar(1.0, 5.0, 2.0, 0.0), Bar(2.0, 1.0, 0.0, 4.0)])
    case 'L' => Some([Bar(1.0, 5.0, 0.0, 0.0), Bar(2.0, 1.0, 1.0, 4.0)])
    case 'M' => Some([Bar(1.0, 5.0, 0.0, 0.0), Bar(1.0, 2.0, 1.0, 0.0), Bar(1.0, 5.0, 2.0, 0.0)])
    case 'S' => Some([Bar(3.0, 1.0, 0.0, 0.0), Bar(1.0, 1.0, 0.0, 1.0), Bar(3.0, 1.0, 0.0, 2.0),
                      Bar(1.0, 1.0, 2.0, 3.0), Bar(3.0, 1.0, 0.0, 4.0)])
    case 'T' => Some([Bar(3.0, 1.0, 0.0, 0.0), Bar(1.0, 4.0, 1.0, 1.0)])
    case _ => None
  }

  /**
   * One box of the text: a `size.x` by `size.y` by 1 box aligned on its
   * `nx_py` edge, moved by `offset`, then scaled by 1.5 across and up.
   */
  datatype GlyphBox = GlyphBox(size: Vec3, offset: Vec3)

  const CharWidth: real := 3.0
  const CharSpacing: real := 0.8
  const CharHeight: real := 5.0

  /** The box of bar `b` of the character at `index` in a string of `length` characters. */
  function BarBox(b: Bar, index: nat, length: nat): GlyphBox {
    GlyphBox(Vec3(b.x, b.y, 1.0),
             Vec3(b.xt + CharWidth * (index as real - length as real / 2.0) + CharSpacing * (index as real - 1.0),
                  CharHeight - b.yt, 0.0))
  }

  /** The boxes of character `index` of `s`: one per bar of its glyph, none when it has no glyph. */
  function CharBoxes(s: string, index: nat): seq<GlyphBox>
    requires index < |s|
  {
    match Parameters(s[index])
    case None => []
    case Some(bars) => seq(|bars|, k requires 0 <= k < |bars| => BarBox(bars[k], index, |s|))
  }

  /** The boxes of the first `n` characters of `s`, character after character. */
  function TextBoxesUpTo(s: string, n: nat): seq<GlyphBox>
    requires n <= |s|
  {
    if n == 0 then [] else TextBoxesUpTo(s, n - 1) + CharBoxes(s, n - 1)
  }

  /** The boxes merged into the geometry of `s`. */
  function TextBoxes(s: string): seq<GlyphBox> {
    TextBoxesUpTo(s, |s|)
  }

  /** `c` is one of C, H, J, L, M, S, T. */
  predicate HasGlyph(c: char) {
    Parameters(c).Some?
  }

  /**
   * Characters without a glyph contribute no boxes: two strings of the same
   * length that agree wherever either has a glyph character get the same
   * geometry.
   */
  lemma {:induction false} GlyphlessCharsDrawNothing(s: string, t: string, n: nat)
    requires |s| == |t| && n <= |s|
    requires forall i :: 0 <= i < |s| && (HasGlyph(s[i]) || HasGlyph(t[i])) ==> s[i] == t[i]
    ensures TextBoxesUpTo(s, n) == TextBoxesUpTo(t, n)
  {
    if n > 0 {
      GlyphlessCharsDrawNothing(s, t, n - 1);
      assert CharBoxes(s, n - 1) == CharBoxes(t, n - 1);
    }
  }

  /** A string with no glyph character gives an empty geometry. */
  lemma {:induction false} NoGlyphsNoBoxes(s: string, n: nat)
    requires n <= |s|
    requires forall i :: 0 <= i < |s| ==> !HasGlyph(s[i])
    ensures TextBoxesUpTo(s, n) == []
  {
    if n > 0 {
      NoGlyphsNoBoxes(s, n - 1);
    }
  }

  /** A merged text geometry; the source hands the same object out on every request for the string. */
  class TextGeometry {
    const boxes: seq<GlyphBox>

    constructor (boxes: seq<GlyphBox>)
      ensures this.boxes == boxes
    {
      this.boxes := boxes;
    }
  }

  /** The module-level cache `textGeometries` and the `text_create` that fills it. */
  class TextCache {
    var geometries: map<string, TextGeometry>

    /** Every cached geometry is the geometry of its string. */
    predicate Valid()
      reads this
    {
      forall s :: s in geometries ==> geometries[s].boxes == TextBoxes(s)
    }

    constructor ()
      ensures Valid() && geometries == map[]
    {
      geometries := map[];
    }

    /**
     * `text_create(string)`: a string seen before gets its cached geometry
     * object back and the cache is left alone; any other string gets a new
     * geometry of its boxes, which is cached under it.
     */
    method TextCreate(s: string) returns (g: TextGeometry)
      requires Valid()
      modifies this
      ensures Valid()
      ensures g.boxes == TextBoxes(s)
      ensures s in old(geometries) ==> g == old(geometries)[s] && geometries == old(geometries)
      ensures s !in old(geometries) ==> fresh(g) && geometries == old(geometries)[s := g]
      ensures s in geometries && geometries[s] == g
    {
      if s in geometries {
        return geometries[s];
      }
      g := new TextGeometry(TextBoxes(s));
      geometries := geometries[s := g];
    }
  }

  /**
   * What the lookup `textGeometries[string]` yields on the plain object the
   * source uses as its cache: an own entry, a property inherited from
   * `Object.prototype` (a function or object, hence truthy), or nothing.
   */
  datatype CacheLookup<T> = OwnEntry(value: T) | Inherited | Absent

  /** Names every plain object inherits from `Object.prototype`. */
  const InheritedNames: set<string> := {
    "constructor", "toString", "toLocaleString", "valueOf", "hasOwnProperty",
    "isPrototypeOf", "propertyIsEnumerable", "__proto__", "__defineGetter__",
    "__defineSetter__", "__lookupGetter__", "__lookupSetter__"
  }

  /** The cache test as written: a property lookup that follows the prototype chain. */
  function LookupAsWritten<T>(cache: map<string, T>, s: string): (r: CacheLookup<T>)
    ensures r.Absent? <==> s !in cache && s !in InheritedNames
  {
    if s in cache then OwnEntry(cache[s])
    else if s in InheritedNames then Inherited
    else Absent
  }

  /**
   * On a cache without its own `"constructor"` entry (a fresh one, say),
   * `text_create("constructor")` takes the cached branch and
   * returns `Object.prototype.constructor` (the `Object` function) instead of
   * a geometry; `TextCache.TextCreate` consults own entries only and builds the
   * geometry.
   */
  lemma InheritedNameIsAFalseHit(cache: map<string, TextGeometry>)
    requires "constructor" !in cache
    ensures LookupAsWritten(cache, "constructor") == Inherited
  {
    assert "constructor" in InheritedNames;
  }

  // ---------------------------------------------------------------------------
  // trail_create: the footprint pool

  /** One footprint mesh: shown or hidden, its scale and its position. */
  datatype Trail = Trail(visible: bool, scale: Vec3, position: Vec3)

  const TrailCount: nat := 8
  const TrailDistance: real := 48.0
  const DecayRate: real := 4.0
  /** `EPSILON` */
  const Epsilon: real := 0.01

  /** `meshes.find(mesh => !mesh.visible)`, as an index. */
  function FirstHidden(ts: seq<Trail>): (r: Option<nat>)
    ensures r.None? <==> forall i :: 0 <= i < |ts| ==> ts[i].visible
    ensures r.Some? ==> r.value < |ts| && !ts[r.value].visible && forall i :: 0 <= i < r.value ==> ts[i].visible
    decreases |ts|
  {
    if |ts| == 0 then None
    else if !ts[0].visible then Some(0)
    else match FirstHidden(ts[1..])
      case None => None
      case Some(i) => Some(i + 1)
  }

  /** The mesh a frame shows a new footprint with, if any: only while walking, far enough from the last one. */
  function SpawnSlot(ts: seq<Trail>, prev: Vec3, walking: bool, position: Vec3, ext: Externals): Option<nat> {
    if walking && Length(ext, Sub(position, prev)) > TrailDistance then FirstHidden(ts) else None
  }

  /** The meshes after the spawn step: the chosen mesh is reset to scale 1 at `position` and shown. */
  function Spawned(ts: seq<Trail>, slot: Option<nat>, position: Vec3): seq<Trail>
    requires slot.Some? ==> slot.value < |ts|
  {
    if slot.Some? then ts[slot.value := ts[slot.value].(scale := Splat(1.0), position := position, visible := true)]
    else ts
  }

  /** One mesh in the decay step: a shown mesh shrinks by `1 - 4 dt` and is hidden once its scale is shorter than `EPSILON`. */
  function Decayed(t: Trail, dt: real, ext: Externals): Trail {
    if !t.visible then t
    else
      var scale := Scale(t.scale, 1.0 - DecayRate * dt);
      t.(scale := scale, visible := !(Length(ext, scale) < Epsilon))
  }

  function DecayAll(ts: seq<Trail>, dt: real, ext: Externals): (r: seq<Trail>)
    ensures |r| == |ts| && forall i :: 0 <= i < |ts| ==> r[i] == Decayed(ts[i], dt, ext)
  {
    seq(|ts|, i requires 0 <= i < |ts| => Decayed(ts[i], dt, ext))
  }

  /** The number of shown meshes. */
  function VisibleCount(ts: seq<Trail>): (r: nat)
    ensures r <= |ts|
  {
    if |ts| == 0 then 0 else VisibleCount(ts[..|ts| - 1]) + (if ts[|ts| - 1].visible then 1 else 0)
  }

  /**
   * A footprint is placed exactly when the player walks, is more than 48 from
   * the last one and some mesh is hidden; it takes the first hidden mesh, and
   * only then does the last position move.
   */
  lemma SpawnRule(ts: seq<Trail>, prev: Vec3, walking: bool, position: Vec3, ext: Externals)
    ensures var slot := SpawnSlot(ts, prev, walking, position, ext);
      && (slot.Some? <==> walking && Length(ext, Sub(position, prev)) > TrailDistance && exists i :: 0 <= i < |ts| && !ts[i].visible)
      && (slot.Some? ==> slot.value < |ts| && !ts[slot.value].visible && forall i :: 0 <= i < slot.value ==> ts[i].visible)
  {
    var slot := SpawnSlot(ts, prev, walking, position, ext);
    if walking && Length(ext, Sub(position, prev)) > TrailDistance && slot.None? {
      assert forall i :: 0 <= i < |ts| ==> ts[i].visible;
    }
  }

  /** Replacing one mesh changes the number of shown meshes by what that one mesh changes. */
  lemma {:induction false} VisibleCountUpdate(ts: seq<Trail>, i: nat, t: Trail)
    requires i < |ts|
    ensures VisibleCount(ts[i := t]) == VisibleCount(ts) - (if ts[i].visible then 1 else 0) + (if t.visible then 1 else 0)
    decreases |ts|
  {
    var n := |ts| - 1;
    if i < n {
      assert ts[i := t][..n] == ts[..n][i := t];
      VisibleCountUpdate(ts[..n], i, t);
    } else {
      assert ts[i := t][..n] == ts[..n];
    }
  }

  /** A spawn shows at most one more mesh. */
  lemma SpawnShowsOneMore(ts: seq<Trail>, slot: Option<nat>, position: Vec3)
    requires slot.Some? ==> slot.value < |ts| && !ts[slot.value].visible
    ensures VisibleCount(Spawned(ts, slot, position)) == VisibleCount(ts) + (if slot.Some? then 1 else 0)
  {
    if slot.Some? {
      VisibleCountUpdate(ts, slot.value, ts[slot.value].(scale := Splat(1.0), position := position, visible := true));
    }
  }

  /** Decay never shows a mesh: hidden meshes stay untouched and the count of shown ones cannot grow. */
  lemma {:induction false} DecayHidesOnly(ts: seq<Trail>, dt: real, ext: Externals)
    ensures forall i :: 0 <= i < |ts| && !ts[i].visible ==> DecayAll(ts, dt, ext)[i] == ts[i]
    ensures VisibleCount(DecayAll(ts, dt, ext)) <= VisibleCount(ts)
    decreases |ts|
  {
    if |ts| > 0 {
      var n := |ts| - 1;
      DecayHidesOnly(ts[..n], dt, ext);
      assert DecayAll(ts, dt, ext)[..n] == DecayAll(ts[..n], dt, ext);
    }
  }

  /** The pool `trail_create(player)` keeps: eight meshes and the position of the last footprint. */
  class TrailPool {
    const meshes: array<Trail>
    var prevPosition: Vec3

    predicate Valid()
      reads this
    {
      meshes.Length == TrailCount
    }

    /** Eight hidden meshes, and the player's position as the last footprint. */
    constructor (playerPosition: Vec3)
      ensures Valid() && fresh(meshes) && prevPosition == playerPosition
      ensures forall i :: 0 <= i < meshes.Length ==> !meshes[i].visible
    {
      meshes := new Trail[TrailCount](_ => Trail(false, Splat(1.0), Zero));
      prevPosition := playerPosition;
    }

    /**
     * The per-frame component: maybe place a footprint, then decay every
     * shown mesh. The player's `walking` flag and position are parameters.
     */
    method Update(dt: real, walking: bool, position: Vec3, ext: Externals)
      requires Valid()
      modifies this, meshes
      ensures Valid()
      ensures var slot := SpawnSlot(old(meshes[..]), old(prevPosition), walking, position, ext);
        && meshes[..] == DecayAll(Spawned(old(meshes[..]), slot, position), dt, ext)
        && prevPosition == (if slot.Some? then position else old(prevPosition))
    {
      ghost var slot := SpawnSlot(meshes[..], prevPosition, walking, position, ext);
      if walking && Length(ext, Sub(position, prevPosition)) > TrailDistance {
        var i := FindHidden();
        if i.Some? {
          meshes[i.value] := meshes[i.value].(scale := Splat(1.0));
          prevPosition := position;
          meshes[i.value] := meshes[i.value].(position := prevPosition, visible := true);
        }
      }
      assert meshes[..] == Spawned(old(meshes[..]), slot, position);
      DecayMeshes(dt, ext);
    }

    /** `meshes.find(mesh => !mesh.visible)` */
    method FindHidden() returns (r: Option<nat>)
      ensures r == FirstHidden(meshes[..])
    {
      var i := 0;
      while i < meshes.Length
        invariant 0 <= i <= meshes.Length
        invariant forall k :: 0 <= k < i ==> meshes[k].visible
      {
        if !meshes[i].visible {
          FirstHiddenIs(meshes[..], i);
          return Some(i);
        }
        i := i + 1;
      }
      return None;
    }

    /** `meshes.map(…)`: shrink every shown mesh and hide the ones too small to see. */
    method DecayMeshes(dt: real, ext: Externals)
      modifies meshes
      ensures meshes[..] == DecayAll(old(meshes[..]), dt, ext)
    {
      var i := 0;
      while i < meshes.Length
        invariant 0 <= i <= meshes.Length
        invariant forall k :: 0 <= k < i ==> meshes[k] == Decayed(old(meshes[k]), dt, ext)
        invariant forall k :: i <= k < meshes.Length ==> meshes[k] == old(meshes[k])
      {
        if meshes[i].visible {
          var scale := Scale(meshes[i].scale, 1.0 - DecayRate * dt);
          meshes[i] := meshes[i].(scale := scale);
          if Length(ext, scale) < Epsilon {
            meshes[i] := meshes[i].(visible := false);
          }
        }
        i := i + 1;
      }
    }
  }

  /** The first hidden mesh is the one a scan from the front stops at. */
  lemma FirstHiddenIs(ts: seq<Trail>, i: nat)
    requires i < |ts| && !ts[i].visible && forall k :: 0 <= k < i ==> ts[k].visible
    ensures FirstHidden(ts) == Some(i)
  {
    var r := FirstHidden(ts);
    assert r.Some?;
    assert !(r.value < i) && !(i < r.value);
  }
}
