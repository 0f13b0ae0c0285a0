/**
 * `boxTransforms.js`: edits of the vertices of a box geometry selected by the
 * index tables of module `BoxIndices`, looked up by name.
 *
 * Every transform walks its entries in order and, for each entry, the indices
 * of the entry's table in order, editing one vertex at a time. The edit an
 * entry makes is an `Edit` value; `ApplyEdits` is what the loops do to the
 * vertex array, and `EditVertex` says, for one vertex on its own, which edits
 * reach it and in what order. Lemma `EditsPointwise` ties the two together.
 */
module BoxTransforms {
  import opened Vector
  import opened Options
  import opened Geometry
  import opened BoxIndices

  /**
   * The value of an entry, by the tests `setVector` makes: an array, another
   * object (`null` included, which has no components), a number, or anything
   * else.
   */
  datatype Value =
    | ArrayValue(v: Vec3)
    | ObjectValue(x: Option<real>, y: Option<real>, z: Option<real>)
    | NumberValue(n: real)
    | OtherValue

  /** `Object.assign(target, source)` for a source holding the components it has. */
  function Assign(target: Vec3, x: Option<real>, y: Option<real>, z: Option<real>): Vec3 {
    Vec3(if x.Some? then x.value else target.x,
         if y.Some? then y.value else target.y,
         if z.Some? then z.value else target.z)
  }

  /**
   * `setVector(vector, value, identity)`: the new contents of `vector`. An
   * array is copied, an object's components are laid over `identity`, a
   * number is put in all three components, and anything else leaves `vector`
   * as it was.
   */
  function SetVector(vector: Vec3, value: Value, identity: Vec3): Vec3 {
    match value
    case ArrayValue(v) => v
    case ObjectValue(x, y, z) => Assign(identity, x, y, z)
    case NumberValue(n) => Splat(n)
    case OtherValue => vector
  }

  /**
   * Only a value of none of the three accepted kinds lets the previous contents
   * of the scratch vector through; an object missing some components takes
   * them from `identity`, and one with all three ignores `identity`.
   */
  lemma SetVectorCases(vector: Vec3, other: Vec3, value: Value, identity: Vec3)
    ensures !value.OtherValue? ==> SetVector(vector, value, identity) == SetVector(other, value, identity)
    ensures value.OtherValue? ==> SetVector(vector, value, identity) == vector
    ensures value == ObjectValue(None, None, None) ==> SetVector(vector, value, identity) == identity
    ensures value.ObjectValue? && value.x.Some? && value.y.Some? && value.z.Some? ==>
      SetVector(vector, value, identity) == Vec3(value.x.value, value.y.value, value.z.value)
  {}

  // ---------------------------------------------------------------------------
  // Centroids

  /** All of `idx` are below `n`. */
  predicate Within(n: nat, idx: seq<nat>) {
    forall k :: 0 <= k < |idx| ==> idx[k] < n
  }

  /** All of `idx` index into `vs`. */
  predicate InRange(vs: seq<Vec3>, idx: seq<nat>) {
    Within(|vs|, idx)
  }

  /** The sum of the vertices listed in `idx`, one term per entry of the list. */
  function Sum(vs: seq<Vec3>, idx: seq<nat>): Vec3
    requires InRange(vs, idx)
    decreases |idx|
  {
    if |idx| == 0 then Zero else Add(Sum(vs, idx[..|idx| - 1]), vs[idx[|idx| - 1]])
  }

  /** The arithmetic mean of the vertices listed in `idx`. */
  function Centroid(vs: seq<Vec3>, idx: seq<nat>): Vec3
    requires InRange(vs, idx) && |idx| > 0
  {
    Scale(Sum(vs, idx), 1.0 / |idx| as real)
  }

  /** Moving every vertex by `d` moves the sum of `n` listed vertices by `n` times `d`. */
  lemma {:induction false} SumTranslate(vs: seq<Vec3>, idx: seq<nat>, d: Vec3)
    requires InRange(vs, idx)
    ensures InRange(TranslateAll(vs, d), idx)
    ensures Sum(TranslateAll(vs, d), idx) == Add(Sum(vs, idx), Scale(d, |idx| as real))
    decreases |idx|
  {
    if |idx| > 0 {
      var front := idx[..|idx| - 1];
      var t := TranslateAll(vs, d);
      var i := idx[|idx| - 1];
      SumTranslate(vs, front, d);
      assert Sum(t, idx) == Add(Sum(t, front), t[i]);
      assert Sum(vs, idx) == Add(Sum(vs, front), vs[i]);
      var n := |idx| as real;
      assert |front| as real == n - 1.0;
      AddOneMore(Sum(vs, front), vs[i], d, n);
    }
  }

  /** One more vertex moved by `d` adds it and one more `d`. */
  lemma AddOneMore(sum: Vec3, v: Vec3, d: Vec3, n: real)
    ensures Add(Add(sum, Scale(d, n - 1.0)), Add(v, d)) == Add(Add(sum, v), Scale(d, n))
  {
    assert d.x * (n - 1.0) + d.x == d.x * n;
    assert d.y * (n - 1.0) + d.y == d.y * n;
    assert d.z * (n - 1.0) + d.z == d.z * n;
  }

  /** Moving every vertex by `d` moves the centroid of any listed vertices by `d`. */
  lemma CentroidTranslate(vs: seq<Vec3>, idx: seq<nat>, d: Vec3)
    requires InRange(vs, idx) && |idx| > 0
    ensures InRange(TranslateAll(vs, d), idx)
    ensures Centroid(TranslateAll(vs, d), idx) == Add(Centroid(vs, idx), d)
  {
    SumTranslate(vs, idx, d);
    var n := |idx| as real;
    var s := Sum(vs, idx);
    assert n * (1.0 / n) == 1.0;
    assert (s.x + d.x * n) * (1.0 / n) == s.x * (1.0 / n) + d.x * (n * (1.0 / n));
    assert (s.y + d.y * n) * (1.0 / n) == s.y * (1.0 / n) + d.y * (n * (1.0 / n));
    assert (s.z + d.z * n) * (1.0 / n) == s.z * (1.0 / n) + d.z * (n * (1.0 / n));
  }

  /** Translating by the negated centroid of the listed vertices puts that centroid at the origin. */
  lemma CentroidAfterAlign(vs: seq<Vec3>, idx: seq<nat>)
    requires InRange(vs, idx) && |idx| > 0
    ensures InRange(TranslateAll(vs, Neg(Centroid(vs, idx))), idx)
    ensures Centroid(TranslateAll(vs, Neg(Centroid(vs, idx))), idx) == Zero
  {
    CentroidTranslate(vs, idx, Neg(Centroid(vs, idx)));
  }

  /**
   * Translating `a` by the difference of the centroids moves the centroid of
   * its `idxA` vertices onto the centroid of `b`'s `idxB` vertices.
   */
  lemma CentroidAfterRelativeAlign(a: seq<Vec3>, idxA: seq<nat>, b: seq<Vec3>, idxB: seq<nat>)
    requires InRange(a, idxA) && |idxA| > 0 && InRange(b, idxB) && |idxB| > 0
    ensures var d := Sub(Centroid(b, idxB), Centroid(a, idxA));
      InRange(TranslateAll(a, d), idxA) && Centroid(TranslateAll(a, d), idxA) == Centroid(b, idxB)
  {
    CentroidTranslate(a, idxA, Sub(Centroid(b, idxB), Centroid(a, idxA)));
  }

  /**
   * `computeCentroid(geom, indices, vector)`: zero the output vector, add the
   * listed vertices into it one by one, divide by the number of indices.
   */
  method ComputeCentroid(geom: Geom, indices: seq<nat>) returns (vector: Vec3)
    requires InRange(geom.vertices[..], indices) && |indices| > 0
    ensures vector == Centroid(geom.vertices[..], indices)
  {
    vector := Zero;
    var k := 0;
    while k < |indices|
      invariant 0 <= k <= |indices|
      invariant vector == Sum(geom.vertices[..], indices[..k])
    {
      assert indices[..k + 1][..k] == indices[..k];
      vector := Add(vector, geom.vertices[indices[k]]);
      k := k + 1;
    }
    assert indices[..k] == indices;
    vector := Scale(vector, 1.0 / |indices| as real);
  }

  /** The tables a transform looks `key` up in exist for `geom`. */
  predicate Fits(geom: Geom, key: string)
    reads geom
  {
    key in Table && Within(geom.vertices.Length, Indices(key))
  }

  /**
   * `alignBoxVertices(geom, key)`: translate the geometry by the negated
   * centroid of the `key` vertices, which afterwards sit centred on the origin.
   */
  method AlignBoxVertices(geom: Geom, key: string) returns (r: Geom)
    requires Fits(geom, key)
    modifies geom.vertices
    ensures r == geom
    ensures geom.vertices[..] == TranslateAll(old(geom.vertices[..]), Neg(Centroid(old(geom.vertices[..]), Indices(key))))
    ensures InRange(geom.vertices[..], Indices(key)) && Centroid(geom.vertices[..], Indices(key)) == Zero
  {
    TablesInBox();
    var centroid := ComputeCentroid(geom, Indices(key));
    CentroidAfterAlign(geom.vertices[..], Indices(key));
    r := Translate(geom, Neg(centroid));
  }

  /**
   * `relativeAlignBoxVertices(geomA, keyA, geomB, keyB)`: translate `geomA` so
   * that the centroid of its `keyA` vertices lands on the centroid of the
   * `keyB` vertices of `geomB`, both taken before the move.
   */
  method RelativeAlignBoxVertices(geomA: Geom, keyA: string, geomB: Geom, keyB: string) returns (r: Geom)
    requires Fits(geomA, keyA) && Fits(geomB, keyB)
    modifies geomA.vertices
    ensures r == geomA
    ensures var d := Sub(Centroid(old(geomB.vertices[..]), Indices(keyB)), Centroid(old(geomA.vertices[..]), Indices(keyA)));
      geomA.vertices[..] == TranslateAll(old(geomA.vertices[..]), d)
    ensures geomA.vertices != geomB.vertices ==>
      InRange(geomA.vertices[..], Indices(keyA)) && Centroid(geomA.vertices[..], Indices(keyA)) == Centroid(geomB.vertices[..], Indices(keyB))
  {
    TablesInBox();
    var centroidA := ComputeCentroid(geomA, Indices(keyA));
    var centroidB := ComputeCentroid(geomB, Indices(keyB));
    var delta := Sub(centroidB, centroidA);
    CentroidAfterRelativeAlign(geomA.vertices[..], Indices(keyA), geomB.vertices[..], Indices(keyB));
    r := Translate(geomA, delta);
  }

  // ---------------------------------------------------------------------------
  // Per-vertex edits

  /** What one call of the per-vertex method does to a vertex. */
  datatype Edit =
    | AddBy(d: Vec3)                    // vec3_add(vertex, d)
    | MultiplyBy(d: Vec3)               // vec3_multiply(vertex, d)
    | SetTo(v: Vec3)                    // vec3_fromArray(vertex, v)
    | SetComponentTo(axis: Axis, s: real) // vec3_setX / setY / setZ(vertex, s)

  function Edited(v: Vec3, e: Edit): Vec3 {
    match e
    case AddBy(d) => Add(v, d)
    case MultiplyBy(d) => Mul(v, d)
    case SetTo(w) => w
    case SetComponentTo(axis, s) => WithComponent(v, axis, s)
  }

  /**
   * One entry's work: the listed vertices, each edited in list order. (An
   * index past the end of the array is passed over here; the methods only
   * run on tables whose indices all fit.)
   */
  function ApplyEdit(vs: seq<Vec3>, idx: seq<nat>, e: Edit): (r: seq<Vec3>)
    ensures |r| == |vs|
    decreases |idx|
  {
    if |idx| == 0 then vs
    else
      var p := ApplyEdit(vs, idx[..|idx| - 1], e);
      var i := idx[|idx| - 1];
      if i < |p| then p[i := Edited(p[i], e)] else p
  }

  /** One entry as the loops see it: a table and the edit made to each vertex it lists. */
  datatype Step = Step(idx: seq<nat>, edit: Edit)

  /** All the entries' work, entry after entry. */
  function ApplyEdits(vs: seq<Vec3>, steps: seq<Step>): (r: seq<Vec3>)
    ensures |r| == |vs|
    decreases |steps|
  {
    if |steps| == 0 then vs
    else
      var p := ApplyEdits(vs, steps[..|steps| - 1]);
      ApplyEdit(p, steps[|steps| - 1].idx, steps[|steps| - 1].edit)
  }

  /** The vertex with index `i`, starting as `v`, after the edits of the steps that list it, in order. */
  function EditVertex(v: Vec3, i: nat, steps: seq<Step>): Vec3
    decreases |steps|
  {
    if |steps| == 0 then v
    else
      var p := EditVertex(v, i, steps[..|steps| - 1]);
      if i in steps[|steps| - 1].idx then Edited(p, steps[|steps| - 1].edit) else p
  }

  /** An entry whose table names each index once edits each listed vertex once and no other. */
  lemma {:induction false} ApplyEditPointwise(vs: seq<Vec3>, idx: seq<nat>, e: Edit, i: nat)
    requires Distinct(idx) && i < |vs|
    ensures ApplyEdit(vs, idx, e)[i] == if i in idx then Edited(vs[i], e) else vs[i]
    decreases |idx|
  {
    if |idx| > 0 {
      var front := idx[..|idx| - 1];
      assert Distinct(front);
      ApplyEditPointwise(vs, front, e, i);
      assert i in idx <==> i in front || i == idx[|idx| - 1];
      if i == idx[|idx| - 1] {
        assert i !in front;
      }
    }
  }

  /**
   * The edits the loops make to the whole array, read off one vertex: each
   * vertex receives exactly the edits of the entries that list it, in entry
   * order, and a vertex no entry lists keeps its position.
   */
  lemma {:induction false} EditsPointwise(vs: seq<Vec3>, steps: seq<Step>, i: nat)
    requires i < |vs|
    requires forall k :: 0 <= k < |steps| ==> Distinct(steps[k].idx)
    ensures ApplyEdits(vs, steps)[i] == EditVertex(vs[i], i, steps)
    decreases |steps|
  {
    if |steps| > 0 {
      var front := steps[..|steps| - 1];
      EditsPointwise(vs, front, i);
      var p := ApplyEdits(vs, front);
      ApplyEditPointwise(p, steps[|steps| - 1].idx, steps[|steps| - 1].edit, i);
    }
  }

  /** A vertex that no step lists is not edited. */
  lemma {:induction false} EditVertexUnlisted(v: Vec3, i: nat, steps: seq<Step>)
    requires forall k :: 0 <= k < |steps| ==> i !in steps[k].idx
    ensures EditVertex(v, i, steps) == v
    decreases |steps|
  {
    if |steps| > 0 {
      EditVertexUnlisted(v, i, steps[..|steps| - 1]);
    }
  }

  /** The edits that only add along one axis leave the other two components of every vertex as they were. */
  lemma {:induction false} EditVertexAxis(v: Vec3, i: nat, steps: seq<Step>, axis: Axis, other: Axis)
    requires other != axis
    requires forall k :: 0 <= k < |steps| ==> steps[k].edit.AddBy? && Component(steps[k].edit.d, other) == 0.0
    ensures Component(EditVertex(v, i, steps), other) == Component(v, other)
    decreases |steps|
  {
    if |steps| > 0 {
      EditVertexAxis(v, i, steps[..|steps| - 1], axis, other);
    }
  }

  /** The vertex-editing loop of one entry. */
  method EditVertices(geom: Geom, idx: seq<nat>, e: Edit)
    requires Within(geom.vertices.Length, idx)
    modifies geom.vertices
    ensures geom.vertices[..] == ApplyEdit(old(geom.vertices[..]), idx, e)
  {
    var k := 0;
    while k < |idx|
      invariant 0 <= k <= |idx|
      invariant geom.vertices[..] == ApplyEdit(old(geom.vertices[..]), idx[..k], e)
    {
      assert idx[..k + 1][..k] == idx[..k];
      geom.vertices[idx[k]] := Edited(geom.vertices[idx[k]], e);
      k := k + 1;
    }
    assert idx[..k] == idx;
  }

  /** Every step's table has its indices below `n`. */
  predicate StepsFit(n: nat, steps: seq<Step>) {
    forall k :: 0 <= k < |steps| ==> Within(n, steps[k].idx)
  }

  /** The loop over the entries: each step's edit made to the vertices its table lists. */
  method ApplySteps(geom: Geom, steps: seq<Step>)
    requires StepsFit(geom.vertices.Length, steps)
    modifies geom.vertices
    ensures geom.vertices[..] == ApplyEdits(old(geom.vertices[..]), steps)
  {
    var k := 0;
    while k < |steps|
      invariant 0 <= k <= |steps|
      invariant geom.vertices[..] == ApplyEdits(old(geom.vertices[..]), steps[..k])
    {
      assert steps[..k + 1][..k] == steps[..k];
      EditVertices(geom, steps[k].idx, steps[k].edit);
      k := k + 1;
    }
    assert steps[..k] == steps;
  }

  /** Every entry's key names a table whose indices fit `geom`. */
  predicate EntriesFit<V>(geom: Geom, entries: seq<(string, V)>)
    reads geom
  {
    forall k :: 0 <= k < |entries| ==> Fits(geom, entries[k].0)
  }

  /** The entries with each key replaced by the table it names: what the loops walk. */
  function Resolve<V>(entries: seq<(string, V)>): (r: seq<(seq<nat>, V)>)
    ensures |r| == |entries|
    ensures forall k :: 0 <= k < |entries| ==> r[k] == (Indices(entries[k].0), entries[k].1)
  {
    seq(|entries|, k requires 0 <= k < |entries| => (Indices(entries[k].0), entries[k].1))
  }

  /** Every table of `lists` has its indices below `n`. */
  predicate ListsFit<V>(n: nat, lists: seq<(seq<nat>, V)>) {
    forall k :: 0 <= k < |lists| ==> Within(n, lists[k].0)
  }

  lemma ResolvedFit<V>(geom: Geom, entries: seq<(string, V)>)
    requires EntriesFit(geom, entries)
    ensures ListsFit(geom.vertices.Length, Resolve(entries))
  {
    forall k | 0 <= k < |entries|
      ensures Within(geom.vertices.Length, Resolve(entries)[k].0)
    {
      assert Fits(geom, entries[k].0);
    }
  }

  /** Every table of `lists` names no index twice. */
  predicate ListsDistinct<V>(lists: seq<(seq<nat>, V)>) {
    forall k :: 0 <= k < |lists| ==> Distinct(lists[k].0)
  }

  lemma ResolvedDistinct<V>(entries: seq<(string, V)>)
    ensures ListsDistinct(Resolve(entries))
  {
    forall k | 0 <= k < |entries|
      ensures Distinct(Resolve(entries)[k].0)
    {
      IndicesDistinct(entries[k].0);
    }
  }

  // ---------------------------------------------------------------------------
  // $translate and $scale: `transformBoxVertices(method, identity)`

  /** Whether the per-vertex method is `vec3_add` (`$translate`) or `vec3_multiply` (`$scale`). */
  datatype Method = AddMethod | MultiplyMethod

  function EditFor(m: Method, vector: Vec3): Edit {
    match m
    case AddMethod => AddBy(vector)
    case MultiplyMethod => MultiplyBy(vector)
  }

  /**
   * The steps of `transformBoxVertices(m, identity)` over the resolved
   * entries `lists`, starting with `vector` in the scratch vector, and what the
   * scratch vector holds afterwards: each entry first sets the scratch vector
   * from its value, then applies it to the vertices of its table.
   */
  function TransformSteps(m: Method, identity: Vec3, vector: Vec3, lists: seq<(seq<nat>, Value)>): (r: (seq<Step>, Vec3))
    ensures |r.0| == |lists|
    ensures forall k :: 0 <= k < |lists| ==> r.0[k].idx == lists[k].0
    decreases |lists|
  {
    if |lists| == 0 then ([], vector)
    else
      var (steps, v) := TransformSteps(m, identity, vector, lists[..|lists| - 1]);
      var v' := SetVector(v, lists[|lists| - 1].1, identity);
      (steps + [Step(lists[|lists| - 1].0, EditFor(m, v'))], v')
  }

  /** The identity `$scale` lays object values over. */
  const Ones: Vec3 := Vec3(1.0, 1.0, 1.0)

  /**
   * An object value leaves out components: `$translate` then adds 0 and
   * `$scale` multiplies by 1 along them, and a given component is used as it
   * stands. An empty object or `null` moves nothing and scales nothing.
   */
  lemma OmittedComponentsDefault(v: Vec3, x: Option<real>, y: Option<real>, z: Option<real>)
    ensures EditFor(AddMethod, SetVector(v, ObjectValue(x, y, z), Zero))
         == AddBy(Vec3(if x.Some? then x.value else 0.0, if y.Some? then y.value else 0.0, if z.Some? then z.value else 0.0))
    ensures EditFor(MultiplyMethod, SetVector(v, ObjectValue(x, y, z), Ones))
         == MultiplyBy(Vec3(if x.Some? then x.value else 1.0, if y.Some? then y.value else 1.0, if z.Some? then z.value else 1.0))
    ensures EditFor(AddMethod, SetVector(v, ObjectValue(None, None, None), Zero)) == AddBy(Zero)
    ensures EditFor(MultiplyMethod, SetVector(v, ObjectValue(None, None, None), Ones)) == MultiplyBy(Ones)
  {}

  /**
   * The module-level state of `transformBoxVertices`: one scratch vector that
   * `$translate` and `$scale` both write, and that an entry whose value is of
   * none of the accepted kinds reuses as it stands.
   */
  class Transformer {
    var vector: Vec3

    constructor ()
      ensures vector == Zero
    {
      vector := Zero;
    }

    /**
     * `transformBoxVertices(m, identity)(geom, entries)`: for each entry in
     * order, set the scratch vector from the value and apply the method to
     * each vertex of the entry's table; the same geometry is returned.
     */
    method Transform(m: Method, identity: Vec3, geom: Geom, entries: seq<(string, Value)>) returns (r: Geom)
      requires EntriesFit(geom, entries)
      modifies this, geom.vertices
      ensures r == geom
      ensures geom.vertices[..] == ApplyEdits(old(geom.vertices[..]), TransformSteps(m, identity, old(vector), Resolve(entries)).0)
      ensures vector == TransformSteps(m, identity, old(vector), Resolve(entries)).1
    {
      ResolvedFit(geom, entries);
      TransformLists(m, identity, geom, Resolve(entries));
      return geom;
    }

    /** `$translate`: `transformBoxVertices(vec3_add)`, whose identity is the zero vector. */
    method TranslateEntries(geom: Geom, entries: seq<(string, Value)>) returns (r: Geom)
      requires EntriesFit(geom, entries)
      modifies this, geom.vertices
      ensures r == geom
      ensures geom.vertices[..] == ApplyEdits(old(geom.vertices[..]), TransformSteps(AddMethod, Zero, old(vector), Resolve(entries)).0)
      ensures vector == TransformSteps(AddMethod, Zero, old(vector), Resolve(entries)).1
    {
      r := Transform(AddMethod, Zero, geom, entries);
    }

    /** `$scale`: `transformBoxVertices(vec3_multiply, (1, 1, 1))`. */
    method ScaleEntries(geom: Geom, entries: seq<(string, Value)>) returns (r: Geom)
      requires EntriesFit(geom, entries)
      modifies this, geom.vertices
      ensures r == geom
      ensures geom.vertices[..] == ApplyEdits(old(geom.vertices[..]), TransformSteps(MultiplyMethod, Ones, old(vector), Resolve(entries)).0)
      ensures vector == TransformSteps(MultiplyMethod, Ones, old(vector), Resolve(entries)).1
    {
      r := Transform(MultiplyMethod, Ones, geom, entries);
    }

    /** The loop of `Transform`, over the resolved entries. */
    method TransformLists(m: Method, identity: Vec3, geom: Geom, lists: seq<(seq<nat>, Value)>)
      requires ListsFit(geom.vertices.Length, lists)
      modifies this, geom.vertices
      ensures geom.vertices[..] == ApplyEdits(old(geom.vertices[..]), TransformSteps(m, identity, old(vector), lists).0)
      ensures vector == TransformSteps(m, identity, old(vector), lists).1
    {
      var k := 0;
      while k < |lists|
        invariant 0 <= k <= |lists|
        invariant geom.vertices[..] == ApplyEdits(old(geom.vertices[..]), TransformSteps(m, identity, old(vector), lists[..k]).0)
        invariant vector == TransformSteps(m, identity, old(vector), lists[..k]).1
      {
        ghost var steps := TransformSteps(m, identity, old(vector), lists[..k]).0;
        assert lists[..k + 1][..k] == lists[..k];
        TransformEntry(m, identity, geom, lists[k].0, lists[k].1);
        assert TransformSteps(m, identity, old(vector), lists[..k + 1])
            == (steps + [Step(lists[k].0, EditFor(m, vector))], vector);
        k := k + 1;
      }
      assert lists[..k] == lists;
    }

    /** One entry of `Transform`: set the scratch vector from `value`, then apply it to the vertices `idx` lists. */
    method TransformEntry(m: Method, identity: Vec3, geom: Geom, idx: seq<nat>, value: Value)
      requires Within(geom.vertices.Length, idx)
      modifies this, geom.vertices
      ensures vector == SetVector(old(vector), value, identity)
      ensures geom.vertices[..] == ApplyEdit(old(geom.vertices[..]), idx, EditFor(m, vector))
    {
      vector := SetVector(vector, value, identity);
      EditVertices(geom, idx, EditFor(m, vector));
    }
  }

  // ---------------------------------------------------------------------------
  // $translateX/Y/Z: `transformAxisBoxVertices(vec3_add)(axis)`

  /** The vector one axis entry applies: `identity` with `vector[axis] = delta`, the delta defaulting to `identity[axis]`. */
  function AxisVector(identity: Vec3, axis: Axis, delta: Option<real>): Vec3 {
    WithComponent(identity, axis, if delta.Some? then delta.value else Component(identity, axis))
  }

  /** One axis entry as the loop sees it. */
  function AxisStep(m: Method, identity: Vec3, axis: Axis, entry: (seq<nat>, Option<real>)): Step {
    Step(entry.0, EditFor(m, AxisVector(identity, axis, entry.1)))
  }

  function AxisSteps(m: Method, identity: Vec3, axis: Axis, lists: seq<(seq<nat>, Option<real>)>): (r: seq<Step>)
    ensures |r| == |lists|
    ensures forall k :: 0 <= k < |lists| ==> r[k] == AxisStep(m, identity, axis, lists[k])
    decreases |lists|
  {
    if |lists| == 0 then []
    else AxisSteps(m, identity, axis, lists[..|lists| - 1]) + [AxisStep(m, identity, axis, lists[|lists| - 1])]
  }

  /**
   * `transformAxisBoxVertices(m, identity)(axis)(geom, entries)`: for each
   * entry, the vector is `identity` with the entry's delta on `axis`, applied
   * to each vertex of the entry's table; the same geometry is returned.
   */
  method TransformAxis(m: Method, identity: Vec3, axis: Axis, geom: Geom, entries: seq<(string, Option<real>)>)
    returns (r: Geom)
    requires EntriesFit(geom, entries)
    modifies geom.vertices
    ensures r == geom
    ensures geom.vertices[..] == ApplyEdits(old(geom.vertices[..]), AxisSteps(m, identity, axis, Resolve(entries)))
  {
    ResolvedFit(geom, entries);
    r := geom;
    ApplySteps(geom, AxisSteps(m, identity, axis, Resolve(entries)));
  }

  /**
   * `$translateX` / `$translateY` / `$translateZ` change only the named
   * component: every vertex keeps its other two components.
   */
  lemma TranslateAxisOnly(vs: seq<Vec3>, axis: Axis, entries: seq<(string, Option<real>)>, i: nat, other: Axis)
    requires i < |vs| && other != axis
    ensures Component(ApplyEdits(vs, AxisSteps(AddMethod, Zero, axis, Resolve(entries)))[i], other) == Component(vs[i], other)
  {
    var lists := Resolve(entries);
    var steps := AxisSteps(AddMethod, Zero, axis, lists);
    ResolvedDistinct(entries);
    assert forall k :: 0 <= k < |steps| ==> steps[k].idx == lists[k].0;
    EditsPointwise(vs, steps, i);
    forall k | 0 <= k < |steps|
      ensures steps[k].edit.AddBy? && Component(steps[k].edit.d, other) == 0.0
    {
      assert steps[k].edit == AddBy(AxisVector(Zero, axis, lists[k].1));
    }
    EditVertexAxis(vs[i], i, steps, axis, other);
  }

  /** Whatever the edits, a vertex that no entry's table lists keeps its position. */
  lemma EditsUnlisted(vs: seq<Vec3>, steps: seq<Step>, i: nat)
    requires i < |vs|
    requires forall k :: 0 <= k < |steps| ==> Distinct(steps[k].idx) && i !in steps[k].idx
    ensures ApplyEdits(vs, steps)[i] == vs[i]
  {
    EditsPointwise(vs, steps, i);
    EditVertexUnlisted(vs[i], i, steps);
  }

  // ---------------------------------------------------------------------------
  // $set, $setX/Y/Z: `callBoxVertices(method)`

  /** What `$set` (a vector read from an array) or `$setX/Y/Z` (a number) writes. */
  datatype Put = PutVector(v: Vec3) | PutComponent(axis: Axis, s: real)

  function PutEdit(p: Put): Edit {
    match p
    case PutVector(v) => SetTo(v)
    case PutComponent(axis, s) => SetComponentTo(axis, s)
  }

  function PutSteps(lists: seq<(seq<nat>, Put)>): (r: seq<Step>)
    ensures |r| == |lists|
    ensures forall k :: 0 <= k < |lists| ==> r[k] == Step(lists[k].0, PutEdit(lists[k].1))
    decreases |lists|
  {
    if |lists| == 0 then []
    else PutSteps(lists[..|lists| - 1]) + [Step(lists[|lists| - 1].0, PutEdit(lists[|lists| - 1].1))]
  }

  /** `callBoxVertices(method)(geom, entries)`: write each entry's value into each listed vertex; the same geometry is returned. */
  method CallBoxVertices(geom: Geom, entries: seq<(string, Put)>) returns (r: Geom)
    requires EntriesFit(geom, entries)
    modifies geom.vertices
    ensures r == geom
    ensures geom.vertices[..] == ApplyEdits(old(geom.vertices[..]), PutSteps(Resolve(entries)))
  {
    ResolvedFit(geom, entries);
    r := geom;
    ApplySteps(geom, PutSteps(Resolve(entries)));
  }

  /**
   * `$set` overwrites only listed vertices: a listed vertex ends as the value
   * of the last entry that lists it, and any other vertex is left alone. The
   * tables of the box name no index twice (`ResolvedDistinct`).
   */
  lemma SetLastWins(vs: seq<Vec3>, lists: seq<(seq<nat>, Put)>, i: nat)
    requires ListsDistinct(lists)
    requires forall k :: 0 <= k < |lists| ==> lists[k].1.PutVector?
    requires i < |vs|
    ensures var after := ApplyEdits(vs, PutSteps(lists))[i];
      && ((forall k :: 0 <= k < |lists| ==> i !in lists[k].0) ==> after == vs[i])
      && (forall k :: 0 <= k < |lists| && i in lists[k].0
            && (forall l :: k < l < |lists| ==> i !in lists[l].0)
            ==> after == lists[k].1.v)
  {
    EditsPointwise(vs, PutSteps(lists), i);
    LastPutWins(vs[i], i, lists);
  }

  lemma {:induction false} LastPutWins(v: Vec3, i: nat, lists: seq<(seq<nat>, Put)>)
    requires forall k :: 0 <= k < |lists| ==> lists[k].1.PutVector?
    ensures var after := EditVertex(v, i, PutSteps(lists));
      && ((forall k :: 0 <= k < |lists| ==> i !in lists[k].0) ==> after == v)
      && (forall k :: 0 <= k < |lists| && i in lists[k].0
            && (forall l :: k < l < |lists| ==> i !in lists[l].0)
            ==> after == lists[k].1.v)
    decreases |lists|
  {
    if |lists| > 0 {
      var front := lists[..|lists| - 1];
      assert PutSteps(lists)[..|lists| - 1] == PutSteps(front);
      LastPutWins(v, i, front);
    }
  }
}
