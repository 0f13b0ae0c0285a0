# js13k-2020 player physics and level helpers, modelled in Dafny

This project models the core of a small browser game (js13k 2020). The
game's player controller is a port of the Quake III movement code.

**Player movement (`src/player.js`)**
- The swept-box trace against the scene's bodies.
- The four-bump clip-plane slide solver.
- The step-up wrapper around the slide.
- The jump latch, ground check, friction and input scaling.
- Acceleration, the walking and airborne moves, and the per-tick update.

**Box-geometry helpers**
- The named vertex tables of a box (`src/boxIndices.js`).
- The per-table vertex transforms, `align` and `relativeAlign` (`src/boxTransforms.js`).
- Per-corner face colouring (`src/boxColors.js`).

**Pieces of `src/models.js`**
- `spaceBetween`.
- The bridge pier arithmetic.
- The `text_create` cache and its glyph boxes.
- The trail mesh pool.

**Pieces of `src/maps.js`**
- `findNearestObject` and the grid snapping.
- `findFileAt`.
- The safe file placement loop.

**The repeating timer (`src/interval.js`).**

Routines that change state in place are classes:

| Class | Routines |
|---|---|
| `PlayerModel.Player` | the player routines |
| `Intervals.Interval` | the timer |
| `BoxTransforms.Transformer` | the transform with its scratch vector |
| `Models.TextCache` | the text cache |
| `Models.TrailPool` | the trail pool |
| `Maps.FileRegistry` | the file list |

Vertex and face buffers are `array`s held by `Geometry.Geom`. Each such method is proved equal to a specification function on values:

| Specification | Module |
|---|---|
| `Tracing.TraceResult` | `Tracing` |
| `Slide.SlideMoveSpec` | `Slide` |
| `Movement.UpdateSpec` and the other `…Spec` functions | `Movement` |
| `BoxTransforms.ApplyEdits` | `BoxTransforms` |
| `BoxColors.ApplyColors` | `BoxColors` |

The properties are then proved about those functions.

Numbers are modelled as `real`. Helpers the core calls but does not define are parameters of the model, held in `Primitives.Externals` and stated only as far as the proofs need:

| Helper | Model |
|---|---|
| `sweptAABB` | `Externals.sweep` |
| the `box3_*` helpers | function fields of `Externals` |
| `vec3_length` | `Externals.length` |
| `vec3_normalize` | `Externals.normalize` |
| `pm_clipVelocity` | `Externals.clipVelocity` |
| `Math.sqrt` | `Externals.sqrt`; `IsSquareRoot` constrains it where needed |

The model follows the code where the code is unusual.

- **Stored ground normal.** `player.groundTrace.normal` is set once to (0, 1, 0) in `player_create` and never written again. So the slope half of the step-up test in `player_stepSlideMove` (`src/player.js:376-381`) can never hold, and every ground-plane clip uses the fixed up vector. `Movement.SlopeTestDead` states this.
- **Jump threshold.** The jump latch is released when `command.up < 10`, not when it is 0.
- **`textGeometries` lookup.** The text cache looks strings up with a truthiness test on a plain object. See "## Findings".

## Model

| member | source | states |
|---|---|---|
| Intervals.Tick | src/interval.js:5-6 | a step of `dt` grows the time elapsed since the last reset by exactly `dt` and keeps the reset mark |
| Intervals.Restart | src/interval.js:13 | a reset keeps the time, and the interval is then not due, even for a zero duration |
| Intervals.TicksElapsed | src/interval.js:5-6 | over any run of non-negative steps the time never decreases and the reset mark is unchanged |
| Intervals.StaysDue | src/interval.js:5-11 | once due, the interval stays due through any run of non-negative steps until it is reset |
| Intervals.DueAfterRestart | src/interval.js:5-13 | right after a reset, one step of `dt` makes the interval due exactly when `dt` exceeds the duration |
| Intervals.Interval.constructor | src/interval.js:1-3 | a new interval keeps its duration and starts with time and reset mark 0 |
| Intervals.Interval.Update | src/interval.js:5-11 | the clock advances by `Tick`, and the result is true exactly when the time since the reset mark exceeds the duration |
| Intervals.Interval.Reset | src/interval.js:13 | the new state is `Restart` of the old one: the mark moves to the current time |
| BoxIndices.CornersDistinct | src/boxIndices.js:3-10 | the eight corner tables are the single indices 0 to 7, in declaration order |
| BoxIndices.FaceSizes | src/boxIndices.js:29-34 | every face table has four corners; `px` is 0 to 3 and `nx` is 4 to 7 |
| BoxIndices.AllInOrder | src/boxIndices.js:37 | `all` lists the corners 0 to 7 in order |
| BoxIndices.OppositeFacesPartition | src/boxIndices.js:29-37 | on each axis the two opposite faces share no corner and together hold exactly the corners of `all` |
| BoxIndices.EdgesAreFaceIntersections | src/boxIndices.js:13-34 | each of the twelve edge tables holds exactly the corners its two faces have in common |
| BoxIndices.ThreeFacesPerCorner | src/boxIndices.js:3-34 | every corner lies on exactly one face per axis |
| BoxIndices.TablesInBox | src/boxIndices.js:3-37 | every named table is non-empty and names corners 0 to 7 only |
| BoxIndices.IndicesDistinct | src/boxIndices.js:3-37 | no table names a vertex twice |
| BoxTransforms.SetVectorCases | src/boxTransforms.js:18-26 | `setVector` ignores the old vector for arrays, objects and numbers, and keeps it for anything else; an object without components gives the identity; a full object gives its own components |
| BoxTransforms.SumTranslate | src/boxTransforms.js:28-32 | translating every vertex by `d` adds `n·d` to the sum of `n` listed vertices |
| BoxTransforms.CentroidTranslate | src/boxTransforms.js:28-32 | translating every vertex by `d` moves the centroid of the listed vertices by `d` |
| BoxTransforms.CentroidAfterAlign | src/boxTransforms.js:37-44 | translating by minus the centroid puts the centroid of the listed vertices at the origin |
| BoxTransforms.CentroidAfterRelativeAlign | src/boxTransforms.js:46-58 | translating `a` by the difference of the centroids puts `a`'s centroid on `b`'s |
| BoxTransforms.ComputeCentroid | src/boxTransforms.js:28-35 | the loop returns the mean of the listed vertices |
| BoxTransforms.AlignBoxVertices | src/boxTransforms.js:37-44 | every vertex is translated by minus the centroid of the table's vertices, which afterwards lie centred on the origin; the same geometry is returned |
| BoxTransforms.RelativeAlignBoxVertices | src/boxTransforms.js:46-58 | every vertex of `geomA` is translated by the difference of the two centroids taken before the move; for distinct vertex buffers `geomA`'s centroid then equals `geomB`'s |
| BoxTransforms.ApplyEditPointwise | src/boxTransforms.js:70 | applying one edit through a table changes exactly the listed vertices, each by the edit |
| BoxTransforms.EditsPointwise | src/boxTransforms.js:68-71 | after a series of edits each vertex is its own start value put through the edits whose tables list it, in order |
| BoxTransforms.EditVertexUnlisted | src/boxTransforms.js:68-71 | a vertex no edit lists keeps its value |
| BoxTransforms.EditVertexAxis | src/boxTransforms.js:89-92 | additions whose delta is zero off one axis leave the other components alone |
| BoxTransforms.EditVertices | src/boxTransforms.js:70 | the index loop applies the edit to each listed vertex of the buffer |
| BoxTransforms.ApplySteps | src/boxTransforms.js:68-71 | the entry loop applies the edit steps in order |
| BoxTransforms.Resolve | src/boxTransforms.js:68 | each entry is paired with the table its key names, in entry order |
| BoxTransforms.ResolvedFit | src/boxTransforms.js:68-70 | when every key names a table that fits the buffer, every resolved list does |
| BoxTransforms.ResolvedDistinct | src/boxTransforms.js:68-70 | no resolved list names a vertex twice |
| BoxTransforms.TransformSteps | src/boxTransforms.js:63-76 | one step per entry, each on that entry's table |
| BoxTransforms.Transformer.constructor | src/boxTransforms.js:64 | the scratch vector starts at zero |
| BoxTransforms.Transformer.Transform | src/boxTransforms.js:63-81 | the vertices end as the edits of `TransformSteps` applied in order, and the scratch vector keeps the value of the last `setVector` |
| BoxTransforms.OmittedComponentsDefault | src/boxTransforms.js:78-81 | an object value's missing components add 0 under `$translate` and multiply by 1 under `$scale`; an empty object or `null` moves and scales nothing |
| BoxTransforms.Transformer.TranslateEntries | src/boxTransforms.js:78 | `$translate` is the transform that adds, over the zero identity |
| BoxTransforms.Transformer.ScaleEntries | src/boxTransforms.js:79-81 | `$scale` is the transform that multiplies, over the identity (1, 1, 1) |
| BoxTransforms.Transformer.TransformLists | src/boxTransforms.js:68-71 | the entry loop over resolved tables meets the same specification |
| BoxTransforms.Transformer.TransformEntry | src/boxTransforms.js:69-70 | one entry sets the scratch vector by `setVector` and then applies the method to each listed vertex |
| BoxTransforms.AxisSteps | src/boxTransforms.js:88-93 | one step per entry: add or multiply by the identity with the axis component replaced by the delta, or by the identity's own component when there is no delta |
| BoxTransforms.TransformAxis | src/boxTransforms.js:83-105 | the vertices end as the axis steps applied in order; the same geometry is returned |
| BoxTransforms.TranslateAxisOnly | src/boxTransforms.js:101-105 | `$translateX`/`Y`/`Z` change no other component of any vertex |
| BoxTransforms.EditsUnlisted | src/boxTransforms.js:68-71 | a vertex that no table lists is unchanged by the whole transform |
| BoxTransforms.PutSteps | src/boxTransforms.js:107-120 | one overwriting step per entry on that entry's table |
| BoxTransforms.CallBoxVertices | src/boxTransforms.js:107-120 | the vertices end as the overwrites applied in order; the same geometry is returned |
| BoxTransforms.SetLastWins | src/boxTransforms.js:107-117 | after `$set`, a listed vertex holds the value of the last entry whose table lists it, and any other vertex is unchanged |
| BoxTransforms.LastPutWins | src/boxTransforms.js:107-117 | the same per vertex: the last overwrite of a vertex wins |
| BoxColors.SetFaceVertexColor | src/boxColors.js:5-17 | exactly the slots whose vertex is `index` take the colour; the vertices and the other slots keep theirs |
| BoxColors.ColorFace | src/boxColors.js:32 | colouring through a table keeps the face's three vertices |
| BoxColors.ColorFaceSlots | src/boxColors.js:32 | a slot takes the colour exactly when the table lists its vertex |
| BoxColors.ColorFaces | src/boxColors.js:31-33 | every face is coloured through the table |
| BoxColors.ColorOf | src/boxColors.js:21-29 | an entry is skipped exactly when its value is not an array or object; an array is the colour, and an empty object gives black |
| BoxColors.ApplyColors | src/boxColors.js:19-37 | the entries keep the number of faces |
| BoxColors.PaintFace | src/boxColors.js:19-34 | a face through all the entries keeps its vertices |
| BoxColors.ApplyColorsPointwise | src/boxColors.js:19-34 | each face goes through the entries on its own |
| BoxColors.PaintFaceLast | src/boxColors.js:20-33 | the last entry sets a slot when it colours the slot's vertex and passes it through otherwise |
| BoxColors.UnpaintedKeepsColor | src/boxColors.js:19-37 | a slot whose vertex no accepted entry lists keeps its colour |
| BoxColors.LastColorWins | src/boxColors.js:19-37 | a slot ends with the colour of the last accepted entry whose table lists its vertex |
| BoxColors.ApplyBoxVertexColors | src/boxColors.js:19-37 | the faces end as `ApplyColors` of the resolved entries; the same geometry is returned |
| BoxColors.PaintEntries | src/boxColors.js:20-34 | the entry loop meets `ApplyColors` |
| BoxColors.ColorAllFaces | src/boxColors.js:31-33 | the face loop colours each face through the table |
| BoxColors.ColorFaceAt | src/boxColors.js:32 | the index loop colours face `i` and no other |
| Geometry.Translate | src/boxTransforms.js:42 | every vertex is moved by `d`; the same geometry is returned |
| Models.SpaceBetween | src/models.js:68-71 | `count` values, none for a count of 0 |
| Models.SpacingSpan | src/models.js:69 | `count + 1` spacings span from `start` to `end` |
| Models.SpaceBetweenGaps | src/models.js:68-71 | the values are evenly spaced, with the same gap to `start` and to `end` |
| Models.SpaceBetweenInside | src/models.js:68-71 | for `start < end` every value lies strictly between them and the values increase |
| Models.ToInt32 | src/models.js:87 | the int32 conversion `ToInt32` gives a value in the signed 32-bit range |
| Models.ToInt32Small | src/models.js:87 | for `0 <= x < 2^31` the int32 conversion is the floor of `x` |
| Models.ShortBridgeThrows | src/models.js:87-94 | a bridge shorter than one pier spacing asks for an array of length -1, which throws a RangeError |
| Models.BridgePiers | src/models.js:79-96 | a longer bridge gets `floor(length/128) - 1` piers of height `height - 20`, at offsets 128 apart, all strictly inside the bridge and at least 128 from its far end |
| Models.GlyphlessCharsDrawNothing | src/models.js:378-435 | characters without a glyph add no boxes: strings that differ only in such characters draw the same boxes |
| Models.NoGlyphsNoBoxes | src/models.js:378-435 | a string of glyphless characters draws no boxes |
| Models.TextGeometry.constructor | src/models.js:375-435 | the geometry holds the given boxes |
| Models.TextCache.constructor | src/models.js:366 | the cache starts empty |
| Models.TextCache.TextCreate | src/models.js:368-438 | the result draws the string's boxes; a cached string gives back the same geometry with the cache unchanged; a new string gives a fresh geometry that is added to the cache |
| Models.LookupAsWritten | src/models.js:369-371 | a lookup misses exactly when the string is neither an own key nor a name every object inherits |
| Models.InheritedNameIsAFalseHit | src/models.js:369-371 | `"constructor"`, not yet cached, is found as an inherited property |
| Models.FirstHidden | src/models.js:472 | the first hidden mesh, or none exactly when all are visible |
| Models.DecayAll | src/models.js:481-488 | every mesh goes through the decay step |
| Models.VisibleCount | src/models.js:481-488 | at most the number of meshes are shown |
| Models.SpawnRule | src/models.js:468-479 | a trail appears exactly when the player walks more than 48 from the last trail and some mesh is hidden, and it takes the first hidden mesh |
| Models.VisibleCountUpdate | src/models.js:472-488 | replacing one mesh changes the shown count by that mesh's change |
| Models.SpawnShowsOneMore | src/models.js:472-478 | a spawn shows exactly one more mesh |
| Models.DecayHidesOnly | src/models.js:481-488 | decay leaves hidden meshes alone and never shows a mesh |
| Models.FirstHiddenIs | src/models.js:472 | a hidden mesh with only visible meshes before it is the one found |
| Models.TrailPool.constructor | src/models.js:454-461 | eight meshes, all hidden; the last position is the player's |
| Models.TrailPool.Update | src/models.js:467-489 | the meshes end as the spawn step and then the decay step; the last position moves exactly when a mesh was spawned |
| Models.TrailPool.FindHidden | src/models.js:472 | the loop finds the first hidden mesh |
| Models.TrailPool.DecayMeshes | src/models.js:481-488 | every mesh goes through the decay step |
| Maps.NearestIsUnique | src/maps.js:116-130 | at most one object is the nearest in the sense `findNearestObject` uses |
| Maps.FindNearestObject | src/maps.js:116-130 | nothing only for an empty list; otherwise an object no other is closer than, and strictly closer than every earlier one |
| Maps.Round | src/maps.js:113 | `Math.round` lands within half a unit, with halves rounded up |
| Maps.RoundWhole | src/maps.js:113 | rounding a whole number gives it back |
| Maps.GridRoundTrip | src/maps.js:113-114 | a grid cell taken to the world and back is the same cell |
| Maps.SnapNearby | src/maps.js:113-114 | snapping gives whole grid coordinates within half a cell (16 units) of the position on each axis |
| Maps.FindFileAt | src/maps.js:249-254 | the first file in the position's cell, or nothing exactly when no file is in that cell |
| Maps.SafeCellsDistinct | src/maps.js:706-711 | the four safe positions lie in four different cells |
| Maps.FirstFreeTry | src/maps.js:713-722 | the first try whose spot is in an empty cell, or nothing exactly when every try hits an occupied cell |
| Maps.AppendedFileIsFound | src/maps.js:716-718 | a file added in a free cell is the one `findFileAt` finds there |
| Maps.FileRegistry.constructor | src/maps.js:231-234 | the list starts with the initial file |
| Maps.FileRegistry.PlaceSafeFile | src/maps.js:712-722 | a file is placed exactly when some try finds a free cell; it goes at the first such try's spot and is appended; otherwise the list is unchanged |
| Maps.PlacementInFreeCell | src/maps.js:712-722 | a placed file's cell held no file before, and afterwards `findFileAt` finds the new file there |
| Tracing.ScanFirstMinimum | src/player.js:149-160 | the scan keeps the earliest contact among considered bodies, and on a tie the first such body |
| Tracing.TraceUnobstructed | src/player.js:123-165 | a trace's fraction is at most 1; a fraction of 1 means nothing was hit, the normal is zero and `endpos` is `end`; an all-solid trace has fraction below 1 |
| Tracing.TraceEarliestContact | src/player.js:123-165 | the reported contact is the earliest among bodies passing the broad phase, never the player's own body, with ties going to the first body |
| PlayerModel.Player.Trace | src/player.js:123-165 | the loop computes `TraceResult` for the player's box in its scene |
| Movement.CheckJumpSpec | src/player.js:418-436 | a jump happens exactly when jump is pressed and not held, and sets the latch, the jump velocity, and clears walking and ground; a held jump zeroes `command.up`; otherwise nothing changes |
| PlayerModel.Player.CheckJump | src/player.js:418-436 | the routine leaves the state and result `CheckJumpSpec` gives |
| Movement.CheckGroundSpec | src/player.js:610-628 | walking and ground plane are equal, and set exactly when a trace 0.25 down hits something; nothing else changes |
| PlayerModel.Player.CheckGround | src/player.js:610-628 | the routine leaves the state `CheckGroundSpec` gives |
| Movement.FrictionCases | src/player.js:535-570 | below speed 1 the horizontal velocity is zeroed; in the air the velocity is kept; on the ground it is scaled by one factor in [0, 1] |
| Movement.FrictionWalkingSpeed | src/player.js:542-568 | on the ground the horizontal speed becomes the friction-reduced speed |
| PlayerModel.Player.Friction | src/player.js:535-570 | only the velocity changes, to the friction velocity |
| Movement.CommandMax | src/player.js:573-580 | the largest absolute command component, one of the three |
| Movement.CmdScale | src/player.js:572-594 | zero for a zero command; for a non-negative speed between 0 and `speed/127` |
| Movement.CmdScaleForwardOnly | src/player.js:572-594 | a forward-only command scales by exactly `speed/127` |
| Movement.MaxBelowTotal | src/player.js:573-590 | the largest component is at most the length of the command |
| Movement.ScaleBound | src/player.js:591 | the scale ratio lies between 0 and `speed/127` |
| Movement.AccelerateCapped | src/player.js:596-608 | no change once the speed along `wishdir` reaches `wishspeed`; otherwise a push of at most the missing speed, which for a unit direction keeps the speed along it within `wishspeed` |
| PlayerModel.Player.Accelerate | src/player.js:596-608 | only the velocity changes, to `AccelerateVelocity` |
| Slide.BumpLoopDone | src/player.js:209-211 | after four passes the bump loop ends with "out of bumps" |
| Slide.BumpLoopStep | src/player.js:211-345 | a pass either ends the loop or the loop goes on from the next pass with the pass's state |
| Slide.SecondPlanesCorner | src/player.js:296-333 | a triple-plane stop needs three distinct planes |
| Slide.FirstPlaneCases | src/player.js:263-344 | the planes are left unentered exactly when the velocity enters none of them, and a corner stop needs three planes |
| Slide.PassFacts | src/player.js:211-260 | a pass keeps at most five planes; a full plane list stops the move dead; a corner stop has zero velocity and three planes; an all-solid stop zeroes the vertical velocity |
| Slide.BumpLoopBounds | src/player.js:209-345 | the loop takes at most four passes and runs out of them exactly on the fourth; the plane bound and the stop facts hold at the end |
| Slide.InitialPlanesBound | src/player.js:194-207 | the solver starts with one or two planes |
| Slide.SlideUnblocked | src/player.js:169-353 | a slide is not blocked exactly when the first trace is clear; it then ends at the full move, with the end-of-tick velocity under gravity |
| Slide.SlideEarlyExits | src/player.js:209-352 | an all-solid start zeroes the vertical velocity, a full plane list or corner stops dead, running out of bumps is blocked, and gravity hands over the end velocity otherwise |
| PlayerModel.FitVelocity | src/player.js:261-344 | the clip-plane loop over the active planes returns what `FirstPlane` gives |
| PlayerModel.Player.SlideBump | src/player.js:211-345 | one pass of the bump loop, with the loop from this pass on equal to the loop from the next or ending here |
| PlayerModel.Player.SlideClip | src/player.js:248-344 | folding a contact into the planes as `FoldContact` does |
| PlayerModel.Player.SlideStart | src/player.js:180-207 | the gravity set-up and the first planes are those of `InitialState` |
| PlayerModel.Player.SlideBumps | src/player.js:209-345 | the bump loop ends as `BumpLoop` does |
| PlayerModel.Player.SlideMove | src/player.js:169-353 | position, velocity and result are those of `SlideMoveSpec`, and nothing else changes |
| Movement.StepSlideSpec | src/player.js:355-416 | only position, velocity and `dy` change, and a new `dy` is in (2, 16] |
| Movement.StepAfterSlide | src/player.js:371-415 | the same after the first slide |
| Movement.StepUpSpec | src/player.js:383-415 | the same for the raised slide and push-down |
| Movement.PushDownSpec | src/player.js:400-414 | the same for the push-down |
| Movement.StepSlideEarlyReturns | src/player.js:362-391 | the step-up ends after the first slide when that slide was not blocked, when moving up with no floor a step below, or when the raised start is solid |
| Movement.SlopeTestDead | src/player.js:374-381 | the stored ground normal is (0, 1, 0), so the step-up test reduces to its velocity and floor halves |
| PlayerModel.Player.StepSlideMove | src/player.js:355-416 | the routine leaves the state `StepSlideSpec` gives |
| PlayerModel.Player.StepAfter | src/player.js:371-415 | the routine after the first slide meets `StepAfterSlide` |
| PlayerModel.Player.StepUp | src/player.js:383-415 | the raised slide meets `StepUpSpec` |
| PlayerModel.Player.PushDown | src/player.js:400-414 | the push-down meets `PushDownSpec` |
| Movement.AirMoveSpec | src/player.js:489-533 | the view vectors are flattened and normalised, and otherwise only position, velocity and `dy` change |
| Movement.AirAccelerated | src/player.js:493-529 | before the step-slide only velocity and view vectors change |
| PlayerModel.Player.AirMove | src/player.js:489-533 | the routine leaves the state `AirMoveSpec` gives |
| PlayerModel.Player.AirAccelerateStep | src/player.js:493-529 | the air acceleration leaves `AirAccelerated` |
| Movement.WalkMoveSpec | src/player.js:438-487 | apart from what the jump check changes, only position, velocity, `dy` and the view vectors change |
| Movement.WalkAccelerated | src/player.js:448-478 | before the step-slide only velocity and view vectors change |
| PlayerModel.Player.WalkMove | src/player.js:438-487 | the routine leaves the state `WalkMoveSpec` gives |
| PlayerModel.Player.WalkAccelerateStep | src/player.js:448-478 | the ground acceleration leaves `WalkAccelerated` |
| Movement.ReleaseJumpFlags | src/player.js:79-82 | the latch stays set exactly when jump is pressed and it was set; the command is unchanged |
| PlayerModel.Player.ReleaseJumpLatch | src/player.js:79-82 | the routine leaves the state `ReleaseJump` gives |
| Movement.UpdateSpec | src/player.js:78-95 | after an update walking and ground plane agree |
| Movement.UpdateLatch | src/player.js:78-95 | after an update the latch is set exactly when jump is pressed and it was held or the player stood on ground; a jump starts only from the ground with jump pressed and not held, and leaves the latch set |
| Movement.OneJumpPerPress | src/player.js:78-95 | while jump stays pressed, at most one update starts a jump, and none if the latch was already set |
| PlayerModel.Player.Update | src/player.js:78-95 | the routine leaves the state `UpdateSpec` gives |
| PlayerModel.Player.constructor | src/player.js:46-76 | a new player has zero command, view vectors and flags, is neither walking nor on ground, and has the default gravity 800 and speed 320 |

## Left out

- Floating point: numbers are reals, so NaN, infinities and rounding are not modelled. `Models.ToInt32` covers finite values only.
- **External helpers** are uninterpreted parameters, constrained only where a proof needs it:
  - `sweptAABB`, the `box3_*` helpers, `vec3_length`, `vec3_normalize`, `pm_clipVelocity` and `Math.sqrt`.
  - `vec3_distanceTo` is the length of the difference.
  - `vec3_round` is `Math.round`, i.e. `floor(x + 0.5)`.
- `geom.js` is not part of this model. `Geometry.Translate` takes `geom_translate` to move every vertex by the given offsets.
- `player_trace` writes the displacement into `player.body.velocity` and restores it afterwards. The model leaves that velocity alone throughout.
- The scratch vectors and traces that the routines keep in closures are modelled as values.
- `command.hook` is not modelled, because the movement code never reads it.
- `player.dy` starts undefined, modelled as `None`.
- The routines of `player_slideMove` and `player_stepSlideMove` are split into helper methods. Together they perform the same steps in the same order.
- **`worldToGrid` and `gridToWorld`**
  - Both change their argument in place. `Maps.WorldToGrid` and `Maps.GridToWorld` give the argument's new value instead.
  - `findFileAt` applies them only to the scratch copies `_v0` and `_v1` (`src/maps.js:250-252`), so nothing there is lost.
  - The selection cursor (`src/maps.js:435-440`) snaps `selectionMesh.position` in place, shifts it in grid units and maps it back. That caller is outside the modelled core.
- **`BoxColors.ApplyBoxVertexColors`**
  - Faces are values, so the sharing of one colour object between the coloured corners is not modelled, nor is the sharing of face objects.
  - Array values are taken to have three components.
- `BoxTransforms.Transformer.Transform`: a non-number, non-array, non-object delta is modelled as leaving the vector unchanged, as `setVector` does.
- `BoxTransforms.TransformAxis`: axis deltas are numbers or absent.
- `BoxTransforms.Transformer.Transform`, `BoxTransforms.TransformAxis`, `BoxTransforms.CallBoxVertices` and `BoxColors.ApplyBoxVertexColors` require every key to name a table. The source throws on an unknown key after the earlier entries have been applied, and that partial update is not modelled.
- `BoxTransforms.AlignBoxVertices`, `BoxTransforms.RelativeAlignBoxVertices`, `BoxTransforms.Transformer.Transform`, `BoxTransforms.TransformAxis` and `BoxTransforms.CallBoxVertices` also require every table index to be a vertex of the buffer. On a geometry with fewer than eight vertices the source throws a TypeError when an `undefined` vertex reaches `vec3_add` or the method (`src/boxTransforms.js:31`, `:70`, `:92`, `:110`). That throw is not modelled; box geometries have eight vertices.
- The random draws of `sample` are a parameter of `Maps.FileRegistry.PlaceSafeFile`.
- The `fileIntervalSafe` gating of the safe placement is not modelled. Nor are mesh creation (`createFileMesh`), scene-graph insertion and shadows.
- **Glyph geometry in `Models`**
  - The glyph boxes of `text_create` are kept as their size and placement (`Models.GlyphBox`).
  - Building them (`box`, `align`, `translate`, `scale`) and merging them into one geometry are not modelled.
- **Bridges**
  - `bridge_create` is modelled only for its pier count, height and offsets.
  - The deck, cap and mesh construction are not modelled.
  - The pier count uses the bridge length as a parameter rather than `vec3_length(start - end)`.
- New trail meshes are assumed to start with scale 1 and position 0, the `mesh_create` defaults.
- The rest of `src/models.js` and `src/maps.js` is outside the modelled core: other model factories, the level layout, input, camera, audio and UI.

## Findings

| source | as written | input that shows it | evidently intended | confidence | as-written member | corrected member |
|---|---|---|---|---|---|---|
| src/models.js:369-371 | the cache test `textGeometries[string]` reads a plain object, so names every object inherits count as cached and return a function instead of a geometry | `text_create("constructor")` on an empty cache | look up only strings the cache itself stored | not executed; latent, because the only callers pass `HTML`, `CSS` or `JS` (src/maps.js:210-217) | Models.InheritedNameIsAFalseHit | Models.TextCache.TextCreate |
