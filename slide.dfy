/**
 * `player_slideMove`, the bounded multi-plane slide solver, as a value-level
 * definition: at most four bump passes, at most five clip planes, and five
 * ways out (start in solid, all planes used up, a triple-plane corner, the
 * move completed, the bumps used up). Class `PlayerModel.Player` runs the same
 * algorithm in place over a five-slot plane array and is proved to agree with
 * `SlideMoveSpec`.
 */
module Slide {
  import opened Vector
  import opened Primitives
  import opened Tracing
  import opened Options

  const MaxClipPlanes := 5
  const NumBumps := 4

  /** What a slide move reads from the player and never changes. */
  datatype Mover = Mover(groundPlane: bool, groundNormal: Vec3, dt: real, gravity: real)

  /** The pair `clipVelocity` / `endClipVelocity` of the plane-fitting loops. */
  datatype Clip = Clip(velocity: Vec3, endVelocity: Vec3)

  /** How the plane-fitting loops end. */
  datatype Resolution = Corner | Clipped(velocity: Vec3, endVelocity: Vec3) | Unentered

  /** How the bump loop ends. */
  datatype ExitCode = AllSolid | PlanesFull | TriplePlane | Reached | OutOfBumps

  datatype SlideState = SlideState(position: Vec3, velocity: Vec3, endVelocity: Vec3, planes: seq<Vec3>, timeLeft: real)

  datatype SlideExit = SlideExit(state: SlideState, code: ExitCode, bumps: nat)

  datatype SlideOutcome = SlideOutcome(position: Vec3, velocity: Vec3, blocked: bool)

  /** A velocity "enters" a plane unless its component along the normal is at least 0.1. */
  predicate Enters(v: Vec3, plane: Vec3) {
    Dot(v, plane) < 0.1
  }

  /** Some plane other than `i` and `j` is entered: a triple-plane corner. */
  predicate ThirdPlane(planes: seq<Vec3>, i: nat, j: nat, v: Vec3) {
    exists k :: 0 <= k < |planes| && k != i && k != j && Enters(v, planes[k])
  }

  /** The new contact normal is within the 0.99 cosine of an active plane. */
  predicate NearlyParallel(n: Vec3, planes: seq<Vec3>) {
    exists i :: 0 <= i < |planes| && Dot(n, planes[i]) > 0.99
  }

  /**
   * The loop over a second plane `j` once velocity has been clipped against
   * plane `i`; `None` is the triple-plane stop. `v` and `ev` are the velocity
   * and end velocity from before any clipping, used along a crease.
   */
  function SecondPlanes(ext: Externals, planes: seq<Vec3>, i: nat, j: nat, v: Vec3, ev: Vec3,
                        c: Clip, gravity: bool): Option<Clip>
    requires i < |planes|
    decreases |planes| - j
  {
    if j >= |planes| then Some(c)
    else if j == i || !Enters(c.velocity, planes[j]) then SecondPlanes(ext, planes, i, j + 1, v, ev, c, gravity)
    else
      var c1 := Clip(ext.clipVelocity(c.velocity, planes[j]),
                     if gravity then ext.clipVelocity(c.endVelocity, planes[j]) else c.endVelocity);
      if Dot(c1.velocity, planes[i]) >= 0.0 then SecondPlanes(ext, planes, i, j + 1, v, ev, c1, gravity)
      else
        var dir := ext.normalize(Cross(planes[i], planes[j]));
        var c2 := Clip(Scale(dir, Dot(dir, v)), if gravity then Scale(dir, Dot(dir, ev)) else c1.endVelocity);
        if ThirdPlane(planes, i, j, c2.velocity) then None
        else SecondPlanes(ext, planes, i, j + 1, v, ev, c2, gravity)
  }

  /** The loop that finds the first plane the velocity enters and fits the velocity to it. */
  function FirstPlane(ext: Externals, planes: seq<Vec3>, i: nat, v: Vec3, ev: Vec3, gravity: bool): Resolution
    decreases |planes| - i
  {
    if i >= |planes| then Unentered
    else if !Enters(v, planes[i]) then FirstPlane(ext, planes, i + 1, v, ev, gravity)
    else
      var c0 := Clip(ext.clipVelocity(v, planes[i]), if gravity then ext.clipVelocity(ev, planes[i]) else ev);
      match SecondPlanes(ext, planes, i, 0, v, ev, c0, gravity)
      case None => Corner
      case Some(c) => Clipped(c.velocity, c.endVelocity)
  }

  /** How one bump pass ends: leaving the loop, or going on to the next pass. */
  datatype Pass = Stop(state: SlideState, code: ExitCode) | Continue(state: SlideState)

  /** Where one bump pass aims: the remaining move at the current velocity. */
  function PassEnd(st: SlideState): Vec3 {
    Add(st.position, Scale(st.velocity, st.timeLeft))
  }

  /** The part of `time` left once a trace has covered `fraction` of the move. */
  function TimeAfter(time: real, fraction: real): real {
    time - time * fraction
  }

  /** One bump pass: trace the remaining move, advance, and fold the contact into the planes. */
  function BumpPass(env: Env, m: Mover, gravity: bool, st: SlideState): Pass {
    PassAfterTrace(env, gravity, st, env.trace(st.position, PassEnd(st)))
  }

  /** The rest of a bump pass once its trace `tr` is known. */
  function PassAfterTrace(env: Env, gravity: bool, st: SlideState, tr: Trace): Pass {
    if tr.allsolid then Stop(st.(velocity := st.velocity.(y := 0.0)), AllSolid)
    else
      var pos := if tr.fraction > 0.0 then tr.endpos else st.position;
      if tr.fraction == 1.0 then Stop(st.(position := pos), Reached)
      else
        var st1 := st.(position := pos, timeLeft := TimeAfter(st.timeLeft, tr.fraction));
        if |st.planes| >= MaxClipPlanes then Stop(st1.(velocity := Zero), PlanesFull)
        else FoldContact(env.ext, gravity, st1, tr.normal)
  }

  /**
   * The end of a bump pass: a contact normal nearly parallel to an active
   * plane only nudges the velocity along it; any other normal becomes a new
   * plane and the velocity is refitted to the planes.
   */
  function FoldContact(ext: Externals, gravity: bool, st: SlideState, n: Vec3): Pass {
    if NearlyParallel(n, st.planes) then Continue(st.(velocity := Add(st.velocity, n)))
    else
      var planes := st.planes + [n];
      match FirstPlane(ext, planes, 0, st.velocity, st.endVelocity, gravity)
      case Corner => Stop(st.(planes := planes, velocity := Zero), TriplePlane)
      case Clipped(v, ev) =>
        Continue(st.(planes := planes, velocity := v, endVelocity := if gravity then ev else st.endVelocity))
      case Unentered => Continue(st.(planes := planes))
  }

  /** The bump loop from pass `bump` on. */
  function BumpLoop(env: Env, m: Mover, gravity: bool, st: SlideState, bump: nat): SlideExit
    decreases NumBumps - bump, 2
  {
    if bump >= NumBumps then SlideExit(st, OutOfBumps, bump)
    else TraceThenLoop(env, m, gravity, st, bump)
  }

  /** Pass `bump` of the bump loop: its trace, then the rest of the pass and of the loop. */
  function TraceThenLoop(env: Env, m: Mover, gravity: bool, st: SlideState, bump: nat): SlideExit
    requires bump < NumBumps
    decreases NumBumps - bump, 1
  {
    ResolveThenLoop(env, m, gravity, st, env.trace(st.position, PassEnd(st)), bump)
  }

  /** The rest of pass `bump` given its trace, then the passes after it unless this one ends the loop. */
  function ResolveThenLoop(env: Env, m: Mover, gravity: bool, st: SlideState, tr: Trace, bump: nat): SlideExit
    requires bump < NumBumps
    decreases NumBumps - bump, 0
  {
    match PassAfterTrace(env, gravity, st, tr)
    case Stop(s, code) => SlideExit(s, code, bump)
    case Continue(s) => BumpLoop(env, m, gravity, s, bump + 1)
  }

  /** After the last pass the loop leaves the state as it is. */
  lemma BumpLoopDone(env: Env, m: Mover, gravity: bool, st: SlideState, bump: nat)
    requires bump >= NumBumps
    ensures BumpLoop(env, m, gravity, st, bump) == SlideExit(st, OutOfBumps, bump)
  {}

  /** One unfolding of the bump loop, for callers that follow it pass by pass. */
  lemma BumpLoopStep(env: Env, m: Mover, gravity: bool, st: SlideState, bump: nat)
    requires bump < NumBumps
    ensures var p := BumpPass(env, m, gravity, st);
      BumpLoop(env, m, gravity, st, bump)
        == if p.Stop? then SlideExit(p.state, p.code, bump) else BumpLoop(env, m, gravity, p.state, bump + 1)
  {
    var tr := env.trace(st.position, PassEnd(st));
    assert BumpLoop(env, m, gravity, st, bump) == TraceThenLoop(env, m, gravity, st, bump);
    assert TraceThenLoop(env, m, gravity, st, bump) == ResolveThenLoop(env, m, gravity, st, tr, bump);
    assert BumpPass(env, m, gravity, st) == PassAfterTrace(env, gravity, st, tr);
  }

  /** The velocity gravity would leave at the end of the tick. */
  function GravityEndVelocity(m: Mover, v: Vec3): Vec3 {
    v.(y := v.y - m.gravity * m.dt)
  }

  /** `v` with its vertical component averaged over the tick under gravity. */
  function GravityAveraged(m: Mover, v: Vec3): Vec3 {
    v.(y := (v.y + GravityEndVelocity(m, v).y) * 0.5)
  }

  /**
   * The velocity the first bump uses: with gravity, the vertical component is
   * the average of its values at the start and the end of the tick, clipped to
   * the ground plane when there is one.
   */
  function StartVelocity(ext: Externals, m: Mover, v: Vec3, gravity: bool): Vec3 {
    if !gravity then v
    else if m.groundPlane then ext.clipVelocity(GravityAveraged(m, v), m.groundNormal)
    else GravityAveraged(m, v)
  }

  /** The ground plane (if any), then the direction of the start velocity. */
  function InitialPlanes(ext: Externals, m: Mover, v: Vec3): seq<Vec3> {
    (if m.groundPlane then [m.groundNormal] else []) + [ext.normalize(v)]
  }

  function InitialState(ext: Externals, m: Mover, position: Vec3, velocity: Vec3, gravity: bool): SlideState {
    var v1 := StartVelocity(ext, m, velocity, gravity);
    SlideState(position, v1, GravityEndVelocity(m, velocity), InitialPlanes(ext, m, v1), m.dt)
  }

  /** What `player_slideMove(player, gravity)` does to position and velocity, and what it returns. */
  function SlideMoveSpec(env: Env, m: Mover, position: Vec3, velocity: Vec3, gravity: bool): SlideOutcome {
    ExitOutcome(BumpLoop(env, m, gravity, InitialState(env.ext, m, position, velocity, gravity), 0), gravity)
  }

  /**
   * What the end of `player_slideMove` makes of the way its bump loop ended:
   * a stop at a solid start, a full plane list or a corner is blocked as it
   * stands; otherwise gravity hands over the end-of-tick velocity, and the
   * move was blocked when any pass hit something.
   */
  function ExitOutcome(ex: SlideExit, gravity: bool): SlideOutcome {
    match ex.code
    case AllSolid => SlideOutcome(ex.state.position, ex.state.velocity, true)
    case PlanesFull => SlideOutcome(ex.state.position, ex.state.velocity, true)
    case TriplePlane => SlideOutcome(ex.state.position, ex.state.velocity, true)
    case _ =>
      SlideOutcome(ex.state.position, if gravity then ex.state.endVelocity else ex.state.velocity, ex.bumps != 0)
  }

  // ---------------------------------------------------------------------------
  // Properties

  /** A triple-plane stop needs three distinct planes. */
  lemma {:induction false} SecondPlanesCorner(ext: Externals, planes: seq<Vec3>, i: nat, j: nat, v: Vec3, ev: Vec3,
                                             c: Clip, gravity: bool)
    requires i < |planes|
    ensures SecondPlanes(ext, planes, i, j, v, ev, c, gravity).None? ==> |planes| >= 3
    decreases |planes| - j
  {
    if j < |planes| {
      if j == i || !Enters(c.velocity, planes[j]) {
        SecondPlanesCorner(ext, planes, i, j + 1, v, ev, c, gravity);
      } else {
        var c1 := Clip(ext.clipVelocity(c.velocity, planes[j]),
                       if gravity then ext.clipVelocity(c.endVelocity, planes[j]) else c.endVelocity);
        SecondPlanesCorner(ext, planes, i, j + 1, v, ev, c1, gravity);
        var dir := ext.normalize(Cross(planes[i], planes[j]));
        var c2 := Clip(Scale(dir, Dot(dir, v)), if gravity then Scale(dir, Dot(dir, ev)) else c1.endVelocity);
        SecondPlanesCorner(ext, planes, i, j + 1, v, ev, c2, gravity);
        if Dot(c1.velocity, planes[i]) < 0.0 && ThirdPlane(planes, i, j, c2.velocity) {
          var k :| 0 <= k < |planes| && k != i && k != j && Enters(c2.velocity, planes[k]);
          DistinctIndices(|planes|, i, j, k);
        }
      }
    }
  }

  lemma DistinctIndices(n: nat, i: nat, j: nat, k: nat)
    requires i < n && j < n && k < n && i != j && j != k && i != k
    ensures n >= 3
  {}

  /**
   * The plane-fitting loops leave the velocity alone exactly when it enters
   * none of the active planes; otherwise they fit it to the first plane it
   * enters, and a corner stop needs at least three planes.
   */
  lemma {:induction false} FirstPlaneCases(ext: Externals, planes: seq<Vec3>, i: nat, v: Vec3, ev: Vec3, gravity: bool)
    ensures var r := FirstPlane(ext, planes, i, v, ev, gravity);
      && (r.Unentered? <==> forall k :: i <= k < |planes| ==> !Enters(v, planes[k]))
      && (r.Corner? ==> |planes| >= 3)
    decreases |planes| - i
  {
    if i < |planes| {
      if !Enters(v, planes[i]) {
        FirstPlaneCases(ext, planes, i + 1, v, ev, gravity);
      } else {
        var c0 := Clip(ext.clipVelocity(v, planes[i]), if gravity then ext.clipVelocity(ev, planes[i]) else ev);
        SecondPlanesCorner(ext, planes, i, 0, v, ev, c0, gravity);
      }
    }
  }

  /**
   * One pass keeps at most five planes, never stops with "out of bumps", and
   * each way it stops leaves the velocity the source promises.
   */
  lemma PassFacts(env: Env, m: Mover, gravity: bool, st: SlideState)
    requires |st.planes| <= MaxClipPlanes
    ensures var p := BumpPass(env, m, gravity, st);
      && |p.state.planes| <= MaxClipPlanes
      && (p.Stop? ==> p.code != OutOfBumps)
      && (p.Stop? && p.code == PlanesFull ==> p.state.velocity == Zero && |p.state.planes| == MaxClipPlanes)
      && (p.Stop? && p.code == TriplePlane ==> p.state.velocity == Zero && |p.state.planes| >= 3)
      && (p.Stop? && p.code == AllSolid ==> p.state.velocity.y == 0.0)
  {
    var end := Add(st.position, Scale(st.velocity, st.timeLeft));
    var tr := env.trace(st.position, end);
    if !tr.allsolid && tr.fraction != 1.0 && |st.planes| < MaxClipPlanes && !NearlyParallel(tr.normal, st.planes) {
      FirstPlaneCases(env.ext, st.planes + [tr.normal], 0, st.velocity, st.endVelocity, gravity);
    }
  }

  /**
   * The bump loop runs at most four passes and never holds more than five
   * planes; each early exit leaves the velocity the source promises: zero
   * when the planes are used up or a triple-plane corner is met (which takes
   * three planes), a zero vertical component when the start is in solid.
   */
  lemma {:induction false} BumpLoopBounds(env: Env, m: Mover, gravity: bool, st: SlideState, bump: nat)
    requires bump <= NumBumps && |st.planes| <= MaxClipPlanes
    ensures var ex := BumpLoop(env, m, gravity, st, bump);
      && bump <= ex.bumps <= NumBumps
      && |ex.state.planes| <= MaxClipPlanes
      && (ex.code == OutOfBumps <==> ex.bumps == NumBumps)
      && (ex.code == PlanesFull ==> ex.state.velocity == Zero && |ex.state.planes| == MaxClipPlanes)
      && (ex.code == TriplePlane ==> ex.state.velocity == Zero && |ex.state.planes| >= 3)
      && (ex.code == AllSolid ==> ex.state.velocity.y == 0.0)
    decreases NumBumps - bump
  {
    if bump < NumBumps {
      BumpLoopStep(env, m, gravity, st, bump);
      PassFacts(env, m, gravity, st);
      var p := BumpPass(env, m, gravity, st);
      if p.Continue? {
        BumpLoopBounds(env, m, gravity, p.state, bump + 1);
      }
    }
  }

  /** The solver starts with at most two planes: the ground plane and the velocity direction. */
  lemma InitialPlanesBound(ext: Externals, m: Mover, position: Vec3, velocity: Vec3, gravity: bool)
    ensures 1 <= |InitialState(ext, m, position, velocity, gravity).planes| <= 2
  {}

  /**
   * The slide reports "not blocked" exactly when the first trace neither
   * starts in solid nor is cut short; the player then stands at the end of
   * the full displacement, and the velocity is the start velocity (without
   * gravity) or the end-of-tick gravity velocity (with gravity).
   * Here `env.trace` is the trace of mover `self` with box `box` in scene `w`.
   */
  lemma SlideUnblocked(w: World, self: nat, box: Box, env: Env, m: Mover, position: Vec3, velocity: Vec3, gravity: bool)
    requires IsTracer(env.trace, w, self, box)
    ensures var v1 := StartVelocity(env.ext, m, velocity, gravity);
      var end := Add(position, Scale(v1, m.dt));
      var first := env.trace(position, end);
      var out := SlideMoveSpec(env, m, position, velocity, gravity);
      && (!out.blocked <==> !first.allsolid && first.fraction == 1.0)
      && (!out.blocked ==> out.position == end
                           && out.velocity == (if gravity then GravityEndVelocity(m, velocity) else velocity))
  {
    var st := InitialState(env.ext, m, position, velocity, gravity);
    InitialPlanesBound(env.ext, m, position, velocity, gravity);
    var v1 := StartVelocity(env.ext, m, velocity, gravity);
    var end := Add(position, Scale(v1, m.dt));
    TraceUnobstructed(w, self, box, position, end);
    BumpLoopStep(env, m, gravity, st, 0);
    PassFacts(env, m, gravity, st);
    var p := BumpPass(env, m, gravity, st);
    if p.Continue? {
      BumpLoopBounds(env, m, gravity, p.state, 1);
    }
  }

  /**
   * Every blocked outcome other than "moved part of the way": starting in
   * solid zeroes only the vertical velocity, and running out of planes or
   * meeting a corner zeroes the whole velocity, all three reporting blocked.
   */
  lemma SlideEarlyExits(env: Env, m: Mover, position: Vec3, velocity: Vec3, gravity: bool)
    ensures var ex := BumpLoop(env, m, gravity, InitialState(env.ext, m, position, velocity, gravity), 0);
      var out := SlideMoveSpec(env, m, position, velocity, gravity);
      && ex.bumps <= NumBumps
      && (ex.code == AllSolid ==> out.blocked && out.velocity.y == 0.0)
      && (ex.code in {PlanesFull, TriplePlane} ==> out.blocked && out.velocity == Zero)
      && (ex.code == OutOfBumps ==> out.blocked)
      && (gravity && ex.code in {Reached, OutOfBumps} ==> out.velocity == ex.state.endVelocity)
  {
    InitialPlanesBound(env.ext, m, position, velocity, gravity);
    BumpLoopBounds(env, m, gravity, InitialState(env.ext, m, position, velocity, gravity), 0);
  }
}
