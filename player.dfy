/**
 * The player object of `src/player.js` with the fields its routines update in
 * place: the scene node's position, the body's velocity, the command, the view
 * vectors, the movement flags and the ground state. Every routine is a method
 * that changes only those fields and is proved to leave exactly the state the
 * corresponding function of modules Tracing, Slide and Movement describes.
 */
module PlayerModel {
  import opened Vector
  import opened Primitives
  import opened Tracing
  import opened Slide
  import opened Movement
  import opened Options

  /**
   * The i/j/k plane-fitting loops of `player_slideMove` over the first `n`
   * slots of the plane array: find the first plane the velocity enters, clip
   * against it and against every further plane the clipped velocity enters,
   * following a crease when two planes meet, and stop at a triple-plane corner.
   */
  method FitVelocity(ext: Externals, planes: array<Vec3>, n: nat, v: Vec3, ev: Vec3, gravity: bool)
    returns (res: Resolution)
    requires n <= planes.Length
    ensures res == FirstPlane(ext, planes[..n], 0, v, ev, gravity)
  {
    ghost var P := planes[..n];
    var i := 0;
    while i < n
      invariant 0 <= i <= n
      invariant FirstPlane(ext, P, i, v, ev, gravity) == FirstPlane(ext, P, 0, v, ev, gravity)
    {
      if Dot(v, planes[i]) >= 0.1 {
        i := i + 1;
        continue;
      }
      var clipVelocity := ClipVelocity(ext, v, planes[i]);
      var endClipVelocity := if gravity then ClipVelocity(ext, ev, planes[i]) else ev;
      ghost var c0 := Clip(clipVelocity, endClipVelocity);
      var j := 0;
      while j < n
        invariant 0 <= j <= n
        invariant SecondPlanes(ext, P, i, j, v, ev, Clip(clipVelocity, endClipVelocity), gravity)
               == SecondPlanes(ext, P, i, 0, v, ev, c0, gravity)
      {
        if j == i || Dot(clipVelocity, planes[j]) >= 0.1 {
          j := j + 1;
          continue;
        }
        clipVelocity := ClipVelocity(ext, clipVelocity, planes[j]);
        if gravity {
          endClipVelocity := ClipVelocity(ext, endClipVelocity, planes[j]);
        }
        if Dot(clipVelocity, planes[i]) >= 0.0 {
          j := j + 1;
          continue;
        }
        var dir := Normalize(ext, Cross(planes[i], planes[j]));
        var d := Dot(dir, v);
        clipVelocity := Scale(dir, d);
        if gravity {
          d := Dot(dir, ev);
          endClipVelocity := Scale(dir, d);
        }
        var k := 0;
        while k < n
          invariant 0 <= k <= n
          invariant forall q :: 0 <= q < k && q != i && q != j ==> !Enters(clipVelocity, P[q])
        {
          if k == i || k == j || Dot(clipVelocity, planes[k]) >= 0.1 {
            k := k + 1;
            continue;
          }
          return Corner;
        }
        j := j + 1;
      }
      return Clipped(clipVelocity, endClipVelocity);
    }
    return Unentered;
  }

  class Player {
    /** `player.object.position` */
    var position: Vec3
    /** `player.body.velocity` */
    var velocity: Vec3
    /** The player's physics body: its identity and local bounding box. */
    const id: nat
    const boundingBox: Box
    /** The scene the player moves in, with the collision helpers it uses. */
    var scene: World
    var command: Command
    var dt: real
    var gravity: real
    var speed: real
    var viewForward: Vec3
    var viewRight: Vec3
    var movementFlags: bv32
    var walking: bool
    var groundPlane: bool
    var dy: Option<real>
    /** `groundTrace.normal`, fixed at creation. */
    const groundNormal: Vec3 := GroundNormal
    /** The answers `player_trace` gives for this player in its scene. */
    ghost var tracer: Tracer

    /** `tracer` is this player's trace through `scene`. */
    ghost predicate Valid()
      reads this
    {
      IsTracer(tracer, scene, id, boundingBox)
    }

    /** The fields the movement routines write. */
    function State(): PlayerState
      reads this
    {
      PlayerState(position, velocity, command, viewForward, viewRight, movementFlags, walking, groundPlane, dy)
    }

    /** The fields the movement routines only read. */
    function Tune(): Tuning
      reads this
    {
      Tuning(dt, gravity, speed)
    }

    /** The trace and the helpers the movement routines use. */
    ghost function Environment(): Env
      reads this
    {
      Env(tracer, scene.ext)
    }

    /** `player_create(object, body)`, placed in `scene`. */
    constructor (position0: Vec3, velocity0: Vec3, id0: nat, box: Box, scene0: World)
      ensures Valid()
      ensures State() == PlayerState(position0, velocity0, Command(0.0, 0.0, 0.0), Zero, Zero, 0, false, false, None)
      ensures Tune() == Tuning(0.0, DefaultGravity, DefaultSpeed)
      ensures id == id0 && boundingBox == box && scene == scene0 && groundNormal == UnitY
    {
      position := position0;
      velocity := velocity0;
      id := id0;
      boundingBox := box;
      scene := scene0;
      command := Command(0.0, 0.0, 0.0);
      dt := 0.0;
      gravity := DefaultGravity;
      speed := DefaultSpeed;
      viewForward := Zero;
      viewRight := Zero;
      movementFlags := 0;
      walking := false;
      groundPlane := false;
      dy := None;
      tracer := (a, b) => TraceResult(scene0, id0, box, a, b);
    }

    /**
     * `player_trace(player, trace, start, end)`: sweep the body's box along
     * `end - start` against the other bodies whose boxes meet the swept box,
     * keeping the earliest contact; `Valid()` makes this the tracer's answer.
     */
    method Trace(start: Vec3, end: Vec3) returns (t: Tracing.Trace)
      ensures t == TraceResult(scene, id, boundingBox, start, end)
    {
      var ext := scene.ext;
      var best := NoHit;
      var bodies := scene.bodies;
      var displacement := Sub(end, start);
      var boxA := StartBox(ext, boundingBox, start);
      var sweptBoxA := SweptBox(ext, boundingBox, start, end);
      ghost var pr := Probe(ext, id, displacement, boxA, sweptBoxA);
      var i := 0;
      while i < |bodies|
        invariant 0 <= i <= |bodies|
        invariant Scan(pr, bodies, i, best) == Scan(pr, bodies, 0, NoHit)
      {
        var body := bodies[i];
        if body.id == id || !Overlaps(ext, sweptBoxA, TargetBox(ext, body)) {
          i := i + 1;
          continue;
        }
        var h := Sweep(ext, displacement, body, boxA, TargetBox(ext, body));
        if h.fraction < best.fraction {
          best := h;
        }
        i := i + 1;
      }
      t := Tracing.Trace(best.allsolid, best.fraction, Lerp(start, end, best.fraction), best.normal);
    }

    /**
     * One pass of the bump loop of `player_slideMove`: trace the remaining
     * move, advance, and fold the contact into the first `numIn` planes.
     * `stop` says whether the loop ends here, and `code` then says how: the
     * loop from pass `bump` on ends as the loop from the next pass does, or
     * here.
     */
    method SlideBump(m: Mover, gravityOn: bool, planes: array<Vec3>, numIn: nat, endIn: Vec3, timeIn: real, ghost bump: nat)
      returns (stop: bool, code: ExitCode, numOut: nat, endOut: Vec3, timeOut: real)
      requires Valid()
      requires planes.Length == MaxClipPlanes && 1 <= numIn <= MaxClipPlanes && bump < NumBumps
      modifies this, planes
      ensures 1 <= numOut <= MaxClipPlanes
      ensures stop ==> code != OutOfBumps
      ensures var before := SlideState(old(position), old(velocity), endIn, old(planes[..numIn]), timeIn);
        var after := SlideState(position, velocity, endOut, planes[..numOut], timeOut);
        BumpLoop(old(Environment()), m, gravityOn, before, bump)
          == if stop then SlideExit(after, code, bump) else BumpLoop(old(Environment()), m, gravityOn, after, bump + 1)
      ensures State() == old(State()).(position := position, velocity := velocity)
      ensures scene == old(scene) && tracer == old(tracer) && Tune() == old(Tune())
    {
      ghost var env := Environment();
      ghost var before := SlideState(position, velocity, endIn, planes[..numIn], timeIn);
      BumpLoopStep(env, m, gravityOn, before, bump);
      stop, numOut, endOut, timeOut := false, numIn, endIn, timeIn;
      code := Reached;
      var end := Add(position, Scale(velocity, timeOut));
      var trace := Trace(position, end);
      if trace.allsolid {
        velocity := velocity.(y := 0.0);
        return true, AllSolid, numOut, endOut, timeOut;
      }
      if trace.fraction > 0.0 {
        position := trace.endpos;
      }
      if trace.fraction == 1.0 {
        return true, Reached, numOut, endOut, timeOut;
      }
      timeOut := TimeAfter(timeOut, trace.fraction);
      if numOut >= MaxClipPlanes {
        velocity := Zero;
        return true, PlanesFull, numOut, endOut, timeOut;
      }
      assert BumpPass(env, m, gravityOn, before)
          == FoldContact(env.ext, gravityOn, before.(position := position, timeLeft := timeOut), trace.normal);
      assert before.(position := position, timeLeft := timeOut) == SlideState(position, velocity, endOut, planes[..numOut], timeOut);
      stop, code, numOut, endOut := SlideClip(gravityOn, planes, numOut, endOut, trace.normal, timeOut);
    }

    /**
     * The end of one bump pass of `player_slideMove`: skip a contact normal
     * nearly parallel to one of the first `numIn` planes (nudging the velocity
     * along it), otherwise add it as a plane and refit the velocity.
     */
    method SlideClip(gravityOn: bool, planes: array<Vec3>, numIn: nat, endIn: Vec3, normal: Vec3, ghost timeLeft: real)
      returns (stop: bool, code: ExitCode, numOut: nat, endOut: Vec3)
      requires planes.Length == MaxClipPlanes && 1 <= numIn < MaxClipPlanes
      modifies this, planes
      ensures 1 <= numOut <= MaxClipPlanes
      ensures stop ==> code == TriplePlane
      ensures var after := SlideState(position, velocity, endOut, planes[..numOut], timeLeft);
        FoldContact(scene.ext, gravityOn, SlideState(old(position), old(velocity), endIn, old(planes[..numIn]), timeLeft), normal)
          == if stop then Stop(after, code) else Continue(after)
      ensures State() == old(State()).(velocity := velocity)
      ensures scene == old(scene) && tracer == old(tracer) && Tune() == old(Tune())
    {
      stop, code, numOut, endOut := false, Reached, numIn, endIn;
      var i := 0;
      while i < numOut && Dot(normal, planes[i]) <= 0.99
        invariant 0 <= i <= numOut
        invariant forall q :: 0 <= q < i ==> Dot(normal, planes[..numOut][q]) <= 0.99
      {
        i := i + 1;
      }
      if i < numOut {
        assert planes[..numOut][i] == planes[i];
        velocity := Add(velocity, normal);
        return;
      }
      planes[numOut] := normal;
      numOut := numOut + 1;
      assert planes[..numOut] == old(planes[..numIn]) + [normal];
      var fit := FitVelocity(scene.ext, planes, numOut, velocity, endOut, gravityOn);
      match fit
      case Corner =>
        velocity := Zero;
        stop, code := true, TriplePlane;
      case Clipped(v, ev) =>
        velocity := v;
        if gravityOn {
          endOut := ev;
        }
      case Unentered =>
    }

    /**
     * The set-up of `player_slideMove`: the gravity-averaged start velocity,
     * the end-of-tick velocity, the whole tick as time left, and the ground
     * plane and velocity direction as the first planes.
     */
    method SlideStart(m: Mover, gravityOn: bool)
      returns (planes: array<Vec3>, numplanes: nat, endVelocity: Vec3, timeLeft: real)
      requires m == MoverOf(Tune(), State())
      modifies this
      ensures fresh(planes) && planes.Length == MaxClipPlanes && 1 <= numplanes <= 2
      ensures SlideState(position, velocity, endVelocity, planes[..numplanes], timeLeft)
           == InitialState(scene.ext, m, old(position), old(velocity), gravityOn)
      ensures State() == old(State()).(velocity := velocity)
      ensures scene == old(scene) && tracer == old(tracer) && Tune() == old(Tune())
    {
      endVelocity := GravityEndVelocity(m, velocity);
      if gravityOn {
        velocity := GravityAveraged(m, velocity);
        if groundPlane {
          velocity := ClipVelocity(scene.ext, velocity, groundNormal);
        }
      }
      timeLeft := dt;
      planes := new Vec3[MaxClipPlanes](_ => Zero);
      numplanes := 0;
      if groundPlane {
        planes[0] := groundNormal;
        numplanes := 1;
      }
      planes[numplanes] := Normalize(scene.ext, velocity);
      numplanes := numplanes + 1;
      assert planes[..numplanes] == InitialPlanes(scene.ext, m, velocity) by {
        if groundPlane {
          assert planes[..numplanes] == [groundNormal, Normalize(scene.ext, velocity)];
        } else {
          assert planes[..numplanes] == [Normalize(scene.ext, velocity)];
        }
      }
    }

    /**
     * `player_slideMove(player, gravity)`: the bounded bump loop over a
     * five-slot plane array; the result is true when the move was blocked.
     */
    method SlideMove(gravityOn: bool) returns (blocked: bool)
      requires Valid()
      modifies this
      ensures SlideOutcome(position, velocity, blocked)
           == SlideMoveSpec(old(Environment()), MoverOf(Tune(), old(State())), old(position), old(velocity), gravityOn)
      ensures State() == old(State()).(position := position, velocity := velocity)
      ensures scene == old(scene) && tracer == old(tracer) && Tune() == old(Tune())
    {
      var m := MoverOf(Tune(), State());
      ghost var env := Environment();
      ghost var init := InitialState(env.ext, m, position, velocity, gravityOn);
      var planes, numplanes, endVelocity, timeLeft := SlideStart(m, gravityOn);
      var code, bumpcount;
      code, bumpcount, endVelocity := SlideBumps(m, gravityOn, planes, numplanes, endVelocity, timeLeft);
      ghost var ex := SlideExit(SlideState(position, velocity, endVelocity, [], 0.0), code, bumpcount);
      assert SlideMoveSpec(env, m, old(position), old(velocity), gravityOn) == ExitOutcome(ex, gravityOn);
      if code == AllSolid || code == PlanesFull || code == TriplePlane {
        return true;
      }
      if gravityOn {
        velocity := endVelocity;
      }
      return bumpcount != 0;
    }

    /**
     * The bump loop of `player_slideMove`, at most `NumBumps` passes from the
     * set-up state; it reports how the loop ended, after how many passes, and
     * the end-of-tick velocity it leaves.
     */
    method SlideBumps(m: Mover, gravityOn: bool, planes: array<Vec3>, numIn: nat, endIn: Vec3, timeIn: real)
      returns (code: ExitCode, bumpcount: nat, endVelocity: Vec3)
      requires Valid()
      requires planes.Length == MaxClipPlanes && 1 <= numIn <= MaxClipPlanes
      modifies this, planes
      ensures var ex := BumpLoop(old(Environment()), m, gravityOn,
                                 SlideState(old(position), old(velocity), endIn, old(planes[..numIn]), timeIn), 0);
        && ex.code == code && ex.bumps == bumpcount && ex.state.endVelocity == endVelocity
        && ex.state.position == position && ex.state.velocity == velocity
      ensures State() == old(State()).(position := position, velocity := velocity)
      ensures scene == old(scene) && tracer == old(tracer) && Tune() == old(Tune())
    {
      ghost var env := Environment();
      ghost var ex := BumpLoop(env, m, gravityOn, SlideState(position, velocity, endIn, planes[..numIn], timeIn), 0);
      var numplanes, timeLeft := numIn, timeIn;
      endVelocity := endIn;
      bumpcount := 0;
      var stop := false;
      code := OutOfBumps;
      while bumpcount < NumBumps && !stop
        decreases NumBumps - bumpcount, if stop then 0 else 1
        invariant 0 <= bumpcount <= NumBumps
        invariant 1 <= numplanes <= MaxClipPlanes
        invariant State() == old(State()).(position := position, velocity := velocity)
        invariant scene == old(scene) && tracer == old(tracer) && Tune() == old(Tune())
        invariant env == Environment()
        invariant var st := SlideState(position, velocity, endVelocity, planes[..numplanes], timeLeft);
          if stop then ex == SlideExit(st, code, bumpcount) && code != OutOfBumps
          else ex == BumpLoop(env, m, gravityOn, st, bumpcount) && code == OutOfBumps
      {
        stop, code, numplanes, endVelocity, timeLeft := SlideBump(m, gravityOn, planes, numplanes, endVelocity, timeLeft, bumpcount);
        if !stop {
          bumpcount := bumpcount + 1;
          code := OutOfBumps;
        }
      }
      if !stop {
        BumpLoopDone(env, m, gravityOn, SlideState(position, velocity, endVelocity, planes[..numplanes], timeLeft), bumpcount);
      }
    }

    /**
     * `player_stepSlideMove(player, gravity)`: slide, and when that was
     * blocked try again from one step up and push back down.
     */
    method StepSlideMove(gravityOn: bool)
      requires Valid()
      modifies this
      ensures State() == StepSlideSpec(old(Environment()), Tune(), old(State()), gravityOn)
      ensures scene == old(scene) && tracer == old(tracer) && Tune() == old(Tune())
    {
      ghost var p := State();
      var startO := position;
      var startV := velocity;
      var blocked := SlideMove(gravityOn);
      StepAfter(startO, startV, blocked, gravityOn, p);
    }

    /**
     * The rest of `stepSlideMove` once the first slide from `start` with
     * velocity `startV` has ended where the player now is: unless that slide
     * was unblocked or the player rises over open ground, trace a step up
     * and, when that is not in solid, step up from there.
     */
    method StepAfter(start: Vec3, startV: Vec3, blocked: bool, gravityOn: bool, ghost p: PlayerState)
      requires Valid() && p.position == start && p.velocity == startV
      requires State() == p.(position := position, velocity := velocity)
      modifies this
      ensures State() == StepAfterSlide(old(Environment()), Tune(), p, gravityOn, SlideOutcome(old(position), old(velocity), blocked))
      ensures scene == old(scene) && tracer == old(tracer) && Tune() == old(Tune())
    {
      ghost var env, t := Environment(), Tune();
      ghost var s1 := SlideOutcome(position, velocity, blocked);
      if !blocked {
        return;
      }
      var down := start.(y := start.y - StepSize);
      var trace := Trace(start, down);
      var up := UnitY;
      if velocity.y > 0.0 && (trace.fraction == 1.0 || Dot(groundNormal, up) < 0.7) {
        assert SkipStep(env, t, start, s1);
        return;
      }
      assert !SkipStep(env, t, start, s1);
      up := start.(y := start.y + StepSize);
      trace := Trace(start, up);
      assert trace == StepUpTrace(env, t, start);
      if trace.allsolid {
        return;
      }
      StepUp(start, startV, trace.endpos, gravityOn, env, p);
    }

    /**
     * The step-up half of `stepSlideMove`: slide again from `raised` with the
     * original velocity `startV`, then push back down by the height gained above `start`.
     */
    method StepUp(start: Vec3, startV: Vec3, raised: Vec3, gravityOn: bool, ghost env: Env, ghost p: PlayerState)
      requires Valid() && env == Environment() && p.position == start && p.velocity == startV
      requires State() == p.(position := position, velocity := velocity)
      modifies this
      ensures State() == StepUpSpec(env, Tune(), p, gravityOn, raised)
      ensures scene == old(scene) && tracer == old(tracer) && Tune() == old(Tune())
    {
      position := raised;
      velocity := startV;
      assert MoverOf(Tune(), State()) == MoverOf(Tune(), p);
      var blocked := SlideMove(gravityOn);
      ghost var s2 := SlideOutcome(position, velocity, blocked);
      assert s2 == SlideFrom(env, Tune(), p, raised, startV, gravityOn);
      assert StepUpSpec(env, Tune(), p, gravityOn, raised) == PushDownSpec(env, p, start.y, raised.y - start.y, s2.position, s2.velocity);
      PushDown(start.y, raised.y - start.y, env, p);
    }

    /** The last part of `stepSlideMove`: push back down by the height gained by the step-up. */
    method PushDown(startY: real, stepSize: real, ghost env: Env, ghost p: PlayerState)
      requires Valid() && env == Environment() && State() == p.(position := position, velocity := velocity)
      modifies this
      ensures State() == PushDownSpec(env, p, startY, stepSize, old(position), old(velocity))
      ensures scene == old(scene) && tracer == old(tracer) && Tune() == old(Tune())
    {
      var down := position.(y := position.y - stepSize);
      var trace := Trace(position, down);
      if !trace.allsolid {
        position := trace.endpos;
      }
      if trace.fraction < 1.0 {
        velocity := ClipVelocity(scene.ext, velocity, trace.normal);
      }
      var delta := position.y - startY;
      if delta > 2.0 {
        dy := Some(Min(delta, 16.0));
      }
    }

    /** `player_checkJump(player)`: true when a jump starts this tick. */
    method CheckJump() returns (jumped: bool)
      modifies this
      ensures Jump(State(), jumped) == CheckJumpSpec(old(State()))
      ensures scene == old(scene) && tracer == old(tracer) && Tune() == old(Tune())
    {
      if command.up < JumpThreshold {
        return false;
      }
      if movementFlags & JumpHeld != 0 {
        command := command.(up := 0.0);
        return false;
      }
      groundPlane := false;
      walking := false;
      movementFlags := movementFlags | JumpHeld;
      velocity := velocity.(y := JumpVelocity);
      return true;
    }

    /** `player_checkGround(player)`: look 0.25 units below the feet for ground. */
    method CheckGround()
      requires Valid()
      modifies this
      ensures State() == CheckGroundSpec(old(Environment()), Tune(), old(State()))
      ensures scene == old(scene) && tracer == old(tracer) && Tune() == old(Tune())
    {
      var below := position.(y := position.y - GroundProbe);
      var trace := Trace(position, below);
      if trace.fraction == 1.0 {
        groundPlane := false;
        walking := false;
        return;
      }
      groundPlane := true;
      walking := true;
    }

    /** `player_friction(player)`. */
    method Friction()
      modifies this
      ensures State() == old(State()).(velocity := FrictionVelocity(scene.ext, old(velocity), walking, dt))
      ensures scene == old(scene) && tracer == old(tracer) && Tune() == old(Tune())
    {
      var vec := velocity;
      if walking {
        vec := vec.(y := 0.0);
      }
      var speed := Length(scene.ext, vec);
      if speed < 1.0 {
        velocity := velocity.(x := 0.0, z := 0.0);
        return;
      }
      var drop := 0.0;
      if walking {
        var control := if speed < StopSpeed then StopSpeed else speed;
        drop := drop + control * FrictionFactor * dt;
      }
      var newspeed := speed - drop;
      if newspeed < 0.0 {
        newspeed := 0.0;
      }
      newspeed := newspeed / speed;
      assert newspeed == FrictionRatio(speed, walking, dt);
      velocity := Scale(velocity, newspeed);
    }

    /** `player_accelerate(player, wishdir, wishspeed, accel)`. */
    method Accelerate(wishdir: Vec3, wishspeed: real, accel: real)
      modifies this
      ensures State() == old(State()).(velocity := AccelerateVelocity(old(velocity), wishdir, wishspeed, accel, dt))
      ensures scene == old(scene) && tracer == old(tracer) && Tune() == old(Tune())
    {
      var currentspeed := Dot(velocity, wishdir);
      var addspeed := wishspeed - currentspeed;
      if addspeed <= 0.0 {
        return;
      }
      var accelspeed := accel * dt * wishspeed;
      if accelspeed > addspeed {
        accelspeed := addspeed;
      }
      velocity := Add(velocity, Scale(wishdir, accelspeed));
    }

    /** `player_airMove(player)`. */
    method AirMove()
      requires Valid() && IsSquareRoot(scene.ext.sqrt)
      modifies this
      ensures State() == AirMoveSpec(old(Environment()), Tune(), old(State()))
      ensures scene == old(scene) && tracer == old(tracer) && Tune() == old(Tune())
    {
      AirAccelerateStep();
      StepSlideMove(true);
    }

    /**
     * The part of `player_airMove` before its step-slide: friction, the wish
     * direction from the flattened view vectors, air acceleration, and the
     * clip against a steep ground plane.
     */
    method AirAccelerateStep()
      requires IsSquareRoot(scene.ext.sqrt)
      modifies this
      ensures scene == old(scene) && tracer == old(tracer) && Tune() == old(Tune())
      ensures State() == AirAccelerated(scene.ext, Tune(), old(State()))
    {
      Friction();
      var fmove := command.forward;
      var smove := command.right;
      var scale := CmdScale(scene.ext, command, speed);
      viewForward := viewForward.(y := 0.0);
      viewRight := viewRight.(y := 0.0);
      viewForward := Normalize(scene.ext, viewForward);
      viewRight := Normalize(scene.ext, viewRight);
      var wishvel := Add(Add(Zero, Scale(viewForward, fmove)), Scale(viewRight, smove));
      wishvel := wishvel.(y := 0.0);
      var wishspeed := WishSpeed(scene.ext, wishvel, scale);
      var wishdir := Normalize(scene.ext, wishvel);
      Accelerate(wishdir, wishspeed, AirAccelerate);
      if groundPlane {
        velocity := ClipVelocity(scene.ext, velocity, groundNormal);
      }
    }

    /** `player_walkMove(player)`. */
    method WalkMove()
      requires Valid() && IsSquareRoot(scene.ext.sqrt)
      modifies this
      ensures State() == WalkMoveSpec(old(Environment()), Tune(), old(State()))
      ensures scene == old(scene) && tracer == old(tracer) && Tune() == old(Tune())
    {
      var jumped := CheckJump();
      if jumped {
        AirMove();
        return;
      }
      WalkAccelerateStep();
      if velocity.x == 0.0 && velocity.z == 0.0 {
        return;
      }
      StepSlideMove(false);
    }

    /**
     * The part of `player_walkMove` before its step-slide: friction, the wish
     * direction from the view vectors projected on the ground, ground
     * acceleration, and the clip against the ground plane.
     */
    method WalkAccelerateStep()
      requires IsSquareRoot(scene.ext.sqrt)
      modifies this
      ensures scene == old(scene) && tracer == old(tracer) && Tune() == old(Tune())
      ensures State() == WalkAccelerated(scene.ext, Tune(), old(State()))
    {
      Friction();
      var fmove := command.forward;
      var smove := command.right;
      var scale := CmdScale(scene.ext, command, speed);
      viewForward := viewForward.(y := 0.0);
      viewRight := viewRight.(y := 0.0);
      viewForward := ClipVelocity(scene.ext, viewForward, groundNormal);
      viewRight := ClipVelocity(scene.ext, viewRight, groundNormal);
      viewForward := Normalize(scene.ext, viewForward);
      viewRight := Normalize(scene.ext, viewRight);
      var wishvel := Add(Add(Zero, Scale(viewForward, fmove)), Scale(viewRight, smove));
      var wishspeed := WishSpeed(scene.ext, wishvel, scale);
      var wishdir := Normalize(scene.ext, wishvel);
      Accelerate(wishdir, wishspeed, GroundAccelerate);
      velocity := ClipVelocity(scene.ext, velocity, groundNormal);
    }

    /** The start of `player_update`: releasing jump clears the held flag. */
    method ReleaseJumpLatch()
      modifies this
      ensures State() == ReleaseJump(old(State()))
      ensures scene == old(scene) && tracer == old(tracer) && Tune() == old(Tune())
    {
      if command.up < JumpThreshold {
        movementFlags := ClearJumpHeld(movementFlags);
      }
    }

    /** `player_update(player)`: one tick of movement. */
    method Update()
      requires Valid() && IsSquareRoot(scene.ext.sqrt)
      modifies this
      ensures State() == UpdateSpec(old(Environment()), Tune(), old(State()))
      ensures scene == old(scene) && tracer == old(tracer) && Tune() == old(Tune())
    {
      ghost var env, t, p := Environment(), Tune(), State();
      ReleaseJumpLatch();
      CheckGround();
      ghost var p1 := State();
      assert p1 == GroundedAtStart(env, t, p);
      if walking {
        WalkMove();
      } else {
        AirMove();
      }
      ghost var p2 := State();
      assert p2 == if p1.walking then WalkMoveSpec(env, t, p1) else AirMoveSpec(env, t, p1);
      CheckGround();
    }
  }
}
