/**
 * The per-tick movement state machine of `src/player.js` at the level of
 * values: the jump latch, ground detection, friction, acceleration, input
 * scaling, the step-up around the slide solver, the walking and airborne
 * moves, and `player_update`. Each function takes the player's mutable state
 * and returns the state the corresponding routine leaves behind; class
 * `PlayerModel.Player` performs the same routines in place and is proved to
 * agree with these functions.
 */
module Movement {
  import opened Vector
  import opened Primitives
  import opened Tracing
  import opened Slide
  import opened Options

  /** `PMF_JUMP_HELD`, bit 2 of `movementFlags`. */
  const JumpHeld: bv32 := 2
  const StepSize := 18.0
  const JumpVelocity := 270.0
  const StopSpeed := 100.0
  const GroundAccelerate := 10.0
  const AirAccelerate := 1.0
  const FrictionFactor := 6.0
  /** `g_speed` and `g_gravity`, the values a new player starts with. */
  const DefaultSpeed := 320.0
  const DefaultGravity := 800.0
  /** How far below the feet the ground trace reaches. */
  const GroundProbe := 0.25
  /** A jump command below this does not count as holding jump. */
  const JumpThreshold := 10.0
  /** `groundTrace.normal`: set once when the player is created and never reassigned. */
  const GroundNormal := UnitY

  /** The `command` record the movement code reads (the unused `hook` is not modelled). */
  datatype Command = Command(forward: real, right: real, up: real)

  /** Fields of the player the movement routines read but never write during a tick. */
  datatype Tuning = Tuning(dt: real, gravity: real, speed: real)

  /**
   * Fields of the player the movement routines write: the object's position,
   * the body's velocity, the command, the view vectors, the movement flags,
   * the ground state and the step offset `dy` (absent until the first step up).
   */
  datatype PlayerState = PlayerState(
    position: Vec3, velocity: Vec3, command: Command,
    viewForward: Vec3, viewRight: Vec3,
    flags: bv32, walking: bool, groundPlane: bool, dy: Option<real>)

  /** `flags & ~PMF_JUMP_HELD`: the flags with the jump latch cleared. */
  function ClearJumpHeld(flags: bv32): bv32 {
    flags & !JumpHeld
  }

  predicate Held(p: PlayerState) {
    p.flags & JumpHeld != 0
  }

  function Min(a: real, b: real): real {
    if a < b then a else b
  }

  function Max(a: real, b: real): real {
    if a < b then b else a
  }

  function Abs(x: real): real {
    if x < 0.0 then -x else x
  }

  /** What the slide solver reads from the player. */
  function MoverOf(t: Tuning, p: PlayerState): Mover {
    Mover(p.groundPlane, GroundNormal, t.dt, t.gravity)
  }

  // ---------------------------------------------------------------------------
  // player_checkJump

  datatype Jump = Jump(state: PlayerState, jumped: bool)

  /**
   * `player_checkJump`: a jump starts exactly when jump is pressed and not
   * already held; it then latches the held flag, leaves the ground and sets the
   * vertical velocity to 270. Pressing jump while it is held consumes the
   * command instead. Nothing else changes.
   */
  function CheckJumpSpec(p: PlayerState): (r: Jump)
    ensures r.jumped <==> p.command.up >= JumpThreshold && !Held(p)
    ensures p.command.up < JumpThreshold ==> r.state == p
    ensures p.command.up >= JumpThreshold && Held(p) ==> r.state == p.(command := p.command.(up := 0.0))
    ensures r.jumped ==>
      && Held(r.state) && !r.state.walking && !r.state.groundPlane
      && r.state.velocity == p.velocity.(y := JumpVelocity)
      && r.state.flags == p.flags | JumpHeld
      && r.state == p.(walking := false, groundPlane := false, flags := r.state.flags, velocity := r.state.velocity)
    ensures Held(r.state) <==> Held(p) || r.jumped
  {
    if p.command.up < JumpThreshold then Jump(p, false)
    else if Held(p) then Jump(p.(command := p.command.(up := 0.0)), false)
    else
      Jump(p.(groundPlane := false, walking := false, flags := p.flags | JumpHeld,
              velocity := p.velocity.(y := JumpVelocity)), true)
  }

  // ---------------------------------------------------------------------------
  // player_checkGround

  /** The trace 0.25 units straight down from the feet. */
  function GroundTrace(env: Env, t: Tuning, position: Vec3): Trace {
    env.trace(position, position.(y := position.y - GroundProbe))
  }

  /**
   * `player_checkGround`: the player is on the ground, and walking, exactly
   * when the short downward trace hits something. Only those two flags change,
   * so the check is idempotent.
   */
  function CheckGroundSpec(env: Env, t: Tuning, p: PlayerState): (r: PlayerState)
    ensures r.walking == r.groundPlane
    ensures r.walking <==> GroundTrace(env, t, p.position).fraction != 1.0
    ensures r == p.(walking := r.walking, groundPlane := r.groundPlane)
  {
    if GroundTrace(env, t, p.position).fraction == 1.0 then p.(groundPlane := false, walking := false)
    else p.(groundPlane := true, walking := true)
  }

  // ---------------------------------------------------------------------------
  // player_friction

  /** The velocity whose length friction measures: slope movement is ignored when walking. */
  function FrictionProbe(v: Vec3, walking: bool): Vec3 {
    if walking then v.(y := 0.0) else v
  }

  /** `player_friction` applied to the body velocity. */
  function FrictionVelocity(ext: Externals, v: Vec3, walking: bool, dt: real): Vec3 {
    var speed := ext.length(FrictionProbe(v, walking));
    if speed < 1.0 then v.(x := 0.0, z := 0.0) else Scale(v, FrictionRatio(speed, walking, dt))
  }

  /**
   * The factor friction scales the velocity by at a measured speed of at
   * least 1: the speed left after the drop (clamped at 0) over the speed.
   */
  function FrictionRatio(speed: real, walking: bool, dt: real): real
    requires speed >= 1.0
  {
    var drop := if walking then (if speed < StopSpeed then StopSpeed else speed) * FrictionFactor * dt else 0.0;
    var newspeed := if speed - drop < 0.0 then 0.0 else speed - drop;
    newspeed / speed
  }

  /** The speed ground friction leaves, as a closed formula. */
  function WalkFrictionSpeed(speed: real, dt: real): real {
    Max(speed - Max(speed, StopSpeed) * FrictionFactor * dt, 0.0)
  }

  /**
   * Friction below speed 1 stops horizontal motion and keeps the vertical
   * component; in the air it leaves the velocity alone; on the ground it
   * scales the whole velocity by one factor in [0, 1], namely
   * `WalkFrictionSpeed(speed, dt) / speed`.
   */
  lemma FrictionCases(ext: Externals, v: Vec3, walking: bool, dt: real)
    ensures var speed := ext.length(FrictionProbe(v, walking));
      var r := FrictionVelocity(ext, v, walking, dt);
      && (speed < 1.0 ==> r == Vec3(0.0, v.y, 0.0))
      && (speed >= 1.0 && !walking ==> r == v)
      && (speed >= 1.0 && walking && dt >= 0.0 ==>
            var f := WalkFrictionSpeed(speed, dt) / speed;
            0.0 <= f <= 1.0 && r == Scale(v, f) && 0.0 <= WalkFrictionSpeed(speed, dt) <= speed)
  {
    var speed := ext.length(FrictionProbe(v, walking));
    if speed >= 1.0 {
      if !walking {
        assert speed / speed == 1.0;
        assert Scale(v, 1.0) == v;
      } else if dt >= 0.0 {
        var n := WalkFrictionSpeed(speed, dt);
        assert Max(speed, StopSpeed) * FrictionFactor * dt >= 0.0 by {
          NonNegProduct(Max(speed, StopSpeed) * FrictionFactor, dt);
        }
        QuotientInUnit(n, speed);
      }
    }
  }

  lemma NonNegProduct(a: real, b: real)
    requires a >= 0.0 && b >= 0.0
    ensures a * b >= 0.0
  {}

  lemma QuotientInUnit(n: real, s: real)
    requires 0.0 <= n <= s && s > 0.0
    ensures 0.0 <= n / s <= 1.0
  {
    assert n / s * s == n;
  }

  /** Scaling a vector scales its squared length by the square of the factor. */
  lemma DotScale(u: Vec3, f: real)
    ensures Dot(Scale(u, f), Scale(u, f)) == f * f * Dot(u, u)
  {}

  /** A vector of squared length `speed * speed`, scaled by `n / speed`, has squared length `n * n`. */
  lemma RescaledLength(h: Vec3, speed: real, n: real)
    requires speed != 0.0 && speed * speed == Dot(h, h)
    ensures Dot(Scale(h, n / speed), Scale(h, n / speed)) == n * n
  {
    var f := n / speed;
    DotScale(h, f);
    assert f * speed == n;
    MulSquare(f, speed);
  }

  lemma MulSquare(a: real, b: real)
    ensures a * a * (b * b) == (a * b) * (a * b)
  {}

  /**
   * On the ground, with `vec3_length` the Euclidean norm, the horizontal
   * speed after friction is exactly `WalkFrictionSpeed(speed, dt)`.
   */
  lemma FrictionWalkingSpeed(ext: Externals, v: Vec3, dt: real)
    requires IsNorm(ext.length)
    requires ext.length(v.(y := 0.0)) >= 1.0 && dt >= 0.0
    ensures var r := FrictionVelocity(ext, v, true, dt);
      var n := WalkFrictionSpeed(ext.length(v.(y := 0.0)), dt);
      Dot(r.(y := 0.0), r.(y := 0.0)) == n * n
  {
    var h := v.(y := 0.0);
    var speed := ext.length(h);
    FrictionCases(ext, v, true, dt);
    var n := WalkFrictionSpeed(speed, dt);
    var r := FrictionVelocity(ext, v, true, dt);
    assert r.(y := 0.0) == Scale(h, n / speed);
    RescaledLength(h, speed, n);
  }

  // ---------------------------------------------------------------------------
  // player_cmdScale

  /** The largest absolute input component, found in the source's order. */
  function CommandMax(c: Command): (r: real)
    ensures r >= Abs(c.forward) && r >= Abs(c.right) && r >= Abs(c.up)
    ensures r == Abs(c.forward) || r == Abs(c.right) || r == Abs(c.up)
  {
    var m0 := Abs(c.forward);
    var m1 := if Abs(c.right) > m0 then Abs(c.right) else m0;
    if Abs(c.up) > m1 then Abs(c.up) else m1
  }

  function SumOfSquares(c: Command): real {
    c.forward * c.forward + c.right * c.right + c.up * c.up
  }

  /**
   * `player_cmdScale`: the factor that maps the input's Euclidean length to
   * `speed` times its largest component over 127; zero for no input, and never
   * above `speed / 127`, so diagonal input is no faster than straight input.
   */
  function CmdScale(ext: Externals, c: Command, speed: real): (r: real)
    requires IsSquareRoot(ext.sqrt)
    ensures CommandMax(c) == 0.0 ==> r == 0.0
    ensures speed >= 0.0 ==> 0.0 <= r <= speed / 127.0
  {
    var max := CommandMax(c);
    if max == 0.0 then 0.0
    else
      var total := ext.sqrt(SumOfSquares(c));
      MaxBelowTotal(ext, c);
      ScaleBound(speed, max, total);
      Ratio(speed, max, total)
  }

  /**
   * Input along the forward axis alone is scaled to exactly `speed / 127`
   * per unit, so a full forward command of 127 asks for `speed`.
   */
  lemma CmdScaleForwardOnly(ext: Externals, c: Command, speed: real)
    requires IsSquareRoot(ext.sqrt)
    requires c.forward != 0.0 && c.right == 0.0 && c.up == 0.0
    ensures CmdScale(ext, c, speed) == speed / 127.0
  {
    var f := Abs(c.forward);
    assert CommandMax(c) == f;
    assert SumOfSquares(c) == f * f;
    SquareRootUnique(ext, f);
    CancelFactor(speed, f);
  }

  lemma CancelFactor(a: real, f: real)
    requires f > 0.0
    ensures Ratio(a, f, f) == a / 127.0
  {
    var q := a / 127.0;
    assert q * 127.0 == a;
    assert q * (127.0 * f) == a * f;
  }

  /** `Math.sqrt(x * x)` is `x` for non-negative `x`. */
  lemma SquareRootUnique(ext: Externals, x: real)
    requires IsSquareRoot(ext.sqrt) && x >= 0.0
    ensures ext.sqrt(x * x) == x
  {
    var r := ext.sqrt(x * x);
    assert r >= 0.0 && r * r == x * x;
    if r < x {
      SquareMonotone(r, x);
    } else if x < r {
      SquareMonotone(x, r);
    }
  }

  /** The largest component never exceeds the Euclidean length of the input. */
  lemma MaxBelowTotal(ext: Externals, c: Command)
    requires IsSquareRoot(ext.sqrt)
    ensures 0.0 <= CommandMax(c) <= ext.sqrt(SumOfSquares(c))
  {
    var m := CommandMax(c);
    var s := SumOfSquares(c);
    assert c.forward * c.forward >= 0.0 && c.right * c.right >= 0.0 && c.up * c.up >= 0.0;
    var total := ext.sqrt(s);
    assert 0.0 <= total && total * total == s;
    assert m * m <= s by {
      assert Abs(c.forward) * Abs(c.forward) == c.forward * c.forward;
      assert Abs(c.right) * Abs(c.right) == c.right * c.right;
      assert Abs(c.up) * Abs(c.up) == c.up * c.up;
    }
    if total < m {
      SquareMonotone(total, m);
    }
  }

  lemma SquareMonotone(a: real, b: real)
    requires 0.0 <= a < b
    ensures a * a < b * b
  {
    calc {
      a * a;
    <= { MulMonotone(a, a, b); }
      a * b;
    == b * a;
    < { MulStrict(b, a, b); }
      b * b;
    }
  }

  lemma MulMonotone(c: real, x: real, y: real)
    requires c >= 0.0 && x <= y
    ensures c * x <= c * y
  {
    assert c * y - c * x == c * (y - x);
  }

  lemma MulStrict(c: real, x: real, y: real)
    requires c > 0.0 && x < y
    ensures c * x < c * y
  {
    assert c * y - c * x == c * (y - x);
  }

  /** `speed * max / (127 * total)`. */
  function Ratio(speed: real, max: real, total: real): real
    requires total != 0.0
  {
    speed * max / (127.0 * total)
  }

  /** Dividing by the Euclidean length bounds the scale by `speed / 127`. */
  lemma ScaleBound(speed: real, max: real, total: real)
    requires 0.0 < max <= total
    ensures speed >= 0.0 ==> 0.0 <= Ratio(speed, max, total) <= speed / 127.0
  {
    var q := max / total;
    QuotientInUnit(max, total);
    assert speed * max / (127.0 * total) == (speed / 127.0) * q;
    if speed >= 0.0 {
      MulMonotone(speed / 127.0, q, 1.0);
    }
  }

  // ---------------------------------------------------------------------------
  // player_accelerate

  /**
   * `player_accelerate`: push the velocity along `wishdir` by at most
   * `accel * dt * wishspeed`, and never past `wishspeed` along that direction.
   */
  function AccelerateVelocity(v: Vec3, wishdir: Vec3, wishspeed: real, accel: real, dt: real): Vec3 {
    var addspeed := wishspeed - Dot(v, wishdir);
    if addspeed <= 0.0 then v
    else
      var accelspeed := if accel * dt * wishspeed > addspeed then addspeed else accel * dt * wishspeed;
      Add(v, Scale(wishdir, accelspeed))
  }

  /**
   * Acceleration changes nothing once the speed along `wishdir` has reached
   * `wishspeed`; otherwise it adds `wishdir` times the smaller of the
   * acceleration step and the missing speed, so for a unit `wishdir` and a
   * non-negative step the speed along `wishdir` grows and stops at `wishspeed`.
   */
  lemma AccelerateCapped(v: Vec3, wishdir: Vec3, wishspeed: real, accel: real, dt: real)
    ensures var r := AccelerateVelocity(v, wishdir, wishspeed, accel, dt);
      var current := Dot(v, wishdir);
      && (current >= wishspeed ==> r == v)
      && (current < wishspeed ==>
            r == Add(v, Scale(wishdir, Min(accel * dt * wishspeed, wishspeed - current))))
      && (Dot(wishdir, wishdir) == 1.0 && accel * dt * wishspeed >= 0.0 && current < wishspeed ==>
            current <= Dot(r, wishdir) <= wishspeed)
  {
    var current := Dot(v, wishdir);
    if current < wishspeed {
      var a := Min(accel * dt * wishspeed, wishspeed - current);
      DotAddScale(v, wishdir, a);
    }
  }

  lemma DotAddScale(v: Vec3, d: Vec3, a: real)
    ensures Dot(Add(v, Scale(d, a)), d) == Dot(v, d) + a * Dot(d, d)
  {}

  // ---------------------------------------------------------------------------
  // player_stepSlideMove

  /** `player_slideMove` run against the player's current position and velocity. */
  function SlideFrom(env: Env, t: Tuning, p: PlayerState, position: Vec3, velocity: Vec3, gravity: bool): SlideOutcome {
    SlideMoveSpec(env, MoverOf(t, p), position, velocity, gravity)
  }

  /** The trace 18 units straight down from the start. */
  function StepDownTrace(env: Env, t: Tuning, start: Vec3): Trace {
    env.trace(start, start.(y := start.y - StepSize))
  }

  /** The trace 18 units straight up from the start. */
  function StepUpTrace(env: Env, t: Tuning, start: Vec3): Trace {
    env.trace(start, start.(y := start.y + StepSize))
  }

  /** The step-up attempt is skipped while moving up with no floor within a step below. */
  predicate SkipStep(env: Env, t: Tuning, start: Vec3, slid: SlideOutcome) {
    slid.velocity.y > 0.0 && (StepDownTrace(env, t, start).fraction == 1.0 || Dot(GroundNormal, UnitY) < 0.7)
  }

  /**
   * `player_stepSlideMove`: slide; if that was blocked, and the player is not
   * rising over open ground, retry the slide from one step higher with the
   * original velocity and push back down by the height gained, recording a
   * step offset between 2 and 16. Only position, velocity and `dy` change.
   */
  function StepSlideSpec(env: Env, t: Tuning, p: PlayerState, gravity: bool): (r: PlayerState)
    ensures r == p.(position := r.position, velocity := r.velocity, dy := r.dy)
    ensures r.dy != p.dy ==> r.dy.Some? && 2.0 < r.dy.value <= 16.0
  {
    StepAfterSlide(env, t, p, gravity, SlideFrom(env, t, p, p.position, p.velocity, gravity))
  }

  /** What `player_stepSlideMove` does once the first slide from `p` has given `s1`. */
  function StepAfterSlide(env: Env, t: Tuning, p: PlayerState, gravity: bool, s1: SlideOutcome): (r: PlayerState)
    ensures r == p.(position := r.position, velocity := r.velocity, dy := r.dy)
    ensures r.dy != p.dy ==> r.dy.Some? && 2.0 < r.dy.value <= 16.0
  {
    var p1 := p.(position := s1.position, velocity := s1.velocity);
    if !s1.blocked || SkipStep(env, t, p.position, s1) then p1
    else
      var up := StepUpTrace(env, t, p.position);
      if up.allsolid then p1 else StepUpSpec(env, t, p, gravity, up.endpos)
  }

  /** The step-up proper: slide again from `raised` with the original velocity, then push back down. */
  function StepUpSpec(env: Env, t: Tuning, p: PlayerState, gravity: bool, raised: Vec3): (r: PlayerState)
    ensures r == p.(position := r.position, velocity := r.velocity, dy := r.dy)
    ensures r.dy != p.dy ==> r.dy.Some? && 2.0 < r.dy.value <= 16.0
  {
    var s2 := SlideFrom(env, t, p, raised, p.velocity, gravity);
    PushDownSpec(env, p, p.position.y, raised.y - p.position.y, s2.position, s2.velocity)
  }

  /**
   * The end of a step-up: from `slid`, the position reached by the raised
   * slide, trace back down by the height gained; take the trace's end unless
   * it starts in solid, clip `slidVelocity` against whatever was hit, and
   * record the height climbed above `startY` as the step offset when it
   * exceeds 2 (capped at 16).
   */
  function PushDownSpec(env: Env, p: PlayerState, startY: real, stepSize: real, slid: Vec3, slidVelocity: Vec3): (r: PlayerState)
    ensures r == p.(position := r.position, velocity := r.velocity, dy := r.dy)
    ensures r.dy != p.dy ==> r.dy.Some? && 2.0 < r.dy.value <= 16.0
  {
    var push := env.trace(slid, slid.(y := slid.y - stepSize));
    var pos := if !push.allsolid then push.endpos else slid;
    var vel := if push.fraction < 1.0 then env.ext.clipVelocity(slidVelocity, push.normal) else slidVelocity;
    var delta := pos.y - startY;
    p.(position := pos, velocity := vel, dy := if delta > 2.0 then Some(Min(delta, 16.0)) else p.dy)
  }

  /**
   * The step-up ends right after the first slide when that slide was not
   * blocked, when the player moves up with no floor within a step below, or
   * when the raised start is in solid.
   */
  lemma StepSlideEarlyReturns(env: Env, t: Tuning, p: PlayerState, gravity: bool)
    ensures var s1 := SlideFrom(env, t, p, p.position, p.velocity, gravity);
      var after := p.(position := s1.position, velocity := s1.velocity);
      var r := StepSlideSpec(env, t, p, gravity);
      && (!s1.blocked ==> r == after)
      && (s1.velocity.y > 0.0 && StepDownTrace(env, t, p.position).fraction == 1.0 ==> r == after)
      && (StepUpTrace(env, t, p.position).allsolid ==> r == after)
  {}

  /**
   * Because the ground normal is never reassigned, the slope half of the
   * step-up guard can never fire: the guard is exactly "moving up with no
   * floor within a step below".
   */
  lemma SlopeTestDead(env: Env, t: Tuning, start: Vec3, slid: SlideOutcome)
    ensures Dot(GroundNormal, UnitY) == 1.0
    ensures SkipStep(env, t, start, slid) <==> slid.velocity.y > 0.0 && StepDownTrace(env, t, start).fraction == 1.0
  {}

  // ---------------------------------------------------------------------------
  // player_walkMove and player_airMove

  /** The wish speed: the length of `wishvel` times the command scale. */
  function WishSpeed(ext: Externals, wishvel: Vec3, scale: real): real {
    ext.length(wishvel) * scale
  }

  /** `wishvel` built from the view vectors and the forward and side inputs. */
  function WishVelocity(forward: Vec3, right: Vec3, fmove: real, smove: real): Vec3 {
    Add(Add(Zero, Scale(forward, fmove)), Scale(right, smove))
  }

  /**
   * `player_airMove`: friction, air acceleration (factor 1) toward the
   * flattened wish direction, a slide along a steep ground plane if there is
   * one, then the gravity step-slide. It writes back the flattened,
   * normalised view vectors and otherwise changes only position, velocity and
   * `dy`.
   */
  function AirMoveSpec(env: Env, t: Tuning, p: PlayerState): (r: PlayerState)
    requires IsSquareRoot(env.ext.sqrt)
    ensures r == p.(position := r.position, velocity := r.velocity, dy := r.dy,
                    viewForward := r.viewForward, viewRight := r.viewRight)
    ensures r.viewForward == env.ext.normalize(p.viewForward.(y := 0.0))
    ensures r.viewRight == env.ext.normalize(p.viewRight.(y := 0.0))
  {
    StepSlideSpec(env, t, AirAccelerated(env.ext, t, p), true)
  }

  /** The state `player_airMove` hands to the step-slide: new velocity and flattened view vectors. */
  function AirAccelerated(ext: Externals, t: Tuning, p: PlayerState): (r: PlayerState)
    requires IsSquareRoot(ext.sqrt)
    ensures r == p.(velocity := r.velocity, viewForward := r.viewForward, viewRight := r.viewRight)
  {
    var v1 := FrictionVelocity(ext, p.velocity, p.walking, t.dt);
    var scale := CmdScale(ext, p.command, t.speed);
    var vf := ext.normalize(p.viewForward.(y := 0.0));
    var vr := ext.normalize(p.viewRight.(y := 0.0));
    var wishvel := WishVelocity(vf, vr, p.command.forward, p.command.right).(y := 0.0);
    var wishspeed := WishSpeed(ext, wishvel, scale);
    var wishdir := ext.normalize(wishvel);
    var v2 := AccelerateVelocity(v1, wishdir, wishspeed, AirAccelerate, t.dt);
    var v3 := if p.groundPlane then ext.clipVelocity(v2, GroundNormal) else v2;
    p.(velocity := v3, viewForward := vf, viewRight := vr)
  }

  /**
   * `player_walkMove`: a successful jump hands the tick to the air move;
   * otherwise friction, ground acceleration (factor 10) along the view
   * vectors projected on the ground, a slide along the ground plane, and a
   * step-slide without gravity unless the horizontal velocity is zero. Apart
   * from what the jump check changes, only kinematics, view vectors and `dy`
   * change.
   */
  function WalkMoveSpec(env: Env, t: Tuning, p: PlayerState): (r: PlayerState)
    requires IsSquareRoot(env.ext.sqrt)
    ensures var j := CheckJumpSpec(p).state;
      r == j.(position := r.position, velocity := r.velocity, dy := r.dy,
               viewForward := r.viewForward, viewRight := r.viewRight)
  {
    var j := CheckJumpSpec(p);
    if j.jumped then AirMoveSpec(env, t, j.state)
    else
      var q1 := WalkAccelerated(env.ext, t, j.state);
      if q1.velocity.x == 0.0 && q1.velocity.z == 0.0 then q1 else StepSlideSpec(env, t, q1, false)
  }

  /** The state `player_walkMove` has before its step-slide: new velocity and ground-projected view vectors. */
  function WalkAccelerated(ext: Externals, t: Tuning, q: PlayerState): (r: PlayerState)
    requires IsSquareRoot(ext.sqrt)
    ensures r == q.(velocity := r.velocity, viewForward := r.viewForward, viewRight := r.viewRight)
  {
    var v1 := FrictionVelocity(ext, q.velocity, q.walking, t.dt);
    var scale := CmdScale(ext, q.command, t.speed);
    var vf := ext.normalize(ext.clipVelocity(q.viewForward.(y := 0.0), GroundNormal));
    var vr := ext.normalize(ext.clipVelocity(q.viewRight.(y := 0.0), GroundNormal));
    var wishvel := WishVelocity(vf, vr, q.command.forward, q.command.right);
    var wishspeed := WishSpeed(ext, wishvel, scale);
    var wishdir := ext.normalize(wishvel);
    var v2 := AccelerateVelocity(v1, wishdir, wishspeed, GroundAccelerate, t.dt);
    q.(velocity := ext.clipVelocity(v2, GroundNormal), viewForward := vf, viewRight := vr)
  }

  // ---------------------------------------------------------------------------
  // player_update

  /** Releasing jump (a command below 10) clears the held flag. */
  function ReleaseJump(p: PlayerState): PlayerState {
    if p.command.up < JumpThreshold then p.(flags := ClearJumpHeld(p.flags)) else p
  }

  /** The state `player_update` hands to the walking or airborne move. */
  function GroundedAtStart(env: Env, t: Tuning, p: PlayerState): PlayerState {
    CheckGroundSpec(env, t, ReleaseJump(p))
  }

  /**
   * `player_update`: release the jump latch if jump is up, find the ground,
   * walk or fly, and find the ground again.
   */
  function UpdateSpec(env: Env, t: Tuning, p: PlayerState): (r: PlayerState)
    requires IsSquareRoot(env.ext.sqrt)
    ensures r.walking == r.groundPlane
  {
    var p1 := GroundedAtStart(env, t, p);
    var p2 := if p1.walking then WalkMoveSpec(env, t, p1) else AirMoveSpec(env, t, p1);
    CheckGroundSpec(env, t, p2)
  }

  /** Whether this tick's update starts a jump (its jump check returns true). */
  predicate TickJumps(env: Env, t: Tuning, p: PlayerState) {
    var p1 := GroundedAtStart(env, t, p);
    p1.walking && CheckJumpSpec(p1).jumped
  }

  lemma ReleaseJumpFlags(p: PlayerState)
    ensures Held(ReleaseJump(p)) <==> p.command.up >= JumpThreshold && Held(p)
    ensures ReleaseJump(p).command == p.command
  {
    if p.command.up < JumpThreshold {
      assert ClearJumpHeld(p.flags) & JumpHeld == 0;
    }
  }

  /**
   * The jump latch across one update: the held flag is set afterwards exactly
   * when jump is pressed and it was already held or the player stood on the
   * ground; a jump starts only from the ground, only with jump pressed and
   * not held, and always leaves the flag set.
   */
  lemma UpdateLatch(env: Env, t: Tuning, p: PlayerState)
    requires IsSquareRoot(env.ext.sqrt)
    ensures var p1 := GroundedAtStart(env, t, p);
      var r := UpdateSpec(env, t, p);
      && (Held(r) <==> p.command.up >= JumpThreshold && (Held(p) || p1.walking))
      && (TickJumps(env, t, p) <==> p1.walking && p.command.up >= JumpThreshold && !Held(p))
      && (TickJumps(env, t, p) ==> Held(r))
  {
    ReleaseJumpFlags(p);
    var p1 := GroundedAtStart(env, t, p);
    assert Held(p1) == Held(ReleaseJump(p));
    var p2 := if p1.walking then WalkMoveSpec(env, t, p1) else AirMoveSpec(env, t, p1);
    assert Held(p2) == (Held(p1) || (p1.walking && CheckJumpSpec(p1).jumped));
  }

  /** One frame of input: the scene, the frame time and the command the input layer sets. */
  datatype Frame = Frame(env: Env, dt: real, command: Command)

  ghost predicate ValidFrames(frames: seq<Frame>) {
    forall i :: 0 <= i < |frames| ==> IsSquareRoot(frames[i].env.ext.sqrt)
  }

  /** Run `player_update` once per frame, with the frame's command and time step. */
  ghost function Run(t: Tuning, p: PlayerState, frames: seq<Frame>): PlayerState
    requires ValidFrames(frames)
    decreases |frames|
  {
    if frames == [] then p
    else
      var f := frames[0];
      Run(t, UpdateSpec(f.env, t.(dt := f.dt), p.(command := f.command)), frames[1..])
  }

  /** How many of the frames start a jump. */
  ghost function JumpCount(t: Tuning, p: PlayerState, frames: seq<Frame>): nat
    requires ValidFrames(frames)
    decreases |frames|
  {
    if frames == [] then 0
    else
      var f := frames[0];
      var q := p.(command := f.command);
      (if TickJumps(f.env, t.(dt := f.dt), q) then 1 else 0)
        + JumpCount(t, UpdateSpec(f.env, t.(dt := f.dt), q), frames[1..])
  }

  /**
   * Holding jump gives at most one jump impulse: over any run of frames in
   * which jump stays pressed, at most one frame jumps, and none does if the
   * latch was already set when the run began.
   */
  lemma {:induction false} OneJumpPerPress(t: Tuning, p: PlayerState, frames: seq<Frame>)
    requires ValidFrames(frames)
    requires forall i :: 0 <= i < |frames| ==> frames[i].command.up >= JumpThreshold
    ensures JumpCount(t, p, frames) <= 1
    ensures Held(p) ==> JumpCount(t, p, frames) == 0
    decreases |frames|
  {
    if frames != [] {
      var f := frames[0];
      var q := p.(command := f.command);
      var tf := t.(dt := f.dt);
      UpdateLatch(f.env, tf, q);
      var next := UpdateSpec(f.env, tf, q);
      assert ValidFrames(frames[1..]);
      assert forall i :: 0 <= i < |frames[1..]| ==> frames[1..][i].command.up >= JumpThreshold by {
        forall i | 0 <= i < |frames[1..]| ensures frames[1..][i].command.up >= JumpThreshold {
          assert frames[1..][i] == frames[i + 1];
        }
      }
      OneJumpPerPress(t, next, frames[1..]);
      if TickJumps(f.env, tf, q) {
        assert Held(next);
      }
    }
  }
}
