/**
 * `player_trace`: sweep the player's box from `start` to `end` against every
 * other body of the scene whose box overlaps the swept volume, and keep the
 * earliest contact. This module holds the value-level definition of what the
 * trace reports and the properties of that report; the method that computes
 * it in place lives in class `PlayerModel.Player`.
 */
module Tracing {
  import opened Vector
  import opened Primitives

  /** The trace record `{allsolid, fraction, endpos, normal}`. */
  datatype Trace = Trace(allsolid: bool, fraction: real, endpos: Vec3, normal: Vec3)

  /** The contact kept while scanning, before `endpos` is filled in. */
  const NoHit := Hit(false, 1.0, Zero)

  /** `trace_create()` and the state `trace_reset` copies back into a trace. */
  const EmptyTrace := Trace(false, 1.0, Zero, Zero)

  /** The mover's box at `start`. */
  function StartBox(ext: Externals, box: Box, start: Vec3): Box {
    ext.translate(box, start)
  }

  /** The mover's box at `end`, grown to cover its box at `start`. */
  function SweptBox(ext: Externals, box: Box, start: Vec3, end: Vec3): Box {
    var a := StartBox(ext, box, start);
    ext.expandByPoint(ext.expandByPoint(ext.translate(box, end), a.min), a.max)
  }

  /** A body's box in world space. */
  function TargetBox(ext: Externals, b: Body): Box {
    ext.translate(b.boundingBox, b.position)
  }

  /** What one trace sweeps: the mover's displacement, its start box and its swept box. */
  datatype Probe = Probe(ext: Externals, self: nat, disp: Vec3, boxA: Box, swept: Box)

  /** The probe of a trace of the mover `self` with box `box` from `start` to `end`. */
  function ProbeOf(ext: Externals, self: nat, box: Box, start: Vec3, end: Vec3): Probe {
    Probe(ext, self, Sub(end, start), StartBox(ext, box, start), SweptBox(ext, box, start, end))
  }

  /**
   * The bodies swept against: every body of the scene except the player's own
   * (`physics_bodies(scene).filter(body => body !== player.body)`) whose box
   * meets the swept box (the broad phase).
   */
  predicate Considered(pr: Probe, b: Body) {
    b.id != pr.self && pr.ext.overlaps(pr.swept, TargetBox(pr.ext, b))
  }

  /** The contact `sweptAABB` reports for one body. */
  function HitFor(pr: Probe, b: Body): Hit {
    pr.ext.sweep(pr.disp, b, pr.boxA, TargetBox(pr.ext, b))
  }

  /** One iteration of the body loop: a considered body's contact is kept only when strictly earlier. */
  function Keep(pr: Probe, b: Body, best: Hit): Hit {
    if Considered(pr, b) && HitFor(pr, b).fraction < best.fraction then HitFor(pr, b) else best
  }

  /**
   * The body loop over the scene's bodies from index `i` on, in order.
   * Skipping the player's own body here is the same as filtering it out
   * first, since the filter keeps the order of the rest.
   */
  function Scan(pr: Probe, bodies: seq<Body>, i: nat, best: Hit): Hit
    decreases |bodies| - i
  {
    if i >= |bodies| then best else Scan(pr, bodies, i + 1, Keep(pr, bodies[i], best))
  }

  /** What `player_trace(player, trace, start, end)` leaves in `trace`. */
  function TraceResult(w: World, self: nat, box: Box, start: Vec3, end: Vec3): Trace {
    var best := Scan(ProbeOf(w.ext, self, box, start, end), w.bodies, 0, NoHit);
    Trace(best.allsolid, best.fraction, Lerp(start, end, best.fraction), best.normal)
  }

  /**
   * The scan keeps the first strict minimum: no considered body from `i` on
   * reports an earlier contact than the result, and the result is either the
   * initial contact or the contact of some considered body k that is strictly
   * earlier than the initial one and than every considered body before k.
   */
  lemma {:induction false} ScanFirstMinimum(pr: Probe, bodies: seq<Body>, i: nat, best: Hit)
    ensures var r := Scan(pr, bodies, i, best);
      && r.fraction <= best.fraction
      && (forall j :: i <= j < |bodies| && Considered(pr, bodies[j]) ==> r.fraction <= HitFor(pr, bodies[j]).fraction)
      && (r == best ||
          exists k :: i <= k < |bodies| && Considered(pr, bodies[k]) && r == HitFor(pr, bodies[k])
            && r.fraction < best.fraction
            && forall j :: i <= j < k && Considered(pr, bodies[j]) ==> HitFor(pr, bodies[j]).fraction > r.fraction)
    decreases |bodies| - i
  {
    if i < |bodies| {
      var next := Keep(pr, bodies[i], best);
      ScanFirstMinimum(pr, bodies, i + 1, next);
      var r := Scan(pr, bodies, i + 1, next);
      if r != next {
        var k :| i + 1 <= k < |bodies| && Considered(pr, bodies[k]) && r == HitFor(pr, bodies[k])
            && r.fraction < next.fraction
            && forall j :: i + 1 <= j < k && Considered(pr, bodies[j]) ==> HitFor(pr, bodies[j]).fraction > r.fraction;
        assert forall j :: i <= j < k && Considered(pr, bodies[j]) ==> HitFor(pr, bodies[j]).fraction > r.fraction;
      }
    }
  }

  /** A function answering `player_trace` queries `(start, end)` for one mover in one scene. */
  type Tracer = (Vec3, Vec3) -> Trace

  /**
   * What the movement code works with during a tick: the trace of the player
   * through its scene, and the vector and box helpers.
   */
  datatype Env = Env(trace: Tracer, ext: Externals)

  /** `tracer` answers every query as `player_trace` does for mover `self` with box `box` in `w`. */
  ghost predicate IsTracer(tracer: Tracer, w: World, self: nat, box: Box) {
    forall start: Vec3, end: Vec3 {:trigger TraceResult(w, self, box, start, end)} ::
      tracer(start, end) == TraceResult(w, self, box, start, end)
  }

  /**
   * A trace never reports a fraction above 1; a fraction of exactly 1 means
   * nothing was hit: not solid, zero normal, and `endpos` is `end` itself.
   */
  lemma TraceUnobstructed(w: World, self: nat, box: Box, start: Vec3, end: Vec3)
    ensures var t := TraceResult(w, self, box, start, end);
      && t.fraction <= 1.0
      && (t.fraction == 1.0 ==> !t.allsolid && t.normal == Zero && t.endpos == end)
      && (t.allsolid ==> t.fraction < 1.0)
  {
    ScanFirstMinimum(ProbeOf(w.ext, self, box, start, end), w.bodies, 0, NoHit);
  }

  /**
   * The trace reports the earliest contact among the other bodies that pass
   * the broad phase, and on a tie the first such body in scene order wins.
   * Bodies that fail the broad phase, and the player's own body, never
   * contribute.
   */
  lemma TraceEarliestContact(w: World, self: nat, box: Box, start: Vec3, end: Vec3)
    ensures var t := TraceResult(w, self, box, start, end);
      var pr := ProbeOf(w.ext, self, box, start, end);
      var bodies := w.bodies;
      && (forall i :: 0 <= i < |bodies| && Considered(pr, bodies[i]) ==> t.fraction <= HitFor(pr, bodies[i]).fraction)
      && (t.fraction < 1.0 ==>
            exists k :: 0 <= k < |bodies| && Considered(pr, bodies[k])
              && bodies[k].id != self
              && HitFor(pr, bodies[k]) == Hit(t.allsolid, t.fraction, t.normal)
              && forall j :: 0 <= j < k && Considered(pr, bodies[j]) ==> HitFor(pr, bodies[j]).fraction > t.fraction)
  {
    ScanFirstMinimum(ProbeOf(w.ext, self, box, start, end), w.bodies, 0, NoHit);
  }
}
