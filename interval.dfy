/**
 * `interval_create(duration)`: a timer that accumulates elapsed time and
 * reports when more than `duration` has passed since it was last reset.
 * The closure's two captured variables become the fields of class `Interval`;
 * module-level functions give the same steps on values, and the lemmas state
 * how the timer behaves over several ticks.
 */
module Intervals {

  /** The captured variables `time` and `previousTime`. */
  datatype Clock = Clock(time: real, previousTime: real)

  /** `time - previousTime > duration`: the test of `update`. */
  predicate Due(c: Clock, duration: real) {
    c.time - c.previousTime > duration
  }

  /** What `update(dt)` leaves: `dt` added to `time`, `previousTime` kept. */
  function Tick(c: Clock, dt: real): (r: Clock)
    ensures r.previousTime == c.previousTime
    ensures r.time - r.previousTime == (c.time - c.previousTime) + dt
  {
    c.(time := c.time + dt)
  }

  /** What `update.reset()` leaves: the current time becomes the reference point. */
  function Restart(c: Clock): (r: Clock)
    ensures r.time == c.time && !Due(r, 0.0)
  {
    c.(previousTime := c.time)
  }

  /** The clock after a run of `update` calls with the given steps, and no reset. */
  function Ticks(c: Clock, dts: seq<real>): Clock
    decreases |dts|
  {
    if |dts| == 0 then c else Ticks(Tick(c, dts[0]), dts[1..])
  }

  /** Elapsed time only grows under non-negative steps. */
  lemma {:induction false} TicksElapsed(c: Clock, dts: seq<real>)
    requires forall i :: 0 <= i < |dts| ==> dts[i] >= 0.0
    ensures Ticks(c, dts).previousTime == c.previousTime
    ensures Ticks(c, dts).time >= c.time
    decreases |dts|
  {
    if |dts| > 0 {
      TicksElapsed(Tick(c, dts[0]), dts[1..]);
    }
  }

  /**
   * With non-negative steps, once `update` has reported true it keeps
   * reporting true on every later call until `reset` is called.
   */
  lemma StaysDue(c: Clock, duration: real, dts: seq<real>)
    requires Due(c, duration)
    requires forall i :: 0 <= i < |dts| ==> dts[i] >= 0.0
    ensures Due(Ticks(c, dts), duration)
  {
    TicksElapsed(c, dts);
  }

  /** Right after `reset`, the next `update(dt)` reports true exactly when `dt > duration`. */
  lemma DueAfterRestart(c: Clock, duration: real, dt: real)
    ensures Due(Tick(Restart(c), dt), duration) <==> dt > duration
  {}

  /** The closure returned by `interval_create(duration)`. */
  class Interval {
    const duration: real
    var time: real
    var previousTime: real

    function State(): Clock
      reads this
    {
      Clock(time, previousTime)
    }

    /** `interval_create(duration)`: both variables start at 0. */
    constructor (duration: real)
      ensures this.duration == duration && State() == Clock(0.0, 0.0)
    {
      this.duration := duration;
      time := 0.0;
      previousTime := 0.0;
    }

    /**
     * `update(dt)`: add `dt` to the elapsed time; the result is true when more
     * than `duration` has passed since the last reset. The source returns
     * `undefined` otherwise, which its callers read as false.
     */
    method Update(dt: real) returns (due: bool)
      modifies this
      ensures State() == Tick(old(State()), dt)
      ensures due <==> Due(State(), duration)
    {
      time := time + dt;
      if time - previousTime > duration {
        return true;
      }
      return false;
    }

    /** `update.reset()`: measure from the current time on. */
    method Reset()
      modifies this
      ensures State() == Restart(old(State()))
    {
      previousTime := time;
    }
  }
}
