/** The two-phase software timer of the state machine's regions. */
module RegionTimers {

  // Share of the way at which the time event fires, and the tolerance as a share of the base time.
  const THRESHOLD: real := 0.93
  const TOLERANCE: real := 0.4

  datatype Timer = Timer(
    progress: real, counter: real, fast: real, slow: real,
    active: bool, paused: bool, inTolerance: bool)

  datatype Event = Nothing | TimeUp | ToleranceUp

  datatype Input = Tick(delta: real, isFast: bool) | Pause | Resume | Stop

  function Base(t: Timer, isFast: bool): real {
    if isFast then t.fast else t.slow
  }

  function Started(fast: real, slow: real): Timer {
    Timer(0.0, 0.0, fast, slow, true, false, false)
  }

  predicate Counts(t: Timer, input: Input) {
    input.Tick? && t.active && !t.paused
  }

  function Ticked(t: Timer, delta: real, isFast: bool): Timer {
    var base := Base(t, isFast);
    if !t.active || t.paused then t
    else if !t.inTolerance then
      var progress := if base > 0.0 then t.progress + delta / base else t.progress;
      if progress >= THRESHOLD then t.(progress := 1.0, inTolerance := true) else t.(progress := progress)
    else
      t.(counter := t.counter + delta, active := t.counter + delta < base * TOLERANCE)
  }

  function EventOf(t: Timer, input: Input): Event {
    if !Counts(t, input) then Nothing
    else
      var u := Ticked(t, input.delta, input.isFast);
      if u.inTolerance && !t.inTolerance then TimeUp
      else if !u.active then ToleranceUp
      else Nothing
  }

  function After(t: Timer, input: Input): Timer {
    match input
    case Tick(delta, isFast) => Ticked(t, delta, isFast)
    case Pause => if t.active then t.(paused := true) else t
    case Resume => if t.active then t.(paused := false) else t
    case Stop => t.(active := false, paused := false)
  }

  // A run from `starte` on: the timer, the unpaused time measured, and the events fired so far with the
  // unpaused time at which each of them fired.
  datatype Run = Run(timer: Timer, elapsed: real, events: seq<Event>, times: seq<real>)

  function Continue(r: Run, input: Input): Run {
    var fired := EventOf(r.timer, input);
    var elapsed := if Counts(r.timer, input) then r.elapsed + input.delta else r.elapsed;
    if fired.Nothing? then
      Run(After(r.timer, input), elapsed, r.events, r.times)
    else
      Run(After(r.timer, input), elapsed, r.events + [fired], r.times + [elapsed])
  }

  function RunOf(fast: real, slow: real, inputs: seq<Input>): Run {
    if inputs == [] then Run(Started(fast, slow), 0.0, [], [])
    else Continue(RunOf(fast, slow, inputs[..|inputs| - 1]), inputs[|inputs| - 1])
  }

  // Tick lengths lie in [0, step]; both base times lie in [bmin, bmax].
  predicate Bounded(inputs: seq<Input>, step: real) {
    forall k :: 0 <= k < |inputs| && inputs[k].Tick? ==> 0.0 <= inputs[k].delta <= step
  }

  predicate BasesWithin(t: Timer, bmin: real, bmax: real) {
    0.0 < bmin && bmin <= t.fast <= bmax && bmin <= t.slow <= bmax
  }

  ghost predicate Running(r: Run, bmin: real, bmax: real) {
    && r.events == [] && r.times == [] && !r.timer.inTolerance && r.timer.counter == 0.0
    && 0.0 <= r.timer.progress < THRESHOLD
    && r.timer.progress * bmin <= r.elapsed <= r.timer.progress * bmax
  }

  ghost predicate InTime(t: real, bmin: real, bmax: real, step: real) {
    THRESHOLD * bmin <= t < THRESHOLD * bmax + step
  }

  ghost predicate Tolerating(r: Run, bmin: real, bmax: real, step: real) {
    && r.events == [TimeUp] && r.times == [r.elapsed - r.timer.counter] && r.timer.inTolerance
    && 0.0 <= r.timer.counter && (r.timer.counter == 0.0 || r.timer.counter < TOLERANCE * bmax)
    && InTime(r.elapsed - r.timer.counter, bmin, bmax, step)
  }

  ghost predicate Fired(r: Run, bmin: real, bmax: real, step: real) {
    && r.events == [TimeUp, ToleranceUp] && |r.times| == 2 && r.times[1] == r.elapsed && !r.timer.active
    && InTime(r.times[0], bmin, bmax, step)
    && TOLERANCE * bmin <= r.times[1] - r.times[0] < TOLERANCE * bmax + step
  }

  ghost predicate Phases(r: Run, bmin: real, bmax: real, step: real) {
    && BasesWithin(r.timer, bmin, bmax)
    && (Running(r, bmin, bmax) || Tolerating(r, bmin, bmax, step) || Fired(r, bmin, bmax, step))
  }

  // Progress delta / base, with the base between the bounds, measures at least bmin and at most bmax
  // per unit of way.
  lemma ProgressMeasuresTime(p: real, e: real, delta: real, base: real, bmin: real, bmax: real)
    requires 0.0 < bmin <= base <= bmax && delta >= 0.0
    requires p * bmin <= e <= p * bmax
    ensures (p + delta / base) * bmin <= e + delta <= (p + delta / base) * bmax
    ensures delta / base >= 0.0
  {
    var q := delta / base;
    assert q * base == delta;
    assert q >= 0.0;
    assert q * bmin <= q * base <= q * bmax;
    assert (p + q) * bmin == p * bmin + q * bmin && (p + q) * bmax == p * bmax + q * bmax;
  }

  lemma LessWayLessTime(p: real, q: real, b: real)
    requires p <= q && b > 0.0
    ensures p * b <= q * b
    ensures p < q ==> p * b < q * b
  {
    assert q * b - p * b == (q - p) * b;
  }

  lemma BelowThreshold(p: real, e: real, bmax: real)
    requires p < THRESHOLD && e <= p * bmax && bmax > 0.0
    ensures e < THRESHOLD * bmax
  {
    LessWayLessTime(p, THRESHOLD, bmax);
  }

  lemma AboveThreshold(p: real, e: real, bmin: real)
    requires p >= THRESHOLD && p * bmin <= e && bmin > 0.0
    ensures e >= THRESHOLD * bmin
  {
    LessWayLessTime(THRESHOLD, p, bmin);
  }

  lemma WayGoesOn(r: Run, delta: real, isFast: bool, progress: real, bmin: real, bmax: real, step: real)
    requires BasesWithin(r.timer, bmin, bmax) && Running(r, bmin, bmax)
    requires Counts(r.timer, Tick(delta, isFast))
    requires progress == r.timer.progress + delta / Base(r.timer, isFast)
    requires 0.0 <= progress < THRESHOLD && progress * bmin <= r.elapsed + delta <= progress * bmax
    ensures Phases(Continue(r, Tick(delta, isFast)), bmin, bmax, step)
  {
    var next := Continue(r, Tick(delta, isFast));
    assert next == Run(r.timer.(progress := progress), r.elapsed + delta, [], []);
    assert Running(next, bmin, bmax);
  }

  lemma WayIsDone(r: Run, delta: real, isFast: bool, progress: real, bmin: real, bmax: real, step: real)
    requires BasesWithin(r.timer, bmin, bmax) && Running(r, bmin, bmax) && 0.0 <= delta <= step
    requires Counts(r.timer, Tick(delta, isFast))
    requires progress == r.timer.progress + delta / Base(r.timer, isFast)
    requires THRESHOLD <= progress && THRESHOLD * bmin <= r.elapsed + delta && r.elapsed < THRESHOLD * bmax
    ensures Phases(Continue(r, Tick(delta, isFast)), bmin, bmax, step)
  {
    assert Tolerating(Continue(r, Tick(delta, isFast)), bmin, bmax, step);
  }

  lemma FirstPhaseTick(r: Run, delta: real, isFast: bool, bmin: real, bmax: real, step: real)
    requires BasesWithin(r.timer, bmin, bmax) && Running(r, bmin, bmax) && 0.0 <= delta <= step
    requires Counts(r.timer, Tick(delta, isFast))
    ensures Phases(Continue(r, Tick(delta, isFast)), bmin, bmax, step)
  {
    var p, base := r.timer.progress, Base(r.timer, isFast);
    var progress := p + delta / base;
    ProgressMeasuresTime(p, r.elapsed, delta, base, bmin, bmax);
    if progress < THRESHOLD {
      WayGoesOn(r, delta, isFast, progress, bmin, bmax, step);
    } else {
      BelowThreshold(p, r.elapsed, bmax);
      AboveThreshold(progress, r.elapsed + delta, bmin);
      WayIsDone(r, delta, isFast, progress, bmin, bmax, step);
    }
  }

  lemma SecondPhaseTick(r: Run, delta: real, isFast: bool, bmin: real, bmax: real, step: real)
    requires BasesWithin(r.timer, bmin, bmax) && Tolerating(r, bmin, bmax, step) && 0.0 <= delta <= step
    requires Counts(r.timer, Tick(delta, isFast))
    ensures Phases(Continue(r, Tick(delta, isFast)), bmin, bmax, step)
  {
    var next := Continue(r, Tick(delta, isFast));
    var limit := Base(r.timer, isFast) * TOLERANCE;
    assert TOLERANCE * bmin <= limit <= TOLERANCE * bmax;
    if next.timer.active {
      assert Tolerating(next, bmin, bmax, step);
    } else {
      assert next.events == [TimeUp, ToleranceUp];
      assert Fired(next, bmin, bmax, step);
    }
  }

  lemma {:induction false} RunKeepsPhases(fast: real, slow: real, inputs: seq<Input>, bmin: real, bmax: real,
                                           step: real)
    requires BasesWithin(Started(fast, slow), bmin, bmax) && Bounded(inputs, step) && step >= 0.0
    ensures Phases(RunOf(fast, slow, inputs), bmin, bmax, step)
  {
    if inputs != [] {
      var last := inputs[|inputs| - 1];
      var r := RunOf(fast, slow, inputs[..|inputs| - 1]);
      RunKeepsPhases(fast, slow, inputs[..|inputs| - 1], bmin, bmax, step);
      if Counts(r.timer, last) {
        if Running(r, bmin, bmax) {
          FirstPhaseTick(r, last.delta, last.isFast, bmin, bmax, step);
        } else {
          SecondPhaseTick(r, last.delta, last.isFast, bmin, bmax, step);
        }
      }
    }
  }

  // Main result: whatever the ticks, pauses and speed changes, the time event fires at most once and
  // before the tolerance event, which fires at most once. In unpaused time, the time event fires within
  // [0.93 * bmin, 0.93 * bmax + step), the tolerance event within [0.4 * bmin, 0.4 * bmax + step) after
  // it and so within [1.33 * bmin, 1.33 * bmax + 2 * step) of the start. None of them is overdue while it
  // has not fired.
  lemma TimerFiresInTime(fast: real, slow: real, inputs: seq<Input>, bmin: real, bmax: real, step: real)
    requires BasesWithin(Started(fast, slow), bmin, bmax) && Bounded(inputs, step) && step >= 0.0
    ensures var r := RunOf(fast, slow, inputs);
      && r.events in [[], [TimeUp], [TimeUp, ToleranceUp]] && |r.times| == |r.events|
      && (TimeUp in r.events ==> 0.93 * bmin <= r.times[0] < 0.93 * bmax + step)
      && (ToleranceUp in r.events ==>
        && 0.4 * bmin <= r.times[1] - r.times[0] < 0.4 * bmax + step
        && 1.33 * bmin <= r.times[1] == r.elapsed < 1.33 * bmax + 2.0 * step)
      && (TimeUp !in r.events ==> r.elapsed < 0.93 * bmax)
      && (ToleranceUp !in r.events ==> r.elapsed < 1.33 * bmax + step)
  {
    RunKeepsPhases(fast, slow, inputs, bmin, bmax, step);
    var r := RunOf(fast, slow, inputs);
    if Running(r, bmin, bmax) {
      BelowThreshold(r.timer.progress, r.elapsed, bmax);
    } else {
      assert r.events[0] == TimeUp;
    }
  }

  // Base times that are not positive stop the clock: no event ever fires.
  lemma {:induction false} NoBaseTimeNoEvent(fast: real, slow: real, inputs: seq<Input>)
    requires fast <= 0.0 && slow <= 0.0
    ensures RunOf(fast, slow, inputs).events == []
    ensures var t := RunOf(fast, slow, inputs).timer;
      t.progress == 0.0 && !t.inTolerance && t.fast == fast && t.slow == slow
  {
    if inputs != [] {
      NoBaseTimeNoEvent(fast, slow, inputs[..|inputs| - 1]);
    }
  }

  class RegionTimer {
    var progress: real
    var counter: real
    var fast: real
    var slow: real
    var active: bool
    var paused: bool
    var inTolerance: bool

    ghost function View(): Timer
      reads this
    {
      Timer(progress, counter, fast, slow, active, paused, inTolerance)
    }

    constructor ()
      ensures !active
    {
      progress, counter, fast, slow := 0.0, 0.0, 0.0, 0.0;
      active, paused, inTolerance := false, false, false;
    }

    method Start(fastMs: real, slowMs: real)
      modifies this
      ensures View() == Started(fastMs, slowMs)
    {
      fast, slow := fastMs, slowMs;
      progress, counter := 0.0, 0.0;
      active, paused, inTolerance := true, false, false;
    }

    // The event is the callback that the source invokes at this point.
    method Update(delta: real, isFast: bool) returns (event: Event)
      modifies this
      ensures View() == After(old(View()), Tick(delta, isFast))
      ensures event == EventOf(old(View()), Tick(delta, isFast))
    {
      event := Nothing;
      if !active || paused {
        return;
      }
      var base := if isFast then fast else slow;
      if !inTolerance {
        if base > 0.0 {
          progress := progress + delta / base;
        }
        if progress >= 0.93 {
          progress := 1.0;
          inTolerance := true;
          event := TimeUp;
        }
      } else {
        counter := counter + delta;
        if counter >= base * 0.4 {
          active := false;
          event := ToleranceUp;
        }
      }
    }

    method PauseTimer()
      modifies this
      ensures View() == After(old(View()), Pause)
    {
      if active {
        paused := true;
      }
    }

    method ResumeTimer()
      modifies this
      ensures View() == After(old(View()), Resume)
    {
      if active {
        paused := false;
      }
    }

    method StopCompletely()
      modifies this
      ensures View() == After(old(View()), Stop)
    {
      active, paused := false, false;
    }
  }
}
