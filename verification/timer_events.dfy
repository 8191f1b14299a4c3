/** When the region timer fires, told from the inputs alone: the time spent at each speed decides. */
module TimerEvents {
  import opened Basics
  import opened RegionTimers

  predicate Stopped(inputs: seq<Input>) {
    Stop in inputs
  }

  // The last of the pauses and resumes was a pause.
  predicate OnHold(inputs: seq<Input>) {
    if inputs == [] then false
    else
      var front, last := inputs[..|inputs| - 1], inputs[|inputs| - 1];
      last.Pause? || (!last.Resume? && OnHold(front))
  }

  // The time of all ticks at the given speed that came neither while the timer was paused nor after a stop.
  function TimeAt(inputs: seq<Input>, isFast: bool): real {
    if inputs == [] then 0.0
    else
      var front, last := inputs[..|inputs| - 1], inputs[|inputs| - 1];
      TimeAt(front, isFast)
      + if last.Tick? && last.isFast == isFast && !Stopped(front) && !OnHold(front) then last.delta else 0.0
  }

  function TimeOf(inputs: seq<Input>): real {
    TimeAt(inputs, true) + TimeAt(inputs, false)
  }

  // The share of the way that the inputs make.
  function Way(fast: real, slow: real, inputs: seq<Input>): real
    requires fast > 0.0 && slow > 0.0
  {
    TimeAt(inputs, true) / fast + TimeAt(inputs, false) / slow
  }

  ghost predicate Forward(inputs: seq<Input>) {
    forall k :: 0 <= k < |inputs| && inputs[k].Tick? ==> inputs[k].delta >= 0.0
  }

  // What the inputs tell.
  datatype Told = Told(way: real, time: real, stopped: bool, onHold: bool)

  function TellOf(fast: real, slow: real, inputs: seq<Input>): Told
    requires fast > 0.0 && slow > 0.0
  {
    Told(Way(fast, slow, inputs), TimeOf(inputs), Stopped(inputs), OnHold(inputs))
  }

  // Before the tolerance event the timer agrees with the inputs.
  ghost predicate Agrees(r: Run, fast: real, slow: real, told: Told) {
    && r.timer.fast == fast && r.timer.slow == slow
    && r.timer.active == !told.stopped && (r.timer.active ==> r.timer.paused == told.onHold)
    && r.elapsed == told.time
    && (if r.timer.inTolerance then r.times == [r.elapsed - r.timer.counter]
        else r.timer.progress == told.way && r.timer.counter == 0.0 && r.times == [])
  }

  // The events fired so far are those that the way tells.
  ghost predicate Expected(r: Run, fast: real, slow: real, told: Told) {
    && (r.events == [] || r.events == [TimeUp] || r.events == [TimeUp, ToleranceUp])
    && (r.events != [] <==> told.way >= THRESHOLD)
    && (r.timer.inTolerance <==> r.events != [])
    && (if |r.events| == 2 then !r.timer.active else Agrees(r, fast, slow, told))
  }

  lemma ShareOfSum(a: real, d: real, base: real)
    requires base > 0.0
    ensures (a + d) / base == a / base + d / base
    ensures d >= 0.0 ==> d / base >= 0.0
  {
    var q := d / base;
    assert q * base == d;
    if q < 0.0 {
      NegativeProduct(q, base);
    }
  }

  ghost predicate Adds(told: Told, input: Input) {
    input.Tick? && !told.stopped && !told.onHold
  }

  // What one more input adds to the way and to the time.
  ghost predicate OneMore(told: Told, more: Told, input: Input, share: real) {
    && share >= 0.0
    && more.way == told.way + (if Adds(told, input) then share else 0.0)
    && more.time == told.time + (if Adds(told, input) then input.delta else 0.0)
    && more.stopped == (told.stopped || input.Stop?)
    && more.onHold == (input.Pause? || (!input.Resume? && told.onHold))
  }

  function ShareOf(fast: real, slow: real, input: Input): real
    requires fast > 0.0 && slow > 0.0
  {
    if input.Tick? then input.delta / (if input.isFast then fast else slow) else 0.0
  }

  lemma OneMoreInput(fast: real, slow: real, inputs: seq<Input>, input: Input)
    requires fast > 0.0 && slow > 0.0 && (input.Tick? ==> input.delta >= 0.0)
    ensures OneMore(TellOf(fast, slow, inputs), TellOf(fast, slow, inputs + [input]), input, ShareOf(fast, slow, input))
  {
    var all := inputs + [input];
    assert all[..|all| - 1] == inputs;
    if input.Tick? {
      ShareOfSum(TimeAt(inputs, input.isFast), input.delta, if input.isFast then fast else slow);
    }
  }

  lemma TickContinues(r: Run, fast: real, slow: real, told: Told, more: Told, input: Input)
    requires fast > 0.0 && slow > 0.0 && Expected(r, fast, slow, told) && Adds(told, input) && |r.events| < 2
    requires OneMore(told, more, input, ShareOf(fast, slow, input))
    ensures Expected(Continue(r, input), fast, slow, more)
  {
    var share := ShareOf(fast, slow, input);
    assert Counts(r.timer, input) && Base(r.timer, input.isFast) == if input.isFast then fast else slow;
    if !r.timer.inTolerance {
      assert r.timer.progress + share == more.way;
    }
  }

  lemma ContinuesAsExpected(r: Run, fast: real, slow: real, told: Told, more: Told, input: Input)
    requires fast > 0.0 && slow > 0.0 && Expected(r, fast, slow, told)
    requires OneMore(told, more, input, ShareOf(fast, slow, input))
    ensures Expected(Continue(r, input), fast, slow, more)
  {
    if |r.events| < 2 && Adds(told, input) {
      TickContinues(r, fast, slow, told, more, input);
    } else {
      assert !Counts(r.timer, input);
    }
  }

  lemma {:induction false} RunIsExpected(fast: real, slow: real, inputs: seq<Input>)
    requires fast > 0.0 && slow > 0.0 && Forward(inputs)
    ensures Expected(RunOf(fast, slow, inputs), fast, slow, TellOf(fast, slow, inputs))
  {
    if inputs == [] {
      ShareOfSum(0.0, 0.0, fast);
      ShareOfSum(0.0, 0.0, slow);
    } else {
      var front, last := inputs[..|inputs| - 1], inputs[|inputs| - 1];
      RunIsExpected(fast, slow, front);
      assert front + [last] == inputs;
      OneMoreInput(fast, slow, front, last);
      ContinuesAsExpected(RunOf(fast, slow, front), fast, slow, TellOf(fast, slow, front),
                          TellOf(fast, slow, inputs), last);
    }
  }

  // Main result: for positive base times, whatever the ticks, pauses, stops and speed changes, the time
  // event has fired if and only if the time at the fast speed over the fast base time and the time at the
  // slow speed over the slow one add up to 0.93.
  lemma TimeUpIff(fast: real, slow: real, inputs: seq<Input>)
    requires fast > 0.0 && slow > 0.0 && Forward(inputs)
    ensures TimeUp in RunOf(fast, slow, inputs).events <==>
      TimeAt(inputs, true) / fast + TimeAt(inputs, false) / slow >= 0.93
  {
    RunIsExpected(fast, slow, inputs);
    var events := RunOf(fast, slow, inputs).events;
    assert events != [] ==> events[0] == TimeUp;
  }

  // After the time event and before the tolerance event, an input fires the latter if and only if it is a
  // tick while the timer runs and the time since the time event has reached 0.4 of the base time of the
  // speed of this tick.
  lemma ToleranceUpIff(fast: real, slow: real, inputs: seq<Input>, input: Input)
    requires fast > 0.0 && slow > 0.0 && Forward(inputs + [input])
    requires RunOf(fast, slow, inputs).events == [TimeUp]
    ensures |RunOf(fast, slow, inputs).times| == 1
    ensures RunOf(fast, slow, inputs + [input]).events == [TimeUp, ToleranceUp] <==>
      && input.Tick? && !Stopped(inputs) && !OnHold(inputs)
      && TimeOf(inputs + [input]) - RunOf(fast, slow, inputs).times[0] >= 0.4 * if input.isFast then fast else slow
  {
    var all := inputs + [input];
    assert all[..|all| - 1] == inputs && all[|all| - 1] == input;
    forall k | 0 <= k < |inputs| && inputs[k].Tick?
      ensures inputs[k].delta >= 0.0
    {
      assert all[k] == inputs[k];
    }
    RunIsExpected(fast, slow, inputs);
    OneMoreInput(fast, slow, inputs, input);
  }

  // The recorded time of the time event is the time of the inputs up to the tick that fired it.
  lemma TimeUpIsRecorded(fast: real, slow: real, inputs: seq<Input>, input: Input)
    requires fast > 0.0 && slow > 0.0 && Forward(inputs + [input])
    requires RunOf(fast, slow, inputs).events == [] && TimeUp in RunOf(fast, slow, inputs + [input]).events
    ensures RunOf(fast, slow, inputs + [input]).times == [TimeOf(inputs + [input])]
  {
    var all := inputs + [input];
    assert all[..|all| - 1] == inputs && all[|all| - 1] == input;
    RunIsExpected(fast, slow, all);
    OneMoreInput(fast, slow, inputs, input);
    var r := RunOf(fast, slow, all);
    assert r == Continue(RunOf(fast, slow, inputs), input);
  }
}
