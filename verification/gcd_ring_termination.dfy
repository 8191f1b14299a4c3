/** Every run comes to rest, after a bounded number of deliveries. */
module GcdRingTermination {
  import opened Divisibility
  import opened GcdRing
  import opened GcdRingSafety
  import opened GcdRingQuiescence

  function Sum(s: seq<int>): int {
    if s == [] then 0 else s[0] + Sum(s[1..])
  }

  lemma {:induction false} SumUpdate(s: seq<int>, i: nat, v: int)
    requires i < |s|
    ensures Sum(s[i := v]) == Sum(s) - s[i] + v
  {
    if i == 0 {
      assert s[i := v][1..] == s[1..];
    } else {
      assert s[i := v][1..] == s[1..][i - 1 := v];
      SumUpdate(s[1..], i - 1, v);
    }
  }

  lemma {:induction false} SumAtLeast(s: seq<int>, i: nat)
    requires i <= |s| && forall k :: 0 <= k < |s| ==> s[k] >= 0
    ensures Sum(s) >= 0 && (i < |s| ==> Sum(s) >= s[i])
  {
    if s != [] {
      SumAtLeast(s[1..], if i == 0 then 0 else i - 1);
    }
  }

  lemma {:induction false} SumAffine(s: seq<int>, a: int, b: int, t: seq<int>)
    requires |t| == |s| && forall k :: 0 <= k < |s| ==> t[k] == a * s[k] + b
    ensures Sum(t) == a * Sum(s) + b * |s|
  {
    if s != [] {
      SumAffine(s[1..], a, b, t[1..]);
      assert a * (s[0] + Sum(s[1..])) == a * s[0] + a * Sum(s[1..]);
    }
  }

  // A negative value may be answered by announcing a larger one unchanged, so it weighs more than two of
  // the next larger.
  function Weight(v: int): nat
    decreases if v < 0 then -v else 0
  {
    if v >= 0 then 1 else 2 * Weight(v + 1) + 4
  }

  lemma {:induction false} WeightFalls(y: int, v: int)
    requires y < v && y < 0
    ensures Weight(y) >= 2 * Weight(v) + 4
    decreases v - y
  {
    if y + 1 < v && y + 1 < 0 {
      WeightFalls(y + 1, v);
    }
  }

  function Load(msgs: seq<Msg>): nat {
    if msgs == [] then 0 else Weight(msgs[0].val) + Load(msgs[1..])
  }

  ghost function Heft(flight: multiset<Msg>): nat {
    if flight == multiset{} then 0
    else
      var msg :| msg in flight;
      Weight(msg.val) + Heft(flight - multiset{msg})
  }

  // The choice of the message does not matter.
  lemma {:induction false} HeftWithout(flight: multiset<Msg>, msg: Msg)
    requires msg in flight
    ensures Heft(flight) == Weight(msg.val) + Heft(flight - multiset{msg})
    decreases |flight|
  {
    var other :| other in flight && Heft(flight) == Weight(other.val) + Heft(flight - multiset{other});
    if other != msg {
      HeftWithout(flight - multiset{other}, msg);
      HeftWithout(flight - multiset{msg}, other);
      assert flight - multiset{other} - multiset{msg} == flight - multiset{msg} - multiset{other};
    }
  }

  lemma HeftWith(flight: multiset<Msg>, msg: Msg)
    ensures Heft(flight + multiset{msg}) == Heft(flight) + Weight(msg.val)
  {
    HeftWithout(flight + multiset{msg}, msg);
    assert flight + multiset{msg} - multiset{msg} == flight;
  }

  function Max(a: int, b: int): int {
    if a < b then b else a
  }

  // Twice what M can still lose, plus the messages still to be sent. Never rises; falls on a delivery.
  function Potential(w: Worker): int {
    2 * (Max(w.m, 1) - 1) + Load(w.announce) + Load(w.outbox)
    + if w.phase.Announced? then 0 else 2 * Weight(w.m)
  }

  // Falls on every step that is neither a loss, a repetition nor a query.
  function Work(w: Worker): int {
    5 * Max(w.m, 0) + 2 * Load(w.announce) + |w.announce| + 2 * Load(w.outbox) + |w.outbox|
    + match w.phase
      case Down => 4 * Weight(w.m) + 5
      case Listening => 4 * Weight(w.m) + 4
      case Ready => 4 * Weight(w.m) + 3
      case Announced => 0
  }

  function Map<T>(f: T -> int, s: seq<T>): (r: seq<int>)
    ensures |r| == |s| && forall k :: 0 <= k < |s| ==> r[k] == f(s[k])
  {
    seq(|s|, k requires 0 <= k < |s| => f(s[k]))
  }

  ghost function TotalPotential(s: Network): int {
    Sum(Map(Potential, s.workers)) + Heft(s.flight)
  }

  ghost function TotalWork(s: Network): int {
    Sum(Map(Work, s.workers)) + 2 * Heft(s.flight)
  }

  function Deliveries(steps: seq<Step>): nat {
    if steps == [] then 0 else (if steps[0].Deliver? then 1 else 0) + Deliveries(steps[1..])
  }

  function Queries(steps: seq<Step>): nat {
    if steps == [] then 0 else (if steps[0].Query? then 1 else 0) + Queries(steps[1..])
  }

  function MovedWorker(step: Step): nat
    requires !step.Lose? && !step.Replay?
  {
    if step.Deliver? then step.msg.dst else step.i
  }

  lemma MeasureUpdate(f: Worker -> int, ws: seq<Worker>, i: nat, w: Worker)
    requires i < |ws|
    ensures Sum(Map(f, ws[i := w])) == Sum(Map(f, ws)) - f(ws[i]) + f(w)
  {
    SumUpdate(Map(f, ws), i, f(w));
    assert Map(f, ws[i := w]) == Map(f, ws)[i := f(w)];
  }

  // What one worker's update costs and saves.
  lemma ReduceLowersMeasures(m: int, y: int)
    requires y < m && y != 0
    ensures var m' := Reduce(m, y);
      && Weight(m') <= Weight(m)
      && 2 * (Max(m', 1) - 1) + 2 * Weight(m') <= 2 * (Max(m, 1) - 1) + Weight(y) - 1
      && 5 * Max(m', 0) + 4 * Weight(m') + 2 <= 5 * Max(m, 0) + 2 * Weight(y) - 1
  {
    var q := ReduceIsCongruent(m, y);
    if y < 0 {
      WeightFalls(y, m);
      WeightFalls(y, 0);
    }
  }

  lemma LoadOfBroadcast(i: nat, n: nat, v: int)
    requires i < n
    ensures |Broadcast(i, n, v)| == 2 && Load(Broadcast(i, n, v)) == 2 * Weight(v)
  {
    var b := Broadcast(i, n, v);
    var rest := b[1..];
    assert rest[1..] == [] && Load(rest) == Weight(v) + Load(rest[1..]);
  }

  // What a step does to the measures of the worker that takes it and to the messages in flight.
  ghost predicate LowersMeasures(s: Network, step: Step, t: Network, i: nat)
    requires i < |s.workers| == |t.workers|
  {
    && t.workers == s.workers[i := t.workers[i]]
    && Potential(t.workers[i]) + Heft(t.flight)
       <= Potential(s.workers[i]) + Heft(s.flight) - (if step.Deliver? then 1 else 0)
    && Work(t.workers[i]) + 2 * Heft(t.flight)
       <= Work(s.workers[i]) + 2 * Heft(s.flight) - (if step.Query? then 0 else 1)
  }

  lemma UpdateLowersMeasures(w: Worker, i: nat, n: nat, y: int)
    requires i < n && w.outbox == []
    ensures Potential(HandleUpdate(w, i, n, y)) <= Potential(w) + Weight(y) - 1
    ensures Work(HandleUpdate(w, i, n, y)) <= Work(w) + 2 * Weight(y) - 1
  {
    if y < w.m && y != 0 {
      ReduceLowersMeasures(w.m, y);
      LoadOfBroadcast(i, n, Reduce(w.m, y));
    }
  }

  lemma DeliveryLowersMeasures(s: Network, msg: Msg)
    requires Enabled(s, Deliver(msg))
    ensures LowersMeasures(s, Deliver(msg), Apply(s, Deliver(msg)), msg.dst)
  {
    HeftWithout(s.flight, msg);
    UpdateLowersMeasures(s.workers[msg.dst], msg.dst, |s.workers|, msg.val);
  }

  lemma AnnounceLowersMeasures(s: Network, i: nat)
    requires Enabled(s, Announce(i))
    ensures LowersMeasures(s, Announce(i), Apply(s, Announce(i)), i)
  {
    HeftWith(s.flight, s.workers[i].announce[0]);
  }

  lemma ForwardLowersMeasures(s: Network, i: nat)
    requires Enabled(s, Forward(i))
    ensures LowersMeasures(s, Forward(i), Apply(s, Forward(i)), i)
  {
    HeftWith(s.flight, s.workers[i].outbox[0]);
  }

  lemma StartUpLowersMeasures(s: Network, step: Step)
    requires Enabled(s, step) && (step.Connect? || step.OpenProducer? || step.ReadStart? || step.Query?)
    ensures LowersMeasures(s, step, Apply(s, step), step.i)
  {
    LoadOfBroadcast(step.i, |s.workers|, s.workers[step.i].m);
  }

  lemma MovedWorkerMeasures(s: Network, step: Step)
    requires Enabled(s, step) && !step.Lose? && !step.Replay?
    ensures LowersMeasures(s, step, Apply(s, step), MovedWorker(step))
  {
    match step
    case Deliver(msg) => DeliveryLowersMeasures(s, msg);
    case Announce(i) => AnnounceLowersMeasures(s, i);
    case Forward(i) => ForwardLowersMeasures(s, i);
    case _ => StartUpLowersMeasures(s, step);
  }

  lemma StepLowersMeasures(s: Network, step: Step)
    requires Enabled(s, step) && !step.Lose? && !step.Replay?
    ensures TotalPotential(Apply(s, step)) <= TotalPotential(s) - (if step.Deliver? then 1 else 0)
    ensures TotalWork(Apply(s, step)) <= TotalWork(s) - (if step.Query? then 0 else 1)
  {
    var w := Apply(s, step).workers[MovedWorker(step)];
    MovedWorkerMeasures(s, step);
    MeasureUpdate(Potential, s.workers, MovedWorker(step), w);
    MeasureUpdate(Work, s.workers, MovedWorker(step), w);
  }

  lemma {:induction false} RunLowersMeasures(s: Network, steps: seq<Step>)
    requires IsRun(s, steps) && Exact(steps)
    ensures TotalPotential(Final(s, steps)) <= TotalPotential(s) - Deliveries(steps)
    ensures TotalWork(Final(s, steps)) <= TotalWork(s) - (|steps| - Queries(steps))
    decreases |steps|
  {
    if steps != [] {
      assert !steps[0].Lose? && !steps[0].Replay?;
      StepLowersMeasures(s, steps[0]);
      RunLowersMeasures(Apply(s, steps[0]), steps[1..]);
    }
  }

  // What a worker that starts with m adds to the two bounds.
  function DeliveryShare(m: int): int {
    2 * (Max(m, 1) - 1) + 2 * Weight(m)
  }

  function StepShare(m: int): int {
    5 * Max(m, 0) + 4 * Weight(m) + 5
  }

  function DeliveryBound(inputs: seq<int>): int {
    Sum(Map(DeliveryShare, inputs))
  }

  function StepBound(inputs: seq<int>): int {
    Sum(Map(StepShare, inputs))
  }

  lemma MeasuresAtStart(inputs: seq<int>)
    ensures TotalPotential(Init(inputs)) == DeliveryBound(inputs)
    ensures TotalWork(Init(inputs)) == StepBound(inputs)
  {
    var s := Init(inputs);
    forall k | 0 <= k < |inputs|
      ensures Potential(s.workers[k]) == DeliveryShare(inputs[k]) && Work(s.workers[k]) == StepShare(inputs[k])
    {
      assert s.workers[k] == Worker(inputs[k], Down, [], []);
    }
    assert Map(Potential, s.workers) == Map(DeliveryShare, inputs);
    assert Map(Work, s.workers) == Map(StepShare, inputs);
  }

  // For natural numbers the bounds are linear.
  lemma BoundsOfNaturals(inputs: seq<int>)
    requires forall k :: 0 <= k < |inputs| ==> inputs[k] >= 0
    ensures StepBound(inputs) == 5 * Sum(inputs) + 9 * |inputs|
    ensures DeliveryBound(inputs) <= 2 * Sum(inputs) + 2 * |inputs|
    ensures Positive(inputs) ==> DeliveryBound(inputs) == 2 * Sum(inputs)
  {
    var steps, deliveries := Map(StepShare, inputs), Map(DeliveryShare, inputs);
    forall k | 0 <= k < |inputs|
      ensures steps[k] == 5 * inputs[k] + 9 && deliveries[k] <= 2 * inputs[k] + 2
      ensures inputs[k] > 0 ==> deliveries[k] == 2 * inputs[k] + 0
    {
      assert Weight(inputs[k]) == 1;
    }
    SumAffine(inputs, 5, 9, steps);
    SumAtMost(inputs, 2, 2, deliveries);
    if Positive(inputs) {
      SumAffine(inputs, 2, 0, deliveries);
    }
  }

  lemma {:induction false} SumAtMost(s: seq<int>, a: int, b: int, t: seq<int>)
    requires |t| == |s| && forall k :: 0 <= k < |s| ==> t[k] <= a * s[k] + b
    ensures Sum(t) <= a * Sum(s) + b * |s|
  {
    if s != [] {
      SumAtMost(s[1..], a, b, t[1..]);
      assert a * (s[0] + Sum(s[1..])) == a * s[0] + a * Sum(s[1..]);
    }
  }

  lemma MeasuresNotNegative(s: Network)
    ensures TotalPotential(s) >= 0 && TotalWork(s) >= 0
  {
    SumAtLeast(Map(Potential, s.workers), 0);
    SumAtLeast(Map(Work, s.workers), 0);
  }

  ghost predicate InRange(msgs: seq<Msg>, n: nat) {
    forall k :: 0 <= k < |msgs| ==> msgs[k].dst < n
  }

  ghost predicate WorkerAddressed(w: Worker, n: nat) {
    InRange(w.announce, n) && InRange(w.outbox, n)
  }

  ghost predicate Addressed(s: Network) {
    && (forall msg :: msg in s.flight ==> msg.dst < |s.workers|)
    && (forall i :: 0 <= i < |s.workers| ==> WorkerAddressed(s.workers[i], |s.workers|))
  }

  lemma BroadcastInRange(i: nat, n: nat, v: int)
    requires i < n
    ensures InRange(Broadcast(i, n, v), n)
  {
  }

  lemma MovedWorkerAddressed(s: Network, step: Step)
    requires Addressed(s) && Enabled(s, step) && !step.Lose? && !step.Replay?
    ensures WorkerAddressed(Apply(s, step).workers[MovedWorker(step)], |s.workers|)
    ensures step.Announce? ==> s.workers[step.i].announce[0].dst < |s.workers|
    ensures step.Forward? ==> s.workers[step.i].outbox[0].dst < |s.workers|
  {
    var i, n := MovedWorker(step), |s.workers|;
    assert WorkerAddressed(s.workers[i], n);
    BroadcastInRange(i, n, Apply(s, step).workers[i].m);
  }

  lemma ChangeKeepsAddressed(s: Network, t: Network, i: nat)
    requires Addressed(s) && i < |s.workers| == |t.workers|
    requires t.workers == s.workers[i := t.workers[i]] && WorkerAddressed(t.workers[i], |s.workers|)
    requires forall msg :: msg in t.flight ==> msg in s.flight || msg.dst < |s.workers|
    ensures Addressed(t)
  {
  }

  lemma StepKeepsAddressed(s: Network, step: Step)
    requires Addressed(s) && Enabled(s, step) && !step.Lose? && !step.Replay?
    ensures Addressed(Apply(s, step))
  {
    MovedWorkerAddressed(s, step);
    ChangeKeepsAddressed(s, Apply(s, step), MovedWorker(step));
  }

  lemma {:induction false} RunKeepsAddressed(s: Network, steps: seq<Step>)
    requires Addressed(s) && IsRun(s, steps) && Exact(steps)
    ensures Addressed(Final(s, steps))
    decreases |steps|
  {
    if steps != [] {
      assert !steps[0].Lose? && !steps[0].Replay?;
      StepKeepsAddressed(s, steps[0]);
      RunKeepsAddressed(Apply(s, steps[0]), steps[1..]);
    }
  }

  // A network that is not at rest can always take a step that does real work.
  lemma ProgressUnlessQuiescent(s: Network) returns (step: Step)
    requires Addressed(s) && !Quiescent(s)
    ensures Enabled(s, step) && !step.Lose? && !step.Replay? && !step.Query?
  {
    if i :| 0 <= i < |s.workers| && !s.workers[i].phase.Announced? {
      var phase := s.workers[i].phase;
      step := if phase.Down? then Connect(i) else if phase.Listening? then OpenProducer(i) else ReadStart(i);
    } else if i :| 0 <= i < |s.workers| && s.workers[i].announce != [] {
      step := Announce(i);
    } else if i :| 0 <= i < |s.workers| && s.workers[i].outbox != [] {
      step := Forward(i);
    } else {
      var msg :| msg in s.flight;
      step := Deliver(msg);
    }
  }

  ghost predicate Stuck(s: Network) {
    forall step :: Enabled(s, step) ==> step.Lose? || step.Replay? || step.Query?
  }

  // Main result: whatever integers are put in, a run without loss or repetition makes a bounded number of
  // deliveries and of steps besides queries. For positive inputs there are at most 2 * sum deliveries, for
  // natural ones at most 5 * sum + 9 * n steps. Where a run can go no further it is at rest, and the
  // workers hold the gcd if and only if the inputs are all positive or all zero.
  lemma RunsTerminateWithGcd(inputs: seq<int>, steps: seq<Step>)
    requires IsRun(Init(inputs), steps) && Exact(steps)
    ensures Deliveries(steps) <= DeliveryBound(inputs)
    ensures |steps| - Queries(steps) <= StepBound(inputs)
    ensures Positive(inputs) ==> Deliveries(steps) <= 2 * Sum(inputs)
    ensures (forall k :: 0 <= k < |inputs| ==> inputs[k] >= 0) ==>
      |steps| - Queries(steps) <= 5 * Sum(inputs) + 9 * |inputs|
    ensures Stuck(Final(Init(inputs), steps)) ==>
      && Quiescent(Final(Init(inputs), steps))
      && (HoldsGcd(Final(Init(inputs), steps), inputs) <==> Positive(inputs) || AllZero(inputs))
  {
    var s, t := Init(inputs), Final(Init(inputs), steps);
    MeasuresAtStart(inputs);
    RunLowersMeasures(s, steps);
    MeasuresNotNegative(t);
    if forall k :: 0 <= k < |inputs| ==> inputs[k] >= 0 {
      BoundsOfNaturals(inputs);
    }
    RunKeepsAddressed(s, steps);
    if Stuck(t) {
      StuckIsQuiescent(t);
      assert LossFree(steps);
      QuiescenceIsGcdIff(inputs, steps);
    }
  }

  lemma StuckIsQuiescent(s: Network)
    requires Addressed(s) && Stuck(s)
    ensures Quiescent(s)
  {
    if !Quiescent(s) {
      var step := ProgressUnlessQuiescent(s);
      assert false;
    }
  }

  // A network that is not at rest has a step after which less work is left.
  lemma WorkCanFall(s: Network) returns (step: Step)
    requires Addressed(s) && !Quiescent(s)
    ensures Enabled(s, step) && !step.Lose? && !step.Replay?
    ensures Addressed(Apply(s, step)) && 0 <= TotalWork(Apply(s, step)) < TotalWork(s)
  {
    step := ProgressUnlessQuiescent(s);
    StepLowersMeasures(s, step);
    MeasuresNotNegative(Apply(s, step));
    StepKeepsAddressed(s, step);
  }

  lemma OneStepEarlier(s: Network, step: Step, rest: seq<Step>)
    requires Enabled(s, step) && !step.Lose? && !step.Replay? && IsRun(Apply(s, step), rest) && Exact(rest)
    ensures IsRun(s, [step] + rest) && Exact([step] + rest)
    ensures Final(s, [step] + rest) == Final(Apply(s, step), rest)
  {
    var steps := [step] + rest;
    assert steps[0] == step && steps[1..] == rest;
  }

  // Rest is always within reach.
  lemma {:induction false} RestIsReachable(s: Network) returns (steps: seq<Step>)
    requires Addressed(s)
    ensures IsRun(s, steps) && Exact(steps) && Quiescent(Final(s, steps))
    decreases TotalWork(s)
  {
    if Quiescent(s) {
      steps := [];
    } else {
      var step := WorkCanFall(s);
      var rest := RestIsReachable(Apply(s, step));
      OneStepEarlier(s, step, rest);
      steps := [step] + rest;
    }
  }

  // So every input line has runs to rest, and if it holds a zero or a negative number, but not only zeros,
  // these runs end without the gcd.
  lemma EveryInputComesToRest(inputs: seq<int>) returns (steps: seq<Step>)
    ensures IsRun(Init(inputs), steps) && Exact(steps) && Quiescent(Final(Init(inputs), steps))
    ensures HoldsGcd(Final(Init(inputs), steps), inputs) <==> Positive(inputs) || AllZero(inputs)
  {
    steps := RestIsReachable(Init(inputs));
    assert LossFree(steps);
    QuiescenceIsGcdIff(inputs, steps);
  }

  // One zero, and one negative number, spoil the result.
  lemma SpoiltResults() returns (zero: seq<Step>, negative: seq<Step>)
    ensures IsRun(Init([0, 5]), zero) && Exact(zero) && Quiescent(Final(Init([0, 5]), zero))
    ensures !HoldsGcd(Final(Init([0, 5]), zero), [0, 5])
    ensures IsRun(Init([4, -6]), negative) && Exact(negative) && Quiescent(Final(Init([4, -6]), negative))
    ensures !HoldsGcd(Final(Init([4, -6]), negative), [4, -6])
  {
    assert [0, 5][0] == 0 && [0, 5][1] == 5 && [4, -6][1] == -6;
    zero := EveryInputComesToRest([0, 5]);
    negative := EveryInputComesToRest([4, -6]);
  }
}
