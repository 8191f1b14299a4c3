/** When nothing is in flight any more, every worker holds the gcd of the inputs. */
module GcdRingQuiescence {
  import opened Divisibility
  import opened GcdRing
  import opened GcdRingSafety

  // Once i has announced itself, its neighbour j is at or below i's value or will still hear of it.
  ghost predicate Told(s: Network, i: nat, j: nat)
    requires i < |s.workers| && j < |s.workers|
  {
    var w := s.workers[i];
    w.phase.Announced? ==>
      || s.workers[j].m <= w.m
      || Update(j, w.m) in s.flight
      || Update(j, w.m) in w.announce
      || Update(j, w.m) in w.outbox
  }

  ghost predicate NeighboursTold(s: Network) {
    forall i :: 0 <= i < |s.workers| ==>
      Told(s, i, Left(i, |s.workers|)) && Told(s, i, Right(i, |s.workers|))
  }

  ghost predicate Neighbours(i: nat, j: nat, n: nat) {
    i < n && j < n && forall v: int :: Update(j, v) in Broadcast(i, n, v)
  }

  lemma LeftAndRightAreNeighbours(i: nat, n: nat)
    requires i < n
    ensures Neighbours(i, Left(i, n), n) && Neighbours(i, Right(i, n), n)
  {
    forall v: int
      ensures Update(Left(i, n), v) in Broadcast(i, n, v) && Update(Right(i, n), v) in Broadcast(i, n, v)
    {
      var b := Broadcast(i, n, v);
      assert b[0] == Update(Left(i, n), v) && b[1] == Update(Right(i, n), v);
    }
  }

  lemma DeliverKeepsTold(s: Network, msg: Msg, i: nat, j: nat)
    requires Enabled(s, Deliver(msg)) && msg.val > 0
    requires Neighbours(i, j, |s.workers|) && Told(s, i, j)
    ensures Told(Apply(s, Deliver(msg)), i, j)
  {
    var y, m := msg.val, s.workers[msg.dst].m;
    if y < m {
      var q := ReduceIsCongruent(m, y);
    }
  }

  lemma SendKeepsTold(s: Network, step: Step, i: nat, j: nat)
    requires Enabled(s, step) && (step.Announce? || step.Forward?)
    requires i < |s.workers| && j < |s.workers| && Told(s, i, j)
    ensures Told(Apply(s, step), i, j)
  {
    var w, w' := s.workers[i], Apply(s, step).workers[i];
    if step == Announce(i) {
      assert w.announce == [w.announce[0]] + w'.announce;
    } else if step == Forward(i) {
      assert w.outbox == [w.outbox[0]] + w'.outbox;
    }
  }

  lemma StepKeepsTold(s: Network, step: Step, i: nat, j: nat)
    requires Enabled(s, step) && !step.Lose? && (step.Deliver? ==> step.msg.val > 0)
    requires Neighbours(i, j, |s.workers|) && Told(s, i, j)
    ensures Told(Apply(s, step), i, j)
  {
    if step.Deliver? {
      DeliverKeepsTold(s, step.msg, i, j);
    } else if step.Announce? || step.Forward? {
      SendKeepsTold(s, step, i, j);
    }
  }

  ghost predicate MsgsAtLeast(msgs: seq<Msg>, lo: int) {
    forall k :: 0 <= k < |msgs| ==> msgs[k].val >= lo
  }

  ghost predicate WorkerAtLeast(w: Worker, lo: int) {
    w.m >= lo && MsgsAtLeast(w.announce, lo) && MsgsAtLeast(w.outbox, lo)
  }

  // No value, held or sent, is below lo.
  ghost predicate AtLeast(s: Network, lo: int) {
    && (forall i :: 0 <= i < |s.workers| ==> WorkerAtLeast(s.workers[i], lo))
    && (forall msg :: msg in s.flight ==> msg.val >= lo)
    && (forall msg :: msg in s.sent ==> msg.val >= lo)
  }

  lemma ReduceAtLeast(m: int, y: int, lo: int)
    requires lo <= 1 && lo <= y < m && y != 0
    ensures Reduce(m, y) >= lo
  {
    var q := ReduceIsCongruent(m, y);
  }

  // Worker i changes, and at most one message is sent.
  lemma ChangeStaysAtLeast(s: Network, t: Network, i: nat, lo: int)
    requires AtLeast(s, lo) && i < |s.workers| == |t.workers|
    requires t.workers == s.workers[i := t.workers[i]] && WorkerAtLeast(t.workers[i], lo)
    requires forall msg :: msg in t.flight ==> msg in s.flight || msg in s.sent || msg.val >= lo
    requires forall msg :: msg in t.sent ==> msg in s.sent || msg.val >= lo
    ensures AtLeast(t, lo)
  {
  }

  lemma SendStaysAtLeast(s: Network, step: Step, lo: int)
    requires AtLeast(s, lo) && Enabled(s, step) && (step.Announce? || step.Forward?)
    ensures AtLeast(Apply(s, step), lo)
  {
    var w := s.workers[step.i];
    assert WorkerAtLeast(w, lo);
    var msgs := if step.Announce? then w.announce else w.outbox;
    assert msgs[0].val >= lo && MsgsAtLeast(msgs[1..], lo);
    ChangeStaysAtLeast(s, Apply(s, step), step.i, lo);
  }

  lemma DeliveryStaysAtLeast(s: Network, msg: Msg, lo: int)
    requires AtLeast(s, lo) && lo <= 1 && Enabled(s, Deliver(msg))
    ensures AtLeast(Apply(s, Deliver(msg)), lo)
  {
    var w := s.workers[msg.dst];
    assert WorkerAtLeast(w, lo);
    if msg.val < w.m && msg.val != 0 {
      ReduceAtLeast(w.m, msg.val, lo);
    }
    ChangeStaysAtLeast(s, Apply(s, Deliver(msg)), msg.dst, lo);
  }

  lemma StepStaysAtLeast(s: Network, step: Step, lo: int)
    requires AtLeast(s, lo) && lo <= 1 && Enabled(s, step)
    ensures AtLeast(Apply(s, step), lo)
  {
    match step
    case Lose(_) =>
    case Replay(_) =>
    case Deliver(msg) => DeliveryStaysAtLeast(s, msg, lo);
    case Announce(_) => SendStaysAtLeast(s, step, lo);
    case Forward(_) => SendStaysAtLeast(s, step, lo);
    case _ =>
      assert WorkerAtLeast(s.workers[step.i], lo);
      ChangeStaysAtLeast(s, Apply(s, step), step.i, lo);
  }

  lemma {:induction false} RunStaysAtLeast(s: Network, steps: seq<Step>, lo: int)
    requires AtLeast(s, lo) && lo <= 1 && IsRun(s, steps)
    ensures AtLeast(Final(s, steps), lo)
    decreases |steps|
  {
    if steps != [] {
      StepStaysAtLeast(s, steps[0], lo);
      RunStaysAtLeast(Apply(s, steps[0]), steps[1..], lo);
    }
  }

  lemma {:induction false} RunKeepsTold(s: Network, steps: seq<Step>)
    requires AtLeast(s, 1) && IsRun(s, steps) && LossFree(steps) && NeighboursTold(s)
    ensures NeighboursTold(Final(s, steps))
    decreases |steps|
  {
    if steps != [] {
      assert !steps[0].Lose?;
      var t := Apply(s, steps[0]);
      StepStaysAtLeast(s, steps[0], 1);
      forall i | 0 <= i < |t.workers|
        ensures Told(t, i, Left(i, |t.workers|)) && Told(t, i, Right(i, |t.workers|))
      {
        LeftAndRightAreNeighbours(i, |s.workers|);
        StepKeepsTold(s, steps[0], i, Left(i, |s.workers|));
        StepKeepsTold(s, steps[0], i, Right(i, |s.workers|));
      }
      RunKeepsTold(t, steps[1..]);
    }
  }

  lemma LeftOfRight(i: nat, n: nat)
    requires 0 < i < n
    ensures Right(i - 1, n) == i && Left(i, n) == i - 1
  {
    assert Left(i, n) == (n + (i - 1)) % n;
  }

  // Around the ring: each value is at most its predecessor's and at most its successor's.
  lemma {:induction false} QuietValuesEqual(s: Network, i: nat)
    requires Quiescent(s) && NeighboursTold(s) && i < |s.workers|
    ensures s.workers[i].m == s.workers[0].m
  {
    if i > 0 {
      LeftOfRight(i, |s.workers|);
      assert Told(s, i - 1, i) && Told(s, i, i - 1);
      QuietValuesEqual(s, i - 1);
    }
  }

  predicate HoldsGcd(s: Network, inputs: seq<int>) {
    |s.workers| == |inputs| && forall i :: 0 <= i < |inputs| ==> s.workers[i].m == GcdAll(inputs)
  }

  // Main result: a run that lost no UPDATE and has come to rest has computed the gcd everywhere.
  lemma QuiescenceIsGcd(inputs: seq<int>, steps: seq<Step>)
    requires Positive(inputs) && IsRun(Init(inputs), steps) && LossFree(steps)
    requires Quiescent(Final(Init(inputs), steps))
    ensures HoldsGcd(Final(Init(inputs), steps), inputs)
  {
    var s := Final(Init(inputs), steps);
    InitIsSafe(inputs);
    RunIsSafe(inputs, Init(inputs), steps);
    RunKeepsTold(Init(inputs), steps);
    RunStaysAtLeast(Init(inputs), steps, 1);
    GcdIsPreserved(inputs, steps);
    forall i | 0 <= i < |inputs|
      ensures s.workers[i].m == GcdAll(inputs)
    {
      forall k | 0 <= k < |s.workers|
        ensures Values(s.workers)[k] == s.workers[0].m
      {
        QuietValuesEqual(s, k);
      }
      GcdAllOfEqual(Values(s.workers), s.workers[0].m);
    }
  }

  lemma LeastKept(s: Network, step: Step, i: nat, lo: int)
    requires AtLeast(s, lo) && Enabled(s, step) && i < |s.workers| && s.workers[i].m == lo
    ensures |Apply(s, step).workers| == |s.workers| && Apply(s, step).workers[i].m == lo
  {
    if step.Deliver? && step.msg.dst == i {
      assert HandleUpdate(s.workers[i], i, |s.workers|, step.msg.val) == s.workers[i];
      assert Apply(s, step).workers == s.workers;
    }
  }

  // A worker that holds the least value of all, zero or negative, keeps it for ever.
  lemma {:induction false} LeastStays(s: Network, steps: seq<Step>, i: nat, lo: int)
    requires IsRun(s, steps) && AtLeast(s, lo) && lo <= 0 && i < |s.workers| && s.workers[i].m == lo
    ensures |Final(s, steps).workers| == |s.workers| && Final(s, steps).workers[i].m == lo
    decreases |steps|
  {
    if steps != [] {
      StepStaysAtLeast(s, steps[0], lo);
      LeastKept(s, steps[0], i, lo);
      LeastStays(Apply(s, steps[0]), steps[1..], i, lo);
    }
  }

  lemma {:induction false} RunKeepsSize(s: Network, steps: seq<Step>)
    requires IsRun(s, steps)
    ensures |Final(s, steps).workers| == |s.workers|
    decreases |steps|
  {
    if steps != [] {
      RunKeepsSize(Apply(s, steps[0]), steps[1..]);
    }
  }

  predicate AllZero(s: seq<int>) {
    forall k :: 0 <= k < |s| ==> s[k] == 0
  }

  lemma {:induction false} LeastInput(inputs: seq<int>) returns (z: nat)
    requires inputs != []
    ensures z < |inputs| && forall k :: 0 <= k < |inputs| ==> inputs[z] <= inputs[k]
  {
    if |inputs| == 1 {
      z := 0;
    } else {
      var last := |inputs| - 1;
      z := LeastInput(inputs[..last]);
      forall k | 0 <= k < last
        ensures inputs[z] <= inputs[k]
      {
        assert inputs[..last][z] <= inputs[..last][k];
      }
      z := if inputs[last] < inputs[z] then last else z;
    }
  }

  lemma AllZeroHoldsGcd(inputs: seq<int>, steps: seq<Step>)
    requires IsRun(Init(inputs), steps) && AllZero(inputs)
    ensures HoldsGcd(Final(Init(inputs), steps), inputs)
  {
    RunKeepsSize(Init(inputs), steps);
    forall i | 0 <= i < |inputs|
      ensures Final(Init(inputs), steps).workers[i].m == GcdAll(inputs)
    {
      LeastStays(Init(inputs), steps, i, 0);
      GcdAllOfEqual(inputs, 0);
    }
  }

  // A least input that is zero or negative is not the gcd, unless all inputs are zero.
  lemma LeastIsNotGcd(inputs: seq<int>, steps: seq<Step>)
    requires IsRun(Init(inputs), steps) && !Positive(inputs) && !AllZero(inputs)
    ensures !HoldsGcd(Final(Init(inputs), steps), inputs)
  {
    var z := LeastInput(inputs);
    var p :| 0 <= p < |inputs| && inputs[p] != 0;
    LeastStays(Init(inputs), steps, z, inputs[z]);
    GcdAllIsGreatest(inputs, p);
  }

  // Nothing rejects a zero or a negative number in the input line. At rest the workers agree on the gcd
  // exactly when the inputs are all positive or all zero.
  lemma QuiescenceIsGcdIff(inputs: seq<int>, steps: seq<Step>)
    requires IsRun(Init(inputs), steps) && LossFree(steps)
    requires Quiescent(Final(Init(inputs), steps))
    ensures HoldsGcd(Final(Init(inputs), steps), inputs) <==> Positive(inputs) || AllZero(inputs)
  {
    if Positive(inputs) {
      QuiescenceIsGcd(inputs, steps);
    } else if AllZero(inputs) {
      AllZeroHoldsGcd(inputs, steps);
    } else {
      LeastIsNotGcd(inputs, steps);
    }
  }

  // A query at rest is answered with the gcd, if the inputs are all positive or all zero.
  lemma QueryAtRest(inputs: seq<int>, steps: seq<Step>, i: nat)
    requires IsRun(Init(inputs), steps) && LossFree(steps) && i < |inputs|
    requires Quiescent(Final(Init(inputs), steps)) && (Positive(inputs) || AllZero(inputs))
    ensures Enabled(Final(Init(inputs), steps), Query(i))
    ensures Apply(Final(Init(inputs), steps), Query(i)).results
      == Final(Init(inputs), steps).results + {Result(i, GcdAll(inputs))}
  {
    QuiescenceIsGcdIff(inputs, steps);
  }
}
