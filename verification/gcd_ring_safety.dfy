/** The gcd of all current values never changes, under lost, repeated and stale UPDATEs. */
module GcdRingSafety {
  import opened Divisibility
  import opened GcdRing

  ghost predicate DividesUpTo(d: nat, ms: seq<int>, z: int) {
    forall k :: 0 <= k < |ms| && ms[k] <= z ==> Divides(d, ms[k])
  }

  // gcd{ms[k] | ms[k] <= z} divides z.
  ghost predicate Covered(ms: seq<int>, z: int) {
    forall d: nat :: DividesUpTo(d, ms, z) ==> Divides(d, z)
  }

  // Some value is 1, as always once two neighbouring negative numbers have met.
  ghost predicate HasOne(ms: seq<int>) {
    exists k :: 0 <= k < |ms| && ms[k] == 1
  }

  ghost predicate KeepsDivisors(inputs: seq<int>, v: int) {
    forall d: nat :: DividesAll(d, inputs) ==> Divides(d, v)
  }

  ghost predicate Good(inputs: seq<int>, ms: seq<int>, v: int) {
    (HasOne(ms) || Covered(ms, v)) && KeepsDivisors(inputs, v)
  }

  ghost predicate GoodMsgs(inputs: seq<int>, ms: seq<int>, msgs: seq<Msg>) {
    forall k :: 0 <= k < |msgs| ==> Good(inputs, ms, msgs[k].val)
  }

  ghost predicate GoodWorker(inputs: seq<int>, ms: seq<int>, w: Worker) {
    Good(inputs, ms, w.m) && GoodMsgs(inputs, ms, w.announce) && GoodMsgs(inputs, ms, w.outbox)
  }

  // A positive input only shrinks and stays positive; any other input stays or becomes 1.
  ghost predicate ComesFrom(input: int, m: int) {
    if input > 0 then 0 < m <= input else m == input || m == 1
  }

  ghost predicate GoodResult(inputs: seq<int>, r: Result) {
    r.sender < |inputs| && ComesFrom(inputs[r.sender], r.val) && KeepsDivisors(inputs, r.val)
  }

  ghost predicate Safe(inputs: seq<int>, s: Network) {
    var ms := Values(s.workers);
    && |s.workers| == |inputs|
    && (forall i :: 0 <= i < |inputs| ==>
      Good(inputs, ms, inputs[i]) && ComesFrom(inputs[i], s.workers[i].m) && GoodWorker(inputs, ms, s.workers[i]))
    && (forall msg :: msg in s.flight ==> msg in s.sent)
    && (forall msg :: msg in s.sent ==> Good(inputs, ms, msg.val))
    && (forall r :: r in s.results ==> GoodResult(inputs, r))
  }

  lemma RemainderIsCongruent(a: int, b: int) returns (q: int)
    requires b != 0
    ensures a == q * b + Remainder(a, b)
    ensures a >= 0 ==> 0 <= Remainder(a, b) <= a && Remainder(a, b) < Abs(b)
    ensures b <= a <= 0 ==> Remainder(a, b) == if a == b then 0 else a
  {
    if a >= 0 {
      q := a / b;
      SmallRemainder(a, b);
    } else {
      q := -(-a / b);
      assert -a == -a / b * b + -a % b;
      assert q * b == -(-a / b * b);
      SmallRemainder(-a, b);
    }
  }

  lemma SmallRemainder(a: int, b: int)
    requires a >= 0 && b != 0
    ensures 0 <= a % b <= a && a % b < Abs(b)
    ensures a < Abs(b) ==> a % b == a
    ensures a == Abs(b) ==> a % b == 0
  {
    var q, r := a / b, a % b;
    assert a == q * b + r;
    if b > 0 {
      QuotientSign(q, b, r);
    } else {
      assert q * b == -q * -b;
      QuotientSign(-q, -b, r);
    }
  }

  // a == q * b + r with 0 <= r < b and a >= 0.
  lemma QuotientSign(q: int, b: int, r: int)
    requires b > 0 && 0 <= r < b && q * b + r >= 0
    ensures q >= 0 && r <= q * b + r
    ensures q * b + r < b ==> q == 0
    ensures q * b + r == b ==> q == 1 && r == 0
  {
    if q < 0 {
      AtMostLess(q, b);
    } else if q > 1 {
      AtLeastTwice(q, b);
    }
  }

  lemma AtMostLess(q: int, b: int)
    requires q < 0 && b > 0
    ensures q * b <= -b
  {
    FactorSign(q + 1, b);
    assert q * b == (q + 1) * b - b;
  }

  lemma AtLeastTwice(q: int, b: int)
    requires q > 1 && b > 0
    ensures q * b >= 2 * b
  {
    FactorSign(q - 2, b);
    assert q * b == (q - 2) * b + 2 * b;
  }

  lemma ReduceIsCongruent(m: int, y: int) returns (q: int)
    requires y < m && y != 0
    ensures m == Reduce(m, y) + q * y
    ensures m > 0 ==> 0 < Reduce(m, y) <= m && Reduce(m, y) <= Abs(y)
    ensures m <= 0 ==> Reduce(m, y) == if m == y + 1 then 1 else m
  {
    q := RemainderIsCongruent(m - 1, y);
  }

  // The heart of the algorithm: replacing one value keeps every covered number covered.
  lemma ReduceKeepsCovered(ms: seq<int>, i: nat, y: int, z: int)
    requires i < |ms| && y < ms[i] && y != 0
    requires HasOne(ms) || (Covered(ms, y) && Covered(ms, z))
    ensures var ms' := ms[i := Reduce(ms[i], y)]; HasOne(ms') || Covered(ms', z)
  {
    var x, x' := ms[i], Reduce(ms[i], y);
    var ms' := ms[i := x'];
    var q := ReduceIsCongruent(x, y);
    if HasOne(ms) {
      var k :| 0 <= k < |ms| && ms[k] == 1;
      assert ms'[k] == 1;
    } else if x' == 1 {
      assert ms'[i] == 1;
    } else {
      LowerValueKeepsCovered(ms, i, x', q, y, z);
    }
  }

  lemma LowerValueKeepsCovered(ms: seq<int>, i: nat, x': int, q: int, y: int, z: int)
    requires i < |ms| && y < ms[i] && x' <= ms[i] == x' + q * y
    requires Covered(ms, y) && Covered(ms, z)
    ensures Covered(ms[i := x'], z)
  {
    var x, ms' := ms[i], ms[i := x'];
    forall d: nat | DividesUpTo(d, ms', z)
      ensures Divides(d, z)
    {
      if x <= z {
        assert DividesUpTo(d, ms, y) by {
          forall k | 0 <= k < |ms| && ms[k] <= y
            ensures Divides(d, ms[k])
          {
            assert ms'[k] == ms[k];
          }
        }
        assert Divides(d, ms'[i]);
        DividesCombination(d, x', q, y);
      }
      forall k | 0 <= k < |ms| && ms[k] <= z
        ensures Divides(d, ms[k])
      {
        assert k == i || ms'[k] == ms[k];
      }
      assert DividesUpTo(d, ms, z);
    }
  }

  lemma OwnValueCovered(ms: seq<int>, i: nat)
    requires i < |ms|
    ensures Covered(ms, ms[i])
  {
  }

  lemma ReduceKeepsDivisors(inputs: seq<int>, m: int, y: int)
    requires y < m && y != 0 && KeepsDivisors(inputs, m) && KeepsDivisors(inputs, y)
    ensures KeepsDivisors(inputs, Reduce(m, y))
  {
    var q := ReduceIsCongruent(m, y);
    forall d: nat | DividesAll(d, inputs)
      ensures Divides(d, Reduce(m, y))
    {
      DividesRemainder(d, Reduce(m, y), q, y);
    }
  }

  lemma InitIsSafe(inputs: seq<int>)
    ensures Safe(inputs, Init(inputs))
  {
    var s := Init(inputs);
    assert Values(s.workers) == inputs;
    forall i | 0 <= i < |inputs|
      ensures GoodWorker(inputs, inputs, s.workers[i])
    {
      OwnValueCovered(inputs, i);
    }
  }

  // Every worker and message stays good when one worker's value is reduced by a good value.
  lemma ReduceKeepsGood(inputs: seq<int>, ms: seq<int>, i: nat, y: int, v: int)
    requires i < |ms| && y < ms[i] && y != 0
    requires Good(inputs, ms, y) && Good(inputs, ms, v)
    ensures Good(inputs, ms[i := Reduce(ms[i], y)], v)
  {
    ReduceKeepsCovered(ms, i, y, v);
  }

  lemma DeliverIsSafe(inputs: seq<int>, s: Network, msg: Msg)
    requires Safe(inputs, s) && Enabled(s, Deliver(msg))
    ensures Safe(inputs, Apply(s, Deliver(msg)))
  {
    var t := Apply(s, Deliver(msg));
    var i, y := msg.dst, msg.val;
    var ms, ms' := Values(s.workers), Values(t.workers);
    var m := ms[i];
    assert Good(inputs, ms, y);
    if y < m && y != 0 {
      assert ms' == ms[i := Reduce(m, y)];
      ReduceKeepsDivisors(inputs, m, y);
      var q := ReduceIsCongruent(m, y);
      OwnValueCovered(ms', i);
      assert Good(inputs, ms', Reduce(m, y));
      forall v | Good(inputs, ms, v)
        ensures Good(inputs, ms', v)
      {
        ReduceKeepsGood(inputs, ms, i, y, v);
      }
      forall k | 0 <= k < |inputs|
        ensures Good(inputs, ms', inputs[k]) && ComesFrom(inputs[k], t.workers[k].m)
        ensures GoodWorker(inputs, ms', t.workers[k])
      {
        assert GoodWorker(inputs, ms, s.workers[k]);
      }
    } else {
      assert t.workers == s.workers;
    }
  }

  // All values stay, worker i's messages change to good ones, and whatever was sent anew is good.
  lemma SameValuesIsSafe(inputs: seq<int>, s: Network, t: Network, i: nat)
    requires Safe(inputs, s) && i < |s.workers| && |t.workers| == |s.workers|
    requires t.workers == s.workers[i := t.workers[i]] && t.workers[i].m == s.workers[i].m
    requires GoodWorker(inputs, Values(s.workers), t.workers[i])
    requires forall msg :: msg in t.flight ==> msg in t.sent
    requires forall msg :: msg in t.sent ==> msg in s.sent || Good(inputs, Values(s.workers), msg.val)
    requires forall r :: r in t.results ==> r in s.results || GoodResult(inputs, r)
    ensures Safe(inputs, t)
  {
    assert Values(t.workers) == Values(s.workers);
  }

  lemma SendIsSafe(inputs: seq<int>, s: Network, step: Step)
    requires Safe(inputs, s) && Enabled(s, step) && (step.Announce? || step.Forward?)
    ensures Safe(inputs, Apply(s, step))
  {
    var w, ms := s.workers[step.i], Values(s.workers);
    assert GoodWorker(inputs, ms, w);
    var msgs := if step.Announce? then w.announce else w.outbox;
    assert Good(inputs, ms, msgs[0].val);
    assert GoodMsgs(inputs, ms, msgs[1..]);
    SameValuesIsSafe(inputs, s, Apply(s, step), step.i);
  }

  lemma StartUpIsSafe(inputs: seq<int>, s: Network, step: Step)
    requires Safe(inputs, s) && Enabled(s, step)
    requires step.Connect? || step.OpenProducer? || step.ReadStart? || step.Query?
    ensures Safe(inputs, Apply(s, step))
  {
    var t := Apply(s, step);
    assert GoodWorker(inputs, Values(s.workers), s.workers[step.i]);
    assert GoodMsgs(inputs, Values(s.workers), t.workers[step.i].announce);
    SameValuesIsSafe(inputs, s, t, step.i);
  }

  lemma StepIsSafe(inputs: seq<int>, s: Network, step: Step)
    requires Safe(inputs, s) && Enabled(s, step)
    ensures Safe(inputs, Apply(s, step))
  {
    match step
    case Deliver(msg) => DeliverIsSafe(inputs, s, msg);
    case Lose(msg) => assert Apply(s, step).workers == s.workers;
    case Replay(msg) => assert Apply(s, step).workers == s.workers;
    case Announce(i) => SendIsSafe(inputs, s, step);
    case Forward(i) => SendIsSafe(inputs, s, step);
    case _ => StartUpIsSafe(inputs, s, step);
  }

  lemma {:induction false} RunIsSafe(inputs: seq<int>, s: Network, steps: seq<Step>)
    requires Safe(inputs, s) && IsRun(s, steps)
    ensures Safe(inputs, Final(s, steps))
    decreases |steps|
  {
    if steps != [] {
      StepIsSafe(inputs, s, steps[0]);
      RunIsSafe(inputs, Apply(s, steps[0]), steps[1..]);
    }
  }

  lemma SafeHasInputGcd(inputs: seq<int>, s: Network)
    requires Safe(inputs, s)
    ensures GcdAll(Values(s.workers)) == GcdAll(inputs)
  {
    var ms := Values(s.workers);
    forall d: nat
      ensures DividesAll(d, ms) <==> DividesAll(d, inputs)
    {
      if DividesAll(d, ms) {
        forall i | 0 <= i < |inputs|
          ensures Divides(d, inputs[i])
        {
          if HasOne(ms) {
            var k :| 0 <= k < |ms| && ms[k] == 1;
            DividesZero(d);
            DividesCombination(d, 0, inputs[i], ms[k]);
          } else {
            assert DividesUpTo(d, ms, inputs[i]);
          }
        }
      }
    }
    SameDivisorsSameGcd(ms, inputs);
  }

  // Main result: whatever integers are put in, zero and negative ones included, in every reachable state,
  // under any delivery order and with lost, repeated or stale UPDATEs, the gcd of the current values is
  // the gcd of the inputs.
  lemma GcdIsPreserved(inputs: seq<int>, steps: seq<Step>)
    requires IsRun(Init(inputs), steps)
    ensures GcdAll(Values(Final(Init(inputs), steps).workers)) == GcdAll(inputs)
  {
    InitIsSafe(inputs);
    RunIsSafe(inputs, Init(inputs), steps);
    SafeHasInputGcd(inputs, Final(Init(inputs), steps));
  }

  // A RESULT, sent at any moment, is a multiple of the gcd. If the sender's input was positive, the
  // RESULT is positive and at most the input; otherwise it is the input or 1.
  lemma ResultsAreMultiples(inputs: seq<int>, steps: seq<Step>, r: Result)
    requires IsRun(Init(inputs), steps) && r in Final(Init(inputs), steps).results
    ensures r.sender < |inputs|
    ensures if inputs[r.sender] > 0 then 0 < r.val <= inputs[r.sender] else r.val == inputs[r.sender] || r.val == 1
    ensures Divides(GcdAll(inputs), r.val)
  {
    InitIsSafe(inputs);
    RunIsSafe(inputs, Init(inputs), steps);
    DividesSelf(GcdAll(inputs));
    CommonDivisorsOfGcdAll(GcdAll(inputs), inputs);
  }
}
