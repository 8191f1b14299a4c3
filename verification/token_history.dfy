/**
 * Which registry histories are safe for every behaviour of the clients: exactly those in which each client
 * that causes a mint was the only client when it was put. The registry can check that without knowing
 * where a token is.
 */
module TokenHistory {
  import opened TokenRing
  import opened TokenSafety

  predicate IsRequest(step: Step) {
    step.Register? || step.FinishRegister? || step.Unregister?
  }

  predicate AllRequests(history: seq<Step>) {
    forall k :: 0 <= k < |history| ==> IsRequest(history[k])
  }

  // The requests among the steps of a run; what is left are listings and the steps of the clients.
  function Requests(steps: seq<Step>): (history: seq<Step>)
    ensures AllRequests(history)
  {
    if steps == [] then []
    else (if IsRequest(steps[0]) then [steps[0]] else []) + Requests(steps[1..])
  }

  // A run from s to t whose requests are the history.
  ghost predicate Realises(s: System, history: seq<Step>, t: System) {
    exists steps :: IsRun(s, steps) && Final(s, steps) == t && Requests(steps) == history
  }

  // Whatever the clients do while the requests are served, in part or in full, the token stays unique.
  ghost predicate SafeHistory(n: nat, history: seq<Step>) {
    forall served, t :: served <= history && Realises(Init(n), served, t) ==> AtMostOneToken(t)
  }

  lemma {:induction false} RunsCompose(s: System, first: seq<Step>, second: seq<Step>)
    requires IsRun(s, first) && IsRun(Final(s, first), second)
    ensures IsRun(s, first + second)
    ensures Final(s, first + second) == Final(Final(s, first), second)
    decreases |first|
  {
    if first == [] {
      assert first + second == second;
    } else {
      assert (first + second)[1..] == first[1..] + second;
      RunsCompose(Apply(s, first[0]), first[1..], second);
    }
  }

  lemma {:induction false} RequestsOfBoth(first: seq<Step>, second: seq<Step>)
    ensures Requests(first + second) == Requests(first) + Requests(second)
    decreases |first|
  {
    if first == [] {
      assert first + second == second;
    } else {
      assert (first + second)[1..] == first[1..] + second;
      RequestsOfBoth(first[1..], second);
    }
  }

  lemma RealisesNothing(s: System)
    ensures Realises(s, [], s)
  {
    assert IsRun(s, []) && Final(s, []) == s && Requests([]) == [];
  }

  lemma RealisesStep(s: System, step: Step)
    requires Enabled(s, step)
    ensures Realises(s, if IsRequest(step) then [step] else [], Apply(s, step))
  {
    var steps, t := [step], Apply(s, step);
    assert steps[0] == step && steps[1..] == [];
    assert IsRun(t, []) && Final(t, []) == t && Requests([]) == [];
    assert IsRun(s, steps) && Final(s, steps) == t;
    assert Requests(steps) == (if IsRequest(step) then [step] else []) + Requests([]);
  }

  lemma RealisesBoth(s: System, first: seq<Step>, t: System, second: seq<Step>, u: System)
    requires Realises(s, first, t) && Realises(t, second, u)
    ensures Realises(s, first + second, u)
  {
    var a :| IsRun(s, a) && Final(s, a) == t && Requests(a) == first;
    var b :| IsRun(t, b) && Final(t, b) == u && Requests(b) == second;
    RunsCompose(s, a, b);
    RequestsOfBoth(a, b);
  }

  // The registry's part of the state and the identities of the clients.
  ghost predicate SameRegistry(s: System, t: System) {
    && s.endpoints == t.endpoints && s.counter == t.counter && s.pending == t.pending && s.alone == t.alone
    && s.era == t.era && s.departed == t.departed && |s.procs| == |t.procs|
    && forall c :: 0 <= c < |s.procs| ==> s.procs[c].id == t.procs[c].id
  }

  lemma ClientStepKeepsRegistry(s: System, t: System, step: Step)
    requires SameRegistry(s, t) && Enabled(s, step) && !IsRequest(step)
    ensures SameRegistry(Apply(s, step), t)
  {
  }

  lemma RequestActsAlike(s: System, t: System, step: Step)
    requires SameRegistry(s, t) && IsRequest(step) && Enabled(t, step)
    ensures Enabled(s, step) && SameRegistry(Apply(s, step), Apply(t, step))
  {
  }

  // Whether a mint is justified is decided by the history alone.
  lemma {:induction false} HistoryDecides(s: System, t: System, steps: seq<Step>, history: seq<Step>)
    requires SameRegistry(s, t) && IsRun(s, steps) && IsRun(t, history)
    requires Requests(steps) <= history && AllJustified(t, history)
    ensures AllJustified(s, steps)
    decreases |steps|
  {
    if steps != [] {
      var s' := Apply(s, steps[0]);
      if IsRequest(steps[0]) {
        assert Requests(steps) == [steps[0]] + Requests(steps[1..]);
        assert history[0] == steps[0];
        assert Requests(steps[1..]) == Requests(steps)[1..] <= history[1..];
        RequestActsAlike(s, t, steps[0]);
        HistoryDecides(s', Apply(t, history[0]), steps[1..], history[1..]);
      } else {
        assert Requests(steps) == Requests(steps[1..]);
        ClientStepKeepsRegistry(s, t, steps[0]);
        HistoryDecides(s', t, steps[1..], history);
      }
    }
  }

  lemma JustifiedHistoryIsSafe(n: nat, history: seq<Step>)
    requires IsRun(Init(n), history) && AllJustified(Init(n), history)
    ensures SafeHistory(n, history)
  {
    forall served, t | served <= history && Realises(Init(n), served, t)
      ensures AtMostOneToken(t)
    {
      var steps :| IsRun(Init(n), steps) && Final(Init(n), steps) == t && Requests(steps) == served;
      HistoryDecides(Init(n), Init(n), steps, history);
      InitIsGood(n);
      JustifiedMintsAreSafe(Init(n), steps);
      TokenIsUnique(n, steps);
    }
  }
}
