/** The token goes round: from its holder it can be passed on to every registered client and back. */
module TokenRound {
  import opened Basics
  import opened Neighbors
  import opened TokenRing
  import opened TokenHistory

  // The client of payload p is open and waits for the token, or holds it and is about to pass it on.
  ghost predicate Sits(s: System, p: Payload, holder: Payload) {
    && p.address < |s.procs| && p.address !in s.departed && s.procs[p.address].id == p.id
    && s.procs[p.address].manager == if p == holder then Acquired else Waiting
  }

  // All registered clients are at work, and one of them has the token.
  ghost predicate AtWork(s: System, list: seq<Payload>, holder: Payload) {
    && Lists(s.endpoints, list) && DistinctIds(list)
    && holder in list && holder.kind.Client?
    && forall p :: p in list && p.kind.Client? ==> Sits(s, p, holder)
  }

  // The token has moved from one client to another, and nothing else has changed but the listings.
  function PassedOn(s: System, list: seq<Payload>, from: nat, to: nat): System
    requires from < |s.procs| && to < |s.procs|
  {
    s.(lists := s.lists + {list},
       procs := s.procs[from := s.procs[from].(manager := Waiting)][to := s.procs[to].(manager := Acquired)])
  }

  // The holder fetches a listing and sends the token on; the other client takes it and, after its user's
  // turn, takes it back.
  function Passing(list: seq<Payload>, from: nat, to: nat): seq<Step> {
    [ServeList(list), Fetch(from, list), SendToken(from)] + [Arrive(to), TakeToken(to), Reclaim(to)]
  }

  lemma StepAndRun(s: System, step: Step, rest: seq<Step>)
    requires Enabled(s, step) && IsRun(Apply(s, step), rest)
    ensures IsRun(s, [step] + rest) && Final(s, [step] + rest) == Final(Apply(s, step), rest)
  {
    assert ([step] + rest)[1..] == rest;
  }

  lemma ThreeSteps(s: System, a: Step, b: Step, c: Step)
    requires Enabled(s, a) && Enabled(Apply(s, a), b) && Enabled(Apply(Apply(s, a), b), c)
    ensures IsRun(s, [a, b, c]) && Final(s, [a, b, c]) == Apply(Apply(Apply(s, a), b), c)
  {
    assert [c] + [] == [c] && [b] + [c] == [b, c] && [a] + [b, c] == [a, b, c];
    StepAndRun(Apply(Apply(s, a), b), c, []);
    StepAndRun(Apply(s, a), b, [c]);
    StepAndRun(s, a, [b, c]);
  }

  // After the send the message is on its way to the chosen client.
  function OnItsWay(s: System, list: seq<Payload>, from: nat, to: nat): System
    requires from < |s.procs| && to < |s.procs|
  {
    s.(lists := s.lists + {list}, procs := Give(s.procs[from := s.procs[from].(manager := Waiting)], to))
  }

  lemma SendsOn(s: System, list: seq<Payload>, holder: Payload, next: Payload)
    requires AtWork(s, list, holder) && NextClient(list, holder.id) == Some(next)
    requires next in list && next.kind.Client? && next != holder
    ensures var steps := [ServeList(list), Fetch(holder.address, list), SendToken(holder.address)];
      IsRun(s, steps) && Final(s, steps) == OnItsWay(s, list, holder.address, next.address)
  {
    var c := holder.address;
    assert Sits(s, holder, holder) && Sits(s, next, holder);
    var s1 := Apply(s, ServeList(list));
    var s2 := Apply(s1, Fetch(c, list));
    assert s2.procs == s.procs[c := s.procs[c].(manager := Chosen(next.address))];
    assert s2.procs[c := Local(s2.procs[c], SendToken(c))] == s.procs[c := s.procs[c].(manager := Waiting)];
    ThreeSteps(s, ServeList(list), Fetch(c, list), SendToken(c));
  }

  lemma TakesUp(s: System, list: seq<Payload>, from: nat, to: nat)
    requires from < |s.procs| && to < |s.procs| && from != to && s.procs[to].manager.Waiting?
    ensures var t, steps := OnItsWay(s, list, from, to), [Arrive(to), TakeToken(to), Reclaim(to)];
      IsRun(t, steps) && Final(t, steps) == PassedOn(s, list, from, to)
  {
    var t := OnItsWay(s, list, from, to);
    var t1 := Apply(t, Arrive(to));
    var t2 := Apply(t1, TakeToken(to));
    var t3 := Apply(t2, Reclaim(to));
    assert t3.procs == PassedOn(s, list, from, to).procs;
    ThreeSteps(t, Arrive(to), TakeToken(to), Reclaim(to));
  }

  lemma OneOfId(list: seq<Payload>, p: Payload, q: Payload)
    requires DistinctIds(list) && p in list && q in list
    ensures p.id == q.id ==> p == q
  {
    var i :| 0 <= i < |list| && list[i] == p;
    var j :| 0 <= j < |list| && list[j] == q;
    assert i < j || j < i || i == j;
  }

  lemma StillAtWork(s: System, list: seq<Payload>, holder: Payload, next: Payload)
    requires AtWork(s, list, holder) && next in list && next.kind.Client? && next != holder
    ensures next.address < |s.procs| && holder.address < |s.procs|
    ensures AtWork(PassedOn(s, list, holder.address, next.address), list, next)
  {
    assert Sits(s, holder, holder) && Sits(s, next, holder);
    var t := PassedOn(s, list, holder.address, next.address);
    forall p | p in list && p.kind.Client?
      ensures Sits(t, p, next)
    {
      assert Sits(s, p, holder);
      OneOfId(list, p, holder);
      OneOfId(list, p, next);
    }
  }

  // One pass: the token goes to the next client by id, and everybody is at work again.
  lemma PassesOn(s: System, list: seq<Payload>, holder: Payload, next: Payload)
    requires AtWork(s, list, holder) && NextClient(list, holder.id) == Some(next)
    ensures next.address < |s.procs| && holder.address < |s.procs|
    ensures IsRun(s, Passing(list, holder.address, next.address))
    ensures Final(s, Passing(list, holder.address, next.address))
      == PassedOn(s, list, holder.address, next.address)
    ensures AtWork(PassedOn(s, list, holder.address, next.address), list, next)
  {
    NextIsCyclicSuccessor(list, holder.id, next);
    assert Sits(s, holder, holder) && Sits(s, next, holder);
    SendsOn(s, list, holder, next);
    TakesUp(s, list, holder.address, next.address);
    RunsCompose(s, [ServeList(list), Fetch(holder.address, list), SendToken(holder.address)],
                [Arrive(next.address), TakeToken(next.address), Reclaim(next.address)]);
    StillAtWork(s, list, holder, next);
  }

  lemma {:induction false} PassesOnTo(s: System, list: seq<Payload>, holder: Payload, k: nat, p: Payload)
    returns (steps: seq<Step>)
    requires AtWork(s, list, holder) && Pass(list, holder, k) == Some(p)
    ensures IsRun(s, steps) && |steps| == 6 * k && AtWork(Final(s, steps), list, p)
    decreases k
  {
    if k == 0 {
      steps := [];
    } else {
      var next := NextClient(list, holder.id).value;
      PassesOn(s, list, holder, next);
      var rest := PassesOnTo(PassedOn(s, list, holder.address, next.address), list, next, k - 1, p);
      RunsCompose(s, Passing(list, holder.address, next.address), rest);
      steps := Passing(list, holder.address, next.address) + rest;
    }
  }

  // Main result: while all registered clients are at work, the token can be brought from its holder to any
  // of them with fewer passes than there are clients, and with as many passes as there are clients it is
  // back at its holder.
  lemma TokenReachesEveryClient(s: System, list: seq<Payload>, holder: Payload, p: Payload)
    returns (k: nat, there: seq<Step>, back: seq<Step>)
    requires AtWork(s, list, holder) && p in list && p.kind.Client? && p != holder
    ensures 0 < k < |Clients(list)| && |there| == 6 * k && |back| == 6 * |Clients(list)|
    ensures IsRun(s, there) && AtWork(Final(s, there), list, p)
    ensures IsRun(s, back) && AtWork(Final(s, back), list, holder)
  {
    k := TokenVisitsEveryClient(list, holder, p);
    there := PassesOnTo(s, list, holder, k, p);
    back := PassesOnTo(s, list, holder, |Clients(list)|, holder);
  }
}
