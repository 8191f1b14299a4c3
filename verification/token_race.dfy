/** The window inside a REGISTER request: when minting is safe, and a run in which it is not. */
module TokenRace {
  import opened Basics
  import opened Neighbors
  import opened TokenRing
  import opened TokenSafety

  lemma OnlyElement(s: set<string>, x: string, y: string)
    requires |s| == 1 && x in s && y in s
    ensures x == y
  {
    if x != y {
      assert {x, y} <= s;
      SubsetSize({x, y}, s);
    }
  }

  // When the second token shows among the registered clients at once: if the one client counted has
  // already been given a token. It may also show later, see MintBreaksLater; TokenSafety.OneTokenIff
  // covers both.
  lemma MintBreaksAtOnceIff(s: System)
    requires Inv(s) && Enabled(s, FinishRegister)
    ensures !AtMostOneToken(Apply(s, FinishRegister))
      <==> Mints(s) && Held(s.procs[s.pending.value.address]) > 0
  {
    var t := Apply(s, FinishRegister);
    GoodMeansAtMostOne(s);
    assert forall c :: IsRegistered(t, c) <==> IsRegistered(s, c);
    if Mints(s) {
      var p := s.pending.value;
      var name :| name in s.endpoints && s.endpoints[name] == p;
      assert IsRegistered(s, p.address) && name in ClientNames(s.endpoints);
      forall c | IsRegistered(s, c)
        ensures c == p.address
      {
        var other :| other in s.endpoints && s.endpoints[other].kind.Client? && s.endpoints[other].address == c;
        OnlyElement(ClientNames(s.endpoints), name, other);
      }
      assert Held(t.procs[p.address]) == Held(s.procs[p.address]) + 1;
    }
  }

  ghost predicate WindowIntact(s: System) {
    s.pending.Some? && s.pending.value.kind.Client? && !s.alone ==> |ClientNames(s.endpoints)| >= 2
  }

  lemma StepKeepsWindow(s: System, step: Step)
    requires WindowIntact(s) && Enabled(s, step) && (step.Unregister? ==> s.pending.None?)
    ensures WindowIntact(Apply(s, step))
  {
    if step.Register? && step.name !in s.endpoints && step.kind.Client? {
      var t := Apply(s, step);
      assert ClientNames(t.endpoints) == ClientNames(s.endpoints) + {step.name};
    }
  }

  // If the registry served UNREGISTER under the same lock as REGISTER, every mint would be justified.
  lemma {:induction false} SerialisedMeansJustified(s: System, steps: seq<Step>)
    requires WindowIntact(s) && IsRun(s, steps) && Serialised(s, steps)
    ensures AllJustified(s, steps)
    decreases |steps|
  {
    if steps != [] {
      StepKeepsWindow(s, steps[0]);
      SerialisedMeansJustified(Apply(s, steps[0]), steps[1..]);
    }
  }

  lemma SerialisedRunsAreSafe(n: nat, steps: seq<Step>)
    requires IsRun(Init(n), steps) && Serialised(Init(n), steps)
    ensures AtMostOneToken(Final(Init(n), steps))
  {
    InitIsGood(n);
    SerialisedMeansJustified(Init(n), steps);
    JustifiedMintsAreSafe(Init(n), steps);
    TokenIsUnique(n, steps);
  }

  ghost predicate Reachable(n: nat, s: System) {
    exists steps :: IsRun(Init(n), steps) && Final(Init(n), steps) == s
  }

  lemma {:induction false} RunPlusStep(s: System, steps: seq<Step>, step: Step)
    requires IsRun(s, steps) && Enabled(Final(s, steps), step)
    ensures IsRun(s, steps + [step]) && Final(s, steps + [step]) == Apply(Final(s, steps), step)
    decreases |steps|
  {
    if steps == [] {
      assert (steps + [step])[1..] == [];
    } else {
      assert (steps + [step])[1..] == steps[1..] + [step];
      RunPlusStep(Apply(s, steps[0]), steps[1..], step);
    }
  }

  lemma ReachStep(n: nat, s: System, step: Step)
    requires Reachable(n, s) && Enabled(s, step)
    ensures Reachable(n, Apply(s, step))
  {
    var steps :| IsRun(Init(n), steps) && Final(Init(n), steps) == s;
    RunPlusStep(Init(n), steps, step);
  }

  const A := Payload(1, Client, 0)
  const B := Payload(2, Client, 1)
  const C := Payload(3, Client, 2)

  lemma NextOfTwo(p: Payload, q: Payload)
    requires p.id < q.id && p.kind.Client? && q.kind.Client?
    ensures NextClient([p, q], p.id) == Some(q)
  {
    assert [p, q][..1] == [p] && [p][..0] == [];
    assert Clients([p]) == [p] && Clients([p, q]) == [p, q];
    var one := [p];
    assert one[|one| - 1] == p && SortById(one) == one;
    assert Insert(q, one) == one + [q];
    assert SortById([p, q]) == [p, q];
    AfterInRing([p, q], 0);
  }

  lemma Move(s: System, step: Step, t: System)
    requires Reachable(3, s) && Enabled(s, step) && Apply(s, step) == t
    ensures Reachable(3, t)
  {
    ReachStep(3, s, step);
  }

  // Three processes in the first era.
  function Three(p: Process, q: Process, r: Process, endpoints: map<string, Payload>, counter: nat,
                 pending: Option<Payload>, alone: bool, departed: set<nat>, lists: set<seq<Payload>>): System
  {
    System([p, q, r], endpoints, counter, pending, alone, 1, departed, lists)
  }

  const FRESH := Process(0, 0, 0, 0, 0, Waiting, false)

  function Idle(id: nat, flying: nat): Process {
    Process(id, 1, flying, 0, 0, Waiting, false)
  }

  function Fetching(id: nat, flying: nat): Process {
    Process(id, 1, flying, 0, 0, Acquired, false)
  }

  // A token message arrives and ends up with the thread that is about to pass it on.
  lemma TakeUp(s: System, c: nat, id: nat, flying: nat)
    requires Reachable(3, s) && c < |s.procs| && s.procs[c] == Idle(id, flying + 1)
    ensures Reachable(3, s.(procs := s.procs[c := Fetching(id, flying)]))
  {
    var p1 := Process(id, 1, flying, 1, 0, Waiting, false);
    var p2 := Process(id, 1, flying, 0, 1, Offering, false);
    var s1, s2 := s.(procs := s.procs[c := p1]), s.(procs := s.procs[c := p2]);
    Move(s, Arrive(c), s1);
    assert s1.procs[c := p2] == s2.procs;
    Move(s1, TakeToken(c), s2);
    assert s2.procs[c := Fetching(id, flying)] == s.procs[c := Fetching(id, flying)];
    Move(s2, Reclaim(c), s.(procs := s.procs[c := Fetching(id, flying)]));
  }

  // A token message arrives and the waiting user enters the robot control.
  lemma TakeControl(s: System, c: nat, id: nat)
    requires Reachable(3, s) && c < |s.procs| && s.procs[c] == Idle(id, 1)
    ensures Reachable(3, s.(procs := s.procs[c := Process(id, 1, 0, 0, 0, Offering, true)]))
  {
    var p1 := Process(id, 1, 0, 1, 0, Waiting, false);
    var p2 := Process(id, 1, 0, 0, 1, Offering, false);
    var p3 := Process(id, 1, 0, 0, 0, Offering, true);
    var s1, s2 := s.(procs := s.procs[c := p1]), s.(procs := s.procs[c := p2]);
    Move(s, Arrive(c), s1);
    assert s1.procs[c := p2] == s2.procs;
    Move(s1, TakeToken(c), s2);
    assert s2.procs[c := p3] == s.procs[c := p3];
    Move(s2, EnterControl(c), s.(procs := s.procs[c := p3]));
  }

  lemma FirstMint()
    ensures Reachable(3, Three(Idle(1, 1), FRESH, FRESH, map["a" := A], 1, None, true, {}, {}))
  {
    var s := Init(3);
    assert s == System([FRESH, FRESH, FRESH], map[], 0, None, false, 0, {}, {});
    assert IsRun(s, []) && Final(s, []) == s;
    var s1 := Three(Idle(1, 0), FRESH, FRESH, map["a" := A], 1, Some(A), true, {}, {});
    assert ClientNames(map[]) == {};
    Move(s, Register("a", Client, 0), s1);
    assert ClientNames(s1.endpoints) == {"a"};
    Move(s1, FinishRegister, Three(Idle(1, 1), FRESH, FRESH, map["a" := A], 1, None, true, {}, {}));
  }

  lemma FirstClient()
    ensures Reachable(3, Three(Fetching(1, 0), FRESH, FRESH, map["a" := A], 1, None, true, {}, {}))
  {
    FirstMint();
    var s2 := Three(Idle(1, 1), FRESH, FRESH, map["a" := A], 1, None, true, {}, {});
    TakeUp(s2, 0, 1, 0);
    assert s2.procs[0 := Fetching(1, 0)] == [Fetching(1, 0), FRESH, FRESH];
  }

  lemma ServeTwo(s: System, p: Payload, q: Payload, m: string, n: string)
    requires Reachable(3, s) && s.endpoints == map[m := p, n := q] && m != n && p != q
    ensures Reachable(3, s.(lists := s.lists + {[p, q]}))
  {
    assert m in s.endpoints && n in s.endpoints;
    assert p in s.endpoints.Values && q in s.endpoints.Values;
    Move(s, ServeList([p, q]), s.(lists := s.lists + {[p, q]}));
  }

  // Process c, which holds the token and has fetched a listing of two, passes the token on to process d.
  lemma SendOn(s: System, c: nat, d: nat, p: Payload, q: Payload, flying: nat)
    requires Reachable(3, s) && c < |s.procs| && d < |s.procs| && c != d && d !in s.departed && [p, q] in s.lists
    requires 0 < p.id < q.id && s.procs[c] == Fetching(p.id, flying) && s.procs[d] == Idle(q.id, 0)
    requires p.kind.Client? && q.kind.Client? && q.address == d
    ensures Reachable(3, s.(procs := s.procs[c := Idle(p.id, flying)][d := Idle(q.id, 1)]))
  {
    NextOfTwo(p, q);
    var chosen := Process(p.id, 1, flying, 0, 0, Chosen(d), false);
    var s1 := s.(procs := s.procs[c := chosen]);
    Move(s, Fetch(c, [p, q]), s1);
    assert s1.procs[c := Idle(p.id, flying)] == s.procs[c := Idle(p.id, flying)];
    Move(s1, SendToken(c), s.(procs := s.procs[c := Idle(p.id, flying)][d := Idle(q.id, 1)]));
  }

  lemma PassOn(s: System, c: nat, d: nat, p: Payload, q: Payload, flying: nat)
    requires Reachable(3, s) && c < |s.procs| && d < |s.procs| && c != d && d !in s.departed
    requires 0 < p.id < q.id && s.procs[c] == Fetching(p.id, flying) && s.procs[d] == Idle(q.id, 0)
    requires p.kind.Client? && q.kind.Client? && q.address == d
    requires exists m, n :: s.endpoints == map[m := p, n := q] && m != n
    ensures Reachable(3, s.(procs := s.procs[c := Idle(p.id, flying)][d := Idle(q.id, 1)], lists := s.lists + {[p, q]}))
  {
    var m, n :| s.endpoints == map[m := p, n := q] && m != n;
    ServeTwo(s, p, q, m, n);
    SendOn(s.(lists := s.lists + {[p, q]}), c, d, p, q, flying);
  }

  // a holds the token, and b is put and listed.
  lemma BothListed()
    ensures Reachable(3, Three(Fetching(1, 0), Idle(2, 0), FRESH, map["a" := A, "b" := B], 2, Some(B), false, {},
                               {[A, B]}))
  {
    FirstClient();
    var both := map["a" := A, "b" := B];
    var s := Three(Fetching(1, 0), FRESH, FRESH, map["a" := A], 1, None, true, {}, {});
    assert "a" in ClientNames(s.endpoints);
    var s1 := Three(Fetching(1, 0), Idle(2, 0), FRESH, both, 2, Some(B), false, {}, {});
    Move(s, Register("b", Client, 1), s1);
    ServeTwo(s1, A, B, "a", "b");
    assert s1.lists + {[A, B]} == {[A, B]};
  }

  // a forwards the token to b.
  lemma TokenForwarded()
    ensures Reachable(3, Three(Idle(1, 0), Idle(2, 1), FRESH, map["a" := A, "b" := B], 2, Some(B), false, {}, {[A, B]}))
  {
    BothListed();
    var s := Three(Fetching(1, 0), Idle(2, 0), FRESH, map["a" := A, "b" := B], 2, Some(B), false, {}, {[A, B]});
    SendOn(s, 0, 1, A, B, 0);
    assert s.procs[0 := Idle(1, 0)][1 := Idle(2, 1)] == [Idle(1, 0), Idle(2, 1), FRESH];
  }

  // Then a unregisters, and only now the registry counts: b is the only client and gets a second token.
  lemma SecondMint()
    ensures Reachable(3, Three(Idle(1, 0), Idle(2, 2), FRESH, map["b" := B], 2, None, false, {0}, {[A, B]}))
  {
    TokenForwarded();
    var both := map["a" := A, "b" := B];
    var s2 := Three(Idle(1, 0), Idle(2, 1), FRESH, both, 2, Some(B), false, {}, {[A, B]});
    var s3 := Three(Idle(1, 0), Idle(2, 1), FRESH, map["b" := B], 2, Some(B), false, {0}, {[A, B]});
    assert both - {"a"} == map["b" := B];
    Move(s2, Unregister("a"), s3);
    assert ClientNames(s3.endpoints) == {"b"};
    var s4 := Three(Idle(1, 0), Idle(2, 2), FRESH, map["b" := B], 2, None, false, {0}, {[A, B]});
    Move(s3, FinishRegister, s4);
  }

  function ChosenBy(id: int, address: nat): Process {
    Process(id, 1, 0, 0, 0, Chosen(address), false)
  }

  // a holds the token, b is put and listed, a chooses b, and a unregisters before it has sent.
  lemma TokenChosen()
    ensures Reachable(3, Three(ChosenBy(1, 1), Idle(2, 0), FRESH, map["b" := B], 2, Some(B), false, {0}, {[A, B]}))
  {
    BothListed();
    var both := map["a" := A, "b" := B];
    var s1 := Three(Fetching(1, 0), Idle(2, 0), FRESH, both, 2, Some(B), false, {}, {[A, B]});
    NextOfTwo(A, B);
    var s2 := Three(ChosenBy(1, 1), Idle(2, 0), FRESH, both, 2, Some(B), false, {}, {[A, B]});
    Move(s1, Fetch(0, [A, B]), s2);
    assert both - {"a"} == map["b" := B];
    var s3 := Three(ChosenBy(1, 1), Idle(2, 0), FRESH, map["b" := B], 2, Some(B), false, {0}, {[A, B]});
    Move(s2, Unregister("a"), s3);
  }

  // A second way to break uniqueness: the one client counted has no token yet, and right after the mint
  // the registered clients hold one token. But the departed client still sends the first token on.
  lemma MintBreaksLater() returns (s: System, t: System)
    ensures Reachable(3, s) && Mints(s) && s.pending == Some(B) && |s.procs| == 3 && Held(s.procs[B.address]) == 0
    ensures t == Apply(s, FinishRegister) && AtMostOneToken(t)
    ensures Enabled(t, SendToken(0)) && !AtMostOneToken(Apply(t, SendToken(0)))
  {
    TokenChosen();
    s := Three(ChosenBy(1, 1), Idle(2, 0), FRESH, map["b" := B], 2, Some(B), false, {0}, {[A, B]});
    assert ClientNames(s.endpoints) == {"b"};
    t := Three(ChosenBy(1, 1), Idle(2, 1), FRESH, map["b" := B], 2, None, false, {0}, {[A, B]});
    assert Apply(s, FinishRegister) == t;
    assert forall c :: IsRegistered(t, c) ==> c == 1;
    var u := Apply(t, SendToken(0));
    assert "b" in u.endpoints && IsRegistered(u, 1) && Held(u.procs[1]) == 2;
  }

  // A run with an unserialised UNREGISTER after which two registered clients steer the robot at once.
  lemma RaceBreaksExclusion() returns (s: System)
    ensures Reachable(3, s) && !AtMostOneToken(s)
    ensures IsRegistered(s, 1) && IsRegistered(s, 2) && |s.procs| == 3 && s.procs[1].inControl && s.procs[2].inControl
  {
    SecondMint();
    var names := map["b" := B, "c" := C];
    var s0 := Three(Idle(1, 0), Idle(2, 2), FRESH, map["b" := B], 2, None, false, {0}, {[A, B]});
    assert "b" in ClientNames(s0.endpoints);
    var s1 := Three(Idle(1, 0), Idle(2, 2), Idle(3, 0), names, 3, Some(C), false, {0}, {[A, B]});
    Move(s0, Register("c", Client, 2), s1);
    var s2 := Three(Idle(1, 0), Idle(2, 2), Idle(3, 0), names, 3, None, false, {0}, {[A, B]});
    assert ClientNames(names) == {"b", "c"};
    Move(s1, FinishRegister, s2);
    TakeUp(s2, 1, 2, 1);
    var s3 := Three(Idle(1, 0), Fetching(2, 1), Idle(3, 0), names, 3, None, false, {0}, {[A, B]});
    assert s2.procs[1 := Fetching(2, 1)] == s3.procs;
    PassOn(s3, 1, 2, B, C, 1);
    var s4 := Three(Idle(1, 0), Idle(2, 1), Idle(3, 1), names, 3, None, false, {0}, {[A, B], [B, C]});
    assert s3.procs[1 := Idle(2, 1)][2 := Idle(3, 1)] == s4.procs && s3.lists + {[B, C]} == s4.lists;
    TakeControl(s4, 1, 2);
    var busy := s4.(procs := s4.procs[1 := Process(2, 1, 0, 0, 0, Offering, true)]);
    TakeControl(busy, 2, 3);
    s := busy.(procs := busy.procs[2 := Process(3, 1, 0, 0, 0, Offering, true)]);
    assert "b" in s.endpoints && "c" in s.endpoints;
    assert Held(s.procs[1]) == 1 && Held(s.procs[2]) == 1;
  }
}
