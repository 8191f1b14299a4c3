/**
 * A behaviour of the clients that turns every unjustified mint into a second token: they keep the token
 * with a registered client, so that the one client counted already holds it.
 */
module TokenStrategy {
  import opened Basics
  import opened Neighbors
  import opened TokenRing
  import opened TokenSafety
  import opened TokenRace
  import opened TokenHistory

  predicate Resting(p: Process) {
    p.manager.Waiting? && Held(p) == 0
  }

  predicate Holding(p: Process) {
    p.manager.Acquired? && Held(p) == 1
  }

  // A client was put into an empty registry and has not been counted yet.
  predicate Unminted(s: System) {
    s.pending.Some? && s.pending.value.kind.Client? && s.alone
  }

  ghost predicate Holder(s: System, h: nat) {
    h < |s.procs| && IsRegistered(s, h) && Holding(s.procs[h])
  }

  ghost predicate Tidy(s: System) {
    && (forall c :: 0 <= c < |s.procs| && s.procs[c].id == 0 ==> Resting(s.procs[c]))
    && (forall c :: 0 <= c < |s.procs| && IsRegistered(s, c) ==> Resting(s.procs[c]) || Holding(s.procs[c]))
    && (Unminted(s) ==> forall name :: name in s.endpoints && s.endpoints[name].kind.Client? ==>
          s.endpoints[name] == s.pending.value)
    && (ClientNames(s.endpoints) != {} && !Unminted(s) ==> exists h :: Holder(s, h))
  }

  // Listings and client steps lead from s to u.
  ghost predicate Settles(s: System, u: System) {
    Realises(s, [], u) && Inv(u) && SameRegistry(u, s)
  }

  lemma SettlesNow(s: System)
    requires Inv(s)
    ensures Settles(s, s)
  {
    RealisesNothing(s);
  }

  lemma SettleStep(s: System, u: System, step: Step)
    requires Settles(s, u) && Enabled(u, step) && !IsRequest(step)
    ensures Settles(s, Apply(u, step))
  {
    StepIsGood(u, step);
    RealisesStep(u, step);
    RealisesBoth(s, [], u, [], Apply(u, step));
    ClientStepKeepsRegistry(u, s, step);
  }

  // A token message reaches a resting client, which takes it up to pass it on.
  lemma TokenTakenUp(s: System, u: System, c: nat) returns (v: System)
    requires Settles(s, u) && c < |u.procs|
    requires u.procs[c].manager.Waiting? && u.procs[c].flying == 1 && Held(u.procs[c]) == 1
    ensures Settles(s, v) && |v.procs| == |u.procs| && v == u.(procs := u.procs[c := v.procs[c]]) && Holding(v.procs[c])
  {
    SettleStep(s, u, Arrive(c));
    var a := Apply(u, Arrive(c));
    SettleStep(s, a, TakeToken(c));
    var b := Apply(a, TakeToken(c));
    SettleStep(s, b, Reclaim(c));
    v := Apply(b, Reclaim(c));
    assert v.procs == u.procs[c := v.procs[c]];
  }

  lemma {:induction false} Enumerate(payloads: set<Payload>) returns (list: seq<Payload>)
    ensures forall p :: p in list <==> p in payloads
    ensures forall i, j :: 0 <= i < j < |list| ==> list[i] != list[j]
  {
    if payloads == {} {
      list := [];
    } else {
      var p :| p in payloads;
      var rest := Enumerate(payloads - {p});
      list := rest + [p];
    }
  }

  lemma ListingExists(endpoints: map<string, Payload>) returns (list: seq<Payload>)
    ensures Lists(endpoints, list)
  {
    list := Enumerate(endpoints.Values);
  }

  // With another client registered, a full listing gives the holder somebody to choose.
  lemma SuccessorExists(s: System, c: nat, list: seq<Payload>, other: nat)
    requires Inv(s) && Lists(s.endpoints, list) && c != other && IsRegistered(s, c) && IsRegistered(s, other)
    ensures c < |s.procs| && NextClient(list, s.procs[c].id).Some?
  {
    var m :| m in s.endpoints && s.endpoints[m].kind.Client? && s.endpoints[m].address == c;
    var n :| n in s.endpoints && s.endpoints[n].kind.Client? && s.endpoints[n].address == other;
    assert GoodPayload(s, s.endpoints[m]) && GoodPayload(s, s.endpoints[n]) && DifferentIds(s, m, n);
    ServedListIsGood(s, list);
    assert s.endpoints[m] in list && s.endpoints[n] in list;
    NoNeighborIff(list, s.procs[c].id);
  }

  // Whom the holder chooses is registered, resting and somebody else.
  lemma SuccessorIsReady(s: System, c: nat, list: seq<Payload>)
    requires Inv(s) && Tidy(s) && Holder(s, c) && Lists(s.endpoints, list)
    requires NextClient(list, s.procs[c].id).Some?
    ensures var d := NextClient(list, s.procs[c].id).value.address;
      d < |s.procs| && d != c && d !in s.departed && IsRegistered(s, d) && Resting(s.procs[d])
  {
    var next := NextClient(list, s.procs[c].id).value;
    var mine := NeighborComesFromList(list, s.procs[c].id);
    assert next in s.endpoints.Values;
    var n :| n in s.endpoints && s.endpoints[n] == next;
    assert GoodPayload(s, s.endpoints[n]) && CurrentClient(s, s.endpoints[n]);
    assert IsRegistered(s, next.address);
    RegisteredShareEra(s, c);
    assert OneHolder(s, c, next.address);
  }

  // The holder fetches a listing and sends the token to the client it chooses.
  lemma TokenSent(s: System, c: nat, list: seq<Payload>, d: nat) returns (sent: System)
    requires Inv(s) && c < |s.procs| && Holding(s.procs[c]) && Lists(s.endpoints, list)
    requires NextClient(list, s.procs[c].id).Some? && NextClient(list, s.procs[c].id).value.address == d
    requires d < |s.procs| && d != c && d !in s.departed && Resting(s.procs[d])
    ensures Settles(s, sent) && |sent.procs| == |s.procs| && Resting(sent.procs[c])
    ensures sent.procs[d] == s.procs[d].(flying := 1)
    ensures forall e :: 0 <= e < |s.procs| && e != c && e != d ==> sent.procs[e] == s.procs[e]
  {
    SettlesNow(s);
    SettleStep(s, s, ServeList(list));
    var listed := Apply(s, ServeList(list));
    SettleStep(s, listed, Fetch(c, list));
    var chosen := Apply(listed, Fetch(c, list));
    SettleStep(s, chosen, SendToken(c));
    sent := Apply(chosen, SendToken(c));
  }

  // The holder hands the token to another registered client.
  lemma TokenHandedOver(s: System, c: nat, other: nat) returns (d: nat, u: System)
    requires Inv(s) && Tidy(s) && Holder(s, c) && c != other && IsRegistered(s, other)
    ensures Settles(s, u) && c != d < |u.procs| && IsRegistered(s, d)
    ensures |u.procs| == |s.procs| && Resting(u.procs[c]) && Holding(u.procs[d])
    ensures forall e :: 0 <= e < |s.procs| && e != c && e != d ==> u.procs[e] == s.procs[e]
  {
    var list := ListingExists(s.endpoints);
    SuccessorExists(s, c, list, other);
    SuccessorIsReady(s, c, list);
    d := NextClient(list, s.procs[c].id).value.address;
    var sent := TokenSent(s, c, list, d);
    u := TokenTakenUp(s, sent, d);
  }

  lemma SameRegistrations(s: System, t: System)
    requires s.endpoints == t.endpoints
    ensures forall c :: IsRegistered(s, c) <==> IsRegistered(t, c)
  {
  }

  lemma HandedOverIsTidy(s: System, u: System, c: nat, d: nat)
    requires Inv(s) && Tidy(s) && Holder(s, c) && Settles(s, u) && c != d < |u.procs| && IsRegistered(s, d)
    requires Resting(u.procs[c]) && Holding(u.procs[d])
    requires forall e :: 0 <= e < |s.procs| && e != c && e != d ==> u.procs[e] == s.procs[e]
    ensures Tidy(u) && Holder(u, d)
  {
    SameRegistrations(s, u);
    assert Holder(u, d);
    RegisteredHasId(s, d);
    forall e | 0 <= e < |u.procs|
      ensures u.procs[e].id == 0 ==> Resting(u.procs[e])
      ensures IsRegistered(u, e) ==> Resting(u.procs[e]) || Holding(u.procs[e])
    {
    }
  }

  lemma RegisteredHasId(s: System, c: nat)
    requires Inv(s) && IsRegistered(s, c)
    ensures c < |s.procs| && s.procs[c].id != 0
  {
    var name :| name in s.endpoints && s.endpoints[name].kind.Client? && s.endpoints[name].address == c;
    assert GoodPayload(s, s.endpoints[name]);
  }

  // After a request has been served the clients can tidy up, as long as the mint, if any, was justified.
  ghost predicate StaysTidy(s: System, step: Step, u: System)
    requires Enabled(s, step)
  {
    Realises(s, [step], u) && Inv(u) && Tidy(u) && SameRegistry(u, Apply(s, step))
  }

  lemma ServedIsTidy(s: System, step: Step)
    requires Inv(s) && Enabled(s, step) && IsRequest(step) && (step.FinishRegister? ==> MintsSafely(s))
    requires Tidy(Apply(s, step))
    ensures StaysTidy(s, step, Apply(s, step))
  {
    StepIsGood(s, step);
    RealisesStep(s, step);
  }

  lemma JoinedIsTidy(s: System, name: string, c: nat)
    requires Inv(s) && Tidy(s) && Enabled(s, Register(name, Client, c)) && name !in s.endpoints
    ensures Tidy(Apply(s, Register(name, Client, c)))
  {
    var t := Apply(s, Register(name, Client, c));
    JoiningGrows(s, t, name, c);
    forall e | 0 <= e < |t.procs| && IsRegistered(t, e)
      ensures Resting(t.procs[e]) || Holding(t.procs[e])
    {
      var m :| m in t.endpoints && t.endpoints[m].kind.Client? && t.endpoints[m].address == e;
      if m != name {
        assert IsRegistered(s, e);
      }
    }
    if Unminted(t) {
      forall m | m in t.endpoints && t.endpoints[m].kind.Client?
        ensures t.endpoints[m] == t.pending.value
      {
        assert m != name ==> m in ClientNames(s.endpoints);
      }
    } else {
      var h :| Holder(s, h);
      RegisteredHasId(s, h);
      StaysHolder(s, t, h);
    }
  }

  // A holder that is still registered and was not touched still holds the token.
  lemma StaysHolder(s: System, t: System, h: nat)
    requires Holder(s, h) && h < |t.procs| && t.procs[h] == s.procs[h]
    requires forall m :: m in s.endpoints && s.endpoints[m].address == h && s.endpoints[m].kind.Client? ==>
      m in t.endpoints && t.endpoints[m] == s.endpoints[m]
    ensures Holder(t, h)
  {
    var m :| m in s.endpoints && s.endpoints[m].kind.Client? && s.endpoints[m].address == h;
    assert m in t.endpoints && t.endpoints[m] == s.endpoints[m];
  }

  lemma RobotJoinedIsTidy(s: System, name: string, address: nat)
    requires Inv(s) && Tidy(s) && Enabled(s, Register(name, RobotNode, address)) && name !in s.endpoints
    ensures Tidy(Apply(s, Register(name, RobotNode, address)))
  {
    var t := Apply(s, Register(name, RobotNode, address));
    assert forall e :: IsRegistered(t, e) ==> IsRegistered(s, e);
    if ClientNames(t.endpoints) != {} {
      var m :| m in ClientNames(t.endpoints);
      assert m in ClientNames(s.endpoints);
      var h :| Holder(s, h);
      StaysHolder(s, t, h);
    }
  }

  // The only client counted takes up the token it has been sent.
  lemma MintTakenUp(s: System) returns (u: System)
    requires Inv(s) && Tidy(s) && Enabled(s, FinishRegister) && Mints(s) && s.alone
    ensures StaysTidy(s, FinishRegister, u)
  {
    var t, a := Apply(s, FinishRegister), s.pending.value.address;
    var name :| name in s.endpoints && s.endpoints[name] == s.pending.value;
    assert IsRegistered(s, a);
    StepIsGood(s, FinishRegister);
    RealisesStep(s, FinishRegister);
    SettlesNow(t);
    u := TokenTakenUp(t, t, a);
    RealisesBoth(s, [FinishRegister], t, [], u);
    assert [FinishRegister] + [] == [FinishRegister];
    SameRegistrations(s, u);
    assert Holder(u, a);
    RegisteredHasId(s, a);
    forall e | 0 <= e < |u.procs|
      ensures u.procs[e].id == 0 ==> Resting(u.procs[e])
      ensures IsRegistered(u, e) ==> Resting(u.procs[e]) || Holding(u.procs[e])
    {
      assert e != a ==> u.procs[e] == s.procs[e];
    }
  }

  lemma LoneClientIsCounted(s: System)
    requires Inv(s) && Tidy(s) && Unminted(s) && ClientNames(s.endpoints) != {}
    ensures Mints(s)
  {
    var name :| name in ClientNames(s.endpoints);
    assert CurrentClient(s, s.endpoints[name]);
    forall m | m in ClientNames(s.endpoints)
      ensures m == name
    {
      assert DifferentIds(s, m, name);
    }
    assert ClientNames(s.endpoints) == {name};
  }

  // Nothing is minted: a client put alone has left again, or the token is elsewhere already.
  lemma UncountedIsTidy(s: System)
    requires Inv(s) && Tidy(s) && Enabled(s, FinishRegister) && !Mints(s)
    ensures Tidy(Apply(s, FinishRegister))
  {
    var t := Apply(s, FinishRegister);
    SameRegistrations(s, t);
    if ClientNames(s.endpoints) != {} {
      if Unminted(s) {
        LoneClientIsCounted(s);
      } else {
        var h :| Holder(s, h);
        assert Holder(t, h);
      }
    }
  }

  lemma FinishStaysTidy(s: System) returns (u: System)
    requires Inv(s) && Tidy(s) && Enabled(s, FinishRegister) && Justified(s)
    ensures StaysTidy(s, FinishRegister, u)
  {
    if Mints(s) {
      u := MintTakenUp(s);
    } else {
      UncountedIsTidy(s);
      ServedIsTidy(s, FinishRegister);
      u := Apply(s, FinishRegister);
    }
  }

  // The one who leaves does not hold the token.
  lemma LeftIsTidy(s: System, name: string)
    requires Inv(s) && Tidy(s) && name in s.endpoints
    requires s.endpoints[name].kind.Client? && ClientNames(s.endpoints) != {name} ==>
      exists h :: Holder(s, h) && h != s.endpoints[name].address
    ensures Tidy(Apply(s, Unregister(name)))
  {
    var t := Apply(s, Unregister(name));
    forall e | IsRegistered(t, e)
      ensures IsRegistered(s, e)
    {
      var m :| m in t.endpoints && t.endpoints[m].kind.Client? && t.endpoints[m].address == e;
      assert m in s.endpoints && s.endpoints[m] == t.endpoints[m];
    }
    if ClientNames(t.endpoints) != {} && !Unminted(t) {
      var m :| m in ClientNames(t.endpoints);
      assert m in ClientNames(s.endpoints) && m != name;
      var h :| Holder(s, h) && (s.endpoints[name].kind.Client? ==> h != s.endpoints[name].address);
      StaysHolder(s, t, h);
    }
  }

  lemma UnregisterStaysTidy(s: System, name: string) returns (u: System)
    requires Inv(s) && Tidy(s) && name in s.endpoints
    ensures StaysTidy(s, Unregister(name), u)
  {
    var p := s.endpoints[name];
    if p.kind.Client? && ClientNames(s.endpoints) != {name} {
      assert name in ClientNames(s.endpoints);
      var other :| other in ClientNames(s.endpoints) && other != name;
      assert DifferentIds(s, name, other) && GoodPayload(s, p) && GoodPayload(s, s.endpoints[other]);
      var h :| Holder(s, h);
      var v := s;
      SettlesNow(s);
      if h == p.address {
        h, v := TokenHandedOver(s, p.address, s.endpoints[other].address);
        HandedOverIsTidy(s, v, p.address, h);
      }
      LeftIsTidy(v, name);
      ServedIsTidy(v, Unregister(name));
      u := Apply(v, Unregister(name));
      RealisesBoth(s, [], v, [Unregister(name)], u);
      assert [] + [Unregister(name)] == [Unregister(name)];
      RequestActsAlike(v, s, Unregister(name));
    } else {
      LeftIsTidy(s, name);
      ServedIsTidy(s, Unregister(name));
      u := Apply(s, Unregister(name));
    }
  }

  lemma RequestStaysTidy(s: System, step: Step) returns (u: System)
    requires Inv(s) && Tidy(s) && Enabled(s, step) && IsRequest(step) && (step.FinishRegister? ==> Justified(s))
    ensures StaysTidy(s, step, u)
  {
    match step
    case FinishRegister => u := FinishStaysTidy(s);
    case Register(name, kind, address) =>
      if name !in s.endpoints {
        if kind.Client? {
          JoinedIsTidy(s, name, address);
        } else {
          RobotJoinedIsTidy(s, name, address);
        }
      }
      ServedIsTidy(s, step);
      u := Apply(s, step);
    case Unregister(name) =>
      if name in s.endpoints {
        u := UnregisterStaysTidy(s, name);
      } else {
        ServedIsTidy(s, step);
        u := Apply(s, step);
      }
  }

  // The client counted already holds the token.
  lemma UnjustifiedMintDoubles(s: System)
    requires Inv(s) && Tidy(s) && Enabled(s, FinishRegister) && !Justified(s)
    ensures !AtMostOneToken(Apply(s, FinishRegister))
  {
    var p := s.pending.value;
    var name :| name in s.endpoints && s.endpoints[name] == p;
    assert name in ClientNames(s.endpoints);
    var h :| Holder(s, h);
    var m :| m in s.endpoints && s.endpoints[m].kind.Client? && s.endpoints[m].address == h;
    OnlyElement(ClientNames(s.endpoints), name, m);
    MintBreaksAtOnceIff(s);
  }

  // s is a tidy state in which the registry is in the state of t.
  ghost predicate Tracks(s: System, t: System) {
    Inv(s) && Tidy(s) && SameRegistry(s, t)
  }

  lemma TracksFurther(s: System, t: System, step: Step) returns (v: System)
    requires Tracks(s, t) && Enabled(t, step) && IsRequest(step) && (step.FinishRegister? ==> Justified(t))
    ensures Tracks(v, Apply(t, step)) && Realises(s, [step], v)
  {
    RequestActsAlike(s, t, step);
    v := RequestStaysTidy(s, step);
  }

  lemma UnjustifiedStepBreaks(s: System, t: System)
    requires Tracks(s, t) && Enabled(t, FinishRegister) && !Justified(t)
    ensures exists u :: Realises(s, [FinishRegister], u) && !AtMostOneToken(u)
  {
    RequestActsAlike(s, t, FinishRegister);
    RealisesStep(s, FinishRegister);
    UnjustifiedMintDoubles(s);
  }

  lemma PrefixGrows(step: Step, served: seq<Step>, history: seq<Step>)
    requires history != [] && history[0] == step && served <= history[1..]
    ensures [step] + served <= history
  {
  }

  lemma {:induction false} UnjustifiedHistoryBreaks(s: System, t: System, history: seq<Step>)
    returns (served: seq<Step>, u: System)
    requires Tracks(s, t) && IsRun(t, history) && AllRequests(history) && !AllJustified(t, history)
    ensures served <= history && Realises(s, served, u) && !AtMostOneToken(u)
    decreases |history|
  {
    var step := history[0];
    if step.FinishRegister? && !Justified(t) {
      UnjustifiedStepBreaks(s, t);
      served := [FinishRegister];
      u :| Realises(s, [FinishRegister], u) && !AtMostOneToken(u);
    } else {
      var v := TracksFurther(s, t, step);
      var rest;
      rest, u := UnjustifiedHistoryBreaks(v, Apply(t, step), history[1..]);
      RealisesBoth(s, [step], v, rest, u);
      served := [step] + rest;
      PrefixGrows(step, rest, history);
    }
  }

  // Main result: a history of registry requests keeps the token unique under every behaviour of the
  // clients if and only if each mint in it is for a client that was put while no other was registered.
  lemma SafeHistoryIff(n: nat, history: seq<Step>)
    requires IsRun(Init(n), history) && AllRequests(history)
    ensures SafeHistory(n, history) <==> AllJustified(Init(n), history)
  {
    if AllJustified(Init(n), history) {
      JustifiedHistoryIsSafe(n, history);
    } else {
      InitIsGood(n);
      var served, u := UnjustifiedHistoryBreaks(Init(n), Init(n), history);
    }
  }
}
