/** At most one token among the registered clients, and exactly when a mint breaks that. */
module TokenSafety {
  import opened Basics
  import opened Neighbors
  import opened TokenRing

  ghost predicate GoodPayload(s: System, p: Payload) {
    && 0 < p.id <= s.counter
    && (p.kind.Client? ==> p.address < |s.procs| && s.procs[p.address].id == p.id)
  }

  ghost predicate CurrentClient(s: System, p: Payload) {
    p.address < |s.procs| && s.procs[p.address].era == s.era && p.address !in s.departed
  }

  ghost predicate DifferentIds(s: System, m: string, n: string)
    requires m in s.endpoints && n in s.endpoints
  {
    m != n ==> s.endpoints[m].id != s.endpoints[n].id
  }

  ghost predicate GoodEndpoints(s: System) {
    && (forall name :: name in s.endpoints ==> GoodPayload(s, s.endpoints[name]))
    && (forall name :: name in s.endpoints ==> s.endpoints[name].kind.Client? ==> CurrentClient(s, s.endpoints[name]))
    && (forall m, n :: m in s.endpoints && n in s.endpoints ==> DifferentIds(s, m, n))
  }

  ghost predicate SameEra(s: System, p: Payload, q: Payload) {
    p.kind.Client? && q.kind.Client? ==>
      p.address < |s.procs| && q.address < |s.procs| && s.procs[p.address].era == s.procs[q.address].era
  }

  // All clients of one listing were registered together, so they share an era.
  ghost predicate GoodList(s: System, list: seq<Payload>) {
    && (forall p :: p in list ==> GoodPayload(s, p))
    && DistinctIds(list)
    && (forall p, q :: p in list && q in list ==> SameEra(s, p, q))
  }

  ghost predicate GoodLists(s: System) {
    forall list :: list in s.lists ==> GoodList(s, list)
  }

  ghost predicate GoodProcess(s: System, c: nat)
    requires c < |s.procs|
  {
    var p := s.procs[c];
    && p.id <= s.counter && p.era <= s.era
    && (p.id == 0 ==> Held(p) == 0)
    && (p.manager.Chosen? ==>
      p.manager.address < |s.procs| && p.manager.address != c && s.procs[p.manager.address].id != 0
      && s.procs[p.manager.address].era == p.era)
  }

  ghost predicate GoodProcesses(s: System) {
    forall c :: 0 <= c < |s.procs| ==> GoodProcess(s, c)
  }

  ghost predicate DifferentProcesses(s: System, c: nat, d: nat)
    requires c < |s.procs| && d < |s.procs|
  {
    c != d && s.procs[c].id != 0 ==> s.procs[c].id != s.procs[d].id
  }

  ghost predicate DistinctProcesses(s: System) {
    forall c, d :: 0 <= c < |s.procs| && 0 <= d < |s.procs| ==> DifferentProcesses(s, c, d)
  }

  ghost predicate GoodDeparted(s: System) {
    forall c :: c in s.departed && c < |s.procs| ==> s.procs[c].id != 0
  }

  // Two clients of one era do not both have a token.
  ghost predicate OneHolder(s: System, c: nat, d: nat)
    requires c < |s.procs| && d < |s.procs|
  {
    c != d && s.procs[c].era == s.procs[d].era ==> Held(s.procs[c]) == 0 || Held(s.procs[d]) == 0
  }

  // The clients of one era hold at most one token between them, registered or not.
  ghost predicate OneTokenPerEra(s: System) {
    && (forall c :: 0 <= c < |s.procs| ==> Held(s.procs[c]) <= 1)
    && (forall c, d :: 0 <= c < |s.procs| && 0 <= d < |s.procs| ==> OneHolder(s, c, d))
  }

  // No client of the current era has a token.
  ghost predicate NoTokenYet(s: System) {
    forall c :: 0 <= c < |s.procs| && s.procs[c].era == s.era ==> Held(s.procs[c]) == 0
  }

  // A client that was put into an empty registry opens an era that has no token yet.
  ghost predicate GoodPending(s: System) {
    s.pending.Some? && s.pending.value.kind.Client? ==>
      && s.pending.value.address < |s.procs|
      && s.procs[s.pending.value.address].id == s.pending.value.id > 0
      && s.procs[s.pending.value.address].era == s.era
      && (s.alone ==> NoTokenYet(s))
  }

  // The endpoint being registered is still listed unless it has already left again.
  ghost predicate PendingListed(s: System) {
    s.pending.Some? && s.pending.value.kind.Client? ==>
      || s.pending.value.address in s.departed
      || exists name :: name in s.endpoints && s.endpoints[name] == s.pending.value
  }

  ghost predicate Inv(s: System) {
    && GoodEndpoints(s) && GoodLists(s) && GoodProcesses(s) && DistinctProcesses(s) && GoodDeparted(s)
    && OneTokenPerEra(s) && GoodPending(s) && PendingListed(s)
  }

  lemma InitIsGood(n: nat)
    ensures Inv(Init(n))
  {
  }

  // A client that has registered keeps its id and its era.
  ghost predicate Keeps(s: System, t: System, c: nat)
    requires c < |s.procs| == |t.procs|
  {
    s.procs[c].id != 0 ==> t.procs[c].id == s.procs[c].id && t.procs[c].era == s.procs[c].era
  }

  ghost predicate Grows(s: System, t: System) {
    && |t.procs| == |s.procs| && s.counter <= t.counter && s.era <= t.era
    && forall c :: 0 <= c < |s.procs| ==> Keeps(s, t, c)
  }

  lemma PayloadStaysGood(s: System, t: System, p: Payload)
    requires Grows(s, t) && GoodPayload(s, p)
    ensures GoodPayload(t, p)
    ensures p.kind.Client? ==> t.procs[p.address].era == s.procs[p.address].era
  {
    assert p.kind.Client? ==> Keeps(s, t, p.address);
  }

  lemma ListStaysGood(s: System, t: System, list: seq<Payload>)
    requires Grows(s, t) && GoodList(s, list)
    ensures GoodList(t, list)
  {
    forall p | p in list
      ensures GoodPayload(t, p) && (p.kind.Client? ==> t.procs[p.address].era == s.procs[p.address].era)
    {
      PayloadStaysGood(s, t, p);
    }
    forall p, q | p in list && q in list
      ensures SameEra(t, p, q)
    {
      assert SameEra(s, p, q);
    }
  }

  lemma ListsStayGood(s: System, t: System)
    requires Grows(s, t) && GoodLists(s) && t.lists == s.lists
    ensures GoodLists(t)
  {
    forall list | list in t.lists
      ensures GoodList(t, list)
    {
      ListStaysGood(s, t, list);
    }
  }

  lemma EndpointsStayGood(s: System, t: System)
    requires Grows(s, t) && GoodEndpoints(s)
    requires t.endpoints == s.endpoints && t.era == s.era && t.departed == s.departed
    ensures GoodEndpoints(t)
  {
    forall name | name in t.endpoints
      ensures GoodPayload(t, t.endpoints[name])
      ensures t.endpoints[name].kind.Client? ==> CurrentClient(t, t.endpoints[name])
    {
      PayloadStaysGood(s, t, s.endpoints[name]);
      assert s.endpoints[name].kind.Client? ==> CurrentClient(s, s.endpoints[name]);
    }
    forall m, n | m in t.endpoints && n in t.endpoints
      ensures DifferentIds(t, m, n)
    {
      assert DifferentIds(s, m, n);
    }
  }

  // A process whose manager did not choose anybody new stays well-formed.
  lemma ProcessStaysGood(s: System, t: System, c: nat)
    requires Grows(s, t) && c < |s.procs| && GoodProcess(s, c)
    requires t.procs[c].id == s.procs[c].id && t.procs[c].era == s.procs[c].era
    requires t.procs[c].id == 0 ==> Held(t.procs[c]) == 0
    requires t.procs[c].manager.Chosen? ==> t.procs[c].manager == s.procs[c].manager
    ensures GoodProcess(t, c)
  {
    if t.procs[c].manager.Chosen? {
      assert Keeps(s, t, s.procs[c].manager.address);
    }
  }

  lemma ProcessesStayGood(s: System, t: System)
    requires Grows(s, t) && GoodProcesses(s) && t.procs == s.procs
    ensures GoodProcesses(t)
  {
    forall c | 0 <= c < |t.procs|
      ensures GoodProcess(t, c)
    {
      ProcessStaysGood(s, t, c);
    }
  }

  lemma DistinctStay(s: System, t: System)
    requires DistinctProcesses(s) && t.procs == s.procs
    ensures DistinctProcesses(t)
  {
    forall c, d | 0 <= c < |t.procs| && 0 <= d < |t.procs|
      ensures DifferentProcesses(t, c, d)
    {
      assert DifferentProcesses(s, c, d);
    }
  }

  // Same eras and no more tokens than before.
  ghost predicate FewerTokens(s: System, t: System) {
    && |t.procs| == |s.procs|
    && forall c :: 0 <= c < |s.procs| ==>
      t.procs[c].era == s.procs[c].era && Held(t.procs[c]) <= Held(s.procs[c])
  }

  lemma TokensStayUnique(s: System, t: System)
    requires FewerTokens(s, t) && OneTokenPerEra(s)
    ensures OneTokenPerEra(t)
  {
    forall c, d | 0 <= c < |t.procs| && 0 <= d < |t.procs|
      ensures OneHolder(t, c, d)
    {
      assert OneHolder(s, c, d);
    }
  }

  lemma AfterIsMember(clients: seq<Payload>, i: nat, self: int)
    requires After(clients, i, self).Some?
    ensures i < |clients| && After(clients, i, self).value in clients && After(clients, i, self).value.id != self
  {
  }

  lemma NeighborComesFromList(list: seq<Payload>, self: int) returns (mine: Payload)
    requires NextClient(list, self).Some?
    ensures mine in list && mine.kind.Client? && mine.id == self
    ensures var next := NextClient(list, self).value; next in list && next.kind.Client? && next.id != self
  {
    var clients := SortById(Clients(list));
    SortKeepsMembers(list);
    AfterIsMember(clients, IndexOf(clients, self), self);
    mine := clients[IndexOf(clients, self)];
  }

  // A client only ever chooses somebody of its own era.
  lemma ChosenIsOfSameEra(s: System, c: nat, list: seq<Payload>)
    requires Inv(s) && c < |s.procs| && list in s.lists && NextClient(list, s.procs[c].id).Some?
    ensures var next := NextClient(list, s.procs[c].id).value;
      && next.address < |s.procs| && next.address != c && s.procs[next.address].id != 0
      && s.procs[next.address].era == s.procs[c].era
  {
    var mine := NeighborComesFromList(list, s.procs[c].id);
    var next := NextClient(list, s.procs[c].id).value;
    assert GoodList(s, list);
    assert GoodPayload(s, mine) && GoodPayload(s, next) && SameEra(s, mine, next);
    assert DifferentProcesses(s, c, mine.address);
  }

  // Only tokens and manager states changed.
  ghost predicate SameClients(s: System, t: System) {
    && |t.procs| == |s.procs| && t == s.(procs := t.procs)
    && forall c :: 0 <= c < |s.procs| ==> t.procs[c].id == s.procs[c].id && t.procs[c].era == s.procs[c].era
  }

  lemma SameClientsStayGood(s: System, t: System)
    requires SameClients(s, t)
    requires GoodEndpoints(s) && GoodLists(s) && DistinctProcesses(s) && GoodDeparted(s) && PendingListed(s)
    ensures GoodEndpoints(t) && GoodLists(t) && DistinctProcesses(t) && GoodDeparted(t) && PendingListed(t)
    ensures Grows(s, t)
  {
    EndpointsStayGood(s, t);
    ListsStayGood(s, t);
    forall c, d | 0 <= c < |t.procs| && 0 <= d < |t.procs|
      ensures DifferentProcesses(t, c, d)
    {
      assert DifferentProcesses(s, c, d);
    }
  }

  lemma PendingStaysGood(s: System, t: System)
    requires SameClients(s, t) && FewerTokens(s, t) && GoodPending(s)
    ensures GoodPending(t)
  {
  }

  ghost predicate IsLocal(step: Step) {
    step.Arrive? || step.Vanish? || step.TakeToken? || step.Reclaim? || step.Fetch? || step.FetchFails?
    || step.SendFails? || step.EnterControl? || step.LeaveControl? || step.ControlFails?
  }

  lemma LocalStepCreatesNothing(s: System, step: Step)
    requires IsLocal(step) && Enabled(s, step)
    ensures SameClients(s, Apply(s, step)) && FewerTokens(s, Apply(s, step))
  {
  }

  lemma LocalProcessesAreGood(s: System, step: Step)
    requires Inv(s) && IsLocal(step) && Enabled(s, step) && Grows(s, Apply(s, step))
    ensures GoodProcesses(Apply(s, step))
  {
    var t, c := Apply(s, step), step.c;
    LocalStepCreatesNothing(s, step);
    forall d | 0 <= d < |t.procs|
      ensures GoodProcess(t, d)
    {
      assert GoodProcess(s, d);
      if d == c && step.Fetch? && NextClient(step.list, s.procs[c].id).Some? {
        ChosenIsOfSameEra(s, c, step.list);
      } else {
        ProcessStaysGood(s, t, d);
      }
    }
  }

  // One client's step that creates no token.
  lemma LocalStepIsGood(s: System, step: Step)
    requires Inv(s) && IsLocal(step) && Enabled(s, step)
    ensures Inv(Apply(s, step))
  {
    var t := Apply(s, step);
    LocalStepCreatesNothing(s, step);
    SameClientsStayGood(s, t);
    LocalProcessesAreGood(s, step);
    TokensStayUnique(s, t);
    PendingStaysGood(s, t);
  }

  // The token that c passes on has arrived at, or is on its way to, client d of the same era.
  ghost predicate PassedOn(s: System, t: System, c: nat, d: nat) {
    && SameClients(s, t) && c < |s.procs| && d < |s.procs| && c != d && s.procs[c].era == s.procs[d].era
    && Held(t.procs[c]) == 0 && Held(t.procs[d]) == 1 && Held(s.procs[c]) == 1
    && forall e :: 0 <= e < |s.procs| && e != c && e != d ==> t.procs[e] == s.procs[e]
  }

  lemma PassedTokenIsUnique(s: System, t: System, c: nat, d: nat)
    requires PassedOn(s, t, c, d) && OneTokenPerEra(s)
    ensures OneTokenPerEra(t)
  {
    forall e, f | 0 <= e < |t.procs| && 0 <= f < |t.procs|
      ensures OneHolder(t, e, f)
    {
      assert OneHolder(s, e, f) && OneHolder(s, c, e) && OneHolder(s, c, f);
    }
  }

  lemma SendPassesOn(s: System, c: nat)
    requires GoodProcesses(s) && OneTokenPerEra(s) && Enabled(s, SendToken(c))
    ensures PassedOn(s, Apply(s, SendToken(c)), c, s.procs[c].manager.address)
  {
    var d := s.procs[c].manager.address;
    assert GoodProcess(s, c) && OneHolder(s, c, d);
    assert Held(s.procs[c]) == 1 && Held(s.procs[d]) == 0;
  }

  lemma SendKeepsProcesses(s: System, c: nat)
    requires GoodProcesses(s) && Enabled(s, SendToken(c)) && Grows(s, Apply(s, SendToken(c)))
    requires PassedOn(s, Apply(s, SendToken(c)), c, s.procs[c].manager.address)
    ensures GoodProcesses(Apply(s, SendToken(c)))
  {
    var t := Apply(s, SendToken(c));
    assert GoodProcess(s, c);
    forall e | 0 <= e < |t.procs|
      ensures GoodProcess(t, e)
    {
      assert GoodProcess(s, e);
      ProcessStaysGood(s, t, e);
    }
  }

  lemma SendKeepsPending(s: System, t: System, c: nat, d: nat)
    requires PassedOn(s, t, c, d) && GoodPending(s)
    ensures GoodPending(t)
  {
  }

  // Passing the token on moves it to a client of the same era.
  lemma SendTokenIsGood(s: System, c: nat)
    requires Inv(s) && Enabled(s, SendToken(c))
    ensures Inv(Apply(s, SendToken(c)))
  {
    var t, d := Apply(s, SendToken(c)), s.procs[c].manager.address;
    SendPassesOn(s, c);
    SameClientsStayGood(s, t);
    SendKeepsProcesses(s, c);
    PassedTokenIsUnique(s, t, c, d);
    SendKeepsPending(s, t, c, d);
  }

  // A client of an era without tokens gets one.
  lemma MintedTokenIsUnique(s: System, c: nat)
    requires c < |s.procs| && OneTokenPerEra(s) && s.procs[c].era == s.era && NoTokenYet(s)
    ensures OneTokenPerEra(s.(pending := None, procs := Give(s.procs, c)))
  {
    var t := s.(pending := None, procs := Give(s.procs, c));
    forall e, f | 0 <= e < |t.procs| && 0 <= f < |t.procs|
      ensures OneHolder(t, e, f)
    {
      assert OneHolder(s, e, f);
    }
  }

  lemma FinishKeepsProcesses(s: System)
    requires GoodProcesses(s) && GoodPending(s) && Enabled(s, FinishRegister)
    ensures GoodProcesses(Apply(s, FinishRegister)) && SameClients(s.(pending := None), Apply(s, FinishRegister))
  {
    var r, t := s.(pending := None), Apply(s, FinishRegister);
    assert Grows(s, t);
    forall e | 0 <= e < |t.procs|
      ensures GoodProcess(t, e)
    {
      assert GoodProcess(s, e);
      ProcessStaysGood(s, t, e);
    }
  }

  // The mint, if there is one, falls into an era in which nobody has a token: no registered client and
  // no departed one that could still pass it on.
  ghost predicate MintsSafely(s: System) {
    Mints(s) ==> NoTokenYet(s)
  }

  lemma FinishRegisterIsGood(s: System)
    requires Inv(s) && Enabled(s, FinishRegister) && MintsSafely(s)
    ensures Inv(Apply(s, FinishRegister))
  {
    var r, t := s.(pending := None), Apply(s, FinishRegister);
    assert Grows(s, r);
    EndpointsStayGood(s, r);
    ListsStayGood(s, r);
    DistinctStay(s, r);
    FinishKeepsProcesses(s);
    SameClientsStayGood(r, t);
    if Mints(s) {
      MintedTokenIsUnique(s, s.pending.value.address);
    } else {
      TokensStayUnique(s, t);
    }
  }

  // A mint into an era that has a token makes a second one, wherever the first one is.
  lemma UnsafeMintDoubles(s: System)
    requires Inv(s) && Enabled(s, FinishRegister) && !MintsSafely(s)
    ensures !OneTokenPerEra(Apply(s, FinishRegister))
  {
    var t, a := Apply(s, FinishRegister), s.pending.value.address;
    var c :| 0 <= c < |s.procs| && s.procs[c].era == s.era && Held(s.procs[c]) > 0;
    assert Held(t.procs[a]) == Held(s.procs[a]) + 1;
    if c != a {
      assert t.procs[c] == s.procs[c] && !OneHolder(t, c, a);
    }
  }

  lemma UnregisterKeepsEndpoints(s: System, name: string)
    requires GoodEndpoints(s) && name in s.endpoints
    ensures GoodEndpoints(Apply(s, Unregister(name)))
  {
    var t := Apply(s, Unregister(name));
    forall m | m in t.endpoints
      ensures GoodPayload(t, t.endpoints[m])
      ensures t.endpoints[m].kind.Client? ==> CurrentClient(t, t.endpoints[m])
    {
      assert GoodPayload(s, s.endpoints[m]) && GoodPayload(s, s.endpoints[name]) && DifferentIds(s, m, name);
      assert s.endpoints[m].kind.Client? ==> CurrentClient(s, s.endpoints[m]);
    }
    forall m, n | m in t.endpoints && n in t.endpoints
      ensures DifferentIds(t, m, n)
    {
      assert DifferentIds(s, m, n);
    }
  }

  lemma UnregisterKeepsPending(s: System, name: string)
    requires PendingListed(s) && name in s.endpoints
    ensures PendingListed(Apply(s, Unregister(name)))
  {
    var t := Apply(s, Unregister(name));
    if s.pending.Some? && s.pending.value.kind.Client? && s.pending.value.address !in t.departed {
      var m :| m in s.endpoints && s.endpoints[m] == s.pending.value;
      assert m in t.endpoints && t.endpoints[m] == t.pending.value;
    }
  }

  lemma UnregisterIsGood(s: System, name: string)
    requires Inv(s)
    ensures Inv(Apply(s, Unregister(name)))
  {
    if name in s.endpoints {
      var t := Apply(s, Unregister(name));
      assert Grows(s, t) && FewerTokens(s, t);
      assert GoodPayload(s, s.endpoints[name]);
      UnregisterKeepsEndpoints(s, name);
      ListsStayGood(s, t);
      ProcessesStayGood(s, t);
      DistinctStay(s, t);
      TokensStayUnique(s, t);
      UnregisterKeepsPending(s, name);
    }
  }

  lemma ServedListIsGood(s: System, list: seq<Payload>)
    requires GoodEndpoints(s) && Lists(s.endpoints, list)
    ensures GoodList(s, list)
  {
    forall p | p in list
      ensures exists name :: name in s.endpoints && s.endpoints[name] == p
      ensures GoodPayload(s, p) && (p.kind.Client? ==> CurrentClient(s, p))
    {
      assert p in s.endpoints.Values;
    }
    forall i, j | 0 <= i < j < |list|
      ensures list[i].id != list[j].id
    {
      assert list[i] in list && list[j] in list;
      var m :| m in s.endpoints && s.endpoints[m] == list[i];
      var n :| n in s.endpoints && s.endpoints[n] == list[j];
      assert DifferentIds(s, m, n);
    }
  }

  lemma ServeListIsGood(s: System, list: seq<Payload>)
    requires Inv(s) && Enabled(s, ServeList(list))
    ensures Inv(Apply(s, ServeList(list)))
  {
    var t := Apply(s, ServeList(list));
    assert Grows(s, t) && FewerTokens(s, t);
    ServedListIsGood(s, list);
    forall l | l in t.lists
      ensures GoodList(t, l)
    {
      ListStaysGood(s, t, l);
    }
    EndpointsStayGood(s, t);
    ProcessesStayGood(s, t);
    DistinctStay(s, t);
    TokensStayUnique(s, t);
  }

  // A client process registers under a free name: it gets the next id, and a new era if it is alone.
  ghost predicate Joins(s: System, t: System, name: string, c: nat) {
    && name !in s.endpoints && c < |s.procs| && s.procs[c].id == 0
    && t == Registered(s, name, Client, c)
  }

  lemma JoiningGrows(s: System, t: System, name: string, c: nat)
    requires Joins(s, t, name, c)
    ensures Grows(s, t) && t.counter == s.counter + 1 && t.procs[c].id == t.counter && t.procs[c].era == t.era
    ensures t.endpoints == s.endpoints[name := Payload(t.counter, Client, c)] && t.departed == s.departed
    ensures t.pending == Some(t.endpoints[name]) && t.lists == s.lists
    ensures Held(t.procs[c]) == Held(s.procs[c])
    ensures forall e :: 0 <= e < |s.procs| && e != c ==> t.procs[e] == s.procs[e]
    ensures t.alone <==> ClientNames(s.endpoints) == {}
    ensures t.era == if t.alone then s.era + 1 else s.era
  {
  }

  lemma JoiningKeepsEndpoints(s: System, t: System, name: string, c: nat)
    requires Joins(s, t, name, c) && GoodEndpoints(s) && GoodDeparted(s)
    ensures GoodEndpoints(t)
  {
    JoiningGrows(s, t, name, c);
    forall m | m in t.endpoints
      ensures GoodPayload(t, t.endpoints[m]) && (m != name ==> t.endpoints[m].id <= s.counter)
      ensures t.endpoints[m].kind.Client? ==> CurrentClient(t, t.endpoints[m])
    {
      if m != name {
        PayloadStaysGood(s, t, s.endpoints[m]);
        if s.endpoints[m].kind.Client? {
          assert m in ClientNames(s.endpoints) && CurrentClient(s, s.endpoints[m]);
        }
      }
    }
    forall m, n | m in t.endpoints && n in t.endpoints
      ensures DifferentIds(t, m, n)
    {
      if m != name && n != name {
        assert DifferentIds(s, m, n);
      }
    }
  }

  lemma JoiningKeepsProcesses(s: System, t: System, name: string, c: nat)
    requires Joins(s, t, name, c) && GoodProcesses(s)
    ensures GoodProcesses(t)
  {
    JoiningGrows(s, t, name, c);
    forall e | 0 <= e < |t.procs|
      ensures GoodProcess(t, e)
    {
      assert GoodProcess(s, e);
      if e != c {
        ProcessStaysGood(s, t, e);
      }
    }
  }

  lemma JoiningKeepsDistinct(s: System, t: System, name: string, c: nat)
    requires Joins(s, t, name, c) && GoodProcesses(s) && DistinctProcesses(s)
    ensures DistinctProcesses(t)
  {
    JoiningGrows(s, t, name, c);
    forall d, e | 0 <= d < |t.procs| && 0 <= e < |t.procs|
      ensures DifferentProcesses(t, d, e)
    {
      assert DifferentProcesses(s, d, e) && GoodProcess(s, d) && GoodProcess(s, e);
    }
  }

  lemma JoiningKeepsTokens(s: System, t: System, name: string, c: nat)
    requires Joins(s, t, name, c) && GoodProcesses(s) && OneTokenPerEra(s)
    ensures OneTokenPerEra(t) && GoodPending(t)
  {
    JoiningGrows(s, t, name, c);
    assert GoodProcess(s, c);
    forall d, e | 0 <= d < |t.procs| && 0 <= e < |t.procs|
      ensures OneHolder(t, d, e)
    {
      assert OneHolder(s, d, e);
    }
    forall e | 0 <= e < |t.procs| && t.procs[e].era == t.era && t.alone
      ensures Held(t.procs[e]) == 0
    {
      assert GoodProcess(s, e);
    }
  }

  lemma RegisterClientIsGood(s: System, name: string, c: nat)
    requires Inv(s) && Enabled(s, Register(name, Client, c)) && name !in s.endpoints
    ensures Inv(Apply(s, Register(name, Client, c)))
  {
    var t := Apply(s, Register(name, Client, c));
    JoiningGrows(s, t, name, c);
    JoiningKeepsEndpoints(s, t, name, c);
    ListsStayGood(s, t);
    JoiningKeepsProcesses(s, t, name, c);
    JoiningKeepsDistinct(s, t, name, c);
    JoiningKeepsTokens(s, t, name, c);
  }

  lemma RobotKeepsEndpoints(s: System, t: System, name: string, address: nat)
    requires GoodEndpoints(s) && name !in s.endpoints && t == Registered(s, name, RobotNode, address)
    ensures GoodEndpoints(t)
  {
    forall m | m in t.endpoints
      ensures GoodPayload(t, t.endpoints[m]) && (m != name ==> t.endpoints[m].id <= s.counter)
      ensures t.endpoints[m].kind.Client? ==> CurrentClient(t, t.endpoints[m])
    {
      if m != name {
        assert GoodPayload(s, s.endpoints[m]);
        assert s.endpoints[m].kind.Client? ==> CurrentClient(s, s.endpoints[m]);
      }
    }
    forall m, n | m in t.endpoints && n in t.endpoints
      ensures DifferentIds(t, m, n)
    {
      if m != name && n != name {
        assert DifferentIds(s, m, n);
      }
    }
  }

  lemma RegisterRobotIsGood(s: System, name: string, address: nat)
    requires Inv(s) && Enabled(s, Register(name, RobotNode, address)) && name !in s.endpoints
    ensures Inv(Apply(s, Register(name, RobotNode, address)))
  {
    var t := Apply(s, Register(name, RobotNode, address));
    assert Grows(s, t) && FewerTokens(s, t);
    RobotKeepsEndpoints(s, t, name, address);
    ListsStayGood(s, t);
    ProcessesStayGood(s, t);
    DistinctStay(s, t);
    TokensStayUnique(s, t);
  }

  // Every step keeps the invariant, except exactly the mint into an era that already has a token.
  lemma StepIsGood(s: System, step: Step)
    requires Inv(s) && Enabled(s, step)
    ensures Inv(Apply(s, step)) <==> (step.FinishRegister? ==> MintsSafely(s))
    ensures OneTokenPerEra(Apply(s, step)) <==> (step.FinishRegister? ==> MintsSafely(s))
  {
    match step
    case Register(name, kind, address) =>
      if name in s.endpoints {
      } else if kind.Client? {
        RegisterClientIsGood(s, name, address);
      } else {
        RegisterRobotIsGood(s, name, address);
      }
    case FinishRegister =>
      if MintsSafely(s) {
        FinishRegisterIsGood(s);
      } else {
        UnsafeMintDoubles(s);
      }
    case Unregister(name) => UnregisterIsGood(s, name);
    case ServeList(list) => ServeListIsGood(s, list);
    case SendToken(c) => SendTokenIsGood(s, c);
    case _ => LocalStepIsGood(s, step);
  }

  // No mint of the run falls into an era in which some client, registered or departed, has a token.
  ghost predicate AllMintSafely(s: System, steps: seq<Step>)
    requires IsRun(s, steps)
    decreases |steps|
  {
    steps != [] ==>
      (steps[0].FinishRegister? ==> MintsSafely(s)) && AllMintSafely(Apply(s, steps[0]), steps[1..])
  }

  // One token per era in every state of the run.
  ghost predicate AlwaysOneTokenPerEra(s: System, steps: seq<Step>)
    requires IsRun(s, steps)
    decreases |steps|
  {
    OneTokenPerEra(s) && (steps != [] ==> AlwaysOneTokenPerEra(Apply(s, steps[0]), steps[1..]))
  }

  // Main result for single runs: the tokens of each era stay unique throughout if and only if no mint falls
  // into an era that has one.
  lemma {:induction false} OneTokenIff(s: System, steps: seq<Step>)
    requires Inv(s) && IsRun(s, steps)
    ensures AlwaysOneTokenPerEra(s, steps) <==> AllMintSafely(s, steps)
    ensures AllMintSafely(s, steps) ==> Inv(Final(s, steps))
    decreases |steps|
  {
    if steps != [] {
      var t := Apply(s, steps[0]);
      StepIsGood(s, steps[0]);
      if steps[0].FinishRegister? ==> MintsSafely(s) {
        OneTokenIff(t, steps[1..]);
      } else {
        assert !OneTokenPerEra(t) && !AlwaysOneTokenPerEra(t, steps[1..]);
      }
    }
  }

  // A client that was alone when it was put opened an era without tokens.
  lemma {:induction false} JustifiedMintsAreSafe(s: System, steps: seq<Step>)
    requires Inv(s) && IsRun(s, steps) && AllJustified(s, steps)
    ensures AllMintSafely(s, steps)
    decreases |steps|
  {
    if steps != [] {
      assert steps[0].FinishRegister? ==> MintsSafely(s);
      StepIsGood(s, steps[0]);
      JustifiedMintsAreSafe(Apply(s, steps[0]), steps[1..]);
    }
  }

  lemma RegisteredShareEra(s: System, c: nat)
    requires Inv(s) && IsRegistered(s, c)
    ensures c < |s.procs| && s.procs[c].era == s.era
  {
    var name :| name in s.endpoints && s.endpoints[name].kind.Client? && s.endpoints[name].address == c;
    assert CurrentClient(s, s.endpoints[name]);
  }

  lemma GoodMeansAtMostOne(s: System)
    requires Inv(s)
    ensures AtMostOneToken(s)
  {
    forall c, d | 0 <= c < |s.procs| && 0 <= d < |s.procs| && c != d && IsRegistered(s, c) && IsRegistered(s, d)
      ensures Held(s.procs[c]) == 0 || Held(s.procs[d]) == 0
    {
      RegisteredShareEra(s, c);
      RegisteredShareEra(s, d);
      assert OneHolder(s, c, d);
    }
  }

  // Registered clients hold at most one token between them after every run whose mints are safe, however
  // joins, departures, listings, forwards, failures and robot use interleave.
  lemma TokenIsUnique(n: nat, steps: seq<Step>)
    requires IsRun(Init(n), steps) && AllMintSafely(Init(n), steps)
    ensures AtMostOneToken(Final(Init(n), steps))
  {
    InitIsGood(n);
    OneTokenIff(Init(n), steps);
    GoodMeansAtMostOne(Final(Init(n), steps));
  }

  // Two registered clients are never both steering the robot.
  lemma RobotIsExclusive(n: nat, steps: seq<Step>, c: nat, d: nat)
    requires IsRun(Init(n), steps) && AllMintSafely(Init(n), steps)
    requires var s := Final(Init(n), steps);
      && c < |s.procs| && d < |s.procs| && IsRegistered(s, c) && IsRegistered(s, d)
      && s.procs[c].inControl && s.procs[d].inControl
    ensures c == d
  {
    TokenIsUnique(n, steps);
  }
}
