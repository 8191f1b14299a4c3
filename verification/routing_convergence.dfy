/** Exchange rounds make the hop counts exact, one more hop of distance per round. */
module RoutingConvergence {
  import opened RoutingNode
  import opened RoutingNetwork

  // Every node has handled the hello of each of its neighbours.
  ghost predicate HellosDone(g: Graph, s: Net) {
    forall a, b :: Edge(g, a, b) ==> a in s.tables && b in s.tables[a] && s.tables[a][b].hops == 1
  }

  // Between s and t, src generated an update for dst and dst handled all of it. Any other steps, also
  // deliveries of older offers, may lie in between.
  ghost predicate Exchanged(g: Graph, s: Net, t: Net, src: Address, dst: Address) {
    exists m: Net :: Reaches(g, s, m) && Reaches(g, m, t)
      && src in m.tables && Offers(src, dst, m.tables[src]) <= t.handled
  }

  ghost predicate FullRound(g: Graph, s: Net, t: Net) {
    Reaches(g, s, t) && forall src, dst :: Edge(g, src, dst) ==> Exchanged(g, s, t, src, dst)
  }

  ghost predicate ExactEntry(s: Net, a: Address, target: Address, d: nat) {
    a in s.tables && target in s.tables[a] && s.tables[a][target].hops == d
  }

  // All entries for targets at distance 1..k are exact.
  ghost predicate Accurate(g: Graph, s: Net, k: nat) {
    forall a, target, d: nat ::
      a in g.nodes && 1 <= d <= k && IsDistance(g, a, target, d) ==> ExactEntry(s, a, target, d)
  }

  // The first step of a shortest walk.
  lemma CloserNeighbour(g: Graph, a: Address, target: Address, d: nat) returns (c: Address)
    requires IsDistance(g, a, target, d) && d > 0
    ensures Edge(g, a, c) && IsDistance(g, c, target, d - 1)
  {
    c :| Edge(g, a, c) && Walk(g, c, target, d - 1);
    forall k: nat | k < d - 1
      ensures !Walk(g, c, target, k)
    {
      if Walk(g, c, target, k) {
        WalkStep(g, a, c, target, k);
      }
    }
  }

  lemma HellosAreAccurate(g: Graph, s: Net)
    requires HellosDone(g, s)
    ensures Accurate(g, s, 1)
  {
    forall a, target, d: nat | a in g.nodes && 1 <= d <= 1 && IsDistance(g, a, target, d)
      ensures ExactEntry(s, a, target, d)
    {
      var c := CloserNeighbour(g, a, target, d);
      assert c == target;
    }
  }

  lemma NextHopIsWithin(g: Graph, m: Net, a: Address, target: Address, d: nat)
    requires Sound(g, m) && a in m.tables && target in m.tables[a]
    requires IsDistance(g, m.tables[a][target].via, target, d)
    ensures d < m.tables[a][target].hops
  {
    var e := m.tables[a][target];
    assert SoundEntry(g, m, a, target);
    if e.via == target {
      assert Walk(g, e.via, target, 0);
    } else {
      assert SoundEntry(g, m, e.via, target);
    }
  }

  lemma ZeroDistance(g: Graph, a: Address, b: Address, d: nat)
    requires IsDistance(g, a, b, d)
    ensures d == 0 <==> a == b
  {
    if a == b {
      assert Walk(g, a, b, 0);
    }
  }

  // Split horizon never withholds a route that its addressee needs.
  lemma NeededRouteIsOffered(g: Graph, m: Net, src: Address, dst: Address, target: Address, d: nat)
    requires WellFormed(g) && Sound(g, m)
    requires Edge(g, dst, src) && IsDistance(g, dst, target, d + 1) && d > 0
    requires ExactEntry(m, src, target, d)
    ensures Offer(src, dst, target, d) in Offers(src, dst, m.tables[src])
  {
    var e := m.tables[src][target];
    assert SoundEntry(g, m, src, target);
    if e.via == dst {
      NextHopIsWithin(g, m, src, target, d + 1);
    }
    assert Route(target, d) in Advertised(m.tables[src], dst);
  }

  // Split horizon: what a node sends to a neighbour are exactly the routes that do not lead through it, ...
  lemma SplitHorizonIsExact(g: Graph, m: Net, src: Address, dst: Address, target: Address)
    requires Sound(g, m) && src in m.tables && target in m.tables[src]
    ensures Offer(src, dst, target, m.tables[src][target].hops) in Offers(src, dst, m.tables[src])
      <==> m.tables[src][target].via != dst
  {
    var table := m.tables[src];
    var r := Route(target, table[target].hops);
    assert SoundEntry(g, m, src, target);
    if r in Advertised(table, dst) {
      var t :| t in table && table[t].via != dst && Route(table[t].target, table[t].hops) == r;
      assert SoundEntry(g, m, src, t);
    }
  }

  // ... and what is withheld would not help: the neighbour is the target or has a route that is shorter.
  lemma WithheldRouteIsUseless(g: Graph, m: Net, src: Address, dst: Address, target: Address)
    requires Sound(g, m) && src in m.tables && target in m.tables[src] && m.tables[src][target].via == dst
    ensures dst == target
      || (dst in m.tables && target in m.tables[dst] && m.tables[dst][target].hops < m.tables[src][target].hops
          && !Improves(m.tables[dst], Entry(target, m.tables[src][target].hops + 1, src)))
  {
    assert SoundEntry(g, m, src, target);
  }

  lemma RoundExtendsAccuracy(g: Graph, s: Net, t: Net, k: nat)
    requires WellFormed(g) && Sound(g, s) && FullRound(g, s, t) && k > 0 && Accurate(g, s, k)
    ensures Accurate(g, t, k + 1)
  {
    ReachedIsSound(g, s, t);
    forall a, target, d: nat | a in g.nodes && 1 <= d <= k + 1 && IsDistance(g, a, target, d)
      ensures ExactEntry(t, a, target, d)
    {
      if d <= k {
        assert ExactEntry(s, a, target, d);
      } else {
        var b := CloserNeighbour(g, a, target, d);
        assert Edge(g, b, a);
        assert Exchanged(g, s, t, b, a);
        var m :| Reaches(g, s, m) && Reaches(g, m, t) && b in m.tables && Offers(b, a, m.tables[b]) <= t.handled;
        ReachedIsSound(g, s, m);
        assert ExactEntry(s, b, target, k);
        assert SoundEntry(g, m, b, target);
        NeededRouteIsOffered(g, m, b, a, target, k);
        assert HandledOffer(t, Offer(b, a, target, k));
      }
      assert SoundEntry(g, t, a, target);
    }
  }

  // Main result: after the hellos and r full rounds every hop count up to distance r + 1 is exact.
  lemma {:induction false} RoundsMakeDistancesExact(g: Graph, states: seq<Net>, r: nat)
    requires WellFormed(g) && |states| == r + 1
    requires Reaches(g, Init(g), states[0]) && HellosDone(g, states[0])
    requires forall i :: 0 <= i < r ==> FullRound(g, states[i], states[i + 1])
    ensures Reaches(g, Init(g), states[r]) && Accurate(g, states[r], r + 1)
  {
    if r == 0 {
      HellosAreAccurate(g, states[0]);
    } else {
      assert states[..r][r - 1] == states[r - 1];
      RoundsMakeDistancesExact(g, states[..r], r - 1);
      InitIsSound(g);
      ReachedIsSound(g, Init(g), states[r - 1]);
      assert FullRound(g, states[r - 1], states[r - 1 + 1]);
      RoundExtendsAccuracy(g, states[r - 1], states[r], r);
      ReachesIsTransitive(g, Init(g), states[r - 1], states[r]);
    }
  }

  lemma {:induction false} HandledOnlyGrows(g: Graph, s: Net, steps: seq<Step>)
    requires IsRun(g, s, steps)
    ensures s.handled <= Final(g, s, steps).handled
    decreases |steps|
  {
    if steps != [] {
      HandledOnlyGrows(g, Apply(g, s, steps[0]), steps[1..]);
    }
  }

  lemma {:induction false} ListOf(routes: set<Route>) returns (list: seq<Route>)
    ensures ElementsOf(list) == routes
  {
    if routes == {} {
      list := [];
    } else {
      var r :| r in routes;
      var rest := ListOf(routes - {r});
      list := [r] + rest;
      assert forall x :: x in list <==> x == r || x in rest;
      assert forall x :: x in rest <==> x in ElementsOf(rest);
    }
  }

  // One exchange on one link is always possible once the hello has been handled.
  lemma ExchangeIsPossible(g: Graph, s: Net, src: Address, dst: Address) returns (t: Net)
    requires WellFormed(g) && Sound(g, s) && Edge(g, src, dst) && HellosDone(g, s)
    ensures Reaches(g, s, t) && Offers(src, dst, s.tables[src]) <= t.handled
  {
    assert SoundEntry(g, s, src, dst);
    var step := Propagate(src, dst);
    var m := Apply(g, s, step);
    SingleStep(g, s, step);
    var routes := ListOf(Advertised(s.tables[src], dst));
    forall r | r in routes
      ensures r in Advertised(s.tables[src], dst)
    {
      assert r in ElementsOf(routes);
    }
    assert Edge(g, dst, src);
    RoutingInfoIsHandledOffers(g, m, src, dst, routes);
    t := Net(m.tables[dst := AfterRoutes(m.tables[dst], src, routes)], m.sent, m.handled + OffersOf(src, dst, routes));
    ReachesIsTransitive(g, s, m, t);
    forall o | o in Offers(src, dst, s.tables[src])
      ensures o in t.handled
    {
      assert Route(o.target, o.hops) in ElementsOf(routes);
    }
  }

  lemma ExchangedLater(g: Graph, s: Net, t: Net, u: Net, src: Address, dst: Address)
    requires Exchanged(g, s, t, src, dst) && Reaches(g, t, u)
    ensures Exchanged(g, s, u, src, dst)
  {
    var m :| Reaches(g, s, m) && Reaches(g, m, t) && src in m.tables && Offers(src, dst, m.tables[src]) <= t.handled;
    ReachesIsTransitive(g, m, t, u);
    var steps :| IsRun(g, t, steps) && Final(g, t, steps) == u;
    HandledOnlyGrows(g, t, steps);
  }

  lemma {:induction false} ExchangesArePossible(g: Graph, s: Net, links: set<(Address, Address)>) returns (t: Net)
    requires WellFormed(g) && Sound(g, s) && HellosDone(g, s) && links <= g.edges
    ensures Reaches(g, s, t) && forall l :: l in links ==> Exchanged(g, s, t, l.0, l.1)
    decreases links
  {
    if links == {} {
      t := s;
      assert IsRun(g, s, []) && Final(g, s, []) == s;
    } else {
      var link :| link in links;
      var u := ExchangesArePossible(g, s, links - {link});
      ReachedIsSound(g, s, u);
      HellosStayDone(g, s, u);
      assert link == (link.0, link.1);
      assert Edge(g, link.0, link.1);
      t := ExchangeIsPossible(g, u, link.0, link.1);
      ReachesIsTransitive(g, s, u, t);
      forall l | l in links
        ensures Exchanged(g, s, t, l.0, l.1)
      {
        if l != link {
          ExchangedLater(g, s, u, t, l.0, l.1);
        }
      }
    }
  }

  lemma HellosStayDone(g: Graph, s: Net, t: Net)
    requires WellFormed(g) && Sound(g, t) && Improved(s, t) && HellosDone(g, s)
    ensures HellosDone(g, t)
  {
    forall a, b | Edge(g, a, b)
      ensures a in t.tables && b in t.tables[a] && t.tables[a][b].hops == 1
    {
      assert SoundEntry(g, t, a, b);
    }
  }

  // Rounds exist: from any sound state whose hellos are done a full round can be completed.
  lemma FullRoundIsPossible(g: Graph, s: Net) returns (t: Net)
    requires WellFormed(g) && Sound(g, s) && HellosDone(g, s)
    ensures FullRound(g, s, t) && Sound(g, t) && HellosDone(g, t)
  {
    t := ExchangesArePossible(g, s, g.edges);
    ReachedIsSound(g, s, t);
    HellosStayDone(g, s, t);
    forall src, dst | Edge(g, src, dst)
      ensures Exchanged(g, s, t, src, dst)
    {
      var l := (src, dst);
      assert l in g.edges;
    }
  }

  ghost predicate HelloHandled(s: Net, a: Address, b: Address) {
    a in s.tables && b in s.tables[a] && s.tables[a][b].hops == 1
  }

  lemma HelloStaysHandled(g: Graph, s: Net, t: Net, a: Address, b: Address)
    requires Sound(g, t) && Improved(s, t) && HelloHandled(s, a, b)
    ensures HelloHandled(t, a, b)
  {
    assert SoundEntry(g, t, a, b);
  }

  lemma HelloIsPossible(g: Graph, s: Net, a: Address, b: Address) returns (t: Net)
    requires WellFormed(g) && Sound(g, s) && Edge(g, a, b)
    ensures Reaches(g, s, t) && Sound(g, t) && Improved(s, t) && HelloHandled(t, a, b)
  {
    assert Edge(g, b, a);
    var step := Hello(b, a);
    t := Apply(g, s, step);
    SingleStep(g, s, step);
    StepIsSound(g, s, step);
    assert SoundEntry(g, t, a, b);
  }

  lemma {:induction false} HellosArePossible(g: Graph, links: set<(Address, Address)>) returns (t: Net)
    requires WellFormed(g) && links <= g.edges
    ensures Reaches(g, Init(g), t) && Sound(g, t) && forall l :: l in links ==> HelloHandled(t, l.0, l.1)
    decreases links
  {
    InitIsSound(g);
    if links == {} {
      t := Init(g);
      assert IsRun(g, t, []) && Final(g, t, []) == t;
    } else {
      var link :| link in links;
      var s := HellosArePossible(g, links - {link});
      assert link == (link.0, link.1);
      assert Edge(g, link.0, link.1);
      t := HelloIsPossible(g, s, link.0, link.1);
      ReachesIsTransitive(g, Init(g), s, t);
      forall l | l in links
        ensures HelloHandled(t, l.0, l.1)
      {
        if l != link {
          HelloStaysHandled(g, s, t, l.0, l.1);
        }
      }
    }
  }

  // The hellos can be done on every graph.
  lemma HellosCanBeDone(g: Graph) returns (s: Net)
    requires WellFormed(g)
    ensures Reaches(g, Init(g), s) && Sound(g, s) && HellosDone(g, s)
  {
    s := HellosArePossible(g, g.edges);
    forall a, b | Edge(g, a, b)
      ensures HelloHandled(s, a, b)
    {
      var l := (a, b);
      assert l in g.edges;
    }
  }

  // A history of states: the hellos, then r full rounds.
  ghost predicate Rounds(g: Graph, states: seq<Net>, r: nat) {
    && |states| == r + 1 && Reaches(g, Init(g), states[0]) && HellosDone(g, states[0])
    && forall i :: 0 <= i < r ==> FullRound(g, states[i], states[i + 1])
  }

  // Exact distances are within reach on every graph, up to any distance.
  lemma {:induction false} DistancesCanBecomeExact(g: Graph, r: nat) returns (states: seq<Net>)
    requires WellFormed(g)
    ensures Rounds(g, states, r) && Sound(g, states[r]) && HellosDone(g, states[r])
    ensures Accurate(g, states[r], r + 1)
  {
    if r == 0 {
      var s := HellosCanBeDone(g);
      states := [s];
    } else {
      var earlier := DistancesCanBecomeExact(g, r - 1);
      var t := FullRoundIsPossible(g, earlier[r - 1]);
      states := earlier + [t];
      forall i | 0 <= i < r
        ensures FullRound(g, states[i], states[i + 1])
      {
        if i < r - 1 {
          assert FullRound(g, earlier[i], earlier[i + 1]);
        }
      }
    }
    RoundsMakeDistancesExact(g, states, r);
  }

  // An entry stays as it is, next hop included, or gives way to a strictly shorter route.
  ghost predicate EntryStable(s: Net, t: Net, a: Address, target: Address)
    requires a in s.tables && target in s.tables[a]
  {
    && a in t.tables && target in t.tables[a]
    && (t.tables[a][target] == s.tables[a][target] || t.tables[a][target].hops < s.tables[a][target].hops)
  }

  ghost predicate Stable(s: Net, t: Net) {
    forall a, target {:trigger EntryStable(s, t, a, target)} ::
      a in s.tables && target in s.tables[a] ==> EntryStable(s, t, a, target)
  }

  lemma StepIsStable(g: Graph, s: Net, step: Step)
    requires Enabled(g, s, step)
    ensures Stable(s, Apply(g, s, step))
  {
  }

  lemma {:induction false} RunIsStable(g: Graph, s: Net, steps: seq<Step>)
    requires IsRun(g, s, steps)
    ensures Stable(s, Final(g, s, steps))
    decreases |steps|
  {
    if steps != [] {
      var t := Apply(g, s, steps[0]);
      StepIsStable(g, s, steps[0]);
      RunIsStable(g, t, steps[1..]);
      forall a, target | a in s.tables && target in s.tables[a]
        ensures EntryStable(s, Final(g, t, steps[1..]), a, target)
      {
        assert EntryStable(s, t, a, target);
        assert EntryStable(t, Final(g, t, steps[1..]), a, target);
      }
    }
  }

  // Main result: among equally long routes the first one stays. In every run an entry changes only for a
  // strictly shorter route.
  lemma RoutesAreStable(g: Graph, s: Net, t: Net)
    requires Reaches(g, s, t)
    ensures Stable(s, t)
  {
    var steps :| IsRun(g, s, steps) && Final(g, s, steps) == t;
    RunIsStable(g, s, steps);
  }

  // So an exact entry never changes again: next hops settle together with the distances.
  lemma ExactEntriesAreFinal(g: Graph, s: Net, t: Net, k: nat, a: Address, target: Address, d: nat)
    requires WellFormed(g) && Sound(g, s) && Accurate(g, s, k) && Reaches(g, s, t)
    requires a in g.nodes && 1 <= d <= k && IsDistance(g, a, target, d)
    ensures a in s.tables && target in s.tables[a]
    ensures a in t.tables && target in t.tables[a] && t.tables[a][target] == s.tables[a][target]
  {
    assert ExactEntry(s, a, target, d);
    RoutesAreStable(g, s, t);
    ReachedIsSound(g, s, t);
    assert EntryStable(s, t, a, target) && SoundEntry(g, t, a, target);
  }
}
