/** All nodes together: hellos, routing updates under any delay, reordering, loss or repetition. */
module RoutingNetwork {
  import opened RoutingNode

  // A fixed topology. Links work in both directions.
  datatype Graph = Graph(nodes: set<Address>, edges: set<(Address, Address)>)

  predicate Edge(g: Graph, a: Address, b: Address) {
    (a, b) in g.edges
  }

  ghost predicate WellFormed(g: Graph) {
    forall a, b :: Edge(g, a, b) ==> a in g.nodes && b in g.nodes && Edge(g, b, a)
  }

  ghost predicate Walk(g: Graph, a: Address, b: Address, k: nat)
    decreases k
  {
    if k == 0 then a == b else exists c :: Edge(g, a, c) && Walk(g, c, b, k - 1)
  }

  ghost predicate IsDistance(g: Graph, a: Address, b: Address, d: nat) {
    Walk(g, a, b, d) && forall k: nat :: k < d ==> !Walk(g, a, b, k)
  }

  // One route of a routing message on its way from src to dst.
  datatype Offer = Offer(src: Address, dst: Address, target: Address, hops: int)

  // `sent`: every offer ever sent; `handled`: every offer its addressee has processed at least once.
  datatype Net = Net(tables: map<Address, Table>, sent: set<Offer>, handled: set<Offer>)

  datatype Step =
    | Hello(src: Address, dst: Address)
    | Propagate(src: Address, neighbor: Address)
    | Handle(offer: Offer)

  function Offers(src: Address, dst: Address, table: Table): set<Offer> {
    set r | r in Advertised(table, dst) :: Offer(src, dst, r.target, r.hops)
  }

  predicate Enabled(g: Graph, s: Net, step: Step) {
    match step
    case Hello(src, dst) => Edge(g, src, dst) && dst in s.tables
    case Propagate(src, neighbor) =>
      src in s.tables && neighbor in s.tables[src] && s.tables[src][neighbor].hops == 1
    case Handle(offer) => offer in s.sent && offer.dst in s.tables
  }

  function Apply(g: Graph, s: Net, step: Step): Net
    requires Enabled(g, s, step)
  {
    match step
    case Hello(src, dst) => s.(tables := s.tables[dst := Greeted(s.tables[dst], src)])
    case Propagate(src, neighbor) =>
      s.(sent := s.sent + Offers(src, s.tables[src][neighbor].via, s.tables[src]))
    case Handle(offer) =>
      s.(tables := s.tables[offer.dst := Updated(s.tables[offer.dst], offer.target, offer.hops + 1, offer.src)],
         handled := s.handled + {offer})
  }

  function Init(g: Graph): Net {
    Net(map a | a in g.nodes :: map[], {}, {})
  }

  ghost predicate IsRun(g: Graph, s: Net, steps: seq<Step>)
    decreases |steps|
  {
    steps == [] || (Enabled(g, s, steps[0]) && IsRun(g, Apply(g, s, steps[0]), steps[1..]))
  }

  ghost function Final(g: Graph, s: Net, steps: seq<Step>): Net
    requires IsRun(g, s, steps)
    decreases |steps|
  {
    if steps == [] then s else Final(g, Apply(g, s, steps[0]), steps[1..])
  }

  ghost predicate Reaches(g: Graph, s: Net, t: Net) {
    exists steps :: IsRun(g, s, steps) && Final(g, s, steps) == t
  }

  // An entry's hop count is the length of a real walk, and the next hop is strictly closer.
  ghost predicate SoundEntry(g: Graph, s: Net, a: Address, target: Address)
    requires a in s.tables && target in s.tables[a]
  {
    var e := s.tables[a][target];
    && e.target == target && e.hops >= 1
    && Edge(g, a, e.via)
    && Walk(g, a, target, e.hops)
    && (e.hops == 1 ==> e.via == target)
    && (e.via != target ==>
      e.via in s.tables && target in s.tables[e.via] && s.tables[e.via][target].hops <= e.hops - 1)
  }

  ghost predicate SoundOffer(g: Graph, s: Net, o: Offer) {
    && Edge(g, o.src, o.dst) && o.hops >= 1
    && Walk(g, o.src, o.target, o.hops)
    && o.src in s.tables && o.target in s.tables[o.src] && s.tables[o.src][o.target].hops <= o.hops
  }

  ghost predicate HandledOffer(s: Net, o: Offer) {
    o.dst in s.tables && o.target in s.tables[o.dst] && s.tables[o.dst][o.target].hops <= o.hops + 1
  }

  ghost predicate Sound(g: Graph, s: Net) {
    && s.tables.Keys == g.nodes
    && (forall a, t {:trigger SoundEntry(g, s, a, t)} :: a in s.tables && t in s.tables[a] ==> SoundEntry(g, s, a, t))
    && (forall o :: o in s.sent ==> SoundOffer(g, s, o))
    && (forall o :: o in s.handled ==> HandledOffer(s, o))
  }

  // Entries are never dropped and hop counts never rise.
  ghost predicate Improved(s: Net, t: Net) {
    && s.tables.Keys == t.tables.Keys
    && forall a, target :: a in s.tables && target in s.tables[a] ==>
      target in t.tables[a] && t.tables[a][target].hops <= s.tables[a][target].hops
  }

  lemma WalkStep(g: Graph, a: Address, c: Address, b: Address, k: nat)
    requires Edge(g, a, c) && Walk(g, c, b, k)
    ensures Walk(g, a, b, k + 1)
  {
  }

  // Writing one sound entry keeps the invariant.
  lemma UpdateIsSound(g: Graph, s: Net, a: Address, target: Address, hops: int, via: Address, handled: set<Offer>)
    requires WellFormed(g) && Sound(g, s) && Edge(g, a, via) && hops >= 1
    requires Walk(g, a, target, hops) && (hops == 1 ==> via == target)
    requires via != target ==> target in s.tables[via] && s.tables[via][target].hops <= hops - 1
    requires forall o :: o in handled ==> o in s.handled || (o.dst == a && o.target == target && hops == o.hops + 1)
    ensures var t := Net(s.tables[a := Updated(s.tables[a], target, hops, via)], s.sent, handled);
      Sound(g, t) && Improved(s, t)
  {
    var t := Net(s.tables[a := Updated(s.tables[a], target, hops, via)], s.sent, handled);
    assert Improved(s, t);
    forall b, x | b in t.tables && x in t.tables[b]
      ensures SoundEntry(g, t, b, x)
    {
      if (b, x) != (a, target) || t.tables[a] == s.tables[a] {
        assert t.tables[b][x] == s.tables[b][x];
        assert SoundEntry(g, s, b, x);
      }
    }
    forall o | o in t.handled
      ensures HandledOffer(t, o)
    {
      assert o in s.handled ==> HandledOffer(s, o);
    }
  }

  lemma HelloIsSound(g: Graph, s: Net, src: Address, dst: Address)
    requires WellFormed(g) && Sound(g, s) && Enabled(g, s, Hello(src, dst))
    ensures Sound(g, Apply(g, s, Hello(src, dst))) && Improved(s, Apply(g, s, Hello(src, dst)))
  {
    WalkStep(g, dst, src, src, 0);
    UpdateIsSound(g, s, dst, src, 1, src, s.handled);
  }

  lemma PropagateIsSound(g: Graph, s: Net, src: Address, neighbor: Address)
    requires WellFormed(g) && Sound(g, s) && Enabled(g, s, Propagate(src, neighbor))
    ensures Sound(g, Apply(g, s, Propagate(src, neighbor)))
  {
    var t := Apply(g, s, Propagate(src, neighbor));
    assert SoundEntry(g, s, src, neighbor);
    forall o | o in t.sent
      ensures SoundOffer(g, t, o)
    {
      if o in s.sent {
        assert SoundOffer(g, s, o);
      } else {
        var x :| x in s.tables[src]
          && Route(s.tables[src][x].target, s.tables[src][x].hops) == Route(o.target, o.hops);
        assert SoundEntry(g, s, src, x);
      }
    }
    forall a, x | a in t.tables && x in t.tables[a]
      ensures SoundEntry(g, t, a, x)
    {
      assert SoundEntry(g, s, a, x);
    }
    forall o | o in t.handled
      ensures HandledOffer(t, o)
    {
      assert HandledOffer(s, o);
    }
  }

  lemma HandleIsSound(g: Graph, s: Net, o: Offer)
    requires WellFormed(g) && Sound(g, s) && Enabled(g, s, Handle(o))
    ensures Sound(g, Apply(g, s, Handle(o))) && Improved(s, Apply(g, s, Handle(o)))
  {
    assert SoundOffer(g, s, o);
    assert Edge(g, o.dst, o.src) by {
      assert Edge(g, o.src, o.dst);
    }
    assert Walk(g, o.dst, o.target, o.hops + 1) by {
      WalkStep(g, o.dst, o.src, o.target, o.hops);
    }
    UpdateIsSound(g, s, o.dst, o.target, o.hops + 1, o.src, s.handled + {o});
    assert Apply(g, s, Handle(o))
      == Net(s.tables[o.dst := Updated(s.tables[o.dst], o.target, o.hops + 1, o.src)], s.sent, s.handled + {o});
  }

  lemma StepIsSound(g: Graph, s: Net, step: Step)
    requires WellFormed(g) && Sound(g, s) && Enabled(g, s, step)
    ensures Sound(g, Apply(g, s, step)) && Improved(s, Apply(g, s, step))
  {
    match step
    case Hello(src, dst) => HelloIsSound(g, s, src, dst);
    case Propagate(src, neighbor) => PropagateIsSound(g, s, src, neighbor);
    case Handle(o) => HandleIsSound(g, s, o);
  }

  lemma {:induction false} RunIsSound(g: Graph, s: Net, steps: seq<Step>)
    requires WellFormed(g) && Sound(g, s) && IsRun(g, s, steps)
    ensures Sound(g, Final(g, s, steps)) && Improved(s, Final(g, s, steps))
    decreases |steps|
  {
    if steps != [] {
      StepIsSound(g, s, steps[0]);
      RunIsSound(g, Apply(g, s, steps[0]), steps[1..]);
    }
  }

  lemma ReachedIsSound(g: Graph, s: Net, t: Net)
    requires WellFormed(g) && Sound(g, s) && Reaches(g, s, t)
    ensures Sound(g, t) && Improved(s, t)
  {
    var steps :| IsRun(g, s, steps) && Final(g, s, steps) == t;
    RunIsSound(g, s, steps);
  }

  lemma InitIsSound(g: Graph)
    ensures Sound(g, Init(g))
  {
  }

  // Main result: in every reachable state no hop count is below the true distance, and along next hops
  // the hop counts fall strictly.
  lemma HopCountsAreSound(g: Graph, s: Net, a: Address, target: Address, d: nat)
    requires WellFormed(g) && Reaches(g, Init(g), s)
    requires a in s.tables && target in s.tables[a] && IsDistance(g, a, target, d)
    ensures s.tables[a][target].hops >= d
    ensures var via := s.tables[a][target].via;
      via != target ==>
        via in s.tables && target in s.tables[via] && s.tables[via][target].hops < s.tables[a][target].hops
  {
    InitIsSound(g);
    ReachedIsSound(g, Init(g), s);
    assert SoundEntry(g, s, a, target);
  }

  lemma {:induction false} RunsCompose(g: Graph, s: Net, first: seq<Step>, second: seq<Step>)
    requires IsRun(g, s, first) && IsRun(g, Final(g, s, first), second)
    ensures IsRun(g, s, first + second)
    ensures Final(g, s, first + second) == Final(g, Final(g, s, first), second)
    decreases |first|
  {
    if first == [] {
      assert first + second == second;
    } else {
      assert (first + second)[1..] == first[1..] + second;
      RunsCompose(g, Apply(g, s, first[0]), first[1..], second);
    }
  }

  lemma ReachesIsTransitive(g: Graph, s: Net, t: Net, u: Net)
    requires Reaches(g, s, t) && Reaches(g, t, u)
    ensures Reaches(g, s, u)
  {
    var first :| IsRun(g, s, first) && Final(g, s, first) == t;
    var second :| IsRun(g, t, second) && Final(g, t, second) == u;
    RunsCompose(g, s, first, second);
  }

  lemma SingleStep(g: Graph, s: Net, step: Step)
    requires Enabled(g, s, step)
    ensures Reaches(g, s, Apply(g, s, step))
  {
    var steps, t := [step], Apply(g, s, step);
    assert steps[0] == step && steps[1..] == [];
    assert IsRun(g, t, []) && Final(g, t, []) == t;
    assert IsRun(g, s, steps) && Final(g, s, steps) == t;
  }

  function OffersOf(src: Address, dst: Address, routes: seq<Route>): set<Offer> {
    set r | r in routes :: Offer(src, dst, r.target, r.hops)
  }

  // Handling a routing message is handling its routes one after another.
  lemma {:induction false} RoutingInfoIsHandledOffers(g: Graph, s: Net, src: Address, dst: Address, routes: seq<Route>)
    requires dst in s.tables && forall r :: r in routes ==> Offer(src, dst, r.target, r.hops) in s.sent
    ensures Reaches(g, s, Net(s.tables[dst := AfterRoutes(s.tables[dst], src, routes)], s.sent,
                              s.handled + OffersOf(src, dst, routes)))
  {
    if routes == [] {
      assert IsRun(g, s, []) && Final(g, s, []) == s;
      assert s.tables[dst := s.tables[dst]] == s.tables;
      assert OffersOf(src, dst, routes) == {};
    } else {
      var last := |routes| - 1;
      var fewer, r := routes[..last], routes[last];
      RoutingInfoIsHandledOffers(g, s, src, dst, fewer);
      var t := Net(s.tables[dst := AfterRoutes(s.tables[dst], src, fewer)], s.sent,
                   s.handled + OffersOf(src, dst, fewer));
      var step := Handle(Offer(src, dst, r.target, r.hops));
      assert Enabled(g, t, step);
      var u := Apply(g, t, step);
      SingleStep(g, t, step);
      ReachesIsTransitive(g, s, t, u);
      assert routes == fewer + [r];
      assert u == Net(s.tables[dst := AfterRoutes(s.tables[dst], src, routes)], s.sent,
                      s.handled + OffersOf(src, dst, routes));
    }
  }
}
