/** A chat message on its way through the network. */
module RoutingForwarding {
  import opened RoutingNode
  import opened RoutingNetwork
  import opened RoutingConvergence

  datatype Fate = Delivered(forwards: nat) | Dropped(at: Address) | Unsendable(at: Address)

  function Later(states: seq<Net>): (later: seq<Net>)
    requires states != []
    ensures later != []
  {
    if |states| > 1 then states[1..] else states
  }

  // The message visits one node per state; while it travels the tables may change. The last state stays.
  function Travel(states: seq<Net>, at: Address, target: Address, ttl: int): Fate
    requires states != []
    decreases if ttl > 0 then ttl else 0
  {
    if at !in states[0].tables then Unsendable(at)
    else
      match Hop(states[0].tables[at], at, target, ttl)
      case Arrived => Delivered(0)
      case Expired => Dropped(at)
      case NoRoute => Dropped(at)
      case SendTo(next, rest) =>
        match Travel(Later(states), next, target, rest)
        case Delivered(n) => Delivered(n + 1)
        case fate => fate
  }

  // On any table contents, loops included, the TTL bounds the number of forwards.
  lemma {:induction false} TtlBoundsForwards(states: seq<Net>, at: Address, target: Address, ttl: int)
    requires states != [] && Travel(states, at, target, ttl).Delivered? && at != target
    ensures Travel(states, at, target, ttl).forwards < ttl
    decreases if ttl > 0 then ttl else 0
  {
    var next := states[0].tables[at][target].via;
    if next != target {
      TtlBoundsForwards(Later(states), next, target, ttl - 1);
    }
  }

  ghost predicate Successive(g: Graph, states: seq<Net>, i: nat)
    requires i + 1 < |states|
  {
    Reaches(g, states[i], states[i + 1])
  }

  ghost predicate Evolves(g: Graph, states: seq<Net>) {
    && states != [] && Sound(g, states[0])
    && forall i :: 0 <= i < |states| - 1 ==> Successive(g, states, i)
  }

  lemma LaterEvolves(g: Graph, states: seq<Net>)
    requires WellFormed(g) && Evolves(g, states)
    ensures Evolves(g, Later(states)) && Improved(states[0], Later(states)[0])
  {
    var later := Later(states);
    if |states| > 1 {
      assert Successive(g, states, 0);
      ReachedIsSound(g, states[0], states[1]);
      forall i | 0 <= i < |later| - 1
        ensures Successive(g, later, i)
      {
        assert Successive(g, states, i + 1);
      }
    }
  }

  ghost predicate Knows(s: Net, at: Address, target: Address, hops: int) {
    && at in s.tables
    && (at == target || (target in s.tables[at] && s.tables[at][target].hops <= hops))
  }

  lemma NextHopKnows(g: Graph, s: Net, t: Net, at: Address, target: Address, hops: int)
    requires WellFormed(g) && Sound(g, s) && Improved(s, t)
    requires Knows(s, at, target, hops) && at != target
    ensures Knows(t, s.tables[at][target].via, target, hops - 1) && hops >= 1
  {
    assert SoundEntry(g, s, at, target);
    var via := s.tables[at][target].via;
    assert Edge(g, at, via);
  }

  // Main result: although updates keep arriving, a message is delivered whenever its node's entry
  // counts at most 12 hops and fewer than the TTL, and it needs no more forwards than that.
  lemma {:induction false} KnownTargetsAreReached(g: Graph, states: seq<Net>, at: Address, target: Address,
                                                  hops: int, ttl: int)
    requires WellFormed(g) && Evolves(g, states) && Knows(states[0], at, target, hops)
    requires hops < UNREACHABLE_HOP_COUNT && hops < ttl
    ensures Travel(states, at, target, ttl).Delivered?
    ensures at != target ==> Travel(states, at, target, ttl).forwards <= hops
    decreases if ttl > 0 then ttl else 0
  {
    if at != target {
      LaterEvolves(g, states);
      NextHopKnows(g, states[0], Later(states)[0], at, target, hops);
      KnownTargetsAreReached(g, Later(states), states[0].tables[at][target].via, target, hops - 1, ttl - 1);
    }
  }

  lemma NextHopIsOneCloser(g: Graph, s: Net, at: Address, target: Address, d: nat)
    requires WellFormed(g) && Sound(g, s) && Accurate(g, s, d) && d > 0
    requires at in g.nodes && IsDistance(g, at, target, d)
    ensures ExactEntry(s, at, target, d)
    ensures var next := s.tables[at][target].via;
      next in g.nodes && IsDistance(g, next, target, d - 1)
  {
    assert ExactEntry(s, at, target, d) && SoundEntry(g, s, at, target);
    var next := s.tables[at][target].via;
    assert Edge(g, at, next);
    forall k: nat | k < d - 1
      ensures !Walk(g, next, target, k)
    {
      if Walk(g, next, target, k) {
        WalkStep(g, at, next, target, k);
      }
    }
    if next == target {
      assert Walk(g, next, target, 0);
      WalkStep(g, at, next, target, 0);
    } else {
      assert SoundEntry(g, s, next, target);
    }
  }

  lemma LessAccurate(g: Graph, s: Net, d: nat)
    requires Accurate(g, s, d) && d > 0
    ensures Accurate(g, s, d - 1)
  {
  }

  // With exact tables: delivered if and only if the distance is below both 13 and the TTL.
  lemma {:induction false} DeliveredIffNear(g: Graph, s: Net, at: Address, target: Address, d: nat, ttl: int)
    requires WellFormed(g) && Sound(g, s) && Accurate(g, s, d)
    requires at in g.nodes && IsDistance(g, at, target, d)
    ensures Travel([s], at, target, ttl).Delivered? <==> d == 0 || (d < UNREACHABLE_HOP_COUNT && d < ttl)
    ensures Travel([s], at, target, ttl).Delivered? ==> Travel([s], at, target, ttl).forwards == d
    decreases d
  {
    ZeroDistance(g, at, target, d);
    if d > 0 {
      NextHopIsOneCloser(g, s, at, target, d);
      var next := s.tables[at][target].via;
      LessAccurate(g, s, d);
      assert Later([s]) == [s];
      DeliveredIffNear(g, s, next, target, d - 1, ttl - 1);
    }
  }

  // The whole protocol: after the hellos and r full rounds, a chat message sent with the initial TTL to
  // a node at distance 1..r+1 arrives if and only if the distance is at most 12.
  lemma ConvergedNetworkDelivers(g: Graph, states: seq<Net>, r: nat, at: Address, target: Address, d: nat)
    requires WellFormed(g) && |states| == r + 1
    requires Reaches(g, Init(g), states[0]) && HellosDone(g, states[0])
    requires forall i :: 0 <= i < r ==> FullRound(g, states[i], states[i + 1])
    requires at in g.nodes && IsDistance(g, at, target, d) && d <= r + 1
    ensures Travel([states[r]], at, target, INITIAL_TTL).Delivered? <==> d <= 12
  {
    RoundsMakeDistancesExact(g, states, r);
    InitIsSound(g);
    ReachedIsSound(g, Init(g), states[r]);
    assert Accurate(g, states[r], d);
    DeliveredIffNear(g, states[r], at, target, d, INITIAL_TTL);
  }
}
