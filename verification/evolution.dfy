/** The evolution loop over a population of shared seating plans that are mutated in place. */
module Evolution {
  import opened Basics
  import opened Crossover
  import opened SeatingPlans

  ghost function Arrays(plans: seq<SeatingPlan>): set<object> {
    set p | p in plans :: p.seats
  }

  ghost function Objects(plans: seq<SeatingPlan>): set<object> {
    set p | p in plans
  }

  ghost predicate RightRoom(p: SeatingPlan, col: int, row: int, students: int) {
    p.col == col && p.row == row && p.students == students
  }

  ghost predicate AllSeated(plans: seq<SeatingPlan>, col: int, row: int, students: int)
    reads Objects(plans), Arrays(plans)
  {
    forall p :: p in plans ==> p.Valid() && RightRoom(p, col, row, students)
  }

  // Two plans with seats of their own.
  ghost predicate Strangers(p: SeatingPlan, q: SeatingPlan) {
    p != q && p.seats != q.seats
  }

  ghost predicate Apart(plans: seq<SeatingPlan>, i: nat, j: nat)
    requires i < |plans| && j < |plans|
  {
    i != j ==> Strangers(plans[i], plans[j])
  }

  // No plan occurs twice, and no two plans share an array of seats.
  ghost predicate Unshared(plans: seq<SeatingPlan>) {
    forall i, j :: 0 <= i < |plans| && 0 <= j < |plans| ==> Apart(plans, i, j)
  }

  // p was bred from the plans a and b.
  ghost predicate Bred(p: SeatingPlan, a: SeatingPlan, b: SeatingPlan)
    reads p.seats, a.seats, b.seats
  {
    |Flat(a.seats)| == |Flat(b.seats)| && Flat(p.seats) == Child(Flat(a.seats), Flat(b.seats), a.students)
  }

  ghost predicate Ranked(plans: seq<SeatingPlan>)
    reads Objects(plans)
  {
    forall i, j :: 0 <= i < j < |plans| ==> plans[i].fitness <= plans[j].fitness
  }

  // The fitness number of an invalid plan.
  const WORST_FITNESS: int := 0x7fff_ffff

  ghost predicate Penalised(plans: seq<SeatingPlan>)
    reads Objects(plans)
  {
    forall p :: p in plans && !p.valid ==> p.fitness == WORST_FITNESS
  }

  method InsertRanked(sorted: seq<SeatingPlan>, plan: SeatingPlan) returns (r: seq<SeatingPlan>)
    requires Ranked(sorted)
    ensures Ranked(r) && multiset(r) == multiset(sorted) + multiset{plan}
  {
    var j := |sorted|;
    while j > 0 && sorted[j - 1].fitness > plan.fitness
      invariant 0 <= j <= |sorted|
      invariant forall k :: j <= k < |sorted| ==> sorted[k].fitness > plan.fitness
    {
      j := j - 1;
    }
    InsertKeepsRank(sorted, j, plan);
    InsertedMembers(sorted, j, plan);
    r := sorted[..j] + [plan] + sorted[j..];
  }

  lemma InsertedMembers(sorted: seq<SeatingPlan>, j: nat, plan: SeatingPlan)
    requires j <= |sorted|
    ensures multiset(sorted[..j] + [plan] + sorted[j..]) == multiset(sorted) + multiset{plan}
  {
    var front, back := sorted[..j], sorted[j..];
    assert sorted == front + back;
    assert multiset(front + [plan] + back) == multiset(front) + multiset{plan} + multiset(back);
  }

  lemma InsertKeepsRank(sorted: seq<SeatingPlan>, j: nat, plan: SeatingPlan)
    requires j <= |sorted| && Ranked(sorted)
    requires j > 0 ==> sorted[j - 1].fitness <= plan.fitness
    requires forall k :: j <= k < |sorted| ==> sorted[k].fitness > plan.fitness
    ensures Ranked(sorted[..j] + [plan] + sorted[j..])
  {
    var r := sorted[..j] + [plan] + sorted[j..];
    forall i, k | 0 <= i < k < |r|
      ensures r[i].fitness <= r[k].fitness
    {
      assert i < j ==> r[i] == sorted[i];
      assert k > j ==> r[k] == sorted[k - 1];
      assert i < j && j <= k ==> sorted[i].fitness <= sorted[j - 1].fitness;
      if i > j {
        assert r[i] == sorted[i - 1];
      }
      if k < j {
        assert r[k] == sorted[k];
      }
    }
  }

  // The library sort by fitness: stable, ascending.
  method SortByFitness(plans: seq<SeatingPlan>) returns (sorted: seq<SeatingPlan>)
    ensures multiset(sorted) == multiset(plans) && |sorted| == |plans|
    ensures Ranked(sorted)
    ensures forall p :: p in sorted <==> p in plans
    ensures Unshared(plans) ==> Unshared(sorted)
  {
    sorted := [];
    for i := 0 to |plans|
      invariant multiset(sorted) == multiset(plans[..i]) && Ranked(sorted)
    {
      assert plans[..i + 1] == plans[..i] + [plans[i]];
      sorted := InsertRanked(sorted, plans[i]);
    }
    assert plans[..|plans|] == plans;
    SameMembers(sorted, plans);
    if Unshared(plans) {
      PermutationStaysUnshared(sorted, plans);
    }
  }

  lemma SameMembers(s: seq<SeatingPlan>, t: seq<SeatingPlan>)
    requires multiset(s) == multiset(t)
    ensures |s| == |t| && forall p :: p in s <==> p in t
  {
    assert |multiset(s)| == |multiset(t)|;
    forall p
      ensures p in s <==> p in t
    {
      assert p in s <==> p in multiset(s);
      assert p in t <==> p in multiset(t);
    }
  }

  lemma {:induction false} OnceIfUnshared(plans: seq<SeatingPlan>, p: SeatingPlan)
    requires Unshared(plans)
    ensures multiset(plans)[p] <= 1
  {
    if plans != [] {
      var last := |plans| - 1;
      var front := plans[..last];
      forall i, j | 0 <= i < last && 0 <= j < last
        ensures Apart(front, i, j)
      {
        assert Apart(plans, i, j);
      }
      OnceIfUnshared(front, p);
      assert plans == front + [plans[last]];
      forall i | 0 <= i < last
        ensures front[i] != plans[last]
      {
        assert Apart(plans, i, last);
      }
    }
  }

  lemma TwiceMeansTwo(s: seq<SeatingPlan>, i: nat, j: nat)
    requires i < j < |s|
    ensures s[i] == s[j] ==> multiset(s)[s[i]] >= 2
  {
    assert s == s[..j] + s[j..];
    assert s[i] in s[..j] && s[j] in s[j..];
  }

  lemma PermutationStaysUnshared(s: seq<SeatingPlan>, t: seq<SeatingPlan>)
    requires multiset(s) == multiset(t) && Unshared(t)
    ensures Unshared(s)
  {
    SameMembers(s, t);
    forall i, j | 0 <= i < |s| && 0 <= j < |s|
      ensures Apart(s, i, j)
    {
      if i != j {
        TwiceMeansTwo(s, if i < j then i else j, if i < j then j else i);
        OnceIfUnshared(t, s[i]);
        assert s[i] in t && s[j] in t;
        var k :| 0 <= k < |t| && t[k] == s[i];
        var l :| 0 <= l < |t| && t[l] == s[j];
        assert Apart(t, k, l);
      }
    }
  }

  lemma UnsharedTogether(plants: seq<SeatingPlan>, prey: seq<SeatingPlan>)
    requires Unshared(plants) && Unshared(prey)
    requires forall i, j :: 0 <= i < |plants| && 0 <= j < |prey| ==> Strangers(plants[i], prey[j])
    ensures Unshared(plants + prey)
  {
    var all, n := plants + prey, |plants|;
    forall i, j | 0 <= i < |all| && 0 <= j < |all|
      ensures Apart(all, i, j)
    {
      if i < n && j < n {
        assert Apart(plants, i, j);
      } else if i >= n && j >= n {
        assert Apart(prey, i - n, j - n);
      } else if i < n {
        assert Strangers(plants[i], prey[j - n]);
      } else {
        assert Strangers(plants[j], prey[i - n]);
      }
    }
  }

  lemma UnsharedRest(plans: seq<SeatingPlan>, k: nat)
    requires k <= |plans| && Unshared(plans)
    ensures Unshared(plans[k..])
  {
    var rest := plans[k..];
    forall i, j | 0 <= i < |rest| && 0 <= j < |rest|
      ensures Apart(rest, i, j)
    {
      assert Apart(plans, k + i, k + j);
    }
  }

  // Plans that are among the first k or made of new objects are strangers to the rest.
  lemma StrangersToRest(plans: seq<SeatingPlan>, k: nat, newPlans: seq<SeatingPlan>)
    requires k <= |plans| && Unshared(plans)
    requires forall p :: p in newPlans ==>
      p in plans[..k] || (p !in Objects(plans) && p.seats !in Arrays(plans))
    ensures forall i, j :: 0 <= i < |newPlans| && 0 <= j < |plans[k..]| ==> Strangers(newPlans[i], plans[k..][j])
  {
    forall i, j | 0 <= i < |newPlans| && 0 <= j < |plans[k..]|
      ensures Strangers(newPlans[i], plans[k..][j])
    {
      var q := plans[k + j];
      assert q in plans && q in Objects(plans) && q.seats in Arrays(plans);
      assert newPlans[i] in newPlans;
      if newPlans[i] in plans[..k] {
        var l :| 0 <= l < k && plans[l] == newPlans[i];
        assert Apart(plans, l, k + j);
      }
    }
  }

  lemma FirstArraysApart(plans: seq<SeatingPlan>, k: nat, i: nat)
    requires i < k <= |plans| && Unshared(plans)
    ensures plans[i].seats !in Arrays(plans[k..])
  {
    forall q | q in plans[k..]
      ensures q.seats != plans[i].seats
    {
      var j :| 0 <= j < |plans[k..]| && plans[k..][j] == q;
      assert Apart(plans, i, k + j);
    }
  }

  lemma UnsharedOneMore(plans: seq<SeatingPlan>, p: SeatingPlan)
    requires Unshared(plans) && forall i :: 0 <= i < |plans| ==> Strangers(plans[i], p)
    ensures Unshared(plans + [p])
  {
    UnsharedTogether(plans, [p]);
  }

  lemma UnsharedReplaced(plans: seq<SeatingPlan>, k: nat, p: SeatingPlan)
    requires k < |plans| && Unshared(plans) && forall i :: 0 <= i < |plans| ==> Strangers(plans[i], p)
    ensures Unshared(plans[k := p])
  {
    var replaced := plans[k := p];
    forall i, j | 0 <= i < |replaced| && 0 <= j < |replaced|
      ensures Apart(replaced, i, j)
    {
      assert Apart(plans, i, j) && Strangers(plans[i], p) && Strangers(plans[j], p);
    }
  }

  class CPA {
    const popSize: nat
    const plants: nat
    const prey: nat
    const col: int
    const row: int
    const students: int
    const relations: int
    var population: seq<SeatingPlan>

    ghost predicate Valid()
      reads this, Objects(population), Arrays(population)
    {
      && plants < popSize && prey == popSize - plants
      && |population| == popSize && AllSeated(population, col, row, students) && Unshared(population)
    }

    constructor (popSize: nat, plants: nat, col: int, row: int, students: int, relations: int)
      requires plants < popSize
      ensures this.popSize == popSize && this.plants == plants && prey == popSize - plants
      ensures this.col == col && this.row == row && this.students == students
      ensures this.relations == relations && population == []
    {
      this.popSize, this.plants, this.prey := popSize, plants, popSize - plants;
      this.col, this.row, this.students, this.relations := col, row, students, relations;
      population := [];
    }

    // A new plant is one of the old plants or a child of a plant and a prey plan.
    ghost predicate Grown(p: SeatingPlan, sorted: seq<SeatingPlan>, i: nat)
      requires i < |sorted|
      reads p.seats, Arrays(sorted)
    {
      p == sorted[i] || exists k :: plants <= k < |sorted| && Bred(p, sorted[i], sorted[k])
    }

    // Growth: each of the best plans stays or gives way to its child with a random prey plan.
    method Grow(sorted: seq<SeatingPlan>) returns (newPlants: seq<SeatingPlan>)
      requires plants < popSize && prey == popSize - plants
      requires |sorted| == popSize && AllSeated(sorted, col, row, students) && Unshared(sorted)
      ensures |newPlants| == plants && AllSeated(newPlants, col, row, students) && Unshared(newPlants)
      ensures forall p :: p in newPlants ==> p in sorted[..plants] || (fresh(p) && fresh(p.seats))
      ensures forall p :: p in newPlants ==> exists i :: 0 <= i < plants && Grown(p, sorted, i)
      ensures Ranked(newPlants)
    {
      var grown := GrowInOrder(sorted);
      newPlants := SortByFitness(grown);
      forall p | p in newPlants
        ensures p in sorted[..plants] || (fresh(p) && fresh(p.seats))
        ensures exists i :: 0 <= i < plants && Grown(p, sorted, i)
      {
        var i :| 0 <= i < plants && grown[i] == p;
        assert Grown(grown[i], sorted, i);
        assert sorted[..plants][i] == sorted[i];
      }
    }

    method GrowInOrder(sorted: seq<SeatingPlan>) returns (grown: seq<SeatingPlan>)
      requires plants < popSize && prey == popSize - plants
      requires |sorted| == popSize && AllSeated(sorted, col, row, students) && Unshared(sorted)
      ensures |grown| == plants && AllSeated(grown, col, row, students) && Unshared(grown)
      ensures forall j :: 0 <= j < plants ==>
        Grown(grown[j], sorted, j) && (grown[j] == sorted[j] || (fresh(grown[j]) && fresh(grown[j].seats)))
    {
      grown := [];
      for i := 0 to plants
        invariant |grown| == i && AllSeated(grown, col, row, students) && Unshared(grown)
        invariant AllSeated(sorted, col, row, students)
        invariant forall j :: 0 <= j < i ==>
          Grown(grown[j], sorted, j) && (grown[j] == sorted[j] || (fresh(grown[j]) && fresh(grown[j].seats)))
      {
        var next := GrowOne(sorted, i);
        forall j | 0 <= j < i
          ensures Strangers(grown[j], next)
        {
          assert Apart(sorted, j, i);
        }
        UnsharedOneMore(grown, next);
        grown := grown + [next];
      }
    }

    method GrowOne(sorted: seq<SeatingPlan>, i: nat) returns (next: SeatingPlan)
      requires i < plants < popSize && prey == popSize - plants
      requires |sorted| == popSize && AllSeated(sorted, col, row, students)
      ensures next.Valid() && RightRoom(next, col, row, students)
      ensures next == sorted[i] || (fresh(next) && fresh(next.seats))
      ensures Grown(next, sorted, i)
    {
      var recombines: bool := *;
      if recombines {
        var preyIndex: nat :| preyIndex < prey;
        next := SeatingPlan.Recombine(sorted[i], sorted[plants + preyIndex]);
        assert Bred(next, sorted[i], sorted[plants + preyIndex]);
      } else {
        next := sorted[i];
      }
    }

    // Mutation in place: each prey plan is kept, swapped or not. No plant is touched.
    method MutatePrey(sorted: seq<SeatingPlan>) returns (newPrey: seq<SeatingPlan>)
      requires plants < popSize && prey == popSize - plants
      requires |sorted| == popSize && AllSeated(sorted, col, row, students) && Unshared(sorted)
      modifies Objects(sorted[plants..]), Arrays(sorted[plants..])
      ensures AllSeated(sorted, col, row, students)
      ensures newPrey == sorted[plants..]
      ensures forall i :: 0 <= i < plants ==> Flat(sorted[i].seats) == old(Flat(sorted[i].seats))
    {
      forall i | 0 <= i < plants
        ensures sorted[i].seats !in Arrays(sorted[plants..])
      {
        FirstArraysApart(sorted, plants, i);
      }
      newPrey := [];
      for j := 0 to prey
        invariant newPrey == sorted[plants..plants + j] && AllSeated(sorted, col, row, students)
      {
        assert sorted[plants..][j] == sorted[plants + j];
        var mutates: bool := *;
        if mutates {
          ghost var x, y := sorted[plants + j].Mutate();
        }
        newPrey := newPrey + [sorted[plants + j]];
      }
    }

    method ReproduceOne(best: SeatingPlan, partner: SeatingPlan) returns (child: Option<SeatingPlan>)
      requires best.Valid() && RightRoom(best, col, row, students)
      requires partner.Valid() && RightRoom(partner, col, row, students)
      ensures child.Some? ==>
        && fresh(child.value) && fresh(child.value.seats)
        && child.value.Valid() && RightRoom(child.value, col, row, students)
        && child.value.fitness > best.fitness && Bred(child.value, best, partner)
    {
      child := None;
      var reproduces: bool := *;
      if reproduces {
        var kind := SeatingPlan.Recombine(best, partner);
        if kind.fitness > best.fitness {
          child := Some(kind);
        }
      }
    }

    // Reproduction: the first new plant is crossed with the old plants; a child may replace its partner.
    method Reproduce(sorted: seq<SeatingPlan>, newPlants: seq<SeatingPlan>) returns (plants': seq<SeatingPlan>)
      requires plants < popSize
      requires |sorted| == popSize && AllSeated(sorted, col, row, students)
      requires |newPlants| == plants && AllSeated(newPlants, col, row, students) && Unshared(newPlants)
      ensures |plants'| == plants && AllSeated(plants', col, row, students) && Unshared(plants')
      ensures forall p :: p in plants' ==> p in newPlants || (fresh(p) && fresh(p.seats))
      ensures forall k :: 0 <= k < plants ==> Reproduced(plants'[k], sorted, newPlants, k)
    {
      plants' := newPlants;
      if plants > 1 {
        var best := newPlants[0];
        for k := 1 to plants
          invariant |plants'| == plants && AllSeated(plants', col, row, students) && Unshared(plants')
          invariant AllSeated(sorted, col, row, students) && best.Valid()
          invariant forall p :: p in plants' ==> p in newPlants || (fresh(p) && fresh(p.seats))
          invariant forall l :: 0 <= l < k ==> Reproduced(plants'[l], sorted, newPlants, l)
          invariant plants'[k..] == newPlants[k..]
        {
          var child := ReproduceOne(best, sorted[k]);
          if child.Some? {
            UnsharedReplaced(plants', k, child.value);
            plants' := plants'[k := child.value];
          }
        }
      }
    }

    // In place k stands the new plant of that place or a child of the best new plant and old plant k.
    ghost predicate Reproduced(p: SeatingPlan, sorted: seq<SeatingPlan>, newPlants: seq<SeatingPlan>, k: nat)
      requires k < |sorted| && k < |newPlants|
      reads p, newPlants[0], p.seats, Arrays(sorted), Arrays(newPlants)
    {
      || p == newPlants[k]
      || (k > 0 && p.fitness > newPlants[0].fitness && Bred(p, newPlants[0], sorted[k]))
    }

    // One generation. Plants and prey together are exactly popSize plans, so the final cut removes none:
    // every plan of the prey is still in the population. Nothing becomes shared, so mutation in place
    // reaches the prey only.
    method Generation() returns (ghost sorted: seq<SeatingPlan>)
      requires Valid()
      modifies this`population, Objects(population), Arrays(population)
      ensures Valid()
      ensures forall p :: p in population ==>
        p in old(population) || (fresh(p) && fresh(p.seats))
      ensures multiset(sorted) == multiset(old(population)) && |sorted| == popSize
      ensures forall p :: p in sorted <==> p in old(population)
      ensures forall i, j :: 0 <= i < j < popSize && sorted[i] in old(population) && sorted[j] in old(population) ==>
        old(sorted[i].fitness) <= old(sorted[j].fitness)
      ensures Ranked(population) && Penalised(population)
      ensures forall j :: plants <= j < popSize ==> sorted[j] in population
      ensures forall i :: 0 <= i < plants && sorted[i] in old(population) ==>
        Flat(sorted[i].seats) == old(Flat(sorted[i].seats))
    {
      var ranked := SortByFitness(population);
      sorted := ranked;
      Advance(ranked);
    }

    // The phases of a generation after the first sort.
    method Advance(sorted: seq<SeatingPlan>)
      requires plants < popSize && prey == popSize - plants
      requires |sorted| == popSize && AllSeated(sorted, col, row, students) && Unshared(sorted)
      modifies this`population, Objects(sorted), Arrays(sorted)
      ensures Valid() && Ranked(population) && Penalised(population)
      ensures forall p :: p in population ==> p in sorted || (fresh(p) && fresh(p.seats))
      ensures forall j :: plants <= j < popSize ==> sorted[j] in population
      ensures forall i :: 0 <= i < plants ==> Flat(sorted[i].seats) == old(Flat(sorted[i].seats))
    {
      var newPlants, newPrey := NextGeneration(sorted);
      var ranked := RankAll(newPlants, newPrey);
      population := ranked[..popSize];
      assert population == ranked;
    }

    // New plants and mutated prey, and none of the old plants is touched.
    method Breed(sorted: seq<SeatingPlan>) returns (newPlants: seq<SeatingPlan>, newPrey: seq<SeatingPlan>)
      requires plants < popSize && prey == popSize - plants
      requires |sorted| == popSize && AllSeated(sorted, col, row, students) && Unshared(sorted)
      modifies Objects(sorted[plants..]), Arrays(sorted[plants..])
      ensures AllSeated(newPlants, col, row, students) && AllSeated(sorted, col, row, students)
      ensures |newPlants| == plants && newPrey == sorted[plants..] && Unshared(newPlants)
      ensures forall p :: p in newPlants ==> p in sorted[..plants] || (fresh(p) && fresh(p.seats))
      ensures forall i :: 0 <= i < plants ==> Flat(sorted[i].seats) == old(Flat(sorted[i].seats))
    {
      var grown;
      grown, newPrey := GrowAndMutate(sorted);
      newPlants := Reproduce(sorted, grown);
    }

    method GrowAndMutate(sorted: seq<SeatingPlan>) returns (grown: seq<SeatingPlan>, newPrey: seq<SeatingPlan>)
      requires plants < popSize && prey == popSize - plants
      requires |sorted| == popSize && AllSeated(sorted, col, row, students) && Unshared(sorted)
      modifies Objects(sorted[plants..]), Arrays(sorted[plants..])
      ensures AllSeated(grown, col, row, students) && AllSeated(sorted, col, row, students)
      ensures |grown| == plants && newPrey == sorted[plants..] && Unshared(grown)
      ensures forall p :: p in grown ==> p in sorted[..plants] || (fresh(p) && fresh(p.seats))
      ensures forall i :: 0 <= i < plants ==> Flat(sorted[i].seats) == old(Flat(sorted[i].seats))
    {
      grown := Grow(sorted);
      label Grown:
      newPrey := MutatePrey(sorted);
      forall p | p in grown
        ensures p.Valid() && RightRoom(p, col, row, students)
      {
        if p in sorted[..plants] {
          assert p in sorted;
        } else {
          assert p !in Objects(sorted[plants..]) && p.seats !in Arrays(sorted[plants..]);
          assert old@Grown(p.Valid());
        }
      }
    }

    method NextGeneration(sorted: seq<SeatingPlan>) returns (newPlants: seq<SeatingPlan>, newPrey: seq<SeatingPlan>)
      requires plants < popSize && prey == popSize - plants
      requires |sorted| == popSize && AllSeated(sorted, col, row, students) && Unshared(sorted)
      modifies Objects(sorted[plants..]), Arrays(sorted[plants..])
      ensures AllSeated(newPlants, col, row, students) && AllSeated(newPrey, col, row, students)
      ensures |newPlants| == plants && newPrey == sorted[plants..] && Unshared(newPlants) && Unshared(newPrey)
      ensures forall p :: p in newPlants ==> p in sorted[..plants] || (fresh(p) && fresh(p.seats))
      ensures forall i, j :: 0 <= i < |newPlants| && 0 <= j < |newPrey| ==> Strangers(newPlants[i], newPrey[j])
      ensures forall i :: 0 <= i < plants ==> Flat(sorted[i].seats) == old(Flat(sorted[i].seats))
    {
      newPlants, newPrey := Breed(sorted);
      UnsharedRest(sorted, plants);
      StrangersToRest(sorted, plants, newPlants);
    }

    method RankAll(newPlants: seq<SeatingPlan>, newPrey: seq<SeatingPlan>) returns (all: seq<SeatingPlan>)
      requires AllSeated(newPlants, col, row, students) && AllSeated(newPrey, col, row, students)
      requires Unshared(newPlants) && Unshared(newPrey)
      requires forall i, j :: 0 <= i < |newPlants| && 0 <= j < |newPrey| ==> Strangers(newPlants[i], newPrey[j])
      modifies Objects(newPlants), Objects(newPrey)
      ensures AllSeated(all, col, row, students) && Unshared(all) && |all| == |newPlants| + |newPrey|
      ensures forall p :: p in all <==> p in newPlants || p in newPrey
      ensures Ranked(all) && Penalised(all)
    {
      all := newPlants + newPrey;
      UnsharedTogether(newPlants, newPrey);
      PenaliseInvalid(all);
      all := SortByFitness(all);
    }

    method PenaliseInvalid(plans: seq<SeatingPlan>)
      modifies Objects(plans)
      ensures forall p :: p in plans ==> p.valid == old(p.valid)
      ensures forall p :: p in plans ==> p.fitness == if p.valid then old(p.fitness) else WORST_FITNESS
    {
      for i := 0 to |plans|
        invariant forall p :: p in plans ==> p.valid == old(p.valid)
        invariant forall p :: p in plans ==> p.fitness == old(p.fitness) || (!p.valid && p.fitness == WORST_FITNESS)
        invariant forall k :: 0 <= k < i && !plans[k].valid ==> plans[k].fitness == WORST_FITNESS
      {
        if !plans[i].valid {
          plans[i].fitness := WORST_FITNESS;
        }
      }
    }

    method FirstPopulation() returns (ok: bool)
      requires plants < popSize && prey == popSize - plants
      modifies this`population
      ensures ok <==> CanSeat(col, row, students, relations)
      ensures ok ==> Valid() && forall p :: p in population ==> fresh(p) && fresh(p.seats)
    {
      population := [];
      for i := 0 to popSize
        invariant |population| == i && AllSeated(population, col, row, students) && Unshared(population)
        invariant forall p :: p in population ==> fresh(p) && fresh(p.seats)
        invariant i > 0 ==> CanSeat(col, row, students, relations)
      {
        var plan := SeatingPlan.Create(col, row, students, relations);
        if plan.Thrown? {
          return false;
        }
        UnsharedOneMore(population, plan.value);
        population := population + [plan.value];
      }
      ok := true;
    }

    // Main result: after any number of generations the population still has popSize plans, each seating
    // every student exactly once, and the returned plan is one of them with the smallest fitness value.
    method Run(maxIterations: nat) returns (best: Result<SeatingPlan>)
      requires plants < popSize && prey == popSize - plants
      modifies this`population
      ensures best.Ok? <==> CanSeat(col, row, students, relations)
      ensures best.Ok? ==>
        && Valid() && best.value in population
        && forall p :: p in population ==> best.value.fitness <= p.fitness
    {
      var ok := FirstPopulation();
      if !ok {
        return Thrown;
      }
      for iter := 0 to maxIterations
        invariant Valid() && forall p :: p in population ==> fresh(p) && fresh(p.seats)
      {
        ghost var sorted := Generation();
      }
      population := SortByFitness(population);
      best := Ok(population[0]);
    }
  }
}
