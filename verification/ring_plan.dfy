/** Planning a round: dealing the numbers to the computers and linking the workers to a ring. */
module RingPlan {
  import opened Divisibility
  import opened GcdRing
  import opened GcdRingQuiescence

  const FIRST_PORT: nat := 5000

  class WorkerStructure {
    const number: int
    const port: nat
    var next: WorkerStructure?
    var prev: WorkerStructure?

    constructor (number: int, port: nat)
      ensures this.number == number && this.port == port
    {
      this.number, this.port := number, port;
      next, prev := null, null;
    }
  }

  datatype Computer = Computer(name: string, workers: seq<WorkerStructure>)

  // The computer that number j goes to: they are served in turn.
  function Owner(j: nat, c: nat): (owner: nat)
    requires c > 0
    ensures owner < c
  {
    if j == 0 then 0
    else if Owner(j - 1, c) + 1 < c then Owner(j - 1, c) + 1
    else 0
  }

  lemma AtLeastOnce(k: int, c: nat)
    requires k >= 1
    ensures k * c >= c
  {
    assert k * c == (k - 1) * c + c;
  }

  lemma RemainderIsUnique(c: nat, q: int, r: int, p: int, t: int)
    requires 0 <= r < c && 0 <= t < c && q * c + r == p * c + t
    ensures r == t
  {
    assert (q - p) * c == t - r && (p - q) * c == r - t;
    if q > p {
      AtLeastOnce(q - p, c);
    } else if p > q {
      AtLeastOnce(p - q, c);
    }
  }

  lemma NextRemainder(j: nat, c: nat, r: nat)
    requires 0 < j && 0 < c && r == (j - 1) % c
    ensures j % c == if r + 1 < c then r + 1 else 0
  {
    var q, p := (j - 1) / c, j / c;
    assert j - 1 == q * c + r && j == p * c + j % c;
    if r + 1 < c {
      RemainderIsUnique(c, p, j % c, q, r + 1);
    } else {
      assert (q + 1) * c == q * c + c;
      RemainderIsUnique(c, p, j % c, q + 1, 0);
    }
  }

  lemma ZeroRemainder(c: nat)
    requires c > 0
    ensures 0 % c == 0
  {
  }

  lemma {:induction false} OwnerIsRemainder(j: nat, c: nat)
    requires c > 0
    ensures j % c == Owner(j, c)
  {
    if j == 0 {
      ZeroRemainder(c);
    } else {
      OwnerIsRemainder(j - 1, c);
      NextRemainder(j, c, Owner(j - 1, c));
    }
  }

  // x when it belongs to computer i, else nothing.
  function Share(x: int, owner: nat, i: nat): seq<int> {
    if owner == i then [x] else []
  }

  // Those of the first n numbers that computer i of c receives.
  function Column(numbers: seq<int>, c: nat, i: nat, n: nat): seq<int>
    requires c > 0 && n <= |numbers|
  {
    if n == 0 then [] else Column(numbers, c, i, n - 1) + Share(numbers[n - 1], Owner(n - 1, c), i)
  }

  lemma {:induction false} OwnerAt(n: nat, c: nat, q: nat, r: nat)
    requires r < c && n == q * c + r
    ensures Owner(n, c) == r
    decreases n
  {
    if r > 0 {
      OwnerAt(n - 1, c, q, r - 1);
    } else if q > 0 {
      assert q * c == (q - 1) * c + c;
      OwnerAt(n - 1, c, q - 1, c - 1);
    }
  }

  // The k-th number of computer i is number k * c + i of the input.
  ghost predicate StandsAt(column: seq<int>, numbers: seq<int>, c: nat, i: nat, k: nat)
    requires k < |column|
  {
    k * c + i < |numbers| && column[k] == numbers[k * c + i]
  }

  ghost predicate EveryCth(column: seq<int>, numbers: seq<int>, c: nat, i: nat, size: nat) {
    |column| == size && forall k :: 0 <= k < size ==> StandsAt(column, numbers, c, i, k)
  }

  lemma OneMoreStands(column: seq<int>, numbers: seq<int>, c: nat, i: nat, q: nat, r: nat)
    requires i < c && r < c && q * c + r < |numbers| && EveryCth(column, numbers, c, i, q + if i < r then 1 else 0)
    ensures EveryCth(column + Share(numbers[q * c + r], r, i), numbers, c, i, q + if i <= r then 1 else 0)
  {
    var after := column + Share(numbers[q * c + r], r, i);
    forall k | 0 <= k < |after|
      ensures StandsAt(after, numbers, c, i, k)
    {
      if k < |column| {
        assert StandsAt(column, numbers, c, i, k);
      }
    }
  }

  lemma NextStands(numbers: seq<int>, c: nat, i: nat, n: nat, q: nat, r: nat)
    requires i < c && r < c && n == q * c + r < |numbers|
    requires EveryCth(Column(numbers, c, i, n), numbers, c, i, q + if i < r then 1 else 0)
    ensures EveryCth(Column(numbers, c, i, n + 1), numbers, c, i, q + if i <= r then 1 else 0)
  {
    OwnerAt(n, c, q, r);
    OneMoreStands(Column(numbers, c, i, n), numbers, c, i, q, r);
  }

  lemma TurnBefore(n: nat, c: nat, q: nat)
    requires q > 0 && c > 0 && n == q * c
    ensures n > 0 && n - 1 == (q - 1) * c + (c - 1)
  {
    assert q * c == (q - 1) * c + c;
    AtLeastOnce(q, c);
  }

  // What computer i receives of the first n = q * c + r numbers: one of each full turn, and one of the turn
  // begun if it comes early enough.
  lemma {:induction false} ColumnIsEveryCth(numbers: seq<int>, c: nat, i: nat, n: nat, q: nat, r: nat)
    requires i < c && r < c && n == q * c + r <= |numbers|
    ensures EveryCth(Column(numbers, c, i, n), numbers, c, i, q + if i < r then 1 else 0)
    decreases n
  {
    if r > 0 {
      ColumnIsEveryCth(numbers, c, i, n - 1, q, r - 1);
      NextStands(numbers, c, i, n - 1, q, r - 1);
    } else if q > 0 {
      TurnBefore(n, c, q);
      ColumnIsEveryCth(numbers, c, i, n - 1, q - 1, c - 1);
      NextStands(numbers, c, i, n - 1, q - 1, c - 1);
    } else {
      assert n == 0;
    }
  }

  // What each computer receives.
  function Columns(numbers: seq<int>, c: nat): (columns: seq<seq<int>>)
    ensures |columns| == c
  {
    seq(c, i requires 0 <= i < c => Column(numbers, c, i, |numbers|))
  }

  // The first i columns one after another.
  function Flat(columns: seq<seq<int>>, i: nat): seq<int>
    requires i <= |columns|
  {
    if i == 0 then [] else Flat(columns, i - 1) + columns[i - 1]
  }

  // The ring order when i computers have received their numbers.
  function Deal(numbers: seq<int>, c: nat, i: nat): seq<int>
    requires i <= c
  {
    Flat(Columns(numbers, c), i)
  }

  function Positions(s: seq<int>, y: int): set<nat> {
    set k: nat | k < |s| && s[k] == y
  }

  function Count(s: seq<int>, y: int): nat {
    |Positions(s, y)|
  }

  lemma CountOfNothing(y: int)
    ensures Count([], y) == 0
  {
    assert Positions([], y) == {};
  }

  lemma CountOfPrefix(s: seq<int>, n: nat, y: int)
    requires n < |s|
    ensures Count(s[..n + 1], y) == Count(s[..n], y) + if s[n] == y then 1 else 0
  {
    assert Positions(s[..n + 1], y) == Positions(s[..n], y) + if s[n] == y then {n} else {};
  }

  lemma {:induction false} CountIsMultiplicity(s: seq<int>, y: int)
    ensures Count(s, y) == multiset(s)[y]
  {
    if s == [] {
      CountOfNothing(y);
    } else {
      var last := |s| - 1;
      CountIsMultiplicity(s[..last], y);
      CountOfPrefix(s, last, y);
      assert s == s[..last] + [s[last]] && s == s[..last + 1];
    }
  }

  lemma CountOfShare(x: int, owner: nat, i: nat, y: int)
    ensures Count(Share(x, owner, i), y) == if owner == i && x == y then 1 else 0
  {
    assert Positions(Share(x, owner, i), y) == if owner == i && x == y then {0} else {};
  }

  lemma CountOfSum(a: seq<int>, b: seq<int>, y: int)
    ensures Count(a + b, y) == Count(a, y) + Count(b, y)
  {
    CountIsMultiplicity(a, y);
    CountIsMultiplicity(b, y);
    CountIsMultiplicity(a + b, y);
  }

  // How often y is among the numbers that computer i receives.
  function ColumnCount(numbers: seq<int>, c: nat, i: nat, n: nat, y: int): nat
    requires c > 0 && n <= |numbers|
  {
    if n == 0 then 0
    else ColumnCount(numbers, c, i, n - 1, y) + if Owner(n - 1, c) == i && numbers[n - 1] == y then 1 else 0
  }

  // How often y is among the numbers that the first i computers receive.
  function DealCount(numbers: seq<int>, c: nat, i: nat, n: nat, y: int): nat
    requires i <= c && n <= |numbers|
  {
    if i == 0 then 0 else DealCount(numbers, c, i - 1, n, y) + ColumnCount(numbers, c, i - 1, n, y)
  }

  lemma {:induction false} CountOfColumn(numbers: seq<int>, c: nat, i: nat, n: nat, y: int)
    requires c > 0 && n <= |numbers|
    ensures Count(Column(numbers, c, i, n), y) == ColumnCount(numbers, c, i, n, y)
  {
    if n == 0 {
      CountOfNothing(y);
    } else {
      CountOfColumn(numbers, c, i, n - 1, y);
      CountOfShare(numbers[n - 1], Owner(n - 1, c), i, y);
      CountOfSum(Column(numbers, c, i, n - 1), Share(numbers[n - 1], Owner(n - 1, c), i), y);
    }
  }

  lemma {:induction false} CountOfDeal(numbers: seq<int>, c: nat, i: nat, y: int)
    requires i <= c
    ensures Count(Deal(numbers, c, i), y) == DealCount(numbers, c, i, |numbers|, y)
  {
    if i == 0 {
      CountOfNothing(y);
    } else {
      CountOfDeal(numbers, c, i - 1, y);
      CountOfColumn(numbers, c, i - 1, |numbers|, y);
      CountOfSum(Deal(numbers, c, i - 1), Columns(numbers, c)[i - 1], y);
    }
  }

  lemma {:induction false} DealOfLast(numbers: seq<int>, c: nat, i: nat, n: nat, owner: nat, y: int)
    requires 0 < c && i <= c && n < |numbers| && owner == Owner(n, c)
    ensures DealCount(numbers, c, i, n + 1, y)
         == DealCount(numbers, c, i, n, y) + if owner < i && numbers[n] == y then 1 else 0
  {
    if i > 0 {
      DealOfLast(numbers, c, i - 1, n, owner, y);
    }
  }

  lemma {:induction false} DealOfNothing(numbers: seq<int>, c: nat, i: nat, y: int)
    requires i <= c
    ensures DealCount(numbers, c, i, 0, y) == 0
  {
    if i > 0 {
      DealOfNothing(numbers, c, i - 1, y);
    }
  }

  lemma {:induction false} DealKeepsCount(numbers: seq<int>, c: nat, n: nat, y: int)
    requires 0 < c && n <= |numbers|
    ensures DealCount(numbers, c, c, n, y) == Count(numbers[..n], y)
  {
    if n == 0 {
      DealOfNothing(numbers, c, c, y);
      CountOfNothing(y);
    } else {
      DealKeepsCount(numbers, c, n - 1, y);
      DealOfLast(numbers, c, c, n - 1, Owner(n - 1, c), y);
      CountOfPrefix(numbers, n - 1, y);
    }
  }

  // Every input gets exactly one place in the ring, for any number of computers.
  lemma DealIsPermutation(numbers: seq<int>, c: nat)
    requires c > 0
    ensures multiset(Deal(numbers, c, c)) == multiset(numbers)
  {
    assert numbers[..|numbers|] == numbers;
    forall y: int
      ensures multiset(Deal(numbers, c, c))[y] == multiset(numbers)[y]
    {
      DealKeepsCount(numbers, c, |numbers|, y);
      CountOfDeal(numbers, c, c, y);
      CountIsMultiplicity(Deal(numbers, c, c), y);
      CountIsMultiplicity(numbers, y);
    }
  }

  ghost predicate Linked(nodes: seq<WorkerStructure>, k: nat)
    requires k < |nodes|
    reads nodes
  {
    && nodes[k].next == nodes[if k + 1 < |nodes| then k + 1 else 0]
    && nodes[k].prev == nodes[if k > 0 then k - 1 else |nodes| - 1]
  }

  ghost predicate Cycle(nodes: seq<WorkerStructure>)
    reads nodes
  {
    && (forall k, l :: 0 <= k < l < |nodes| ==> nodes[k] != nodes[l])
    && (forall k :: 0 <= k < |nodes| ==> Linked(nodes, k))
  }

  ghost predicate Carries(nodes: seq<WorkerStructure>, order: seq<int>) {
    && |nodes| == |order|
    && forall k :: 0 <= k < |nodes| ==> nodes[k].number == order[k] && nodes[k].port == FIRST_PORT + k
  }

  ghost predicate CarriesFrom(workers: seq<WorkerStructure>, part: seq<int>, start: nat) {
    && |workers| == |part|
    && forall k :: 0 <= k < |workers| ==> workers[k].number == part[k] && workers[k].port == FIRST_PORT + start + k
  }

  lemma CarriesMore(nodes: seq<WorkerStructure>, workers: seq<WorkerStructure>, order: seq<int>, part: seq<int>)
    requires Carries(nodes, order) && CarriesFrom(workers, part, |nodes|)
    ensures Carries(nodes + workers, order + part)
  {
    forall k | |nodes| <= k < |nodes + workers|
      ensures (nodes + workers)[k].number == (order + part)[k] && (nodes + workers)[k].port == FIRST_PORT + k
    {
      assert (nodes + workers)[k] == workers[k - |nodes|];
    }
  }

  lemma OneAfter(before: seq<WorkerStructure>, workers: seq<WorkerStructure>, worker: WorkerStructure)
    ensures before + workers + [worker] == before + (workers + [worker])
  {
  }

  lemma WorkerCarries(workers: seq<WorkerStructure>, column: seq<int>, worker: WorkerStructure, start: nat)
    requires CarriesFrom(workers, column, start) && worker.port == FIRST_PORT + start + |workers|
    ensures CarriesFrom(workers + [worker], column + [worker.number], start)
  {
  }

  // What number j adds to the column of computer i.
  ghost predicate PartStep(parts: seq<seq<int>>, numbers: seq<int>, c: nat, i: nat, j: nat)
    requires c > 0 && j < |numbers| && |parts| == |numbers| + 1
  {
    parts[j + 1] == if Owner(j, c) == i then parts[j] + [numbers[j]] else parts[j]
  }

  // parts[j] is what computer i receives of the first j numbers.
  ghost predicate ColumnParts(parts: seq<seq<int>>, numbers: seq<int>, c: nat, i: nat) {
    && c > 0 && |parts| == |numbers| + 1 && parts[0] == []
    && forall j :: 0 <= j < |numbers| ==> PartStep(parts, numbers, c, i, j)
  }

  lemma PartsOfColumn(numbers: seq<int>, c: nat, i: nat) returns (parts: seq<seq<int>>)
    requires c > 0
    ensures ColumnParts(parts, numbers, c, i) && parts[|numbers|] == Column(numbers, c, i, |numbers|)
  {
    parts := seq(|numbers| + 1, j requires 0 <= j <= |numbers| => Column(numbers, c, i, j));
    forall j | 0 <= j < |numbers|
      ensures PartStep(parts, numbers, c, i, j)
    {
      assert parts[j + 1] == parts[j] + Share(numbers[j], Owner(j, c), i);
    }
  }

  // The workers of the first i computers.
  function AllWorkers(computers: seq<Computer>, i: nat): seq<WorkerStructure>
    requires i <= |computers|
  {
    if i == 0 then [] else AllWorkers(computers, i - 1) + computers[i - 1].workers
  }

  lemma {:induction false} AppendedComputer(computers: seq<Computer>, computer: Computer, i: nat)
    requires i <= |computers|
    ensures AllWorkers(computers + [computer], i) == AllWorkers(computers, i)
  {
    if i > 0 {
      AppendedComputer(computers, computer, i - 1);
    }
  }

  // Computer i has its own name and as many workers as it received numbers.
  ghost predicate HostsColumns(computers: seq<Computer>, names: seq<string>, columns: seq<seq<int>>) {
    && |computers| <= |names| == |columns|
    && forall i :: 0 <= i < |computers| ==> computers[i].name == names[i] && |computers[i].workers| == |columns[i]|
  }

  // What the first i computers have received.
  ghost predicate DealtUpTo(computers: seq<Computer>, nodes: seq<WorkerStructure>, names: seq<string>,
                            columns: seq<seq<int>>, i: nat)
    requires i <= |names| == |columns|
  {
    && Carries(nodes, Flat(columns, i))
    && |computers| == i && AllWorkers(computers, i) == nodes
    && HostsColumns(computers, names, columns)
  }

  lemma NothingDealt(names: seq<string>, columns: seq<seq<int>>)
    requires |names| == |columns|
    ensures DealtUpTo([], [], names, columns, 0)
  {
  }

  lemma OneMoreDealt(computers: seq<Computer>, nodes: seq<WorkerStructure>, names: seq<string>,
                     columns: seq<seq<int>>, i: nat, workers: seq<WorkerStructure>)
    requires i < |names| == |columns| && DealtUpTo(computers, nodes, names, columns, i)
    requires CarriesFrom(workers, columns[i], |nodes|)
    ensures DealtUpTo(computers + [Computer(names[i], workers)], nodes + workers, names, columns, i + 1)
  {
    CarriesMore(nodes, workers, Flat(columns, i), columns[i]);
    AppendedComputer(computers, Computer(names[i], workers), i);
  }

  method OwnerOf(j: nat, c: nat) returns (owner: nat)
    requires c > 0
    ensures owner == Owner(j, c)
  {
    OwnerIsRemainder(j, c);
    owner := j % c;
  }

  class WorkersRing {
    var head: WorkerStructure?
    var tail: WorkerStructure?
    var port: nat
    var computers: seq<Computer>
    ghost var nodes: seq<WorkerStructure>

    ghost predicate Valid()
      reads this, nodes
    {
      && Cycle(nodes)
      && (if nodes == [] then head == null && tail == null
          else head == nodes[0] && tail == nodes[|nodes| - 1])
    }

    ghost predicate Fits(names: seq<string>, columns: seq<seq<int>>, i: nat)
      requires i <= |names| == |columns|
      reads this, nodes
    {
      Valid() && port == FIRST_PORT + |nodes| && DealtUpTo(computers, nodes, names, columns, i)
    }

    constructor (names: seq<string>, numbers: seq<int>)
      ensures Fits(names, Columns(numbers, |names|), |names|) && fresh(nodes)
    {
      head, tail, port, computers, nodes := null, null, FIRST_PORT, [], [];
      new;
      ghost var columns := Columns(numbers, |names|);
      NothingDealt(names, columns);
      for i := 0 to |names|
        invariant Fits(names, columns, i) && fresh(nodes)
      {
        ghost var added := AddComputer(names, numbers, columns, i);
      }
    }

    method AddComputer(names: seq<string>, numbers: seq<int>, ghost columns: seq<seq<int>>, i: nat)
      returns (ghost added: seq<WorkerStructure>)
      requires columns == Columns(numbers, |names|) && i < |names| && Fits(names, columns, i)
      modifies this, nodes
      ensures Fits(names, columns, i + 1)
      ensures nodes == old(nodes) + added && fresh(added)
    {
      ghost var parts := PartsOfColumn(numbers, |names|, i);
      var workers := AddColumn(numbers, |names|, i, parts);
      added := workers;
      OneMoreDealt(computers, old(nodes), names, columns, i, workers);
      computers := computers + [Computer(names[i], workers)];
    }

    // The inner loop of the source's constructor: one worker for each number dealt to computer i.
    method AddColumn(numbers: seq<int>, c: nat, i: nat, ghost parts: seq<seq<int>>)
      returns (workers: seq<WorkerStructure>)
      requires Valid() && port == FIRST_PORT + |nodes| && ColumnParts(parts, numbers, c, i)
      modifies this`head, this`tail, this`nodes, this`port, nodes
      ensures Valid() && fresh(workers) && port == FIRST_PORT + |nodes|
      ensures nodes == old(nodes) + workers
      ensures CarriesFrom(workers, parts[|numbers|], |old(nodes)|)
    {
      workers := [];
      for j := 0 to |numbers|
        invariant Valid() && fresh(workers) && port == FIRST_PORT + |nodes|
        invariant nodes == old(nodes) + workers
        invariant CarriesFrom(workers, parts[j], |old(nodes)|)
      {
        var owner := OwnerOf(j, c);
        assert PartStep(parts, numbers, c, i, j);
        if owner == i {
          var worker := AddNumber(numbers[j]);
          WorkerCarries(workers, parts[j], worker, |old(nodes)|);
          OneAfter(old(nodes), workers, worker);
          workers := workers + [worker];
        }
      }
    }

    method AddNumber(number: int) returns (worker: WorkerStructure)
      requires Valid()
      modifies this`head, this`tail, this`nodes, this`port, nodes
      ensures Valid() && fresh(worker) && nodes == old(nodes) + [worker] && port == old(port) + 1
      ensures worker.number == number && worker.port == old(port)
    {
      worker := new WorkerStructure(number, port);
      port := port + 1;
      AddWorker(worker);
    }

    method AddWorker(worker: WorkerStructure)
      requires Valid() && worker !in nodes
      modifies this`head, this`tail, this`nodes, nodes, worker
      ensures Valid() && nodes == old(nodes) + [worker]
    {
      ghost var n := |nodes|;
      if head == null {
        head, tail := worker, worker;
        worker.next := worker;
        worker.prev := worker;
      } else {
        assert Linked(nodes, 0) && Linked(nodes, n - 1);
        tail.next := worker;
        worker.prev := tail;
        worker.next := head;
        head.prev := worker;
        tail := worker;
      }
      nodes := nodes + [worker];
      forall k | 0 <= k < |nodes|
        ensures Linked(nodes, k)
      {
        if k < n {
          assert old(Linked(nodes, k)) && nodes[k] == old(nodes)[k];
        }
      }
    }
  }

  // The worker reached from w after k times `next`.
  ghost function Follow(nodes: seq<WorkerStructure>, w: WorkerStructure, k: nat): (r: WorkerStructure)
    requires Cycle(nodes) && w in nodes
    reads nodes
    ensures r in nodes
  {
    if k == 0 then w
    else
      var p :| 0 <= p < |nodes| && nodes[p] == w;
      assert Linked(nodes, p);
      Follow(nodes, w.next, k - 1)
  }

  lemma {:induction false} FollowForward(nodes: seq<WorkerStructure>, p: nat, k: nat)
    requires Cycle(nodes) && p + k <= |nodes| && p < |nodes|
    decreases k
    ensures Follow(nodes, nodes[p], k) == if p + k < |nodes| then nodes[p + k] else nodes[0]
  {
    if k > 0 {
      assert Linked(nodes, p);
      if p + 1 < |nodes| {
        FollowForward(nodes, p + 1, k - 1);
      }
    }
  }

  ghost predicate Mutual(nodes: seq<WorkerStructure>, w: WorkerStructure)
    reads nodes, w
  {
    && w.next in nodes && w.prev in nodes
    && w.next.prev == w && w.prev.next == w
  }

  lemma NeighboursAreMutual(nodes: seq<WorkerStructure>, p: nat)
    requires Cycle(nodes) && p < |nodes|
    ensures Mutual(nodes, nodes[p])
  {
    var next := if p + 1 < |nodes| then p + 1 else 0;
    var prev := if p > 0 then p - 1 else |nodes| - 1;
    assert Linked(nodes, p) && Linked(nodes, next) && Linked(nodes, prev);
  }

  // One cycle: `next` visits every worker once and is then back at the head, and `prev` inverts `next`.
  lemma RingIsOneCycle(ring: WorkersRing)
    requires ring.Valid() && ring.nodes != []
    ensures ring.head in ring.nodes
    ensures forall k :: 0 <= k < |ring.nodes| ==> Follow(ring.nodes, ring.head, k) == ring.nodes[k]
    ensures forall k, l :: 0 <= k < l < |ring.nodes| ==> ring.nodes[k] != ring.nodes[l]
    ensures Follow(ring.nodes, ring.head, |ring.nodes|) == ring.head
    ensures forall k :: 0 <= k < |ring.nodes| ==> Mutual(ring.nodes, ring.nodes[k])
  {
    var nodes := ring.nodes;
    FollowForward(nodes, 0, |nodes|);
    forall k | 0 <= k < |nodes|
      ensures Follow(nodes, nodes[0], k) == nodes[k] && Mutual(nodes, nodes[k])
    {
      FollowForward(nodes, 0, k);
      NeighboursAreMutual(nodes, k);
    }
  }

  // What the Chef tells the ambassadors to spawn.
  datatype Spawn = Spawn(computer: string, number: int, port: nat, next: nat, prev: nat)

  datatype Plan = TooFewNumbers | Planned(spawns: seq<Spawn>)

  ghost predicate Wired(spawn: Spawn, hosts: seq<string>, order: seq<int>, k: nat)
    requires k < |order| == |hosts|
  {
    && spawn.computer == hosts[k]
    && spawn.number == order[k]
    && spawn.port == FIRST_PORT + k
    && spawn.next == FIRST_PORT + Right(k, |order|)
    && spawn.prev == FIRST_PORT + Left(k, |order|)
  }

  function Repeat(name: string, count: nat): (names: seq<string>)
    ensures |names| == count && HostedBy(names, 0, count, name)
  {
    seq(count, _ => name)
  }

  // The computer of each ring position, for the first i computers.
  function Hosts(columns: seq<seq<int>>, names: seq<string>, i: nat): seq<string>
    requires i <= |names| == |columns|
  {
    if i == 0 then [] else Hosts(columns, names, i - 1) + Repeat(names[i - 1], |columns[i - 1]|)
  }

  ghost predicate HostedBy(hosts: seq<string>, start: nat, count: nat, name: string) {
    start + count <= |hosts| && forall k :: start <= k < start + count ==> hosts[k] == name
  }

  lemma LaterHosts(hosts: seq<string>, start: nat, count: nat, name: string, more: seq<string>)
    requires HostedBy(hosts, start, count, name) && hosts <= more
    ensures HostedBy(more, start, count, name)
  {
  }

  lemma LastHosts(hosts: seq<string>, count: nat, name: string)
    ensures HostedBy(hosts + Repeat(name, count), |hosts|, count, name)
  {
    var all := hosts + Repeat(name, count);
    forall k | |hosts| <= k < |hosts| + count
      ensures all[k] == name
    {
      assert all[k] == Repeat(name, count)[k - |hosts|];
    }
  }

  lemma {:induction false} HostsPrefix(columns: seq<seq<int>>, names: seq<string>, i: nat, m: nat)
    requires i <= m <= |names| == |columns|
    ensures Hosts(columns, names, i) <= Hosts(columns, names, m)
  {
    if i < m {
      HostsPrefix(columns, names, i, m - 1);
    }
  }

  lemma HostsOfComputer(columns: seq<seq<int>>, names: seq<string>, i: nat)
    requires i < |names| == |columns|
    ensures HostedBy(Hosts(columns, names, |names|), |Hosts(columns, names, i)|, |columns[i]|, names[i])
  {
    LastHosts(Hosts(columns, names, i), |columns[i]|, names[i]);
    HostsPrefix(columns, names, i + 1, |names|);
    LaterHosts(Hosts(columns, names, i + 1), |Hosts(columns, names, i)|, |columns[i]|, names[i],
               Hosts(columns, names, |names|));
  }

  lemma NeighbourIndices(k: nat, n: nat)
    requires k < n
    ensures Right(k, n) == if k + 1 < n then k + 1 else 0
    ensures Left(k, n) == if k > 0 then k - 1 else n - 1
  {
    if k > 0 {
      LeftOfRight(k, n);
    }
    if k + 1 < n {
      LeftOfRight(k + 1, n);
    }
  }

  lemma {:induction false} AllWorkersPrefix(computers: seq<Computer>, i: nat, m: nat)
    requires i <= m <= |computers|
    ensures AllWorkers(computers, i) <= AllWorkers(computers, m)
  {
    if i < m {
      AllWorkersPrefix(computers, i, m - 1);
    }
  }

  lemma SpawnIsWired(nodes: seq<WorkerStructure>, hosts: seq<string>, order: seq<int>, k: nat, spawn: Spawn)
    requires Cycle(nodes) && Carries(nodes, order) && k < |nodes| == |hosts|
    requires Linked(nodes, k)
    requires spawn.number == nodes[k].number && spawn.port == nodes[k].port && spawn.computer == hosts[k]
    requires spawn.next == nodes[k].next.port && spawn.prev == nodes[k].prev.port
    ensures Wired(spawn, hosts, order, k)
  {
    NeighbourIndices(k, |nodes|);
  }

  ghost predicate WiredSoFar(spawns: seq<Spawn>, hosts: seq<string>, order: seq<int>) {
    |spawns| <= |order| == |hosts| && forall k :: 0 <= k < |spawns| ==> Wired(spawns[k], hosts, order, k)
  }

  // The SPAWN messages for the workers of one computer.
  method SpawnWorkers(computer: Computer, sent: seq<Spawn>, ghost nodes: seq<WorkerStructure>,
                      ghost hosts: seq<string>, ghost order: seq<int>)
    returns (spawns: seq<Spawn>)
    requires Cycle(nodes) && Carries(nodes, order) && WiredSoFar(sent, hosts, order)
    requires |sent| + |computer.workers| <= |nodes|
    requires computer.workers == nodes[|sent|..|sent| + |computer.workers|]
    requires HostedBy(hosts, |sent|, |computer.workers|, computer.name)
    ensures WiredSoFar(spawns, hosts, order) && |spawns| == |sent| + |computer.workers|
  {
    spawns := sent;
    for j := 0 to |computer.workers|
      invariant WiredSoFar(spawns, hosts, order) && |spawns| == |sent| + j
    {
      var worker := computer.workers[j];
      assert worker == nodes[|sent|..|sent| + |computer.workers|][j] == nodes[|sent| + j];
      assert Linked(nodes, |spawns|);
      var spawn := Spawn(computer.name, worker.number, worker.port, worker.next.port, worker.prev.port);
      SpawnIsWired(nodes, hosts, order, |spawns|, spawn);
      spawns := spawns + [spawn];
    }
  }

  // The workers of computer i stand in the ring from starts[i] on.
  ghost predicate Placed(computers: seq<Computer>, nodes: seq<WorkerStructure>, hosts: seq<string>, starts: seq<nat>,
                         i: nat)
    requires i < |computers| && |starts| == |computers| + 1
  {
    var start, count := starts[i], |computers[i].workers|;
    && start + count <= |nodes| && computers[i].workers == nodes[start..start + count]
    && HostedBy(hosts, start, count, computers[i].name)
    && starts[i + 1] == start + count
  }

  ghost predicate AllPlaced(computers: seq<Computer>, nodes: seq<WorkerStructure>, hosts: seq<string>, starts: seq<nat>)
  {
    && |starts| == |computers| + 1 && starts[0] == 0 && starts[|computers|] == |nodes|
    && forall i :: 0 <= i < |computers| ==> Placed(computers, nodes, hosts, starts, i)
  }

  lemma PartOfAll(before: seq<WorkerStructure>, part: seq<WorkerStructure>, all: seq<WorkerStructure>)
    requires before + part <= all
    ensures part == all[|before|..|before| + |part|]
  {
    assert part == (before + part)[|before|..];
  }

  lemma PlaceOfComputer(computers: seq<Computer>, columns: seq<seq<int>>, names: seq<string>, i: nat, starts: seq<nat>)
    requires i < |computers| == |names| && HostsColumns(computers, names, columns)
    requires |starts| == |computers| + 1
    requires starts[i] == |AllWorkers(computers, i)| && starts[i + 1] == |AllWorkers(computers, i + 1)|
    ensures Placed(computers, AllWorkers(computers, |computers|), Hosts(columns, names, |names|), starts, i)
  {
    AllWorkersPrefix(computers, i + 1, |names|);
    WorkersMatchHosts(computers, columns, names, i);
    HostsOfComputer(columns, names, i);
    PartOfAll(AllWorkers(computers, i), computers[i].workers, AllWorkers(computers, |computers|));
  }

  lemma PlacesOfComputers(computers: seq<Computer>, columns: seq<seq<int>>, names: seq<string>)
    returns (starts: seq<nat>)
    requires |computers| == |names| && HostsColumns(computers, names, columns)
    ensures AllPlaced(computers, AllWorkers(computers, |computers|), Hosts(columns, names, |names|), starts)
  {
    starts := seq(|computers| + 1, i requires 0 <= i <= |computers| => |AllWorkers(computers, i)|);
    forall i | 0 <= i < |computers|
      ensures Placed(computers, AllWorkers(computers, |computers|), Hosts(columns, names, |names|), starts, i)
    {
      PlaceOfComputer(computers, columns, names, i, starts);
    }
  }

  lemma {:induction false} WorkersMatchHosts(computers: seq<Computer>, columns: seq<seq<int>>,
                                              names: seq<string>, i: nat)
    requires i <= |computers| && HostsColumns(computers, names, columns)
    ensures |AllWorkers(computers, i)| == |Hosts(columns, names, i)|
  {
    if i > 0 {
      WorkersMatchHosts(computers, columns, names, i - 1);
    }
  }

  method ProcessInput(numbers: seq<int>, names: seq<string>) returns (plan: Plan)
    ensures plan.TooFewNumbers? <==> |numbers| < 2
    ensures plan.Planned? ==>
      && |plan.spawns| == |Deal(numbers, |names|, |names|)|
      && WiredSoFar(plan.spawns, Hosts(Columns(numbers, |names|), names, |names|), Deal(numbers, |names|, |names|))
  {
    if |numbers| < 2 {
      return TooFewNumbers;
    }
    var ring := new WorkersRing(names, numbers);
    ghost var columns := Columns(numbers, |names|);
    ghost var starts := PlacesOfComputers(ring.computers, columns, names);
    WorkersMatchHosts(ring.computers, columns, names, |names|);
    var spawns := SpawnAll(ring.computers, ring.nodes, Hosts(columns, names, |names|),
                           Deal(numbers, |names|, |names|), starts);
    plan := Planned(spawns);
  }

  method SpawnAll(computers: seq<Computer>, ghost nodes: seq<WorkerStructure>, ghost hosts: seq<string>,
                  ghost order: seq<int>, ghost starts: seq<nat>)
    returns (spawns: seq<Spawn>)
    requires Cycle(nodes) && Carries(nodes, order) && |hosts| == |order|
    requires AllPlaced(computers, nodes, hosts, starts)
    ensures |spawns| == |order| && WiredSoFar(spawns, hosts, order)
  {
    spawns := [];
    for i := 0 to |computers|
      invariant WiredSoFar(spawns, hosts, order) && |spawns| == starts[i]
    {
      assert Placed(computers, nodes, hosts, starts, i);
      spawns := SpawnWorkers(computers[i], spawns, nodes, hosts, order);
    }
  }

  // The whole round: the planned ring, run without loss until it rests, computes the gcd of the input line
  // if and only if the numbers are all positive or all zero.
  lemma PlannedRingComputesGcd(numbers: seq<int>, c: nat, steps: seq<Step>)
    requires c > 0
    requires IsRun(Init(Deal(numbers, c, c)), steps) && LossFree(steps)
    requires Quiescent(Final(Init(Deal(numbers, c, c)), steps))
    ensures |Deal(numbers, c, c)| == |numbers|
    ensures (forall i :: 0 <= i < |Final(Init(Deal(numbers, c, c)), steps).workers| ==>
              Final(Init(Deal(numbers, c, c)), steps).workers[i].m == GcdAll(numbers))
      <==> Positive(numbers) || AllZero(numbers)
  {
    var order := Deal(numbers, c, c);
    DealIsPermutation(numbers, c);
    assert |order| == |multiset(order)| == |multiset(numbers)| == |numbers|;
    PermutationKeepsSigns(numbers, order);
    PermutationKeepsSigns(order, numbers);
    QuiescenceIsGcdIff(order, steps);
    RunKeepsSize(Init(order), steps);
    GcdAllOfPermutation(order, numbers);
  }

  lemma PermutationKeepsSigns(s: seq<int>, t: seq<int>)
    requires multiset(s) == multiset(t)
    ensures Positive(s) ==> Positive(t)
    ensures AllZero(s) ==> AllZero(t)
  {
    forall k | 0 <= k < |t|
      ensures t[k] in s
    {
      assert t[k] in multiset(t);
      assert t[k] in multiset(s);
    }
  }
}
