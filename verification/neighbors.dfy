/** How a client finds the next one in the token ring from a registry listing. */
module Neighbors {
  import opened Basics

  datatype Kind = Client | RobotNode

  datatype Payload = Payload(id: int, kind: Kind, address: nat)

  function Clients(nodes: seq<Payload>): (r: seq<Payload>)
    ensures forall p :: p in r <==> p in nodes && p.kind.Client?
  {
    if nodes == [] then []
    else
      var last := nodes[|nodes| - 1];
      var rest := Clients(nodes[..|nodes| - 1]);
      if last.kind.Client? then rest + [last] else rest
  }

  // The library sort: stable, ascending by id.
  function Insert(p: Payload, sorted: seq<Payload>): seq<Payload> {
    if sorted == [] || sorted[|sorted| - 1].id <= p.id then sorted + [p]
    else Insert(p, sorted[..|sorted| - 1]) + [sorted[|sorted| - 1]]
  }

  function SortById(s: seq<Payload>): seq<Payload> {
    if s == [] then [] else Insert(s[|s| - 1], SortById(s[..|s| - 1]))
  }

  predicate Ascending(s: seq<Payload>) {
    forall i, j :: 0 <= i < j < |s| ==> s[i].id <= s[j].id
  }

  ghost predicate Below(s: seq<Payload>, id: int) {
    forall q :: q in s ==> q.id <= id
  }

  lemma FrontIsBelow(s: seq<Payload>)
    requires Ascending(s) && s != []
    ensures Ascending(s[..|s| - 1]) && Below(s[..|s| - 1], s[|s| - 1].id)
  {
  }

  lemma AppendedIsAscending(front: seq<Payload>, last: Payload)
    requires Ascending(front) && Below(front, last.id)
    ensures Ascending(front + [last])
  {
  }

  lemma {:induction false} InsertKeepsMembers(p: Payload, sorted: seq<Payload>)
    ensures multiset(Insert(p, sorted)) == multiset(sorted) + multiset{p}
  {
    if sorted != [] && sorted[|sorted| - 1].id > p.id {
      var front, last := sorted[..|sorted| - 1], sorted[|sorted| - 1];
      InsertKeepsMembers(p, front);
      assert sorted == front + [last];
    }
  }

  lemma {:induction false} InsertIsSorted(p: Payload, sorted: seq<Payload>, id: int)
    requires Ascending(sorted) && Below(sorted, id) && p.id <= id
    ensures Ascending(Insert(p, sorted)) && Below(Insert(p, sorted), id)
  {
    if sorted == [] {
    } else if sorted[|sorted| - 1].id <= p.id {
      FrontIsBelow(sorted);
      AppendedIsAscending(sorted, p);
    } else {
      var front, last := sorted[..|sorted| - 1], sorted[|sorted| - 1];
      FrontIsBelow(sorted);
      InsertIsSorted(p, front, last.id);
      AppendedIsAscending(Insert(p, front), last);
    }
  }

  lemma {:induction false} Highest(s: seq<Payload>) returns (id: int)
    ensures Below(s, id)
  {
    if s == [] {
      id := 0;
    } else {
      var front, last := s[..|s| - 1], s[|s| - 1];
      id := Highest(front);
      id := if last.id > id then last.id else id;
      assert s == front + [last];
    }
  }

  lemma {:induction false} SortByIdIsSorted(s: seq<Payload>)
    ensures Ascending(SortById(s)) && multiset(SortById(s)) == multiset(s)
  {
    if s != [] {
      var front, last := s[..|s| - 1], s[|s| - 1];
      SortByIdIsSorted(front);
      var id := Highest(SortById(front) + [last]);
      assert last in SortById(front) + [last];
      InsertIsSorted(last, SortById(front), id);
      InsertKeepsMembers(last, SortById(front));
      assert s == front + [last];
    }
  }

  function IndexOf(s: seq<Payload>, id: int): (k: nat)
    ensures k <= |s| && (k < |s| ==> s[k].id == id)
    ensures forall j :: 0 <= j < k ==> s[j].id != id
  {
    if s == [] then 0 else if s[0].id == id then 0 else 1 + IndexOf(s[1..], id)
  }

  function After(clients: seq<Payload>, mine: nat, self: int): Option<Payload> {
    if mine >= |clients| then None
    else
      var neighbor := clients[(mine + 1) % |clients|];
      if neighbor.id == self then None else Some(neighbor)
  }

  function NextClient(nodes: seq<Payload>, self: int): Option<Payload> {
    var clients := SortById(Clients(nodes));
    After(clients, IndexOf(clients, self), self)
  }

  // The client's own loops. The caller has already turned a missing list into an exception.
  method ExtractNeighbors(nodes: seq<Payload>, self: int) returns (neighbor: Option<Payload>)
    ensures neighbor == NextClient(nodes, self)
  {
    var clients: seq<Payload> := [];
    for k := 0 to |nodes|
      invariant clients == Clients(nodes[..k])
    {
      assert nodes[..k + 1][..k] == nodes[..k];
      if nodes[k].kind.Client? {
        clients := clients + [nodes[k]];
      }
    }
    assert nodes[..|nodes|] == nodes;
    if clients == [] {
      return None;
    }
    var sorted := SortById(clients);
    var mine := FindIndex(sorted, self);
    if mine == -1 {
      return None;
    }
    var next := sorted[(mine + 1) % |sorted|];
    neighbor := if next.id == self then None else Some(next);
  }

  method FindIndex(clients: seq<Payload>, self: int) returns (mine: int)
    ensures -1 <= mine < |clients|
    ensures IndexOf(clients, self) == if mine == -1 then |clients| else mine
  {
    mine := -1;
    for i := 0 to |clients|
      invariant forall j :: 0 <= j < i ==> clients[j].id != self
    {
      if clients[i].id == self {
        return i;
      }
    }
  }

  predicate DistinctIds(nodes: seq<Payload>) {
    forall i, j :: 0 <= i < j < |nodes| ==> nodes[i].id != nodes[j].id
  }

  predicate StrictlyAscending(ring: seq<Payload>) {
    forall i, j :: 0 <= i < j < |ring| ==> ring[i].id < ring[j].id
  }

  // The ring order: the clients strictly ascending by id.
  ghost predicate IsRing(nodes: seq<Payload>, ring: seq<Payload>) {
    && ring == SortById(Clients(nodes))
    && (forall p :: p in ring <==> p in nodes && p.kind.Client?)
    && StrictlyAscending(ring)
  }

  lemma {:induction false} ClientsKeepOrder(nodes: seq<Payload>)
    requires DistinctIds(nodes)
    ensures DistinctIds(Clients(nodes))
  {
    if nodes != [] {
      ClientsKeepOrder(nodes[..|nodes| - 1]);
    }
  }

  lemma SortKeepsMembers(nodes: seq<Payload>)
    ensures forall p :: p in SortById(Clients(nodes)) <==> p in nodes && p.kind.Client?
  {
    var clients := Clients(nodes);
    var sorted := SortById(clients);
    SortByIdIsSorted(clients);
    forall p
      ensures p in sorted <==> p in nodes && p.kind.Client?
    {
      assert p in sorted <==> p in multiset(sorted);
      assert p in clients <==> p in multiset(clients);
    }
  }

  lemma RingOf(nodes: seq<Payload>) returns (ring: seq<Payload>)
    requires DistinctIds(nodes)
    ensures IsRing(nodes, ring)
  {
    var clients := Clients(nodes);
    ring := SortById(clients);
    ClientsKeepOrder(nodes);
    SortByIdIsSorted(clients);
    SortKeepsMembers(nodes);
    forall i, j | 0 <= i < j < |ring|
      ensures ring[i].id < ring[j].id
    {
      if ring[i].id == ring[j].id {
        SameIdTwice(ring, i, j);
        OncePerId(clients, ring[i]);
      }
    }
  }

  // Occurrences of p in s among those sharing its id.
  lemma SameIdTwice(ring: seq<Payload>, i: nat, j: nat)
    requires i < j < |ring|
    ensures ring[i] == ring[j] ==> multiset(ring)[ring[i]] >= 2
  {
    var p := ring[i];
    assert ring == ring[..j] + ring[j..];
    assert p in ring[..j];
    if ring[i] == ring[j] {
      assert p in ring[j..];
    }
  }

  lemma {:induction false} OncePerId(s: seq<Payload>, p: Payload)
    requires DistinctIds(s)
    ensures multiset(s)[p] <= 1
  {
    if s != [] {
      var front, last := s[..|s| - 1], s[|s| - 1];
      assert s == front + [last];
      OncePerId(front, p);
    }
  }

  function Succ(i: nat, n: nat): nat
    requires i < n
  {
    if i + 1 < n then i + 1 else 0
  }

  lemma WrapAround(i: nat, n: nat)
    requires i < n
    ensures (i + 1) % n == Succ(i, n)
  {
  }

  lemma IndexInRing(ring: seq<Payload>, i: nat)
    requires StrictlyAscending(ring) && i < |ring|
    ensures IndexOf(ring, ring[i].id) == i
  {
    var k := IndexOf(ring, ring[i].id);
    assert !(k < i);
    assert !(i < k);
  }

  lemma AfterInRing(ring: seq<Payload>, i: nat)
    requires StrictlyAscending(ring) && i < |ring| && |ring| >= 2
    ensures After(ring, IndexOf(ring, ring[i].id), ring[i].id) == Some(ring[Succ(i, |ring|)])
  {
    IndexInRing(ring, i);
    WrapAround(i, |ring|);
    var j := Succ(i, |ring|);
    assert ring[i].id < ring[j].id || ring[j].id < ring[i].id;
  }

  // In the ring the next client is the one after, and after the last comes the first.
  lemma NextInRing(nodes: seq<Payload>, ring: seq<Payload>, i: nat)
    requires IsRing(nodes, ring) && i < |ring| && |ring| >= 2
    ensures NextClient(nodes, ring[i].id) == Some(ring[Succ(i, |ring|)])
  {
    AfterInRing(ring, i);
  }

  // No neighbour: the client is alone or not listed.
  lemma NoNeighborIff(nodes: seq<Payload>, self: int)
    requires DistinctIds(nodes)
    ensures NextClient(nodes, self).None? <==>
      (forall p :: p in nodes && p.kind.Client? ==> p.id == self)
      || (forall p :: p in nodes && p.kind.Client? ==> p.id != self)
  {
    var ring := RingOf(nodes);
    var i := IndexOf(ring, self);
    if i < |ring| && |ring| >= 2 {
      NextInRing(nodes, ring, i);
      assert ring[0] in nodes && ring[1] in nodes && ring[i] in nodes;
    }
  }

  // Independently of the sort: the smallest larger id or, for the largest, the smallest of all.
  lemma NextIsCyclicSuccessor(nodes: seq<Payload>, self: int, next: Payload)
    requires DistinctIds(nodes) && NextClient(nodes, self) == Some(next)
    ensures next in nodes && next.kind.Client? && next.id != self
    ensures forall p :: p in nodes && p.kind.Client? && p.id != next.id && p.id != self ==>
      if self < next.id then p.id < self || p.id > next.id else next.id < p.id < self
  {
    var ring := RingOf(nodes);
    var i := IndexOf(ring, self);
    NextInRing(nodes, ring, i);
    forall p | p in nodes && p.kind.Client? && p.id != next.id && p.id != self
      ensures if self < next.id then p.id < self || p.id > next.id else next.id < p.id < self
    {
      assert p in ring;
      var k :| 0 <= k < |ring| && ring[k] == p;
    }
  }

  // The client reached after k forwards.
  function Pass(nodes: seq<Payload>, p: Payload, k: nat): Option<Payload>
    decreases k
  {
    if k == 0 then Some(p)
    else
      match NextClient(nodes, p.id)
      case None => None
      case Some(next) => Pass(nodes, next, k - 1)
  }

  function Shift(i: nat, k: nat, n: nat): nat
    requires i < n && k <= n
  {
    if i + k < n then i + k else i + k - n
  }

  ghost predicate Follows(nodes: seq<Payload>, ring: seq<Payload>, i: nat)
    requires i < |ring|
  {
    NextClient(nodes, ring[i].id) == Some(ring[Succ(i, |ring|)])
  }

  lemma {:induction false} PassInRing(nodes: seq<Payload>, ring: seq<Payload>, i: nat, k: nat)
    requires forall j :: 0 <= j < |ring| ==> Follows(nodes, ring, j)
    requires i < |ring| && k <= |ring|
    ensures Pass(nodes, ring[i], k) == Some(ring[Shift(i, k, |ring|)])
    decreases k
  {
    if k > 0 {
      assert Follows(nodes, ring, i);
      PassInRing(nodes, ring, Succ(i, |ring|), k - 1);
    }
  }

  lemma RingVisits(nodes: seq<Payload>, ring: seq<Payload>, i: nat, j: nat) returns (k: nat)
    requires StrictlyAscending(ring) && forall m :: 0 <= m < |ring| ==> Follows(nodes, ring, m)
    requires i < |ring| && j < |ring| && i != j
    ensures 0 < k < |ring| && Pass(nodes, ring[i], k) == Some(ring[j])
    ensures forall l :: 0 <= l < |ring| && Pass(nodes, ring[i], l) == Some(ring[j]) ==> l == k
    ensures Pass(nodes, ring[i], |ring|) == Some(ring[i])
  {
    k := if i < j then j - i else j - i + |ring|;
    PassInRing(nodes, ring, i, k);
    PassInRing(nodes, ring, i, |ring|);
    forall l | 0 <= l < |ring| && Pass(nodes, ring[i], l) == Some(ring[j])
      ensures l == k
    {
      PassInRing(nodes, ring, i, l);
      var m := Shift(i, l, |ring|);
      assert !(m < j) && !(j < m);
    }
  }

  // Main result: forwarding along the neighbours visits every other client exactly once before it
  // returns, whoever starts.
  lemma TokenVisitsEveryClient(nodes: seq<Payload>, start: Payload, p: Payload) returns (k: nat)
    requires DistinctIds(nodes)
    requires start in nodes && start.kind.Client? && p in nodes && p.kind.Client? && p != start
    ensures 0 < k < |Clients(nodes)| && Pass(nodes, start, k) == Some(p)
    ensures forall l :: 0 <= l < |Clients(nodes)| && Pass(nodes, start, l) == Some(p) ==> l == k
    ensures Pass(nodes, start, |Clients(nodes)|) == Some(start)
  {
    var ring := RingOf(nodes);
    RingSize(nodes);
    var i, j := PositionOf(ring, start), PositionOf(ring, p);
    forall m | 0 <= m < |ring|
      ensures Follows(nodes, ring, m)
    {
      NextInRing(nodes, ring, m);
    }
    k := RingVisits(nodes, ring, i, j);
  }

  function PositionOf(ring: seq<Payload>, p: Payload): (i: nat)
    requires p in ring
    ensures i < |ring| && ring[i] == p
  {
    if ring[0] == p then 0 else 1 + PositionOf(ring[1..], p)
  }

  lemma RingSize(nodes: seq<Payload>)
    ensures |SortById(Clients(nodes))| == |Clients(nodes)|
  {
    var clients := Clients(nodes);
    SortByIdIsSorted(clients);
    assert |SortById(clients)| == |multiset(SortById(clients))| == |multiset(clients)| == |clients|;
  }
}
