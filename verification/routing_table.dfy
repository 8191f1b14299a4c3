/** One node of the chat network: its routing table and its message handlers. */
module RoutingNode {

  datatype Address = Address(host: string, port: int)

  datatype Entry = Entry(target: Address, hops: int, via: Address)

  type Table = map<Address, Entry>

  // One route of a routing message.
  datatype Route = Route(target: Address, hops: int)

  datatype RoutingInfo = RoutingInfo(dst: Address, routes: seq<Route>)

  const UNREACHABLE_HOP_COUNT: int := 13
  const INITIAL_TTL: int := 13

  predicate Improves(table: Table, entry: Entry) {
    entry.target !in table || entry.hops < table[entry.target].hops
  }

  // A better or first route replaces the entry; anything else leaves the table alone.
  function Updated(table: Table, target: Address, hops: int, via: Address): Table {
    if Improves(table, Entry(target, hops, via)) then
      table[target := Entry(target, hops, via)]
    else
      table
  }

  // What a hello does: its sender is one hop away.
  function Greeted(table: Table, sender: Address): Table {
    Updated(table, sender, 1, sender)
  }

  function AfterRoutes(table: Table, sender: Address, routes: seq<Route>): Table {
    if routes == [] then table
    else
      var last := |routes| - 1;
      Updated(AfterRoutes(table, sender, routes[..last]), routes[last].target, routes[last].hops + 1, sender)
  }

  // Split horizon: everything except what was learnt from the addressee itself.
  function Advertised(table: Table, exclude: Address): set<Route> {
    set target | target in table && table[target].via != exclude :: Route(table[target].target, table[target].hops)
  }

  // The targets that are direct neighbours.
  function OneHop(table: Table): set<Address> {
    set t | t in table && table[t].hops == 1
  }

  lemma CountOneMore(all: set<Address>, rest: set<Address>, key: Address)
    requires key in rest
    ensures |all - (rest - {key})| == |all - rest| + if key in all then 1 else 0
  {
    assert all - (rest - {key}) == (all - rest) + if key in all then {key} else {};
  }

  datatype HopResult = Arrived | Expired | NoRoute | SendTo(next: Address, ttl: int)

  // What one node does with a chat message.
  function Hop(table: Table, self: Address, target: Address, ttl: int): HopResult {
    if target == self then Arrived
    else if ttl - 1 <= 0 then Expired
    else if target !in table || table[target].hops == UNREACHABLE_HOP_COUNT then NoRoute
    else SendTo(table[target].via, ttl - 1)
  }

  ghost predicate Keyed(table: Table) {
    forall target :: target in table ==> table[target].target == target
  }

  function ElementsOf<T>(s: seq<T>): set<T> {
    set x | x in s
  }

  function RoutesIn(entries: seq<Entry>): set<Route> {
    set e | e in entries :: Route(e.target, e.hops)
  }

  class RoutingTable {
    var table: Table
    const local: Address

    constructor (local: Address)
      ensures table == map[] && this.local == local
    {
      table, this.local := map[], local;
    }

    method UpdateEntry(target: Address, hops: int, via: Address) returns (modified: bool)
      modifies this
      ensures table == Updated(old(table), target, hops, via)
      ensures modified <==> table != old(table)
    {
      if target !in table || hops < table[target].hops {
        table := table[target := Entry(target, hops, via)];
        modified := true;
      } else {
        modified := false;
      }
    }

    // Each advertised route exactly once, in some order, with this node as the next hop.
    method GenerateRoutingUpdate(exclude: Address) returns (updates: seq<Entry>)
      requires Keyed(table)
      ensures RoutesIn(updates) == Advertised(table, exclude)
      ensures forall e :: e in updates ==> e.via == local
      ensures forall i, j :: 0 <= i < j < |updates| ==> updates[i].target != updates[j].target
    {
      var shortest: Table := map[];
      var rest := table.Keys;
      while rest != {}
        invariant rest <= table.Keys
        invariant shortest == map t | t in table && t !in rest :: table[t]
      {
        var key :| key in rest;
        var entry := table[key];
        if Improves(shortest, entry) {
          shortest := shortest[entry.target := entry];
        }
        rest := rest - {key};
      }
      assert shortest == table;

      updates := [];
      rest := shortest.Keys;
      while rest != {}
        invariant rest <= table.Keys
        invariant forall e :: e in updates <==>
          e.target in table && e.target !in rest && table[e.target].via != exclude
          && e == Entry(e.target, table[e.target].hops, local)
        invariant forall i, j :: 0 <= i < j < |updates| ==> updates[i].target != updates[j].target
      {
        var key :| key in rest;
        var entry := shortest[key];
        if entry.via != exclude {
          assert Entry(key, table[key].hops, local) !in updates;
          updates := updates + [Entry(entry.target, entry.hops, local)];
        }
        rest := rest - {key};
      }
      AdvertisedEntries(table, exclude, local, updates);
    }

    // Each direct neighbour exactly once, in some order.
    method GetNeighbors() returns (neighbors: seq<Entry>)
      requires Keyed(table)
      ensures forall e :: e in neighbors <==> e.target in table && table[e.target] == e && e.hops == 1
      ensures |neighbors| == |OneHop(table)|
    {
      neighbors := [];
      var rest := table.Keys;
      while rest != {}
        invariant rest <= table.Keys
        invariant |neighbors| == |OneHop(table) - rest|
        invariant forall e :: e in neighbors <==>
          e.target in table && e.target !in rest && table[e.target] == e && e.hops == 1
      {
        var key :| key in rest;
        CountOneMore(OneHop(table), rest, key);
        if table[key].hops == 1 {
          neighbors := neighbors + [table[key]];
        }
        rest := rest - {key};
      }
      assert OneHop(table) - {} == OneHop(table);
    }
  }

  lemma AdvertisedEntries(table: Table, exclude: Address, local: Address, updates: seq<Entry>)
    requires Keyed(table)
    requires forall e :: e in updates <==>
      e.target in table && table[e.target].via != exclude && e == Entry(e.target, table[e.target].hops, local)
    ensures RoutesIn(updates) == Advertised(table, exclude)
  {
    var routes := RoutesIn(updates);
    forall r | r in Advertised(table, exclude)
      ensures r in routes
    {
      assert Entry(r.target, r.hops, local) in updates;
    }
  }

  class Server {
    const self: Address
    const routing: RoutingTable

    constructor (self: Address)
      ensures this.self == self && fresh(routing) && routing.table == map[] && routing.local == self
    {
      this.self := self;
      routing := new RoutingTable(self);
    }

    method HandleHello(sender: Address)
      modifies routing
      ensures routing.table == Greeted(old(routing.table), sender)
    {
      var modified := routing.UpdateEntry(sender, 1, sender);
    }

    method HandleRoutingInfo(sender: Address, routes: seq<Route>)
      modifies routing
      ensures routing.table == AfterRoutes(old(routing.table), sender, routes)
    {
      for i := 0 to |routes|
        invariant routing.table == AfterRoutes(old(routing.table), sender, routes[..i])
      {
        assert routes[..i + 1][..i] == routes[..i];
        var modified := routing.UpdateEntry(routes[i].target, routes[i].hops + 1, sender);
      }
      assert routes[..|routes|] == routes;
    }

    method HandleChatMessage(target: Address, ttl: int) returns (result: HopResult)
      ensures result == Hop(routing.table, self, target, ttl)
    {
      if target == self {
        return Arrived;
      }
      result := ForwardMessage(target, ttl);
    }

    method ForwardMessage(target: Address, ttl: int) returns (result: HopResult)
      ensures target != self ==> result == Hop(routing.table, self, target, ttl)
    {
      var remaining := ttl - 1;
      if remaining <= 0 {
        return Expired;
      }
      if target !in routing.table || routing.table[target].hops == UNREACHABLE_HOP_COUNT {
        return NoRoute;
      }
      result := SendTo(routing.table[target].via, remaining);
    }

    // One message to every direct neighbour, holding exactly what split horizon lets it know.
    method PropagateRoutingTable() returns (messages: seq<RoutingInfo>)
      requires Keyed(routing.table)
      ensures forall m :: m in messages ==> ElementsOf(m.routes) == Advertised(routing.table, m.dst)
      ensures (set m | m in messages :: m.dst)
        == set t | t in routing.table && routing.table[t].hops == 1 :: routing.table[t].via
      ensures |messages| == |OneHop(routing.table)|
    {
      messages := [];
      var neighbors := routing.GetNeighbors();
      for i := 0 to |neighbors|
        invariant forall m :: m in messages ==> ElementsOf(m.routes) == Advertised(routing.table, m.dst)
        invariant |messages| == i && forall k :: 0 <= k < i ==> messages[k].dst == neighbors[k].via
      {
        var updates := routing.GenerateRoutingUpdate(neighbors[i].via);
        var routes: seq<Route> := [];
        for j := 0 to |updates|
          invariant routes == seq(j, k requires 0 <= k < j <= |updates| => Route(updates[k].target, updates[k].hops))
        {
          routes := routes + [Route(updates[j].target, updates[j].hops)];
        }
        RoutesOfEntries(updates, routes);
        messages := messages + [RoutingInfo(neighbors[i].via, routes)];
      }
      MessageTargets(routing.table, neighbors, messages);
    }
  }

  lemma RoutesOfEntries(updates: seq<Entry>, routes: seq<Route>)
    requires |routes| == |updates|
    requires forall k :: 0 <= k < |updates| ==> routes[k] == Route(updates[k].target, updates[k].hops)
    ensures ElementsOf(routes) == RoutesIn(updates)
  {
    forall e | e in updates
      ensures Route(e.target, e.hops) in routes
    {
      var k :| 0 <= k < |updates| && updates[k] == e;
      assert routes[k] == Route(e.target, e.hops);
    }
  }

  lemma MessageTargets(table: Table, neighbors: seq<Entry>, messages: seq<RoutingInfo>)
    requires forall e :: e in neighbors <==> e.target in table && table[e.target] == e && e.hops == 1
    requires Keyed(table)
    requires |messages| == |neighbors| && forall k :: 0 <= k < |neighbors| ==> messages[k].dst == neighbors[k].via
    ensures (set m | m in messages :: m.dst) == set t | t in table && table[t].hops == 1 :: table[t].via
  {
    forall t | t in table && table[t].hops == 1
      ensures exists m :: m in messages && m.dst == table[t].via
    {
      assert table[t] in neighbors;
      var k :| 0 <= k < |neighbors| && neighbors[k] == table[t];
      assert messages[k] in messages;
    }
    forall m | m in messages
      ensures exists t :: t in table && table[t].hops == 1 && table[t].via == m.dst
    {
      var k :| 0 <= k < |messages| && messages[k] == m;
      assert neighbors[k] in neighbors;
    }
  }
}
