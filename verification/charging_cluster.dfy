/** The charging cluster: ports, Dutch auctions, the mode switch and the energy buffer. */
module ChargingClusters {
  import opened Basics

  type Vehicle = string

  datatype Port = Port(occupied: bool, vehicle: Option<Vehicle>, power: real)

  datatype Auction = Auction(price: real, ticks: int, active: bool, bidder: Option<Vehicle>, bid: Option<real>)

  // `demand` and `lost` are history variables: the energy the ports asked for and the buffer's own loss.
  datatype Energy = Energy(
    level: real, fromGrid: real, fromBuffer: real, toBuffer: real, demand: real, lost: real)

  datatype Cluster = Cluster(
    adaptive: bool, waiting: seq<Vehicle>, ports: seq<Port>, auctions: map<nat, Auction>,
    balance: real, capacity: real, energy: Energy)

  datatype Message =
    | Tick
    | Bid(bidder: Vehicle, port: nat, amount: real)
    | Release(vehicle: Vehicle)
    | Mode(adaptive: bool)
    | Grid(balance: real)

  const TICKS: int := 5
  const MIN_PRICE: real := 0.01
  const MAX_PRICE: real := 50.0
  const PORT_POWER: real := 3.7
  const BASE_PRICE: real := 0.5
  const AUCTION_LEVEL: real := 10.0
  const CHARGE_THRESHOLD: real := 5.0
  const CHARGE_RATE: real := 10.0
  const TIME_DELTA: real := 5.0 / 60.0
  const LOSS_RATE: real := 0.001

  function Min(a: real, b: real): real {
    if b < a then b else a
  }

  function Max(a: real, b: real): real {
    if b > a then b else a
  }

  // One auction

  function Started(price: real): Auction {
    Auction(price, TICKS, true, None, None)
  }

  function Adjusted(price: real, factor: real): real {
    Max(MIN_PRICE, Min(MAX_PRICE, price * factor))
  }

  function Ticked(a: Auction, factor: real): Auction {
    if !a.active then a
    else
      Auction(Adjusted(a.price, factor), a.ticks - 1, a.ticks - 1 > 0, a.bidder, a.bid)
  }

  predicate Expired(a: Auction) {
    !a.active || a.ticks <= 0
  }

  predicate Accepts(a: Auction, amount: real) {
    a.active && amount >= a.price
  }

  predicate Running(a: Auction) {
    a.active && 1 <= a.ticks <= TICKS && MIN_PRICE <= a.price <= MAX_PRICE
  }

  // Ports

  const FREE_PORT := Port(false, None, 0.0)

  function Taken(v: Vehicle): Port {
    Port(true, Some(v), PORT_POWER)
  }

  function FreePorts(ports: seq<Port>): (free: seq<nat>)
    ensures forall i :: 0 <= i < |free| ==> free[i] < |ports| && !ports[free[i]].occupied
  {
    if ports == [] then []
    else
      var last := |ports| - 1;
      if ports[last].occupied then FreePorts(ports[..last]) else FreePorts(ports[..last]) + [last]
  }

  ghost predicate Increasing(free: seq<nat>) {
    forall i, j :: 0 <= i < j < |free| ==> free[i] < free[j]
  }

  lemma {:induction false} FreePortsAreAll(ports: seq<Port>)
    ensures Increasing(FreePorts(ports))
    ensures forall p :: 0 <= p < |ports| && !ports[p].occupied ==> p in FreePorts(ports)
  {
    if ports != [] {
      FreePortsAreAll(ports[..|ports| - 1]);
    }
  }

  // Waiting vehicles take the free ports in order.
  function Assigned(ports: seq<Port>, waiting: seq<Vehicle>, free: seq<nat>): (r: seq<Port>)
    requires forall i :: 0 <= i < |free| ==> free[i] < |ports|
    ensures |r| == |ports|
    decreases |free|
  {
    if waiting == [] || free == [] then ports
    else Assigned(ports[free[0] := Taken(waiting[0])], waiting[1..], free[1..])
  }

  // The first port of the vehicle becomes free.
  function Released(ports: seq<Port>, v: Vehicle): (r: seq<Port>)
    ensures |r| == |ports|
  {
    if ports == [] then []
    else if ports[0].vehicle == Some(v) then [FREE_PORT] + ports[1..]
    else [ports[0]] + Released(ports[1..], v)
  }

  function TotalPower(ports: seq<Port>): real {
    if ports == [] then 0.0 else ports[0].power + TotalPower(ports[1..])
  }

  // Prices

  function PriceFactor(balance: real, available: nat): real {
    if balance > 0.0 then 0.95 else if balance < 0.0 && available > 0 then 1.05 else 1.0
  }

  function StartPrice(balance: real, available: nat, total: nat): real
    requires total > 0
  {
    var utilization := 1.0 + (total - available) as real / total as real;
    var grid := if balance < 0.0 then 1.5 else if balance > 0.0 then 0.8 else 1.0;
    Min(3.0, Max(0.30, BASE_PRICE * utilization * grid))
  }

  function NewAuction(balance: real, available: nat, total: nat): Auction
    requires total > 0
  {
    Started(StartPrice(balance, available, total))
  }

  // The handlers

  function UpdatedAuctions(c: Cluster): map<nat, Auction> {
    var factor := PriceFactor(c.balance, |FreePorts(c.ports)|);
    map p | p in c.auctions && !Expired(Ticked(c.auctions[p], factor)) :: Ticked(c.auctions[p], factor)
  }

  function NewAuctions(c: Cluster): map<nat, Auction> {
    if c.energy.level < AUCTION_LEVEL then c.auctions
    else
      c.auctions + map p: nat | p < |c.ports| && !c.ports[p].occupied && p !in c.auctions ::
        NewAuction(c.balance, |FreePorts(c.ports)|, |c.ports|)
  }

  lemma NewAuctionAt(c: Cluster, p: nat)
    requires c.energy.level >= AUCTION_LEVEL
    requires p < |c.ports| && !c.ports[p].occupied && p !in c.auctions
    ensures p in NewAuctions(c) && NewAuctions(c)[p] == NewAuction(c.balance, |FreePorts(c.ports)|, |c.ports|)
  {
  }

  function Charged(e: Energy, capacity: real, balance: real): Energy {
    if balance > CHARGE_THRESHOLD && e.level < capacity then
      var charged := Min(CHARGE_RATE, (capacity - e.level) / TIME_DELTA) * TIME_DELTA;
      e.(level := Min(capacity, e.level + charged), toBuffer := e.toBuffer + charged)
    else e
  }

  function Supplied(e: Energy, power: real): Energy {
    if power > 0.0 then
      var needed := power * TIME_DELTA;
      var fromBuffer := Min(needed, e.level);
      if fromBuffer > 0.0 then
        e.(level := e.level - fromBuffer, fromBuffer := e.fromBuffer + fromBuffer,
           fromGrid := e.fromGrid + (needed - fromBuffer), demand := e.demand + needed)
      else
        e.(fromGrid := e.fromGrid + needed, demand := e.demand + needed)
    else e
  }

  function Leaked(e: Energy): Energy {
    if e.level > 0.0 then
      var loss := e.level * LOSS_RATE;
      e.(level := Max(0.0, e.level - loss), lost := e.lost + loss)
    else e
  }

  function UpdatedBuffer(c: Cluster): Energy {
    Leaked(Supplied(Charged(c.energy, c.capacity, c.balance), TotalPower(c.ports)))
  }

  function OnTick(c: Cluster): Cluster {
    var d :=
      if c.adaptive then
        var updated := c.(auctions := UpdatedAuctions(c));
        updated.(auctions := NewAuctions(updated))
      else
        var free := FreePorts(c.ports);
        var served := if |c.waiting| < |free| then |c.waiting| else |free|;
        c.(ports := Assigned(c.ports, c.waiting, free), waiting := c.waiting[served..]);
    d.(energy := UpdatedBuffer(d))
  }

  function OnBid(c: Cluster, v: Vehicle, port: nat, amount: real): Cluster {
    if !c.adaptive then
      if v in c.waiting then c else c.(waiting := c.waiting + [v])
    else if port in c.auctions && Accepts(c.auctions[port], amount) then
      c.(ports := if port < |c.ports| then c.ports[port := Taken(v)] else c.ports, auctions := c.auctions - {port})
    else c
  }

  function OnMode(c: Cluster, adaptive: bool): Cluster {
    if c.adaptive != adaptive && !adaptive then c.(adaptive := false, auctions := map[], waiting := [])
    else c.(adaptive := adaptive)
  }

  function Handle(c: Cluster, m: Message): Cluster {
    match m
    case Tick => OnTick(c)
    case Bid(v, port, amount) => OnBid(c, v, port, amount)
    case Release(v) => c.(ports := Released(c.ports, v))
    case Mode(adaptive) => OnMode(c, adaptive)
    case Grid(balance) => c.(balance := balance)
  }

  function Init(total: nat, capacity: real): Cluster {
    Cluster(true, [], seq(total, _ => FREE_PORT), map[], 0.0, capacity,
            Energy(capacity * 0.8, 0.0, 0.0, 0.0, 0.0, 0.0))
  }

  function Run(c: Cluster, messages: seq<Message>): Cluster {
    if messages == [] then c
    else Handle(Run(c, messages[..|messages| - 1]), messages[|messages| - 1])
  }

  // Each auctioned port exists and is free, every auction is running, and the uncoordinated mode has none.
  ghost predicate GoodAuctions(c: Cluster) {
    && (forall p :: p in c.auctions ==> p < |c.ports| && !c.ports[p].occupied && Running(c.auctions[p]))
    && (!c.adaptive ==> c.auctions == map[])
  }

  ghost predicate GoodPorts(ports: seq<Port>) {
    forall p :: 0 <= p < |ports| ==>
      ports[p] == FREE_PORT || (ports[p].occupied && ports[p].vehicle.Some? && ports[p].power == PORT_POWER)
  }

  lemma StartPriceInRange(balance: real, available: nat, total: nat)
    requires total > 0
    ensures 0.30 <= StartPrice(balance, available, total) <= 3.0
  {
  }

  lemma {:induction false} AssignedKeeps(ports: seq<Port>, waiting: seq<Vehicle>, free: seq<nat>)
    requires forall i :: 0 <= i < |free| ==> free[i] < |ports|
    requires Increasing(free)
    ensures forall p :: 0 <= p < |ports| && p !in free ==> Assigned(ports, waiting, free)[p] == ports[p]
    ensures GoodPorts(ports) ==> GoodPorts(Assigned(ports, waiting, free))
    ensures forall i :: 0 <= i < |free| && i < |waiting| ==>
      Assigned(ports, waiting, free)[free[i]] == Taken(waiting[i])
    ensures forall i :: |waiting| <= i < |free| ==> Assigned(ports, waiting, free)[free[i]] == ports[free[i]]
    decreases |free|
  {
    if waiting != [] && free != [] {
      var next := ports[free[0] := Taken(waiting[0])];
      AssignedKeeps(next, waiting[1..], free[1..]);
      assert free[0] !in free[1..];
      assert forall i :: 0 < i < |free| ==> free[i] == free[1..][i - 1];
      assert forall i :: 0 < i < |waiting| ==> waiting[i] == waiting[1..][i - 1];
    }
  }

  // Port p belongs to v and no port before it does.
  ghost predicate FirstOf(ports: seq<Port>, v: Vehicle, p: nat) {
    && p < |ports| && ports[p].vehicle == Some(v)
    && forall q :: 0 <= q < p ==> ports[q].vehicle != Some(v)
  }

  lemma {:induction false} ReleasedIsUpdate(ports: seq<Port>, v: Vehicle) returns (p: nat)
    ensures p < |ports| ==> FirstOf(ports, v, p) && Released(ports, v) == ports[p := FREE_PORT]
    ensures p >= |ports| ==>
      (forall q :: 0 <= q < |ports| ==> ports[q].vehicle != Some(v)) && Released(ports, v) == ports
  {
    if ports == [] || ports[0].vehicle == Some(v) {
      p := 0;
    } else {
      var rest := ReleasedIsUpdate(ports[1..], v);
      p := rest + 1;
      assert ports == [ports[0]] + ports[1..];
      forall q | 0 <= q < p && q < |ports|
        ensures ports[q].vehicle != Some(v)
      {
        assert q > 0 ==> ports[q] == ports[1..][q - 1];
      }
    }
  }

  lemma ReleasedAt(ports: seq<Port>, v: Vehicle, p: nat)
    requires FirstOf(ports, v, p)
    ensures Released(ports, v) == ports[p := FREE_PORT]
  {
    var first := ReleasedIsUpdate(ports, v);
    assert !(first < p) && !(p < first);
  }

  lemma {:induction false} ReleasedFreesFirst(ports: seq<Port>, v: Vehicle)
    ensures GoodPorts(ports) ==> GoodPorts(Released(ports, v))
    ensures forall p :: 0 <= p < |ports| && Released(ports, v)[p] != ports[p] ==>
      FirstOf(ports, v, p) && Released(ports, v)[p] == FREE_PORT
    ensures (forall p :: 0 <= p < |ports| ==> ports[p].vehicle != Some(v)) ==> Released(ports, v) == ports
  {
    var p := ReleasedIsUpdate(ports, v);
  }

  lemma UpdateKeepsAuctions(c: Cluster)
    requires GoodAuctions(c)
    ensures GoodAuctions(c.(auctions := UpdatedAuctions(c)))
  {
  }

  lemma TickKeepsAuctions(c: Cluster)
    requires GoodAuctions(c)
    ensures GoodAuctions(OnTick(c))
  {
    if c.adaptive {
      UpdateKeepsAuctions(c);
      var updated := c.(auctions := UpdatedAuctions(c));
      forall p | p in NewAuctions(updated)
        ensures p < |c.ports| && !c.ports[p].occupied && Running(NewAuctions(updated)[p])
      {
        if p !in updated.auctions {
          StartPriceInRange(c.balance, |FreePorts(c.ports)|, |c.ports|);
        }
      }
    }
  }

  lemma HandleKeepsAuctions(c: Cluster, m: Message)
    requires GoodAuctions(c)
    ensures GoodAuctions(Handle(c, m))
  {
    match m
    case Tick => TickKeepsAuctions(c);
    case Release(v) => ReleasedFreesFirst(c.ports, v);
    case _ =>
  }

  lemma HandleKeepsPorts(c: Cluster, m: Message)
    requires GoodPorts(c.ports)
    ensures GoodPorts(Handle(c, m).ports) && |Handle(c, m).ports| == |c.ports|
  {
    match m
    case Tick =>
      FreePortsAreAll(c.ports);
      AssignedKeeps(c.ports, c.waiting, FreePorts(c.ports));
    case Release(v) => ReleasedFreesFirst(c.ports, v);
    case _ =>
  }

  // Main result: over every message sequence, mode flips included, each auctioned port exists and is
  // free, each stored auction runs with 1..5 ticks left and a price in [0.01, 50], and the uncoordinated
  // mode has no auctions.
  lemma {:induction false} RunKeepsAuctions(total: nat, capacity: real, messages: seq<Message>)
    ensures GoodAuctions(Run(Init(total, capacity), messages))
    ensures GoodPorts(Run(Init(total, capacity), messages).ports)
    ensures |Run(Init(total, capacity), messages).ports| == total
  {
    if messages != [] {
      var front := messages[..|messages| - 1];
      RunKeepsAuctions(total, capacity, front);
      HandleKeepsAuctions(Run(Init(total, capacity), front), messages[|messages| - 1]);
      HandleKeepsPorts(Run(Init(total, capacity), front), messages[|messages| - 1]);
    }
  }

  // An occupied port changes only by a release of its own vehicle.
  lemma OccupiedPortsAreKept(c: Cluster, m: Message, p: nat)
    requires GoodAuctions(c) && p < |c.ports| && c.ports[p].occupied
    requires m.Release? ==> c.ports[p].vehicle != Some(m.vehicle)
    ensures p < |Handle(c, m).ports| && Handle(c, m).ports[p] == c.ports[p]
  {
    match m
    case Tick =>
      FreePortsAreAll(c.ports);
      AssignedKeeps(c.ports, c.waiting, FreePorts(c.ports));
    case Release(v) => ReleasedFreesFirst(c.ports, v);
    case _ =>
  }

  // Main result: over every message sequence, mode flips included, a port that vehicle v occupies stays
  // v's until the first release of v.
  lemma {:induction false} PortIsKeptUntilReleased(c: Cluster, messages: seq<Message>, p: nat, v: Vehicle)
    requires GoodAuctions(c) && p < |c.ports| && c.ports[p].occupied && c.ports[p].vehicle == Some(v)
    requires Release(v) !in messages
    ensures GoodAuctions(Run(c, messages))
    ensures p < |Run(c, messages).ports| && Run(c, messages).ports[p] == c.ports[p]
  {
    if messages != [] {
      var front, last := messages[..|messages| - 1], messages[|messages| - 1];
      PortIsKeptUntilReleased(c, front, p, v);
      assert last in messages;
      HandleKeepsAuctions(Run(c, front), last);
      OccupiedPortsAreKept(Run(c, front), last, p);
    }
  }

  // Instantiated at every reachable state.
  lemma ReachedPortIsKept(total: nat, capacity: real, before: seq<Message>, after: seq<Message>, p: nat, v: Vehicle)
    requires p < |Run(Init(total, capacity), before).ports|
    requires var port := Run(Init(total, capacity), before).ports[p]; port.occupied && port.vehicle == Some(v)
    requires Release(v) !in after
    ensures |Run(Init(total, capacity), before + after).ports| == total > p
    ensures Run(Init(total, capacity), before + after).ports[p] == Taken(v)
  {
    var c := Run(Init(total, capacity), before);
    RunKeepsAuctions(total, capacity, before);
    PortIsKeptUntilReleased(c, after, p, v);
    RunsAreOne(Init(total, capacity), before, after);
    RunKeepsAuctions(total, capacity, before + after);
    assert c.ports[p] == Taken(v);
  }

  lemma {:induction false} RunsAreOne(c: Cluster, before: seq<Message>, after: seq<Message>)
    ensures Run(c, before + after) == Run(Run(c, before), after)
  {
    if after == [] {
      assert before + after == before;
    } else {
      var last := |after| - 1;
      RunsAreOne(c, before, after[..last]);
      assert (before + after)[..|before + after| - 1] == before + after[..last];
    }
  }

  // Port p is the i-th free port.
  predicate ServedBy(c: Cluster, p: nat, i: nat) {
    i < |FreePorts(c.ports)| && FreePorts(c.ports)[i] == p
  }

  // A port is taken only by a winning bid on its running auction or, uncoordinated, from the queue.
  lemma PortsAreTakenFairly(c: Cluster, m: Message, p: nat)
    requires GoodAuctions(c) && p < |c.ports| && !c.ports[p].occupied
    requires p < |Handle(c, m).ports| && Handle(c, m).ports[p].occupied
    ensures c.adaptive ==>
      && m.Bid? && m.port == p && p in c.auctions && m.amount >= c.auctions[p].price
      && Handle(c, m).ports[p] == Taken(m.bidder) && p !in Handle(c, m).auctions
    ensures !c.adaptive ==>
      m.Tick? && exists i :: 0 <= i < |c.waiting| && ServedBy(c, p, i) && Handle(c, m).ports[p] == Taken(c.waiting[i])
  {
    match m
    case Tick =>
      var free := FreePorts(c.ports);
      FreePortsAreAll(c.ports);
      AssignedKeeps(c.ports, c.waiting, free);
      if !c.adaptive {
        assert p in free;
        var i :| 0 <= i < |free| && free[i] == p;
        assert i < |c.waiting| && ServedBy(c, p, i);
      }
    case Release(v) => ReleasedFreesFirst(c.ports, v);
    case _ =>
  }

  // The energy ledger

  ghost predicate Balanced(e: Energy, start: real, capacity: real) {
    && 0.0 <= e.level <= capacity
    && start + e.toBuffer == e.level + e.fromBuffer + e.lost
    && e.fromBuffer + e.fromGrid == e.demand
    && e.fromBuffer >= 0.0 && e.fromGrid >= 0.0 && e.toBuffer >= 0.0 && e.lost >= 0.0
  }

  lemma ChargeIsBalanced(e: Energy, start: real, capacity: real, balance: real)
    requires Balanced(e, start, capacity)
    ensures Balanced(Charged(e, capacity, balance), start, capacity)
  {
  }

  lemma SupplyIsBalanced(e: Energy, start: real, capacity: real, power: real)
    requires Balanced(e, start, capacity)
    ensures Balanced(Supplied(e, power), start, capacity)
    ensures Supplied(e, power).demand == e.demand + (if power > 0.0 then power * TIME_DELTA else 0.0)
    ensures Supplied(e, power).fromGrid > e.fromGrid ==> Supplied(e, power).level == 0.0
  {
  }

  lemma LeakIsBalanced(e: Energy, start: real, capacity: real)
    requires Balanced(e, start, capacity)
    ensures Balanced(Leaked(e), start, capacity)
  {
  }

  // The demand that the ports have made over a whole run: power times tick length, summed over the ticks.
  function Demand(c: Cluster, messages: seq<Message>): real {
    if messages == [] then 0.0
    else
      var front := messages[..|messages| - 1];
      Demand(c, front)
      + if messages[|messages| - 1].Tick? then TotalPower(Run(c, messages).ports) * TIME_DELTA else 0.0
  }

  lemma {:induction false} PowerNotNegative(ports: seq<Port>)
    requires GoodPorts(ports)
    ensures TotalPower(ports) >= 0.0
  {
    if ports != [] {
      PowerNotNegative(ports[1..]);
    }
  }

  lemma TickIsBalanced(c: Cluster, start: real)
    requires GoodPorts(c.ports) && Balanced(c.energy, start, c.capacity)
    ensures Balanced(OnTick(c).energy, start, c.capacity)
    ensures OnTick(c).energy.demand == c.energy.demand + TotalPower(OnTick(c).ports) * TIME_DELTA
    ensures OnTick(c).capacity == c.capacity
  {
    var ports := OnTick(c).ports;
    HandleKeepsPorts(c, Tick);
    PowerNotNegative(ports);
    var charged := Charged(c.energy, c.capacity, c.balance);
    ChargeIsBalanced(c.energy, start, c.capacity, c.balance);
    SupplyIsBalanced(charged, start, c.capacity, TotalPower(ports));
    LeakIsBalanced(Supplied(charged, TotalPower(ports)), start, c.capacity);
  }

  lemma HandleIsBalanced(c: Cluster, m: Message, start: real)
    requires GoodPorts(c.ports) && Balanced(c.energy, start, c.capacity)
    ensures Balanced(Handle(c, m).energy, start, c.capacity) && Handle(c, m).capacity == c.capacity
    ensures Handle(c, m).energy.demand
      == c.energy.demand + if m.Tick? then TotalPower(Handle(c, m).ports) * TIME_DELTA else 0.0
  {
    if m.Tick? {
      TickIsBalanced(c, start);
    }
  }

  // Main result: over every run the buffer stays within its capacity, its energy balances exactly, and
  // what buffer and grid supplied is exactly what the ports drew.
  lemma {:induction false} EnergyBalances(total: nat, capacity: real, messages: seq<Message>)
    requires capacity >= 0.0
    ensures Run(Init(total, capacity), messages).capacity == capacity
    ensures Balanced(Run(Init(total, capacity), messages).energy, capacity * 0.8, capacity)
    ensures Run(Init(total, capacity), messages).energy.demand == Demand(Init(total, capacity), messages)
  {
    if messages != [] {
      var front := messages[..|messages| - 1];
      EnergyBalances(total, capacity, front);
      RunKeepsAuctions(total, capacity, front);
      HandleIsBalanced(Run(Init(total, capacity), front), messages[|messages| - 1], capacity * 0.8);
    }
  }
}
