/** What the charging cluster does for its vehicles and for the grid: who gets a port, when, and at what price. */
module ChargingService {
  import opened Basics
  import opened ChargingClusters

  // Coordinated: bids

  // A bid at or above the price of its auction takes the port and ends the auction; any other bid changes
  // nothing.
  lemma BidWinsIff(c: Cluster, v: Vehicle, port: nat, amount: real)
    requires GoodAuctions(c) && c.adaptive
    ensures var next := Handle(c, Bid(v, port, amount));
      if port in c.auctions && amount >= c.auctions[port].price
      then port < |c.ports| && next == c.(ports := c.ports[port := Taken(v)], auctions := c.auctions - {port})
      else next == c
  {
  }

  // Coordinated: ticks

  lemma AuctionedMeansFree(c: Cluster, p: nat)
    requires GoodAuctions(c) && p in c.auctions
    ensures p in FreePorts(c.ports)
  {
    FreePortsAreAll(c.ports);
  }

  // What a tick does to the auction of a port. An auction of one remaining tick ends, and its port is
  // auctioned anew if the buffer holds enough.
  ghost predicate AuctionGoesOn(c: Cluster, next: Cluster, p: nat)
    requires p in c.auctions
  {
    if c.auctions[p].ticks > 1 then
      p in next.auctions && next.auctions[p].ticks == c.auctions[p].ticks - 1
    else if c.energy.level >= AUCTION_LEVEL then
      p in next.auctions && next.auctions[p].ticks == TICKS && 0.30 <= next.auctions[p].price <= 3.0
    else
      p !in next.auctions
  }

  lemma TickMovesAuction(c: Cluster, p: nat)
    requires GoodAuctions(c) && p in c.auctions
    ensures AuctionGoesOn(c, Handle(c, Tick), p)
  {
    var updated := c.(auctions := UpdatedAuctions(c));
    if c.auctions[p].ticks <= 1 {
      assert p !in updated.auctions;
      if c.energy.level >= AUCTION_LEVEL {
        NewAuctionAt(updated, p);
        StartPriceInRange(c.balance, |FreePorts(c.ports)|, |c.ports|);
      }
    }
  }

  // With enough in the buffer every free port is auctioned after a tick; with less no auction starts.
  lemma FreePortsAreAuctioned(c: Cluster)
    requires GoodAuctions(c) && c.adaptive
    ensures Handle(c, Tick).ports == c.ports
    ensures c.energy.level >= AUCTION_LEVEL ==>
      forall p :: 0 <= p < |c.ports| ==> (p in Handle(c, Tick).auctions <==> !c.ports[p].occupied)
    ensures c.energy.level < AUCTION_LEVEL ==> Handle(c, Tick).auctions.Keys <= c.auctions.Keys
  {
    TickKeepsAuctions(c);
    var updated := c.(auctions := UpdatedAuctions(c));
    if c.energy.level >= AUCTION_LEVEL {
      forall p: nat | p < |c.ports| && !c.ports[p].occupied
        ensures p in Handle(c, Tick).auctions
      {
        if p !in updated.auctions {
          NewAuctionAt(updated, p);
        }
      }
    }
  }

  // The Dutch auction follows the grid: a surplus lowers the price, a deficit raises it, within the limits.
  ghost predicate PriceMoves(before: real, after: real, balance: real) {
    if balance > 0.0 then after == Max(MIN_PRICE, before * 0.95) && (before > MIN_PRICE ==> after < before)
    else if balance < 0.0 then after == Min(MAX_PRICE, before * 1.05) && (before < MAX_PRICE ==> after > before)
    else after == before
  }

  lemma AdjustedMoves(price: real, balance: real)
    requires MIN_PRICE <= price <= MAX_PRICE
    ensures PriceMoves(price, Adjusted(price, PriceFactor(balance, 1)), balance)
  {
  }

  lemma PricesFollowBalance(c: Cluster, p: nat)
    requires GoodAuctions(c) && p in c.auctions && c.auctions[p].ticks > 1
    ensures p in Handle(c, Tick).auctions
    ensures PriceMoves(c.auctions[p].price, Handle(c, Tick).auctions[p].price, c.balance)
  {
    AuctionedMeansFree(c, p);
    AdjustedMoves(c.auctions[p].price, c.balance);
    assert PriceFactor(c.balance, |FreePorts(c.ports)|) == PriceFactor(c.balance, 1);
    TickMovesAuction(c, p);
  }

  function GridFactor(balance: real): real {
    if balance < 0.0 then 1.5 else if balance > 0.0 then 0.8 else 1.0
  }

  // A new auction starts between 0.40 and 1.50, twice as high when all ports are taken as when all are free,
  // and its limits of 0.30 and 3.00 are never reached.
  lemma StartPriceNeedsNoLimits(balance: real, available: nat, total: nat)
    requires total > 0 && available <= total
    ensures var price := StartPrice(balance, available, total);
      && price * total as real == BASE_PRICE * GridFactor(balance) * (2 * total - available) as real
      && 0.4 <= price <= 1.5
  {
    var share := (total - available) as real / total as real;
    ShareWithinOne((total - available) as real, total as real);
    assert StartPrice(balance, available, total) == BASE_PRICE * (1.0 + share) * GridFactor(balance);
    assert (1.0 + share) * total as real == (2 * total - available) as real;
  }

  lemma ShareWithinOne(a: real, b: real)
    requires 0.0 <= a <= b && b > 0.0
    ensures 0.0 <= a / b <= 1.0 && a / b * b == a
  {
    var q := a / b;
    assert q * b == a && (1.0 - q) * b == b - a;
    if q < 0.0 {
      NegativeProduct(q, b);
    } else if q > 1.0 {
      NegativeProduct(1.0 - q, b);
    }
  }

  function TakenPorts(ports: seq<Port>): set<nat> {
    set p: nat | p < |ports| && ports[p].occupied
  }

  lemma {:induction false} FreeOrTaken(ports: seq<Port>)
    ensures |FreePorts(ports)| + |TakenPorts(ports)| == |ports|
  {
    if ports == [] {
      assert TakenPorts(ports) == {};
    } else {
      var last := |ports| - 1;
      FreeOrTaken(ports[..last]);
      assert TakenPorts(ports) == TakenPorts(ports[..last]) + if ports[last].occupied then {last} else {};
    }
  }

  // The base price times one plus the share of taken ports, times the grid factor.
  ghost predicate FairStart(price: real, total: nat, taken: nat, balance: real) {
    price * total as real == BASE_PRICE * GridFactor(balance) * (total + taken) as real
  }

  lemma StartPriceIsFair(balance: real, available: nat, taken: nat, total: nat)
    requires total > 0 && available + taken == total
    ensures FairStart(StartPrice(balance, available, total), total, taken, balance)
  {
    StartPriceNeedsNoLimits(balance, available, total);
    assert 2 * total - available == total + taken;
  }

  // An auction that starts with a tick asks for a fair price.
  lemma NewAuctionPrice(c: Cluster, p: nat)
    requires GoodAuctions(c) && c.adaptive && c.energy.level >= AUCTION_LEVEL
    requires p < |c.ports| && !c.ports[p].occupied && (p in c.auctions ==> c.auctions[p].ticks == 1)
    ensures p in Handle(c, Tick).auctions && Handle(c, Tick).auctions[p].ticks == TICKS
    ensures FairStart(Handle(c, Tick).auctions[p].price, |c.ports|, |TakenPorts(c.ports)|, c.balance)
  {
    FreeOrTaken(c.ports);
    StartPriceIsFair(c.balance, |FreePorts(c.ports)|, |TakenPorts(c.ports)|, |c.ports|);
    StartsAuction(c, p);
  }

  lemma StartsAuction(c: Cluster, p: nat)
    requires GoodAuctions(c) && c.adaptive && c.energy.level >= AUCTION_LEVEL
    requires p < |c.ports| && !c.ports[p].occupied && (p in c.auctions ==> c.auctions[p].ticks == 1)
    ensures p in Handle(c, Tick).auctions
    ensures Handle(c, Tick).auctions[p] == NewAuction(c.balance, |FreePorts(c.ports)|, |c.ports|)
  {
    NewAuctionAt(c.(auctions := UpdatedAuctions(c)), p);
  }

  // The last mode and grid messages count

  function ModeOf(messages: seq<Message>): bool {
    if messages == [] then true
    else
      var last := messages[|messages| - 1];
      if last.Mode? then last.adaptive else ModeOf(messages[..|messages| - 1])
  }

  function BalanceOf(messages: seq<Message>): real {
    if messages == [] then 0.0
    else
      var last := messages[|messages| - 1];
      if last.Grid? then last.balance else BalanceOf(messages[..|messages| - 1])
  }

  lemma {:induction false} RunFollowsMessages(total: nat, capacity: real, messages: seq<Message>)
    ensures Run(Init(total, capacity), messages).adaptive == ModeOf(messages)
    ensures Run(Init(total, capacity), messages).balance == BalanceOf(messages)
  {
    if messages != [] {
      RunFollowsMessages(total, capacity, messages[..|messages| - 1]);
    }
  }

  // A release frees the vehicle's first port, if it has one.
  lemma ReleaseFreesPort(c: Cluster, v: Vehicle, p: nat)
    requires FirstOf(c.ports, v, p)
    ensures Handle(c, Release(v)) == c.(ports := c.ports[p := FREE_PORT])
  {
    ReleasedAt(c.ports, v, p);
  }

  // Uncoordinated: the queue

  ghost predicate Once(waiting: seq<Vehicle>) {
    forall i, j :: 0 <= i < j < |waiting| ==> waiting[i] != waiting[j]
  }

  // An uncoordinated bid puts its vehicle into the queue, at the end and once.
  lemma BidQueues(c: Cluster, v: Vehicle, port: nat, amount: real)
    requires !c.adaptive && Once(c.waiting)
    ensures var next := Handle(c, Bid(v, port, amount));
      && next == c.(waiting := next.waiting) && Once(next.waiting) && v in next.waiting
      && c.waiting <= next.waiting && forall u :: u in next.waiting ==> u in c.waiting || u == v
  {
  }

  // How many vehicles a tick serves.
  function Served(c: Cluster): nat {
    var free := |FreePorts(c.ports)|;
    if |c.waiting| < free then |c.waiting| else free
  }

  // A tick serves as many vehicles as there are free ports, from the front of the queue, each at the next
  // free port in order; nobody else moves.
  lemma QueueIsServed(c: Cluster)
    requires !c.adaptive
    ensures var next, free := Handle(c, Tick), FreePorts(c.ports);
      && next.waiting == c.waiting[Served(c)..]
      && |next.ports| == |c.ports| && Increasing(free)
      && (forall i :: 0 <= i < Served(c) ==> next.ports[free[i]] == Taken(c.waiting[i]))
      && (forall i :: Served(c) <= i < |free| ==> next.ports[free[i]] == c.ports[free[i]])
      && (forall p :: 0 <= p < |c.ports| && c.ports[p].occupied ==> next.ports[p] == c.ports[p])
  {
    FreePortsAreAll(c.ports);
    AssignedKeeps(c.ports, c.waiting, FreePorts(c.ports));
  }

  // The queue is cleared when the coordinated mode is left, and only then.
  predicate Clears(c: Cluster, m: Message) {
    m.Mode? && c.adaptive && !m.adaptive
  }

  lemma ModeSwitches(c: Cluster, adaptive: bool)
    ensures var next := Handle(c, Mode(adaptive));
      && next.adaptive == adaptive && next.ports == c.ports && next.energy == c.energy
      && (if Clears(c, Mode(adaptive)) then next.waiting == [] && next.auctions == map[]
          else next.waiting == c.waiting && next.auctions == c.auctions)
  {
  }

  // v gets one of the ports that were free.
  ghost predicate GetsPort(c: Cluster, next: Cluster, v: Vehicle) {
    exists p :: 0 <= p < |c.ports| == |next.ports| && !c.ports[p].occupied && next.ports[p] == Taken(v)
  }

  lemma WaitsOneStep(c: Cluster, m: Message, v: Vehicle)
    requires v in c.waiting
    ensures v in Handle(c, m).waiting || GetsPort(c, Handle(c, m), v) || Clears(c, m)
  {
    if m.Tick? && !c.adaptive {
      QueueIsServed(c);
      var i :| 0 <= i < |c.waiting| && c.waiting[i] == v;
      var next, k := Handle(c, Tick), Served(c);
      if i < k {
        var p := FreePorts(c.ports)[i];
        assert next.ports[p] == Taken(v);
      } else {
        assert next.waiting[i - k] == v;
      }
    }
  }

  lemma {:induction false} RunKeepsQueue(total: nat, capacity: real, messages: seq<Message>)
    ensures Once(Run(Init(total, capacity), messages).waiting)
  {
    if messages != [] {
      var front, last := messages[..|messages| - 1], messages[|messages| - 1];
      RunKeepsQueue(total, capacity, front);
      var c := Run(Init(total, capacity), front);
      if last.Tick? && !c.adaptive {
        QueueIsServed(c);
      }
    }
  }

  // Main result: over every message sequence, a vehicle in the queue stays there until a tick gives it a
  // port or the queue is cleared.
  lemma {:induction false} WaitsUntilServed(c: Cluster, messages: seq<Message>, v: Vehicle)
    requires v in c.waiting
    ensures v in Run(c, messages).waiting || exists k :: 0 <= k < |messages| && Leaves(c, messages, k, v)
  {
    if messages != [] {
      var last := |messages| - 1;
      var front := messages[..last];
      WaitsUntilServed(c, front, v);
      if v in Run(c, front).waiting {
        WaitsOneStep(Run(c, front), messages[last], v);
        assert v !in Run(c, messages).waiting ==> Leaves(c, messages, last, v);
      } else {
        var k :| 0 <= k < |front| && Leaves(c, front, k, v);
        assert front[..k] == messages[..k] && front[..k + 1] == messages[..k + 1];
        assert Leaves(c, messages, k, v);
      }
    }
  }

  // With message k the vehicle gets a port, or the queue is cleared.
  ghost predicate Leaves(c: Cluster, messages: seq<Message>, k: nat, v: Vehicle)
    requires k < |messages|
  {
    var before := Run(c, messages[..k]);
    GetsPort(before, Handle(before, messages[k]), v) || Clears(before, messages[k])
  }

  // The energy of one tick

  // Every taken port draws the same power, a free one none.
  lemma {:induction false} PowerOfPorts(ports: seq<Port>)
    requires GoodPorts(ports)
    ensures TotalPower(ports) == PORT_POWER * |TakenPorts(ports)| as real
  {
    if ports != [] {
      PowerOfPorts(ports[1..]);
      TakenOfRest(ports);
    } else {
      assert TakenPorts(ports) == {};
    }
  }

  lemma TakenOfRest(ports: seq<Port>)
    requires ports != []
    ensures |TakenPorts(ports)| == |TakenPorts(ports[1..])| + if ports[0].occupied then 1 else 0
  {
    var rest := TakenPorts(ports[1..]);
    var later := Shifted(rest);
    SameSize(rest);
    assert TakenPorts(ports) == later + if ports[0].occupied then {0} else {} by {
      forall p | p in TakenPorts(ports) && p != 0
        ensures p in later
      {
        assert p - 1 in rest;
      }
    }
  }

  function Shifted(s: set<nat>): set<nat> {
    set p | p in s :: p + 1
  }

  lemma {:induction false} SameSize(s: set<nat>)
    ensures |Shifted(s)| == |s|
  {
    if s != {} {
      var q :| q in s;
      SameSize(s - {q});
      forall p | p in Shifted(s)
        ensures p in Shifted(s - {q}) + {q + 1}
      {
        assert p != q + 1 ==> p - 1 in s - {q};
      }
      assert Shifted(s) == Shifted(s - {q}) + {q + 1};
    }
  }

  // Into the buffer only with a surplus above the threshold and up to the capacity; out of the buffer as much
  // of the ports' demand as it holds, before the grid supplies the rest; and a share of what remains is lost.
  lemma EnergyFlows(c: Cluster)
    requires GoodPorts(c.ports) && 0.0 <= c.energy.level <= c.capacity
    ensures var e, f := c.energy, Handle(c, Tick).energy;
      var charged := f.toBuffer - e.toBuffer;
      var demand := PORT_POWER * |TakenPorts(Handle(c, Tick).ports)| as real * TIME_DELTA;
      var supplied := f.fromBuffer - e.fromBuffer;
      && charged == (if c.balance > CHARGE_THRESHOLD then Min(CHARGE_RATE * TIME_DELTA, c.capacity - e.level) else 0.0)
      && supplied == Min(demand, e.level + charged)
      && f.fromGrid - e.fromGrid == demand - supplied
      && f.lost - e.lost == (e.level + charged - supplied) * LOSS_RATE
      && f.level == e.level + charged - supplied - (f.lost - e.lost)
  {
    var ports := Handle(c, Tick).ports;
    HandleKeepsPorts(c, Tick);
    PowerOfPorts(ports);
    ChargeFlow(c.energy, c.capacity, c.balance);
    var charged := Charged(c.energy, c.capacity, c.balance);
    SupplyFlow(charged, TotalPower(ports));
    LeakFlow(Supplied(charged, TotalPower(ports)));
  }

  lemma ChargeFlow(e: Energy, capacity: real, balance: real)
    requires 0.0 <= e.level <= capacity
    ensures var charged :=
        if balance > CHARGE_THRESHOLD then Min(CHARGE_RATE * TIME_DELTA, capacity - e.level) else 0.0;
      Charged(e, capacity, balance) == e.(level := e.level + charged, toBuffer := e.toBuffer + charged)
  {
  }

  lemma SupplyFlow(e: Energy, power: real)
    requires power >= 0.0 && e.level >= 0.0
    ensures var demand := power * TIME_DELTA;
      var supplied := Min(demand, e.level);
      Supplied(e, power) == e.(level := e.level - supplied, fromBuffer := e.fromBuffer + supplied,
                               fromGrid := e.fromGrid + (demand - supplied), demand := e.demand + demand)
  {
  }

  lemma LeakFlow(e: Energy)
    requires e.level >= 0.0
    ensures var loss := e.level * LOSS_RATE;
      Leaked(e) == e.(level := e.level - loss, lost := e.lost + loss)
  {
  }
}
