/** The charging cluster and an auction as objects; their handlers compute the functions of ChargingClusters. */
module ChargingObjects {
  import opened Basics
  import opened ChargingClusters

  class AuctionState {
    var price: real
    var ticks: int
    var active: bool
    var bidder: Option<Vehicle>
    var bid: Option<real>

    ghost function View(): Auction
      reads this
    {
      Auction(price, ticks, active, bidder, bid)
    }

    constructor (startPrice: real)
      ensures View() == Started(startPrice)
    {
      price, ticks, active, bidder, bid := startPrice, 5, true, None, None;
    }

    method UpdatePrice(factor: real)
      modifies this`price
      ensures price == if active then Adjusted(old(price), factor) else old(price)
    {
      if !active {
        return;
      }
      price := price * factor;
      price := Max(0.01, Min(50.0, price));
    }

    method TickAuction(factor: real)
      modifies this
      ensures View() == Ticked(old(View()), factor)
    {
      if !active {
        return;
      }
      ticks := ticks - 1;
      UpdatePrice(factor);
      if ticks <= 0 {
        active := false;
      }
    }

    method AcceptBid(vehicle: Vehicle, amount: real) returns (accepted: bool)
      modifies this
      ensures accepted <==> Accepts(old(View()), amount)
      ensures View() == if accepted
        then old(View()).(active := false, bidder := Some(vehicle), bid := Some(amount)) else old(View())
    {
      if !active {
        return false;
      }
      if amount >= price {
        bidder, bid, active := Some(vehicle), Some(amount), false;
        return true;
      }
      accepted := false;
    }
  }

  class ChargingCluster {
    var adaptive: bool
    var waiting: seq<Vehicle>
    var ports: seq<Port>
    var auctions: map<nat, Auction>
    var balance: real
    const capacity: real
    var energy: Energy

    ghost function View(): Cluster
      reads this
    {
      Cluster(adaptive, waiting, ports, auctions, balance, capacity, energy)
    }

    constructor (total: nat, capacity: real)
      ensures View() == Init(total, capacity)
    {
      this.capacity := capacity;
      adaptive, waiting, auctions, balance := true, [], map[], 0.0;
      ports := seq(total, _ => FREE_PORT);
      energy := Energy(capacity * 0.8, 0.0, 0.0, 0.0, 0.0, 0.0);
    }

    method HandleTick()
      modifies this
      ensures View() == Handle(old(View()), Tick)
    {
      if adaptive {
        UpdateAuctions();
        StartNewAuctions();
      } else {
        ProcessDirectAssignments();
      }
      UpdateBuffer();
    }

    method UpdateAuctions()
      requires adaptive
      modifies this`auctions
      ensures auctions == UpdatedAuctions(old(View()))
    {
      var factor := PriceFactor(balance, |FreePorts(ports)|);
      var expired: set<nat> := {};
      var rest := auctions.Keys;
      while rest != {}
        invariant rest <= auctions.Keys == old(auctions).Keys
        invariant forall p :: p in auctions ==>
          auctions[p] == if p in rest then old(auctions)[p] else Ticked(old(auctions)[p], factor)
        invariant forall p :: p in expired <==> p in auctions && p !in rest && Expired(auctions[p])
      {
        var p :| p in rest;
        auctions := auctions[p := Ticked(auctions[p], factor)];
        if Expired(auctions[p]) {
          expired := expired + {p};
        }
        rest := rest - {p};
      }
      auctions := auctions - expired;
    }

    method StartNewAuctions()
      requires adaptive
      modifies this`auctions
      ensures auctions == NewAuctions(old(View()))
    {
      if energy.level < AUCTION_LEVEL {
        return;
      }
      ghost var target := NewAuctions(View());
      for p := 0 to |ports|
        invariant forall q :: q in auctions <==> q in old(auctions) || (0 <= q < p && !ports[q].occupied)
        invariant forall q :: q in auctions ==> q in target && auctions[q] == target[q]
      {
        if !ports[p].occupied && p !in auctions {
          NewAuctionAt(old(View()), p);
          var auction := NewAuction(balance, |FreePorts(ports)|, |ports|);
          auctions := auctions[p := auction];
        }
      }
    }

    method ProcessDirectAssignments()
      modifies this`ports, this`waiting
      ensures ports == Assigned(old(ports), old(waiting), FreePorts(old(ports)))
      ensures var free := |FreePorts(old(ports))|;
        waiting == old(waiting)[if |old(waiting)| < free then |old(waiting)| else free..]
    {
      var available := FreePorts(ports);
      ghost var served := 0;
      ghost var queue, free := waiting, available;
      while waiting != [] && available != []
        invariant |ports| == |old(ports)| && forall i :: 0 <= i < |free| ==> free[i] < |ports|
        invariant served <= |queue| && served <= |free|
        invariant waiting == queue[served..] && available == free[served..]
        invariant Assigned(ports, waiting, available) == Assigned(old(ports), queue, free)
        decreases |available|
      {
        assert queue[served..][1..] == queue[served + 1..] && free[served..][1..] == free[served + 1..];
        ports := ports[available[0] := Taken(waiting[0])];
        waiting := waiting[1..];
        available := available[1..];
        served := served + 1;
      }
    }

    method HandleBid(vehicle: Vehicle, port: nat, amount: real)
      modifies this
      ensures View() == Handle(old(View()), Bid(vehicle, port, amount))
    {
      if !adaptive {
        if vehicle !in waiting {
          waiting := waiting + [vehicle];
        }
        return;
      }
      if port in auctions && Accepts(auctions[port], amount) {
        if port < |ports| {
          ports := ports[port := Taken(vehicle)];
        }
        auctions := auctions - {port};
      }
    }

    method HandleRelease(vehicle: Vehicle)
      modifies this`ports
      ensures View() == Handle(old(View()), Release(vehicle))
    {
      for p := 0 to |ports|
        invariant ports == old(ports) && forall q :: 0 <= q < p ==> ports[q].vehicle != Some(vehicle)
      {
        if ports[p].vehicle == Some(vehicle) {
          ReleasedAt(ports, vehicle, p);
          ports := ports[p := FREE_PORT];
          return;
        }
      }
      ReleasedFreesFirst(ports, vehicle);
    }

    method HandleAdaptiveMode(mode: bool)
      modifies this
      ensures View() == Handle(old(View()), Mode(mode))
    {
      var oldMode := adaptive;
      adaptive := mode;
      if oldMode != mode && !mode {
        auctions := map[];
        waiting := [];
      }
    }

    method UpdateBuffer()
      modifies this`energy
      ensures energy == UpdatedBuffer(old(View()))
    {
      var power := TotalPower(ports);
      if balance > CHARGE_THRESHOLD {
        if energy.level < capacity {
          var space := capacity - energy.level;
          var chargePower := Min(CHARGE_RATE, space / TIME_DELTA);
          var charged := chargePower * TIME_DELTA;
          energy := energy.(level := Min(capacity, energy.level + charged), toBuffer := energy.toBuffer + charged);
        }
      }
      if power > 0.0 {
        var needed := power * TIME_DELTA;
        var fromBuffer := Min(needed, energy.level);
        energy := energy.(demand := energy.demand + needed);
        if fromBuffer > 0.0 {
          energy := energy.(level := energy.level - fromBuffer, fromBuffer := energy.fromBuffer + fromBuffer,
                            fromGrid := energy.fromGrid + (needed - fromBuffer));
        } else {
          energy := energy.(fromGrid := energy.fromGrid + needed);
        }
      }
      if energy.level > 0.0 {
        var loss := energy.level * LOSS_RATE;
        energy := energy.(level := Max(0.0, energy.level - loss), lost := energy.lost + loss);
      }
    }
  }
}
