/** The registry and a client as objects; their methods carry out the steps of module TokenRing. */
module TokenObjects {
  import opened Basics
  import opened Neighbors
  import opened TokenRing

  class RegistryServer {
    var endpoints: map<string, Payload>
    var counter: nat

    constructor ()
      ensures endpoints == map[] && counter == 0
    {
      endpoints, counter := map[], 0;
    }

    // The registry is in the state that s says.
    ghost predicate Matches(s: System)
      reads this
    {
      endpoints == s.endpoints && counter == s.counter
    }

    // The first part of a REGISTER request, up to the response; None is the error answer.
    method Put(name: string, kind: Kind, address: nat) returns (registered: Option<Payload>)
      modifies this
      ensures registered.None? <==> name in old(endpoints)
      ensures registered.None? ==> endpoints == old(endpoints) && counter == old(counter)
      ensures registered.Some? ==>
        && registered.value == Payload(old(counter) + 1, kind, address)
        && counter == old(counter) + 1
        && endpoints == old(endpoints)[name := registered.value]
      ensures forall s :: old(Matches(s)) && Enabled(s, Register(name, kind, address)) ==>
        && Matches(Apply(s, Register(name, kind, address)))
        && Apply(s, Register(name, kind, address)).pending == if registered.Some? then registered else s.pending
    {
      if name in endpoints {
        return None;
      }
      counter := counter + 1;
      var entity := Payload(counter, kind, address);
      endpoints := endpoints[name := entity];
      registered := Some(entity);
    }

    // The second part: count the clients; a lone client gets a token.
    method SendsToken(entity: Payload) returns (token: bool)
      ensures token <==> entity.kind.Client? && |ClientNames(endpoints)| == 1
      ensures forall s :: Matches(s) && s.pending == Some(entity) ==>
        (Mints(s) <==> token && entity.address !in s.departed)
    {
      token := false;
      if entity.kind.Client? {
        var clientCount := 0;
        var rest := endpoints.Keys;
        while rest != {}
          invariant rest <= endpoints.Keys
          invariant clientCount == |ClientNames(endpoints) - rest|
        {
          var name :| name in rest;
          if endpoints[name].kind.Client? {
            assert ClientNames(endpoints) - (rest - {name}) == (ClientNames(endpoints) - rest) + {name};
            clientCount := clientCount + 1;
          } else {
            assert ClientNames(endpoints) - (rest - {name}) == ClientNames(endpoints) - rest;
          }
          rest := rest - {name};
        }
        assert ClientNames(endpoints) - {} == ClientNames(endpoints);
        token := clientCount == 1;
      }
    }

    method Unregister(name: string) returns (removed: Option<Payload>)
      modifies this`endpoints
      ensures endpoints == old(endpoints) - {name}
      ensures removed == if name in old(endpoints) then Some(old(endpoints)[name]) else None
      ensures forall s :: old(Matches(s)) ==> Matches(Apply(s, Step.Unregister(name)))
    {
      removed := if name in endpoints then Some(endpoints[name]) else None;
      endpoints := endpoints - {name};
    }
  }

  class TerminalClient {
    const address: nat
    var id: nat
    ghost var era: nat
    ghost var flying: nat
    var com: nat
    var local: nat
    var manager: Manager
    var inControl: bool

    ghost function View(): Process
      reads this
    {
      Process(id, era, flying, com, local, manager, inControl)
    }

    // COM's receive loop: a TOKEN goes to its semaphore, not into the message queue.
    method ReceiveToken()
      requires flying > 0
      modifies this
      ensures View() == Local(old(View()), Arrive(address))
    {
      flying := flying - 1;
      com := com + 1;
    }

    // wait_for_token returned; the token is released for the user.
    method OfferToken()
      requires manager.Waiting? && com > 0
      modifies this
      ensures View() == Local(old(View()), TakeToken(address))
    {
      com := com - 1;
      local := local + 1;
      manager := Offering;
    }

    // After the sleep: the acquire on the local semaphore returned.
    method ReclaimToken()
      requires manager.Offering? && local > 0
      modifies this
      ensures View() == Local(old(View()), Reclaim(address))
    {
      local := local - 1;
      manager := Acquired;
    }

    // attempt_send_token with the listing it received (None: the fetch failed) and the outcome of the
    // send. A missing listing makes the loop over it throw, which ends the thread.
    method AttemptSendToken(nodes: Option<seq<Payload>>, delivered: bool) returns (sent: Option<Payload>)
      requires manager.Acquired?
      modifies this
      ensures nodes.None? ==> sent == None && View() == Local(old(View()), FetchFails(address))
      ensures nodes.Some? ==>
        var chosen := Local(old(View()), Fetch(address, nodes.value));
        if chosen.manager.Offering? then sent == None && View() == chosen
        else if delivered then sent == NextClient(nodes.value, id) && View() == Local(chosen, SendToken(address))
        else sent == None && View() == Local(chosen, SendFails(address))
    {
      if nodes.None? {
        manager := Dead;
        return None;
      }
      var neighbor := ExtractNeighbors(nodes.value, id);
      if neighbor.Some? && delivered {
        manager := Waiting;
        return neighbor;
      }
      local := local + 1;
      manager := Offering;
      sent := None;
    }

    method RequestControl()
      requires !inControl && local > 0
      modifies this
      ensures View() == Local(old(View()), EnterControl(address))
    {
      local := local - 1;
      inControl := true;
    }

    // The robot call returned or threw; only a return releases the token.
    method EndControl(threw: bool)
      requires inControl
      modifies this
      ensures View() == Local(old(View()), if threw then ControlFails(address) else LeaveControl(address))
    {
      inControl := false;
      if !threw {
        local := local + 1;
      }
    }
  }
}
