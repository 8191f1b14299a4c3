/**
 * The token ring of the robot clients and the registry that mints its token, as a step system.
 *
 * The registry handles its requests on a thread pool. A REGISTER request holds a lock from its first
 * test to the end, but an UNREGISTER or LIST request takes no lock, so it may be served between the
 * moment a client is put into the map and the moment the clients are counted: Register and
 * FinishRegister are two steps.
 */
module TokenRing {
  import opened Basics
  import opened Neighbors

  // The thread that owns a client's token between uses. Offering: the token lies in the local semaphore
  // for the user. Acquired: taken back, the listing is being fetched. Chosen: about to send it on.
  // Dead: the thread ended with an exception.
  datatype Manager = Waiting | Offering | Acquired | Chosen(address: nat) | Dead

  // A client process. `flying`: TOKEN messages on their way to it. `com`, `local`: permits of its two
  // token semaphores. `id` is 0 until the process is registered. `era` is a history variable: the number
  // of times the registry had gone without clients before this one came.
  datatype Process = Process(id: int, era: nat, flying: nat, com: nat, local: nat, manager: Manager, inControl: bool)

  // `pending`: the endpoint whose REGISTER request holds the lock. `alone`: no other client was
  // registered when it was put. `departed`: clients that closed their socket and unregistered.
  // `lists`: every listing the registry has handed out.
  datatype System = System(
    procs: seq<Process>, endpoints: map<string, Payload>, counter: nat,
    pending: Option<Payload>, alone: bool, era: nat, departed: set<nat>, lists: set<seq<Payload>>)

  datatype Step =
    | Register(name: string, kind: Kind, address: nat)
    | FinishRegister
    | Unregister(name: string)
    | ServeList(list: seq<Payload>)
    | Arrive(c: nat)
    | Vanish(c: nat)
    | TakeToken(c: nat)
    | Reclaim(c: nat)
    | Fetch(c: nat, list: seq<Payload>)
    | FetchFails(c: nat)
    | SendToken(c: nat)
    | SendFails(c: nat)
    | EnterControl(c: nat)
    | LeaveControl(c: nat)
    | ControlFails(c: nat)

  function ClientNames(endpoints: map<string, Payload>): set<string> {
    set name | name in endpoints && endpoints[name].kind.Client?
  }

  // The registry counts one client and sends it a new token; the send fails if that client has closed.
  predicate Mints(s: System) {
    && s.pending.Some? && s.pending.value.kind.Client?
    && |ClientNames(s.endpoints)| == 1
    && s.pending.value.address !in s.departed
  }

  predicate Lists(endpoints: map<string, Payload>, list: seq<Payload>) {
    && (forall i, j :: 0 <= i < j < |list| ==> list[i] != list[j])
    && (forall p :: p in list ==> p in endpoints.Values)
    && (forall name :: name in endpoints ==> endpoints[name] in list)
  }

  predicate Enabled(s: System, step: Step) {
    match step
    case Register(name, kind, address) =>
      s.pending.None? && (kind.Client? ==> address < |s.procs| && s.procs[address].id == 0)
    case FinishRegister => s.pending.Some? && (s.pending.value.kind.Client? ==> s.pending.value.address < |s.procs|)
    case Unregister(name) => true
    case ServeList(list) => Lists(s.endpoints, list)
    case Arrive(c) => c < |s.procs| && s.procs[c].flying > 0
    case Vanish(c) => c < |s.procs| && s.procs[c].flying > 0
    case TakeToken(c) => c < |s.procs| && s.procs[c].manager.Waiting? && s.procs[c].com > 0
    case Reclaim(c) => c < |s.procs| && s.procs[c].manager.Offering? && s.procs[c].local > 0
    case Fetch(c, list) => c < |s.procs| && s.procs[c].manager.Acquired? && list in s.lists
    case FetchFails(c) => c < |s.procs| && s.procs[c].manager.Acquired?
    case SendToken(c) =>
      c < |s.procs| && s.procs[c].manager.Chosen?
      && s.procs[c].manager.address < |s.procs| && s.procs[c].manager.address !in s.departed
    case SendFails(c) => c < |s.procs| && s.procs[c].manager.Chosen?
    case EnterControl(c) => c < |s.procs| && !s.procs[c].inControl && s.procs[c].local > 0
    case LeaveControl(c) => c < |s.procs| && s.procs[c].inControl
    case ControlFails(c) => c < |s.procs| && s.procs[c].inControl
  }

  // The steps of one client that concern nobody else.
  function Local(p: Process, step: Step): Process
    requires step.Arrive? || step.Vanish? ==> p.flying > 0
    requires step.TakeToken? ==> p.com > 0
    requires step.Reclaim? || step.EnterControl? ==> p.local > 0
  {
    match step
    case Arrive(_) => p.(flying := p.flying - 1, com := p.com + 1)
    case Vanish(_) => p.(flying := p.flying - 1)
    case TakeToken(_) => p.(com := p.com - 1, local := p.local + 1, manager := Offering)
    case Reclaim(_) => p.(local := p.local - 1, manager := Acquired)
    case Fetch(_, list) =>
      (match NextClient(list, p.id)
       case None => p.(local := p.local + 1, manager := Offering)
       case Some(next) => p.(manager := Chosen(next.address)))
    case FetchFails(_) => p.(manager := Dead)
    case SendToken(_) => p.(manager := Waiting)
    case SendFails(_) => p.(local := p.local + 1, manager := Offering)
    case EnterControl(_) => p.(local := p.local - 1, inControl := true)
    case LeaveControl(_) => p.(local := p.local + 1, inControl := false)
    case ControlFails(_) => p.(inControl := false)
    case _ => p
  }

  function Give(procs: seq<Process>, address: nat): seq<Process>
    requires address < |procs|
  {
    procs[address := procs[address].(flying := procs[address].flying + 1)]
  }

  function Apply(s: System, step: Step): System
    requires Enabled(s, step)
  {
    match step
    case Register(name, kind, address) => Registered(s, name, kind, address)
    case FinishRegister =>
      var t := s.(pending := None);
      if Mints(s) then t.(procs := Give(s.procs, s.pending.value.address)) else t
    case Unregister(name) =>
      if name in s.endpoints then
        s.(endpoints := s.endpoints - {name},
           departed := s.departed + if s.endpoints[name].kind.Client? then {s.endpoints[name].address} else {})
      else s
    case ServeList(list) => s.(lists := s.lists + {list})
    case SendToken(c) =>
      s.(procs := Give(s.procs[c := Local(s.procs[c], step)], s.procs[c].manager.address))
    case _ => s.(procs := s.procs[step.c := Local(s.procs[step.c], step)])
  }

  // A name that is taken is answered with an error and changes nothing.
  function Registered(s: System, name: string, kind: Kind, address: nat): System
    requires kind.Client? ==> address < |s.procs|
  {
    if name in s.endpoints then s
    else
      var payload := Payload(s.counter + 1, kind, address);
      var t := s.(endpoints := s.endpoints[name := payload], counter := s.counter + 1, pending := Some(payload));
      if kind.RobotNode? then t.(alone := false)
      else
        var alone := ClientNames(s.endpoints) == {};
        var era := if alone then s.era + 1 else s.era;
        t.(alone := alone, era := era,
           procs := s.procs[address := s.procs[address].(id := s.counter + 1, era := era)])
  }

  function Init(n: nat): System {
    System(seq(n, _ => Process(0, 0, 0, 0, 0, Waiting, false)), map[], 0, None, false, 0, {}, {})
  }

  predicate IsRun(s: System, steps: seq<Step>)
    decreases |steps|
  {
    steps == [] || (Enabled(s, steps[0]) && IsRun(Apply(s, steps[0]), steps[1..]))
  }

  function Final(s: System, steps: seq<Step>): System
    requires IsRun(s, steps)
    decreases |steps|
  {
    if steps == [] then s else Final(Apply(s, steps[0]), steps[1..])
  }

  // The tokens a client holds or is about to receive.
  function Held(p: Process): nat {
    p.flying + p.com + p.local
    + (if p.manager.Acquired? || p.manager.Chosen? then 1 else 0)
    + (if p.inControl then 1 else 0)
  }

  predicate IsRegistered(s: System, c: nat) {
    exists name :: name in s.endpoints && s.endpoints[name].kind.Client? && s.endpoints[name].address == c
  }

  // Registered clients hold at most one token between them.
  ghost predicate AtMostOneToken(s: System) {
    && (forall c :: 0 <= c < |s.procs| && IsRegistered(s, c) ==> Held(s.procs[c]) <= 1)
    && (forall c, d ::
      0 <= c < |s.procs| && 0 <= d < |s.procs| && c != d && IsRegistered(s, c) && IsRegistered(s, d) ==>
      Held(s.procs[c]) == 0 || Held(s.procs[d]) == 0)
  }

  // The count found one client although another one was registered when this one was put: only an
  // UNREGISTER served inside the window makes it false.
  predicate Justified(s: System) {
    Mints(s) ==> s.alone
  }

  predicate AllJustified(s: System, steps: seq<Step>)
    requires IsRun(s, steps)
    decreases |steps|
  {
    steps != [] ==>
      (steps[0].FinishRegister? ==> Justified(s)) && AllJustified(Apply(s, steps[0]), steps[1..])
  }

  // UNREGISTER is never served while a REGISTER request is being served.
  predicate Serialised(s: System, steps: seq<Step>)
    requires IsRun(s, steps)
    decreases |steps|
  {
    steps != [] ==>
      (steps[0].Unregister? ==> s.pending.None?) && Serialised(Apply(s, steps[0]), steps[1..])
  }
}
