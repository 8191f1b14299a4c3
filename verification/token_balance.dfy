/** What happens to tokens: none appears but by a mint, none disappears but by a loss, and none gets stuck. */
module TokenBalance {
  import opened Basics
  import opened Neighbors
  import opened TokenRing

  function Tokens(procs: seq<Process>): nat {
    if procs == [] then 0 else Held(procs[0]) + Tokens(procs[1..])
  }

  // A message that vanishes, a listing that cannot be fetched and a robot call that throws lose a token.
  function Lost(step: Step): nat {
    if step.Vanish? || step.FetchFails? || step.ControlFails? then 1 else 0
  }

  function Minted(s: System, step: Step): nat {
    if step.FinishRegister? && Mints(s) then 1 else 0
  }

  lemma {:induction false} TokensUpdate(procs: seq<Process>, c: nat, p: Process)
    requires c < |procs|
    ensures Tokens(procs[c := p]) == Tokens(procs) - Held(procs[c]) + Held(p)
  {
    var changed := procs[c := p];
    if c == 0 {
      assert changed[1..] == procs[1..];
    } else {
      assert changed[1..] == procs[1..][c - 1 := p];
      TokensUpdate(procs[1..], c - 1, p);
    }
  }

  predicate OwnStep(step: Step) {
    !step.Register? && !step.FinishRegister? && !step.Unregister? && !step.ServeList?
  }

  // A client's own step gives away exactly one token if it sends it, loses one if it is a loss, and keeps
  // its tokens otherwise, whether it finds no neighbour, fails to send or leaves the robot control.
  lemma OwnStepBalances(s: System, step: Step)
    requires OwnStep(step) && Enabled(s, step)
    ensures Held(Local(s.procs[step.c], step)) == Held(s.procs[step.c]) - Lost(step) - if step.SendToken? then 1 else 0
  {
  }

  lemma TokensGiven(procs: seq<Process>, address: nat)
    requires address < |procs|
    ensures Tokens(Give(procs, address)) == Tokens(procs) + 1
  {
    TokensUpdate(procs, address, procs[address].(flying := procs[address].flying + 1));
  }

  lemma OwnStepKeepsBalance(s: System, step: Step)
    requires OwnStep(step) && Enabled(s, step)
    ensures Tokens(Apply(s, step).procs) == Tokens(s.procs) - Lost(step)
  {
    var after := s.procs[step.c := Local(s.procs[step.c], step)];
    OwnStepBalances(s, step);
    TokensUpdate(s.procs, step.c, Local(s.procs[step.c], step));
    if step.SendToken? {
      TokensGiven(after, s.procs[step.c].manager.address);
    } else {
      assert Apply(s, step).procs == after;
    }
  }

  lemma StepBalances(s: System, step: Step)
    requires Enabled(s, step)
    ensures Tokens(Apply(s, step).procs) == Tokens(s.procs) + Minted(s, step) - Lost(step)
  {
    match step
    case Register(name, kind, address) =>
      var t := Registered(s, name, kind, address);
      if name !in s.endpoints && kind.Client? {
        assert Held(t.procs[address]) == Held(s.procs[address]);
        TokensUpdate(s.procs, address, t.procs[address]);
        assert t.procs == s.procs[address := t.procs[address]];
      }
    case FinishRegister =>
      if Mints(s) {
        TokensGiven(s.procs, s.pending.value.address);
      }
    case Unregister(_) =>
    case ServeList(_) =>
    case _ => OwnStepKeepsBalance(s, step);
  }

  function AllMinted(s: System, steps: seq<Step>): nat
    requires IsRun(s, steps)
    decreases |steps|
  {
    if steps == [] then 0 else Minted(s, steps[0]) + AllMinted(Apply(s, steps[0]), steps[1..])
  }

  function AllLost(steps: seq<Step>): nat {
    if steps == [] then 0 else Lost(steps[0]) + AllLost(steps[1..])
  }

  lemma {:induction false} RunBalances(s: System, steps: seq<Step>)
    requires IsRun(s, steps)
    ensures Tokens(Final(s, steps).procs) == Tokens(s.procs) + AllMinted(s, steps) - AllLost(steps)
    decreases |steps|
  {
    if steps != [] {
      StepBalances(s, steps[0]);
      RunBalances(Apply(s, steps[0]), steps[1..]);
    }
  }

  lemma {:induction false} NoTokens(procs: seq<Process>)
    requires forall c :: 0 <= c < |procs| ==> Held(procs[c]) == 0
    ensures Tokens(procs) == 0
  {
    if procs != [] {
      NoTokens(procs[1..]);
    }
  }

  // Main result: in every reachable state the clients, registered or departed, hold exactly the tokens that
  // were minted and not lost.
  lemma TokensAreMintsMinusLosses(n: nat, steps: seq<Step>)
    requires IsRun(Init(n), steps)
    ensures Tokens(Final(Init(n), steps).procs) == AllMinted(Init(n), steps) - AllLost(steps)
  {
    NoTokens(Init(n).procs);
    RunBalances(Init(n), steps);
  }

  // The user's semaphore and the robot control hold exactly the one token that the manager has offered.
  ghost predicate OfferIsOpen(s: System, c: nat)
    requires c < |s.procs|
  {
    var p := s.procs[c];
    p.local + (if p.inControl then 1 else 0) == if p.manager.Offering? then 1 else 0
  }

  lemma StepKeepsOffer(s: System, step: Step, c: nat)
    requires c < |s.procs| && OfferIsOpen(s, c) && Enabled(s, step) && step != ControlFails(c)
    ensures |Apply(s, step).procs| == |s.procs| && OfferIsOpen(Apply(s, step), c)
  {
  }

  lemma {:induction false} RunKeepsOffer(s: System, steps: seq<Step>, c: nat)
    requires c < |s.procs| && OfferIsOpen(s, c) && IsRun(s, steps) && ControlFails(c) !in steps
    ensures |Final(s, steps).procs| == |s.procs| && OfferIsOpen(Final(s, steps), c)
    decreases |steps|
  {
    if steps != [] {
      StepKeepsOffer(s, steps[0], c);
      RunKeepsOffer(Apply(s, steps[0]), steps[1..], c);
    }
  }

  // The steps that bring a token on, none of which loses it.
  ghost predicate BringsOn(s: System, c: nat, step: Step) {
    && step in {Arrive(c), TakeToken(c), Reclaim(c), LeaveControl(c), SendFails(c)}
    && Enabled(s, step)
  }

  // Main result: as long as no robot call of client c has thrown and its manager is alive, a token it holds
  // can always be brought on: it arrives, is offered, comes back from the user, even from the robot
  // control, and goes to the manager, which fetches a listing for it.
  lemma TokenIsNeverStuck(n: nat, steps: seq<Step>, c: nat)
    requires IsRun(Init(n), steps) && c < n && ControlFails(c) !in steps
    ensures |Final(Init(n), steps).procs| == n
    ensures var p := Final(Init(n), steps).procs[c];
      Held(p) > 0 && !p.manager.Dead? && !p.manager.Acquired? ==>
        exists step :: BringsOn(Final(Init(n), steps), c, step)
  {
    RunKeepsOffer(Init(n), steps, c);
    var s := Final(Init(n), steps);
    var p := s.procs[c];
    if Held(p) > 0 {
      var step := match p.manager
        case Waiting => if p.com > 0 then TakeToken(c) else Arrive(c)
        case Offering => if p.inControl then LeaveControl(c) else Reclaim(c)
        case _ => SendFails(c);
      assert !p.manager.Dead? && !p.manager.Acquired? ==> BringsOn(s, c, step);
    }
  }
}
