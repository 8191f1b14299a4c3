/**
 * The distributed gcd ring as a step system.
 *
 * Every worker runs two threads: the constructor, which announces the start value, and the
 * broker's listener thread, which handles one message at a time. Both send one message at a
 * time, so any number of steps of other threads may fall between two sends.
 */
module GcdRing {

  datatype Msg = Update(dst: nat, val: int)

  datatype Result = Result(sender: nat, val: int)

  // Down: not connected. Listening: the consumer runs but the producer is still null, so every send
  // is silently dropped. Ready: the producer exists. Announced: the constructor has read M for its
  // first UPDATE, whose two copies are in `announce` until they are sent.
  datatype Phase = Down | Listening | Ready | Announced

  datatype Worker = Worker(m: int, phase: Phase, announce: seq<Msg>, outbox: seq<Msg>)

  // `sent` is every UPDATE that ever reached the message broker.
  datatype Network = Network(workers: seq<Worker>, flight: multiset<Msg>, sent: set<Msg>, results: set<Result>)

  datatype Step =
    | Connect(i: nat)
    | OpenProducer(i: nat)
    | ReadStart(i: nat)
    | Announce(i: nat)
    | Forward(i: nat)
    | Deliver(msg: Msg)
    | Query(i: nat)
    | Lose(msg: Msg)
    | Replay(msg: Msg)

  function Left(i: nat, n: nat): nat
    requires i < n
  {
    (i + n - 1) % n
  }

  function Right(i: nat, n: nat): nat
    requires i < n
  {
    (i + 1) % n
  }

  function Broadcast(i: nat, n: nat, v: int): seq<Msg>
    requires i < n
  {
    [Update(Left(i, n), v), Update(Right(i, n), v)]
  }

  // The remainder that truncates toward zero: it has the sign of a.
  function Remainder(a: int, b: int): int
    requires b != 0
  {
    if a >= 0 then a % b else -(-a % b)
  }

  function Reduce(m: int, y: int): int
    requires y < m && y != 0
  {
    Remainder(m - 1, y) + 1
  }

  // A zero below M makes the remainder throw; the broker's catch block then drops the message.
  function HandleUpdate(w: Worker, i: nat, n: nat, y: int): Worker
    requires i < n
  {
    if y < w.m && y != 0 then
      w.(m := Reduce(w.m, y), outbox := Broadcast(i, n, Reduce(w.m, y)))
    else
      w
  }

  predicate CanSend(w: Worker) {
    w.phase.Ready? || w.phase.Announced?
  }

  predicate Enabled(s: Network, step: Step) {
    var n := |s.workers|;
    match step
    case Connect(i) => i < n && s.workers[i].phase.Down?
    case OpenProducer(i) => i < n && s.workers[i].phase.Listening?
    case ReadStart(i) => i < n && s.workers[i].phase.Ready?
    case Announce(i) => i < n && s.workers[i].announce != []
    case Forward(i) => i < n && s.workers[i].outbox != []
    case Deliver(msg) =>
      msg in s.flight && msg.dst < n && !s.workers[msg.dst].phase.Down? && s.workers[msg.dst].outbox == []
    case Query(i) => i < n && !s.workers[i].phase.Down? && s.workers[i].outbox == []
    case Lose(msg) => msg in s.flight
    case Replay(msg) => msg in s.sent
  }

  function Apply(s: Network, step: Step): Network
    requires Enabled(s, step)
  {
    var n := |s.workers|;
    match step
    case Connect(i) => SetWorker(s, i, s.workers[i].(phase := Listening))
    case OpenProducer(i) => SetWorker(s, i, s.workers[i].(phase := Ready))
    case ReadStart(i) =>
      SetWorker(s, i, s.workers[i].(phase := Announced, announce := Broadcast(i, n, s.workers[i].m)))
    case Announce(i) =>
      var w := s.workers[i];
      Send(SetWorker(s, i, w.(announce := w.announce[1..])), w.announce[0])
    case Forward(i) =>
      var w := s.workers[i];
      var t := SetWorker(s, i, w.(outbox := w.outbox[1..]));
      if CanSend(w) then Send(t, w.outbox[0]) else t
    case Deliver(msg) =>
      SetWorker(s, msg.dst, HandleUpdate(s.workers[msg.dst], msg.dst, n, msg.val))
      .(flight := s.flight - multiset{msg})
    case Query(i) =>
      if CanSend(s.workers[i]) then
        s.(results := s.results + {Result(i, s.workers[i].m)})
      else
        s
    case Lose(msg) => s.(flight := s.flight - multiset{msg})
    case Replay(msg) => s.(flight := s.flight + multiset{msg})
  }

  function SetWorker(s: Network, i: nat, w: Worker): Network
    requires i < |s.workers|
  {
    s.(workers := s.workers[i := w])
  }

  function Send(s: Network, msg: Msg): Network {
    s.(flight := s.flight + multiset{msg}, sent := s.sent + {msg})
  }

  function Init(inputs: seq<int>): Network {
    Network(seq(|inputs|, i requires 0 <= i < |inputs| => Worker(inputs[i], Down, [], [])), multiset{}, {}, {})
  }

  predicate IsRun(s: Network, steps: seq<Step>)
    decreases |steps|
  {
    steps == [] || (Enabled(s, steps[0]) && IsRun(Apply(s, steps[0]), steps[1..]))
  }

  function Final(s: Network, steps: seq<Step>): Network
    requires IsRun(s, steps)
    decreases |steps|
  {
    if steps == [] then s else Final(Apply(s, steps[0]), steps[1..])
  }

  predicate LossFree(steps: seq<Step>) {
    forall k :: 0 <= k < |steps| ==> !steps[k].Lose?
  }

  // Neither lost nor repeated messages: the broker delivers each UPDATE once.
  predicate Exact(steps: seq<Step>) {
    forall k :: 0 <= k < |steps| ==> !steps[k].Lose? && !steps[k].Replay?
  }

  predicate Quiescent(s: Network) {
    && s.flight == multiset{}
    && forall i :: 0 <= i < |s.workers| ==>
      s.workers[i].phase.Announced? && s.workers[i].announce == [] && s.workers[i].outbox == []
  }

  function Values(ws: seq<Worker>): (ms: seq<int>)
    ensures |ms| == |ws| && forall k :: 0 <= k < |ws| ==> ms[k] == ws[k].m
  {
    seq(|ws|, k requires 0 <= k < |ws| => ws[k].m)
  }

  predicate Positive(s: seq<int>) {
    forall k :: 0 <= k < |s| ==> s[k] > 0
  }
}
