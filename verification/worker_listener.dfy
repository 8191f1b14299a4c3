/** The worker's runtime object; its handlers carry out the steps of module GcdRing. */
module WorkerRuntime {
  import opened GcdRing

  datatype Inbound = UpdateMsg(val: int) | QueryMsg | KillMsg | OtherMsg

  // Threw: an exception left the handler and the broker's catch block swallowed the message.
  datatype Outcome = Sent(updates: seq<Msg>) | Answered(result: Result) | Exited | Threw

  class WorkerListener {
    var m: int
    const self: nat
    const left: nat
    const right: nat
    ghost const n: nat

    ghost predicate Placed() {
      self < n && left == Left(self, n) && right == Right(self, n)
    }

    constructor (startingM: int, self: nat, left: nat, right: nat, ghost n: nat)
      requires self < n && left == Left(self, n) && right == Right(self, n)
      ensures m == startingM && Placed() && this.self == self && this.n == n
    {
      this.m, this.self, this.left, this.right := startingM, self, left, right;
      this.n := n;
    }

    // The end of the start-up: the value is read once and goes to both neighbours.
    method FirstUpdates() returns (updates: seq<Msg>)
      requires Placed()
      ensures updates == Broadcast(self, n, m)
    {
      var value := m;
      updates := [Update(left, value), Update(right, value)];
    }

    // The listener thread's view of this worker, with the UPDATEs it still has to send.
    ghost function View(outbox: seq<Msg>): Worker
      reads this
    {
      Worker(m, Ready, [], outbox)
    }

    method ProcessUpdate(y: int) returns (outcome: Outcome)
      requires Placed()
      modifies this`m
      ensures outcome == if y == 0 < old(m) then Threw else Sent(HandleUpdate(old(View([])), self, n, y).outbox)
      ensures m == HandleUpdate(old(View([])), self, n, y).m
    {
      outcome := Sent([]);
      if y < m {
        if y == 0 {
          return Threw;
        }
        m := Remainder(m - 1, y) + 1;
        outcome := Sent([Update(left, m), Update(right, m)]);
      }
    }

    method OnMessage(msg: Inbound) returns (outcome: Outcome)
      requires Placed()
      modifies this`m
      ensures outcome.Sent? <==> msg.UpdateMsg? && (msg.val != 0 || old(m) <= 0)
      ensures outcome.Sent? ==> View(outcome.updates) == HandleUpdate(old(View([])), self, n, msg.val)
      ensures !outcome.Sent? ==> m == old(m)
      ensures msg.QueryMsg? ==> outcome == Answered(Result(self, m))
      ensures msg.KillMsg? ==> outcome == Exited
      ensures msg.OtherMsg? ==> outcome == Threw
    {
      match msg
      case UpdateMsg(val) => outcome := ProcessUpdate(val);
      case QueryMsg => outcome := Answered(Result(self, m));
      case KillMsg => outcome := Exited;
      case OtherMsg => outcome := Threw;
    }
  }
}
