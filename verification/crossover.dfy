/** Seatings as flat lists of seats (0 is an empty seat) and the crossover of two of them. */
module Crossover {
  import opened Basics

  predicate WithinClass(s: seq<nat>, n: nat) {
    forall i :: 0 <= i < |s| ==> s[i] <= n
  }

  // Nobody sits twice.
  predicate NoDoubles(s: seq<nat>) {
    forall i, j :: 0 <= i < j < |s| && s[i] == s[j] ==> s[i] == 0
  }

  // Every student 1..n sits exactly once and all other seats are empty.
  predicate IsSeating(s: seq<nat>, n: nat) {
    WithinClass(s, n) && NoDoubles(s) && forall v :: 1 <= v <= n ==> v in s
  }

  function Pick(kind: seq<nat>, first: nat, second: nat): nat {
    if first !in kind && first != 0 then first
    else if second !in kind && second != 0 then second
    else 0
  }

  // The first i seats of the child before the repair: parent 1 dominates the first half, parent 2 the rest.
  function Cross(p: seq<nat>, q: seq<nat>, i: nat): (kind: seq<nat>)
    requires |p| == |q| && i <= |p|
    ensures |kind| == i
  {
    if i == 0 then []
    else
      var kind := Cross(p, q, i - 1);
      if i - 1 < |p| / 2 then kind + [Pick(kind, p[i - 1], q[i - 1])]
      else kind + [Pick(kind, q[i - 1], p[i - 1])]
  }

  // One past the last empty seat, or 0 when all are taken.
  function LastFree(kind: seq<nat>): (k: nat)
    ensures k <= |kind| && (k > 0 ==> kind[k - 1] == 0)
    ensures forall j :: k <= j < |kind| ==> kind[j] != 0
  {
    if kind == [] then 0
    else if kind[|kind| - 1] == 0 then |kind|
    else LastFree(kind[..|kind| - 1])
  }

  // Seats v in the rearmost empty seat unless v already sits.
  function SeatIfMissing(kind: seq<nat>, v: nat): (r: seq<nat>)
    ensures |r| == |kind|
  {
    if v in kind || LastFree(kind) == 0 then kind else kind[LastFree(kind) - 1 := v]
  }

  function Repair(kind: seq<nat>, n: nat): (r: seq<nat>)
    ensures |r| == |kind|
  {
    if n == 0 then kind else SeatIfMissing(Repair(kind, n - 1), n)
  }

  function Child(p: seq<nat>, q: seq<nat>, n: nat): seq<nat>
    requires |p| == |q|
  {
    Repair(Cross(p, q, |p|), n)
  }

  lemma {:induction false} CrossHasNoDoubles(p: seq<nat>, q: seq<nat>, i: nat, n: nat)
    requires |p| == |q| && i <= |p| && WithinClass(p, n) && WithinClass(q, n)
    ensures WithinClass(Cross(p, q, i), n) && NoDoubles(Cross(p, q, i))
  {
    if i > 0 {
      CrossHasNoDoubles(p, q, i - 1, n);
    }
  }

  function UpTo(n: nat): (r: set<nat>)
    ensures forall v :: v in r <==> 1 <= v <= n
    ensures |r| == n
  {
    if n == 0 then {} else UpTo(n - 1) + {n}
  }

  function Members(s: seq<nat>): set<nat> {
    set v | v in s
  }

  lemma MembersOfLast(s: seq<nat>)
    requires s != []
    ensures Members(s) == Members(s[..|s| - 1]) + {s[|s| - 1]}
  {
    assert s == s[..|s| - 1] + [s[|s| - 1]];
  }

  lemma {:induction false} DistinctCount(s: seq<nat>)
    requires NoDoubles(s) && 0 !in s
    ensures |Members(s)| == |s|
  {
    if s != [] {
      var front, last := s[..|s| - 1], s[|s| - 1];
      DistinctCount(front);
      assert last !in front;
      MembersOfLast(s);
    }
  }

  // Counting: while a student is missing, one of the seats is empty.
  lemma MissingStudentHasSeat(kind: seq<nat>, n: nat, v: nat)
    requires WithinClass(kind, n) && NoDoubles(kind) && n <= |kind|
    requires 1 <= v <= n && v !in kind
    ensures 0 in kind && LastFree(kind) > 0
  {
    if 0 !in kind {
      DistinctCount(kind);
      assert Members(kind) <= UpTo(n) - {v};
      SubsetSize(Members(kind), UpTo(n) - {v});
    }
    assert 0 in kind;
    var j :| 0 <= j < |kind| && kind[j] == 0;
  }

  // Whoever sits keeps the seat.
  ghost predicate Extends(before: seq<nat>, after: seq<nat>) {
    |after| == |before| && forall j :: 0 <= j < |before| && before[j] != 0 ==> after[j] == before[j]
  }

  lemma StillSits(before: seq<nat>, after: seq<nat>, v: nat)
    requires Extends(before, after) && v in before && v != 0
    ensures v in after
  {
    var j :| 0 <= j < |before| && before[j] == v;
    assert after[j] == v;
  }

  // One more student sits, and nobody had to leave a seat.
  lemma SeatOneMore(before: seq<nat>, n: nat, v: nat)
    requires WithinClass(before, n) && NoDoubles(before) && n <= |before| && 1 <= v <= n
    ensures WithinClass(SeatIfMissing(before, v), n) && NoDoubles(SeatIfMissing(before, v))
    ensures v in SeatIfMissing(before, v) && Extends(before, SeatIfMissing(before, v))
  {
    if v !in before {
      MissingStudentHasSeat(before, n, v);
      assert SeatIfMissing(before, v)[LastFree(before) - 1] == v;
    }
  }

  lemma {:induction false} RepairSeats(kind: seq<nat>, n: nat, m: nat)
    requires WithinClass(kind, n) && NoDoubles(kind) && n <= |kind| && m <= n
    ensures WithinClass(Repair(kind, m), n) && NoDoubles(Repair(kind, m))
    ensures forall v :: 1 <= v <= m ==> v in Repair(kind, m)
    ensures Extends(kind, Repair(kind, m))
  {
    if m > 0 {
      RepairSeats(kind, n, m - 1);
      var before := Repair(kind, m - 1);
      SeatOneMore(before, n, m);
      forall v | 1 <= v < m
        ensures v in SeatIfMissing(before, m)
      {
        StillSits(before, SeatIfMissing(before, m), v);
      }
    }
  }

  // Main result: the child seats every student exactly once, whatever the two parents look like, as
  // long as their students are of the class and the room is large enough.
  lemma ChildIsSeating(p: seq<nat>, q: seq<nat>, n: nat)
    requires |p| == |q| && WithinClass(p, n) && WithinClass(q, n) && n <= |p|
    ensures IsSeating(Child(p, q, n), n)
  {
    CrossHasNoDoubles(p, q, |p|, n);
    RepairSeats(Cross(p, q, |p|), n, n);
  }

  // A seating exists only in a room that is large enough.
  lemma SeatingFits(s: seq<nat>, n: nat)
    requires IsSeating(s, n)
    ensures n <= |s|
  {
    assert UpTo(n) <= Members(s);
    SubsetSize(UpTo(n), Members(s));
    SetOfSeqCount(s);
  }

  lemma {:induction false} SetOfSeqCount(s: seq<nat>)
    ensures |Members(s)| <= |s|
  {
    if s != [] {
      var front, last := s[..|s| - 1], s[|s| - 1];
      SetOfSeqCount(front);
      MembersOfLast(s);
    }
  }

  function Dominant(p: seq<nat>, q: seq<nat>, i: nat): nat
    requires |p| == |q| && i < |p|
  {
    if i < |p| / 2 then p[i] else q[i]
  }

  function Other(p: seq<nat>, q: seq<nat>, i: nat): nat
    requires |p| == |q| && i < |p|
  {
    if i < |p| / 2 then q[i] else p[i]
  }

  // Nobody who could be seated: an empty seat or a student who sits further to the front.
  predicate Settled(v: nat, s: seq<nat>, i: nat)
    requires i <= |s|
  {
    v == 0 || v in s[..i]
  }

  // Who sits in seat i: the dominant parent's student; if that one is settled, the other parent's; and only
  // if both are settled neither of them.
  ghost predicate Inherits(s: seq<nat>, p: seq<nat>, q: seq<nat>, i: nat)
    requires |p| == |q| == |s| && i < |s|
  {
    var dominant, other := Dominant(p, q, i), Other(p, q, i);
    && (s[i] == dominant || Settled(dominant, s, i))
    && (s[i] == other || s[i] == dominant != 0 || Settled(other, s, i))
  }

  // What the crossover puts into seat i, before the repair.
  lemma CrossInherits(p: seq<nat>, q: seq<nat>, i: nat)
    requires |p| == |q| && i < |p|
    ensures Inherits(Cross(p, q, |p|), p, q, i) && Cross(p, q, |p|)[i] in [p[i], q[i], 0]
  {
    var kind := Cross(p, q, |p|);
    CrossPrefix(p, q, i, |p|);
    CrossPrefix(p, q, i + 1, |p|);
    assert kind[..i + 1][i] == kind[i];
    assert Cross(p, q, i + 1) == kind[..i] + [Pick(kind[..i], Dominant(p, q, i), Other(p, q, i))];
  }

  lemma ExtendsBefore(kind: seq<nat>, child: seq<nat>, i: nat, v: nat)
    requires Extends(kind, child) && i <= |kind| && Settled(v, kind, i)
    ensures Settled(v, child, i)
  {
    if v != 0 {
      var j :| 0 <= j < i && kind[..i][j] == v;
      assert child[..i][j] == v;
    }
  }

  lemma StillInherits(kind: seq<nat>, child: seq<nat>, p: seq<nat>, q: seq<nat>, i: nat)
    requires |p| == |q| == |kind| && i < |p| && Extends(kind, child) && Inherits(kind, p, q, i)
    ensures Inherits(child, p, q, i)
  {
    if Settled(Dominant(p, q, i), kind, i) {
      ExtendsBefore(kind, child, i, Dominant(p, q, i));
    }
    if Settled(Other(p, q, i), kind, i) {
      ExtendsBefore(kind, child, i, Other(p, q, i));
    }
  }

  // Inheritance: each parent's student keeps the seat, the dominant one first, unless already seated further
  // to the front. Who sits there otherwise was missing and was put into a seat that the crossover had left
  // empty.
  lemma ChildInherits(p: seq<nat>, q: seq<nat>, n: nat, i: nat)
    requires |p| == |q| && WithinClass(p, n) && WithinClass(q, n) && n <= |p| && i < |p|
    ensures var child := Child(p, q, n);
      && |child| == |p| && Inherits(child, p, q, i)
      && (child[i] in [p[i], q[i], 0] || (child[i] !in Cross(p, q, |p|) && Cross(p, q, |p|)[i] == 0))
  {
    var kind, child := Cross(p, q, |p|), Child(p, q, n);
    CrossHasNoDoubles(p, q, |p|, n);
    RepairSeats(kind, n, n);
    CrossInherits(p, q, i);
    StillInherits(kind, child, p, q, i);
    RepairOnlyAddsMissing(kind, n, i);
  }

  // The other parent's student sits in seat i only if the dominant one could not.
  lemma OtherOnlyIfSettled(p: seq<nat>, q: seq<nat>, n: nat, i: nat)
    requires |p| == |q| && WithinClass(p, n) && WithinClass(q, n) && n <= |p| && i < |p|
    requires Child(p, q, n)[i] == Other(p, q, i) != Dominant(p, q, i)
    ensures Settled(Dominant(p, q, i), Child(p, q, n), i)
  {
    ChildInherits(p, q, n, i);
  }

  // The missing students fill the empty seats from the back, in ascending order.
  ghost predicate FilledFromBack(kind: seq<nat>, filled: seq<nat>) {
    && |filled| == |kind|
    && forall i, j :: 0 <= i < j < |kind| ==> FilledBehind(kind, filled, i, j)
  }

  ghost predicate FilledBehind(kind: seq<nat>, filled: seq<nat>, i: nat, j: nat)
    requires i < |kind| == |filled| && j < |kind|
  {
    kind[i] == 0 && kind[j] == 0 && filled[i] != 0 ==> 0 < filled[j] < filled[i]
  }

  lemma {:induction false} RepairFillsFromBack(kind: seq<nat>, m: nat)
    ensures FilledFromBack(kind, Repair(kind, m))
    ensures forall i :: 0 <= i < |kind| && kind[i] == 0 ==> Repair(kind, m)[i] <= m
  {
    if m > 0 {
      RepairFillsFromBack(kind, m - 1);
      var before, after := Repair(kind, m - 1), Repair(kind, m);
      forall i, j | 0 <= i < j < |kind|
        ensures FilledBehind(kind, after, i, j)
      {
        assert FilledBehind(kind, before, i, j);
      }
    }
  }

  // So the child's repaired seats stand in descending order from the front, behind all seats left empty.
  lemma ChildIsFilledFromBack(p: seq<nat>, q: seq<nat>, n: nat)
    requires |p| == |q|
    ensures FilledFromBack(Cross(p, q, |p|), Child(p, q, n))
  {
    RepairFillsFromBack(Cross(p, q, |p|), n);
  }

  lemma {:induction false} CrossPrefix(p: seq<nat>, q: seq<nat>, i: nat, m: nat)
    requires |p| == |q| && i <= m <= |p|
    ensures Cross(p, q, m)[..i] == Cross(p, q, i)
  {
    if i < m {
      CrossPrefix(p, q, i, m - 1);
    }
  }

  lemma {:induction false} RepairOnlyAddsMissing(kind: seq<nat>, m: nat, i: nat)
    requires i < |kind|
    ensures Repair(kind, m)[i] == kind[i] || (kind[i] == 0 && Repair(kind, m)[i] !in kind)
    ensures forall v :: v in kind && v != 0 ==> v in Repair(kind, m)
  {
    if m > 0 {
      RepairOnlyAddsMissing(kind, m - 1, i);
      var before, after := Repair(kind, m - 1), Repair(kind, m);
      forall v | v in before && v != 0
        ensures v in after
      {
        var j :| 0 <= j < |before| && before[j] == v;
        assert after[j] == v;
      }
    }
  }

  // Crossing a seating with itself gives it back.
  lemma ChildOfTwins(p: seq<nat>, n: nat)
    requires IsSeating(p, n)
    ensures Child(p, p, n) == p
  {
    CrossOfTwins(p, |p|);
    assert p[..|p|] == p;
    RepairOfComplete(p, n, n);
  }

  lemma {:induction false} CrossOfTwins(p: seq<nat>, i: nat)
    requires NoDoubles(p) && i <= |p|
    ensures Cross(p, p, i) == p[..i]
  {
    if i > 0 {
      CrossOfTwins(p, i - 1);
      assert p[i - 1] in p[..i - 1] ==> p[i - 1] == 0;
    }
  }

  lemma {:induction false} RepairOfComplete(p: seq<nat>, n: nat, m: nat)
    requires IsSeating(p, n) && m <= n
    ensures Repair(p, m) == p
  {
    if m > 0 {
      RepairOfComplete(p, n, m - 1);
    }
  }

  // Swapping two seats.
  function Swapped(s: seq<nat>, i: nat, j: nat): seq<nat>
    requires i < |s| && j < |s|
  {
    s[i := s[j]][j := s[i]]
  }

  lemma SwapKeepsSeating(s: seq<nat>, i: nat, j: nat, n: nat)
    requires i < |s| && j < |s| && IsSeating(s, n)
    ensures IsSeating(Swapped(s, i, j), n)
  {
    var t := Swapped(s, i, j);
    forall v | 1 <= v <= n
      ensures v in t
    {
      assert v in s;
      var k :| 0 <= k < |s| && s[k] == v;
      assert t[if k == i then j else if k == j then i else k] == v;
    }
  }

  // A shuffle of a list that holds every student once is a seating.
  lemma ShuffleIsSeating(s: seq<nat>, t: seq<nat>, n: nat)
    requires IsSeating(s, n) && multiset(s) == multiset(t)
    ensures IsSeating(t, n)
  {
    forall v
      ensures v in s <==> v in t
    {
      assert v in s <==> v in multiset(s);
      assert v in t <==> v in multiset(t);
    }
    forall i | 0 <= i < |t|
      ensures t[i] <= n
    {
      assert t[i] in s;
    }
    forall i, j | 0 <= i < j < |t| && t[i] == t[j]
      ensures t[i] == 0
    {
      assert t == t[..j] + t[j..];
      assert t[i] in t[..j] && t[j] in t[j..];
      assert multiset(t)[t[i]] >= 2;
      SeatedOnce(s, t[i]);
    }
  }

  lemma {:induction false} SeatedOnce(s: seq<nat>, v: nat)
    requires NoDoubles(s)
    ensures v != 0 ==> multiset(s)[v] <= 1
  {
    if s != [] {
      var front, last := s[..|s| - 1], s[|s| - 1];
      assert s == front + [last];
      SeatedOnce(front, v);
      if last == v != 0 {
        assert v !in front;
      }
    }
  }
}
