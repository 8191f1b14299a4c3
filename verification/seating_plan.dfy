/** The seating plan object: a room of rows and columns whose seats are changed in place. */
module SeatingPlans {
  import opened Basics
  import opened Crossover

  // The seats of the first rows, one row after another.
  ghost function FlatRows(a: array2<nat>, rows: nat): (r: seq<nat>)
    requires rows <= a.Length0
    reads a
    ensures |r| == rows * a.Length1
  {
    if rows == 0 then []
    else
      assert rows * a.Length1 == (rows - 1) * a.Length1 + a.Length1;
      FlatRows(a, rows - 1) + RowOf(a, rows - 1, a.Length1)
  }

  ghost function RowOf(a: array2<nat>, row: nat, cols: nat): (r: seq<nat>)
    requires row < a.Length0 && cols <= a.Length1
    reads a
    ensures |r| == cols && forall j :: 0 <= j < cols ==> r[j] == a[row, j]
  {
    seq(cols, j requires 0 <= j < cols <= a.Length1 && row < a.Length0 reads a => a[row, j])
  }

  ghost function Flat(a: array2<nat>): (r: seq<nat>)
    reads a
    ensures |r| == a.Length0 * a.Length1
  {
    FlatRows(a, a.Length0)
  }

  lemma {:induction false} FlatAt(a: array2<nat>, rows: nat, i: nat, j: nat)
    requires i < rows <= a.Length0 && j < a.Length1
    ensures i * a.Length1 + j < |FlatRows(a, rows)|
    ensures FlatRows(a, rows)[i * a.Length1 + j] == a[i, j]
  {
    if i < rows - 1 {
      FlatAt(a, rows - 1, i, j);
    }
  }

  lemma NotNegative(a: nat, b: nat)
    ensures a * b >= 0
  {
  }

  lemma RowsBefore(i: nat, x: nat, cols: nat)
    requires i < x
    ensures i * cols + cols <= x * cols
  {
    var d: nat := x - i - 1;
    NotNegative(d, cols);
    assert x == d + i + 1;
    assert (d + i + 1) * cols == d * cols + i * cols + cols;
  }

  lemma SeatOfIndex(k: nat, rows: nat, cols: nat)
    requires k < rows * cols
    ensures cols > 0 && k / cols < rows && k % cols < cols && k == k / cols * cols + k % cols
  {
    assert cols != 0;
    var q := k / cols;
    assert k == q * cols + k % cols;
    if rows < q {
      RowsBefore(rows, q, cols);
    }
  }

  lemma IndexOfSeat(x: nat, y: nat, rows: nat, cols: nat)
    requires x < rows && y < cols
    ensures x * cols + y < rows * cols
    ensures (x * cols + y) / cols == x && (x * cols + y) % cols == y
  {
    RowsBefore(x, rows, cols);
    var k := x * cols + y;
    SeatOfIndex(k, rows, cols);
    var q := k / cols;
    if x < q {
      RowsBefore(x, q, cols);
    } else if q < x {
      RowsBefore(q, x, cols);
    }
  }

  ghost predicate AgreesAt(a: array2<nat>, s: seq<nat>, k: nat)
    requires k < |s|
    reads a
  {
    && a.Length1 > 0 && k / a.Length1 < a.Length0
    && a[k / a.Length1, k % a.Length1] == s[k]
  }

  ghost predicate Agrees(a: array2<nat>, s: seq<nat>)
    reads a
  {
    |s| == a.Length0 * a.Length1 && forall k :: 0 <= k < |s| ==> AgreesAt(a, s, k)
  }

  // Agreement seat by seat determines the flat form.
  lemma AgreeingIsFlat(a: array2<nat>, s: seq<nat>)
    requires Agrees(a, s)
    ensures Flat(a) == s
  {
    forall k | 0 <= k < |s|
      ensures Flat(a)[k] == s[k]
    {
      assert AgreesAt(a, s, k);
      SeatOfIndex(k, a.Length0, a.Length1);
      FlatAt(a, a.Length0, k / a.Length1, k % a.Length1);
    }
  }

  lemma FlatAgrees(a: array2<nat>)
    ensures Agrees(a, Flat(a))
  {
    forall k | 0 <= k < |Flat(a)|
      ensures AgreesAt(a, Flat(a), k)
    {
      SeatOfIndex(k, a.Length0, a.Length1);
      FlatAt(a, a.Length0, k / a.Length1, k % a.Length1);
    }
  }

  lemma ZeroAgrees(a: array2<nat>, s: seq<nat>)
    requires |s| == a.Length0 * a.Length1 && forall k :: 0 <= k < |s| ==> s[k] == 0
    requires forall i, j :: 0 <= i < a.Length0 && 0 <= j < a.Length1 ==> a[i, j] == 0
    ensures Agrees(a, s)
  {
    var rows, cols := a.Length0, a.Length1;
    forall k | 0 <= k < |s|
      ensures AgreesAt(a, s, k)
    {
      SeatOfIndex(k, rows, cols);
      var i, j := k / cols, k % cols;
      assert a[i, j] == 0;
    }
  }

  // Changing one seat changes one place of the flat form.
  method Put(a: array2<nat>, ghost s: seq<nat>, x: nat, y: nat, v: nat)
    requires x < a.Length0 && y < a.Length1 && Agrees(a, s)
    modifies a
    ensures x * a.Length1 + y < |s| && Agrees(a, s[x * a.Length1 + y := v])
  {
    var cols := a.Length1;
    IndexOfSeat(x, y, a.Length0, cols);
    ghost var i := x * cols + y;
    forall k | 0 <= k < |s|
      ensures AgreesAt(a, s, k) && (k == i <==> k / cols == x && k % cols == y)
    {
      SeatOfIndex(k, a.Length0, cols);
    }
    a[x, y] := v;
  }

  // Writing a list into rows; a list that is too long is refused, a short one leaves empty seats.
  method ListTo2DArray(list: seq<nat>, rows: nat, cols: nat) returns (r: Result<array2<nat>>)
    ensures r.Thrown? <==> |list| > rows * cols
    ensures r.Ok? ==> fresh(r.value) && r.value.Length0 == rows && r.value.Length1 == cols
    ensures r.Ok? ==> Flat(r.value) == list + seq(rows * cols - |list|, _ => 0)
  {
    if |list| > rows * cols {
      return Thrown;
    }
    var a := new nat[rows, cols]((i, j) => 0);
    ghost var s: seq<nat> := seq(rows * cols, _ => 0);
    ZeroAgrees(a, s);
    for i := 0 to |list|
      invariant Agrees(a, s) && |s| == rows * cols
      invariant forall k :: 0 <= k < |s| ==> s[k] == if k < i then list[k] else 0
    {
      SeatOfIndex(i, rows, cols);
      Put(a, s, i / cols, i % cols, list[i]);
      s := s[i := list[i]];
    }
    AgreeingIsFlat(a, s);
    assert s == list + seq(rows * cols - |list|, _ => 0);
    r := Ok(a);
  }

  // Reading the rows back into a list.
  method Flatten(a: array2<nat>) returns (list: seq<nat>)
    ensures list == Flat(a) && |list| == a.Length0 * a.Length1
  {
    list := [];
    for i := 0 to a.Length0
      invariant list == FlatRows(a, i)
    {
      var row: seq<nat> := [];
      for j := 0 to a.Length1
        invariant row == RowOf(a, i, j)
      {
        row := row + [a[i, j]];
      }
      list := list + row;
    }
  }

  // The crossover loops of the source.
  method BuildChild(p: seq<nat>, q: seq<nat>, n: nat) returns (kind: seq<nat>)
    requires |p| == |q|
    ensures kind == Child(p, q, n)
  {
    kind := [];
    for i := 0 to |p|
      invariant kind == Cross(p, q, i)
    {
      var first, second := p[i], q[i];
      if i >= |p| / 2 {
        first, second := q[i], p[i];
      }
      if first !in kind && first != 0 {
        kind := kind + [first];
      } else if second !in kind && second != 0 {
        kind := kind + [second];
      } else {
        kind := kind + [0];
      }
    }
    for v := 1 to n + 1
      invariant kind == Repair(Cross(p, q, |p|), v - 1)
    {
      if v !in kind {
        kind := SeatAtBack(kind, v);
      }
    }
  }

  method SeatAtBack(kind: seq<nat>, v: nat) returns (r: seq<nat>)
    requires v !in kind
    ensures r == SeatIfMissing(kind, v)
  {
    r := kind;
    var j := |kind|;
    while j > 0
      invariant 0 <= j <= |kind| && r == kind
      invariant forall k :: j <= k < |kind| ==> kind[k] != 0
    {
      j := j - 1;
      if kind[j] == 0 {
        return kind[j := v];
      }
    }
  }

  // Collections.shuffle with unknown random numbers.
  method Shuffle(list: seq<nat>) returns (r: seq<nat>)
    ensures multiset(r) == multiset(list) && |r| == |list|
  {
    r := list;
    var i := |list|;
    while i > 1
      invariant i <= |list| == |r| && multiset(r) == multiset(list)
    {
      var k: nat :| k < i;
      r := r[i - 1 := r[k]][k := r[i - 1]];
      i := i - 1;
    }
  }

  // The second set of example relations is about students 1..22. Adding a relation of a student who is
  // not in the class throws.
  const EXAMPLE_CLASS_SIZE: int := 22

  predicate RelationsFit(relations: int, students: int) {
    relations == 2 ==> students >= EXAMPLE_CLASS_SIZE
  }

  predicate CanSeat(col: int, row: int, students: int, relations: int) {
    && col > 0 && row > 0 && row % 2 == 0 && 0 < students <= col * row
    && RelationsFit(relations, students)
  }

  class SeatingPlan {
    const col: nat
    const row: nat
    const students: nat
    const seats: array2<nat>
    var fitness: int
    var valid: bool

    ghost predicate Valid()
      reads this, seats
    {
      && col > 0 && row > 0 && row % 2 == 0 && students > 0
      && seats.Length0 == row && seats.Length1 == col
      && IsSeating(Flat(seats), students)
    }

    ghost predicate SameRoom(other: SeatingPlan) {
      col == other.col && row == other.row && students == other.students
    }

    // The fitness depends on relations that the evaluation itself uses up; any outcome is possible.
    constructor (col: nat, row: nat, students: nat, seats: array2<nat>)
      requires col > 0 && row > 0 && row % 2 == 0 && students > 0
      requires seats.Length0 == row && seats.Length1 == col && IsSeating(Flat(seats), students)
      ensures Valid() && this.seats == seats
      ensures this.col == col && this.row == row && this.students == students
    {
      this.col, this.row, this.students, this.seats := col, row, students, seats;
      fitness, valid := *, *;
    }

    static method Create(col: int, row: int, students: int, relations: int) returns (r: Result<SeatingPlan>)
      ensures r.Ok? <==> CanSeat(col, row, students, relations)
      ensures r.Ok? ==>
        && fresh(r.value) && fresh(r.value.seats) && r.value.Valid()
        && r.value.col == col && r.value.row == row && r.value.students == students
    {
      if col <= 0 || row <= 0 || students <= 0 || row % 2 != 0 {
        return Thrown;
      }
      if !RelationsFit(relations, students) {
        return Thrown;
      }
      if students > col * row {
        return Thrown;
      }
      var list := InitialList(col * row, students);
      var shuffled := Shuffle(list);
      ShuffleIsSeating(list, shuffled, students);
      assert row * col == col * row;
      var seats := ListTo2DArray(shuffled, row, col);
      assert shuffled + [] == shuffled;
      var plan := new SeatingPlan(col, row, students, seats.value);
      r := Ok(plan);
    }

    static method InitialList(size: nat, students: nat) returns (list: seq<nat>)
      requires students <= size
      ensures |list| == size && IsSeating(list, students)
    {
      list := seq(size, _ => 0);
      for i := 0 to students
        invariant |list| == size && forall k :: 0 <= k < size ==> list[k] == if k < i then k + 1 else 0
      {
        list := list[i := i + 1];
      }
      forall v | 1 <= v <= students
        ensures v in list
      {
        assert list[v - 1] == v;
      }
    }

    // Two random seats swap in place.
    method Mutate() returns (ghost i: nat, ghost j: nat)
      requires Valid()
      modifies this`fitness, this`valid, seats
      ensures Valid()
      ensures i < |old(Flat(seats))| && j < |old(Flat(seats))|
      ensures Flat(seats) == old(Flat(seats))[i := old(Flat(seats))[j]][j := old(Flat(seats))[i]]
    {
      var x1: nat :| x1 < row;
      var y1: nat :| y1 < col;
      var x2: nat :| x2 < row;
      var y2: nat :| y2 < col;
      ghost var was := Flat(seats);
      i, j := x1 * col + y1, x2 * col + y2;
      FlatAgrees(seats);
      FlatAt(seats, row, x1, y1);
      FlatAt(seats, row, x2, y2);
      var a := seats[x1, y1];
      var b := seats[x2, y2];
      Put(seats, was, x1, y1, b);
      Put(seats, was[i := b], x2, y2, a);
      AgreeingIsFlat(seats, Swapped(was, i, j));
      SwapKeepsSeating(was, i, j, students);
      fitness, valid := *, *;
    }

    static method Recombine(p: SeatingPlan, q: SeatingPlan) returns (child: SeatingPlan)
      requires p.Valid() && q.Valid() && p.SameRoom(q)
      ensures fresh(child) && fresh(child.seats) && child.Valid() && child.SameRoom(p)
      ensures Flat(child.seats) == Child(Flat(p.seats), Flat(q.seats), p.students)
    {
      var flat1 := Flatten(p.seats);
      var flat2 := Flatten(q.seats);
      var kind := BuildChild(flat1, flat2, p.students);
      SeatingFits(flat1, p.students);
      ChildIsSeating(flat1, flat2, p.students);
      var seats := ListTo2DArray(kind, p.row, p.col);
      assert kind + [] == kind;
      child := new SeatingPlan(p.col, p.row, p.students, seats.value);
    }
  }
}
