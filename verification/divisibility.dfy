/** Divisibility and greatest common divisors of sequences of integers. */
module Divisibility {

  ghost predicate Product(k: int, d: int, a: int) {
    k * d == a
  }

  ghost predicate Divides(d: nat, a: int) {
    exists k: int :: Product(k, d, a)
  }

  ghost predicate DividesAll(d: nat, s: seq<int>) {
    forall i :: 0 <= i < |s| ==> Divides(d, s[i])
  }

  function Abs(a: int): nat {
    if a < 0 then -a else a
  }

  function Gcd(a: nat, b: nat): nat
    decreases b
  {
    if b == 0 then a else Gcd(b, a % b)
  }

  function GcdAll(s: seq<int>): nat {
    if s == [] then 0 else Gcd(Abs(s[0]), GcdAll(s[1..]))
  }

  lemma DividesSelf(a: nat)
    ensures Divides(a, a)
  {
    assert Product(1, a, a);
  }

  lemma DividesZero(d: nat)
    ensures Divides(d, 0)
  {
    assert Product(0, d, 0);
  }

  lemma DividesNegated(d: nat, a: int)
    requires Divides(d, a)
    ensures Divides(d, -a)
  {
    var k :| Product(k, d, a);
    assert Product(-k, d, -a);
  }

  lemma DividesAbs(d: nat, a: int)
    ensures Divides(d, Abs(a)) <==> Divides(d, a)
  {
    if Divides(d, a) {
      DividesNegated(d, a);
    }
    if Divides(d, -a) {
      DividesNegated(d, -a);
    }
  }

  lemma DividesCombination(d: nat, a: int, q: int, b: int)
    requires Divides(d, a) && Divides(d, b)
    ensures Divides(d, a + q * b)
  {
    var k :| Product(k, d, a);
    var l :| Product(l, d, b);
    assert (k + q * l) * d == k * d + q * (l * d);
    assert Product(k + q * l, d, a + q * b);
  }

  lemma DividesRemainder(d: nat, a: int, q: int, b: int)
    requires Divides(d, a + q * b) && Divides(d, b)
    ensures Divides(d, a)
  {
    DividesCombination(d, a + q * b, -q, b);
    assert -q * b == -(q * b);
  }

  lemma FactorSign(k: int, d: nat)
    ensures k <= 0 ==> k * d <= 0
    ensures k >= 0 ==> k * d >= 0
  {
  }

  lemma DividesAtMost(d: nat, a: int)
    requires Divides(d, a) && a > 0
    ensures 0 < d <= a
  {
    var k :| Product(k, d, a);
    FactorSign(k, d);
    FactorSign(k - 1, d);
    assert a == d + (k - 1) * d;
  }

  lemma {:induction false} CommonDivisorsOfGcd(d: nat, a: nat, b: nat)
    ensures Divides(d, Gcd(a, b)) <==> Divides(d, a) && Divides(d, b)
    decreases b
  {
    if b == 0 {
      DividesZero(d);
    } else {
      var q, r := a / b, a % b;
      assert a == r + q * b;
      CommonDivisorsOfGcd(d, b, r);
      if Divides(d, b) && Divides(d, r) {
        DividesCombination(d, r, q, b);
      }
      if Divides(d, b) && Divides(d, a) {
        DividesRemainder(d, r, q, b);
      }
    }
  }

  // The divisors of the gcd are exactly the common divisors.
  lemma {:induction false} CommonDivisorsOfGcdAll(d: nat, s: seq<int>)
    ensures Divides(d, GcdAll(s)) <==> DividesAll(d, s)
  {
    if s == [] {
      DividesZero(d);
    } else {
      CommonDivisorsOfGcd(d, Abs(s[0]), GcdAll(s[1..]));
      DividesAbs(d, s[0]);
      CommonDivisorsOfGcdAll(d, s[1..]);
      assert forall i :: 0 < i < |s| ==> s[i] == s[1..][i - 1];
    }
  }

  lemma ZeroDividesZero(a: int)
    ensures Divides(0, a) <==> a == 0
  {
    if Divides(0, a) {
      var k :| Product(k, 0, a);
    } else {
      assert a == 0 ==> Product(0, 0, a);
    }
  }

  lemma DividesAntisymmetric(a: nat, b: nat)
    requires Divides(a, b) && Divides(b, a)
    ensures a == b
  {
    ZeroDividesZero(a);
    ZeroDividesZero(b);
    if a > 0 && b > 0 {
      DividesAtMost(a, b);
      DividesAtMost(b, a);
    }
  }

  // Two sequences with the same common divisors have the same gcd.
  lemma SameDivisorsSameGcd(s: seq<int>, t: seq<int>)
    requires forall d: nat :: DividesAll(d, s) <==> DividesAll(d, t)
    ensures GcdAll(s) == GcdAll(t)
  {
    var g, h := GcdAll(s), GcdAll(t);
    DividesSelf(g);
    DividesSelf(h);
    CommonDivisorsOfGcdAll(g, s);
    CommonDivisorsOfGcdAll(g, t);
    CommonDivisorsOfGcdAll(h, s);
    CommonDivisorsOfGcdAll(h, t);
    DividesAntisymmetric(g, h);
  }

  // GcdAll is the greatest common divisor in the usual sense.
  lemma GcdAllIsGreatest(s: seq<int>, i: nat)
    requires i < |s| && s[i] != 0
    ensures DividesAll(GcdAll(s), s) && GcdAll(s) > 0
    ensures forall d: nat :: DividesAll(d, s) ==> d <= GcdAll(s)
  {
    var g := GcdAll(s);
    DividesSelf(g);
    CommonDivisorsOfGcdAll(g, s);
    DividesAbs(g, s[i]);
    DividesAtMost(g, Abs(s[i]));
    forall d: nat | DividesAll(d, s)
      ensures d <= g
    {
      CommonDivisorsOfGcdAll(d, s);
      DividesAtMost(d, g);
    }
  }

  lemma GcdAllOfEqual(s: seq<int>, v: int)
    requires |s| > 0 && forall i :: 0 <= i < |s| ==> s[i] == v
    ensures GcdAll(s) == Abs(v)
  {
    forall d: nat
      ensures DividesAll(d, s) <==> DividesAll(d, [v])
    {
      assert s[0] == v;
      if DividesAll(d, [v]) {
        assert Divides(d, [v][0]);
      }
    }
    SameDivisorsSameGcd(s, [v]);
    assert GcdAll([v]) == Gcd(Abs(v), 0);
  }

  // The gcd does not depend on the order of the numbers.
  lemma GcdAllOfPermutation(s: seq<int>, t: seq<int>)
    requires multiset(s) == multiset(t)
    ensures GcdAll(s) == GcdAll(t)
  {
    forall d: nat
      ensures DividesAll(d, s) <==> DividesAll(d, t)
    {
      assert forall x :: x in multiset(s) <==> x in s;
      assert forall x :: x in multiset(t) <==> x in t;
      assert DividesAll(d, s) <==> forall x :: x in s ==> Divides(d, x);
      assert DividesAll(d, t) <==> forall x :: x in t ==> Divides(d, x);
    }
    SameDivisorsSameGcd(s, t);
  }
}
