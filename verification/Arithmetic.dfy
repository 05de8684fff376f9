/** Facts about products and quotients that the solver does not find by itself. */
module Arithmetic {
  function One(c: bool): nat { if c then 1 else 0 }

  lemma MulMonotone(a: nat, b: nat, d: nat)
    ensures a <= b ==> a * d <= b * d
  {
    if a <= b {
      assert b * d == a * d + (b - a) * d;
    }
  }

  lemma MulStep(a: nat, b: nat, d: nat)
    ensures a < b ==> (a + 1) * d <= b * d
  {
    MulMonotone(a + 1, b, d);
  }

  lemma DivideExact(x: nat, d: nat, q: nat)
    requires d >= 1 && q * d <= x < (q + 1) * d
    ensures x / d == q
  {
    MulStep(x / d, q, d);
    MulStep(q, x / d, d);
  }

  lemma ModIs(x: nat, d: nat, q: nat, m: nat)
    requires d >= 1 && x == q * d + m && m < d
    ensures x % d == m
  {
    assert (q + 1) * d == q * d + d;
    DivideExact(x, d, q);
  }

  lemma Split(x: nat, d: nat, q: nat, m: nat)
    requires d >= 1 && x == q * d + m && m < d
    ensures x / d == q && x % d == m
  {
    assert (q + 1) * d == q * d + d;
    DivideExact(x, d, q);
  }

  lemma Euclid(x: nat, d: nat)
    requires d >= 1
    ensures x == (x / d) * d + x % d && x % d < d
  {
  }

  lemma AddMultiples(q: nat, r: nat, d: nat)
    ensures (q + r) * d == q * d + r * d
  {
  }

  lemma QuotientBelow(n: nat, d: nat, s: nat)
    requires d >= 1 && n < s * d
    ensures n / d < s
  {
    assert n == (n / d) * d + n % d;
    MulMonotone(s, n / d, d);
  }

  lemma Distribute(q: nat, y: nat, r: nat, x: nat)
    ensures (q * y + r) * x == q * (y * x) + r * x
    ensures y * x == x * y
  {
    assert (q * y) * x == q * (y * x);
  }

  // A set is no larger than one that contains it.
  lemma {:induction false} SubsetSize<T>(a: set<T>, b: set<T>)
    requires a <= b
    ensures |a| <= |b|
    decreases |a|
  {
    if a != {} {
      var x :| x in a;
      SubsetSize(a - {x}, b - {x});
    }
  }
}
