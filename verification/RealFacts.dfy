/** Facts about products and quotients of reals that the solver needs spelled out. */
module RealFacts {
  import opened Common

  lemma Product(a: real, b: real)
    requires 0.0 <= a && 0.0 <= b
    ensures 0.0 <= a * b
  {
  }

  /** The part `t` of a signed length `d`. */
  function Part(d: real, t: real): (p: real)
    requires 0.0 <= t <= 1.0
    ensures p == d * t
    ensures 0.0 <= d ==> 0.0 <= p <= d
    ensures d <= 0.0 ==> d <= p <= 0.0
  {
    Product(AbsReal(d), t);
    Product(AbsReal(d), 1.0 - t);
    assert d * t == if d < 0.0 then -(AbsReal(d) * t) else AbsReal(d) * t;
    d * t
  }

  lemma Between(lo: real, hi: real, x0: real, x1: real, t: real)
    requires lo <= x0 <= hi && lo <= x1 <= hi && 0.0 <= t <= 1.0
    ensures lo <= x0 + (x1 - x0) * t <= hi
  {
    var p := Part(x1 - x0, t);
  }

  function Quotient(n: real, d: real): (q: real)
    requires 0.0 <= n <= d && d > 0.0
    ensures q == n / d && q * d == n && 0.0 <= q <= 1.0
  {
    var q := n / d;
    assert q * d == n;
    assert 0.0 <= q <= 1.0 by {
      if q > 1.0 { Product(q - 1.0, d); }
      if q < 0.0 { Product(-q, d); }
    }
    q
  }

  lemma SameFactor(s: real, q: real, d: real)
    requires d > 0.0 && d * s == d * q
    ensures s == q
  {
    assert (s - q) * d == 0.0;
  }
}
