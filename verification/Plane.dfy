/** Lengths in the plane, kept squared: no square roots. */
module Plane {
  import opened RealFacts

  function Square(a: real): real { a * a }

  /** Squared length of a vector. */
  function Norm(dx: real, dy: real): real { Square(dx) + Square(dy) }

  lemma SquareOrder(a: real, b: real)
    requires a >= 0.0 && b >= 0.0
    ensures a <= b <==> Square(a) <= Square(b)
  {
    assert (b - a) * (b + a) == b * b - a * a;
    if a <= b {
      Product(b - a, b + a);
    } else {
      Product(a - b, b + a);
      if Square(a) == Square(b) { SameFactor(a - b, 0.0, b + a); }
    }
  }

  /** Cauchy-Schwarz in the plane. */
  lemma DotBounded(ux: real, uy: real, wx: real, wy: real)
    ensures Square(ux * wx + uy * wy) <= Norm(ux, uy) * Norm(wx, wy)
  {
    var p, q, r, s := ux * wx, uy * wy, ux * wy, uy * wx;
    assert Norm(ux, uy) * Norm(wx, wy) == Square(p) + Square(q) + Square(r) + Square(s) by {
      Squares(ux, wx);
      Squares(uy, wy);
      Squares(ux, wy);
      Squares(uy, wx);
      Distribute(Square(ux), Square(uy), Square(wx), Square(wy));
    }
    assert p * q == r * s by { Rearrange(ux, wx, uy, wy); }
    assert Square(r - s) >= 0.0;
    Expand(r, -s);
    Expand(p, q);
  }

  lemma Squares(a: real, b: real)
    ensures Square(a * b) == Square(a) * Square(b)
  {
    assert (a * b) * (a * b) == (a * a) * (b * b);
  }

  lemma Rearrange(a: real, b: real, c: real, d: real)
    ensures (a * b) * (c * d) == (a * d) * (c * b)
  {
  }

  lemma Distribute(a: real, b: real, c: real, d: real)
    ensures (a + b) * (c + d) == a * c + a * d + b * c + b * d
  {
  }

  lemma Expand(a: real, b: real)
    ensures Square(a + b) == Square(a) + 2.0 * (a * b) + Square(b)
  {
  }

  lemma SquareNonNegative(a: real)
    ensures Square(a) >= 0.0
  {
  }

  /** The triangle inequality, on squares. */
  lemma TriangleInequality(ux: real, uy: real, wx: real, wy: real, a: real, d: real)
    requires a >= 0.0 && d >= 0.0 && Norm(ux, uy) <= Square(a) && Norm(wx, wy) <= Square(d)
    ensures Norm(ux + wx, uy + wy) <= Square(a + d)
  {
    var dot := ux * wx + uy * wy;
    assert dot <= a * d by {
      DotBounded(ux, uy, wx, wy);
      SquareNonNegative(ux);
      SquareNonNegative(uy);
      SquareNonNegative(wx);
      SquareNonNegative(wy);
      ProductOrder(Norm(ux, uy), Square(a), Norm(wx, wy), Square(d));
      Squares(a, d);
      assert a * d >= 0.0;
      if dot >= 0.0 { SquareOrder(dot, a * d); }
    }
    Expand(ux, wx);
    Expand(uy, wy);
    Expand(a, d);
  }

  lemma ProductOrder(a: real, b: real, c: real, d: real)
    requires 0.0 <= a <= b && 0.0 <= c <= d
    ensures a * c <= b * d
  {
    assert a * c <= b * c <= b * d;
  }

  lemma ScaledLength(dx: real, dy: real, q: real)
    ensures Norm(dx * q, dy * q) == Norm(dx, dy) * Square(q)
  {
    Squares(dx, q);
    Squares(dy, q);
    Distribute(Square(dx), Square(dy), Square(q), 0.0);
  }
}
