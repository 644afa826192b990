/** Collision tests between rectangles and circles, which are exact: true just when the two closed
    shapes share a point. */
module Collision {
  import opened Common
  import opened Plane
  import opened RealFacts

  datatype Vec2 = Vec2(x: real, y: real)

  datatype Collider =
    | NoShape
    | Rect(offset: Vec2, halfW: real, halfH: real)
    | Circle(offset: Vec2, radius: real)

  function Center(pos: Vec2, offset: Vec2): Vec2 { Vec2(pos.x + offset.x, pos.y + offset.y) }

  // ---------------------------------------------------------------- the tests

  predicate IntersectsRect(a: Vec2, aw: real, ah: real, b: Vec2, bw: real, bh: real) {
    AbsReal(a.x - b.x) <= aw + bw && AbsReal(a.y - b.y) <= ah + bh
  }

  predicate IntersectsCircle(a: Vec2, ar: real, b: Vec2, br: real) {
    Norm(a.x - b.x, a.y - b.y) <= Square(ar + br)
  }

  predicate IntersectsRectCircle(r: Vec2, w: real, h: real, c: Vec2, radius: real) {
    var closestX := ClampReal(c.x, r.x - w, r.x + w);
    var closestY := ClampReal(c.y, r.y - h, r.y + h);
    Norm(c.x - closestX, c.y - closestY) <= Square(radius)
  }

  predicate Intersects(posA: Vec2, a: Collider, posB: Vec2, b: Collider) {
    match (a, b)
    case (Rect(ao, aw, ah), Rect(bo, bw, bh)) => IntersectsRect(Center(posA, ao), aw, ah, Center(posB, bo), bw, bh)
    case (Circle(ao, ar), Circle(bo, br)) => IntersectsCircle(Center(posA, ao), ar, Center(posB, bo), br)
    case (Rect(ao, aw, ah), Circle(bo, br)) => IntersectsRectCircle(Center(posA, ao), aw, ah, Center(posB, bo), br)
    case (Circle(ao, ar), Rect(bo, bw, bh)) => IntersectsRectCircle(Center(posB, bo), bw, bh, Center(posA, ao), ar)
    case (_, _) => false
  }

  // ---------------------------------------------------------------- the shapes

  /** A point of the rectangle around `c`. */
  predicate InRect(p: Vec2, c: Vec2, w: real, h: real) { AbsReal(p.x - c.x) <= w && AbsReal(p.y - c.y) <= h }

  predicate InCircle(p: Vec2, c: Vec2, r: real) { Norm(p.x - c.x, p.y - c.y) <= Square(r) }

  predicate Inside(p: Vec2, pos: Vec2, s: Collider) {
    match s
    case NoShape => false
    case Rect(o, w, h) => InRect(p, Vec2(pos.x + o.x, pos.y + o.y), w, h)
    case Circle(o, r) => InCircle(p, Vec2(pos.x + o.x, pos.y + o.y), r)
  }

  predicate Proper(s: Collider) {
    match s
    case NoShape => true
    case Rect(_, w, h) => w >= 0.0 && h >= 0.0
    case Circle(_, r) => r >= 0.0
  }

  ghost predicate Touch(posA: Vec2, a: Collider, posB: Vec2, b: Collider) {
    exists p: Vec2 :: Inside(p, posA, a) && Inside(p, posB, b)
  }

  lemma SharedRect(a: Vec2, aw: real, ah: real, b: Vec2, bw: real, bh: real) returns (p: Vec2)
    requires aw >= 0.0 && ah >= 0.0 && bw >= 0.0 && bh >= 0.0 && IntersectsRect(a, aw, ah, b, bw, bh)
    ensures InRect(p, a, aw, ah) && InRect(p, b, bw, bh)
  {
    p := Vec2(ClampReal(b.x, a.x - aw, a.x + aw), ClampReal(b.y, a.y - ah, a.y + ah));
  }

  lemma RectsApart(p: Vec2, a: Vec2, aw: real, ah: real, b: Vec2, bw: real, bh: real)
    requires InRect(p, a, aw, ah) && InRect(p, b, bw, bh)
    ensures IntersectsRect(a, aw, ah, b, bw, bh)
  {
  }

  /** The point that divides the line between the centres as the radii do. */
  lemma SharedCircle(a: Vec2, ar: real, b: Vec2, br: real) returns (p: Vec2)
    requires ar >= 0.0 && br >= 0.0 && IntersectsCircle(a, ar, b, br)
    ensures InCircle(p, a, ar) && InCircle(p, b, br)
  {
    var dx, dy := b.x - a.x, b.y - a.y;
    Mirrored(dx, dy);
    if ar + br == 0.0 {
      p := a;
      assert Norm(0.0, 0.0) <= Square(ar);
      return;
    }
    var q := Quotient(ar, ar + br);
    p := Vec2(a.x + dx * q, a.y + dy * q);
    WithinPart(dx, dy, ar + br, q, ar);
    WithinPart(dx, dy, ar + br, 1.0 - q, br);
    Mirrored(dx * (1.0 - q), dy * (1.0 - q));
    assert p.x - b.x == -(dx * (1.0 - q)) && p.y - b.y == -(dy * (1.0 - q));
  }

  lemma Mirrored(dx: real, dy: real)
    ensures Norm(-dx, -dy) == Norm(dx, dy)
  {
  }

  lemma WithinPart(dx: real, dy: real, r: real, q: real, part: real)
    requires r >= 0.0 && q >= 0.0 && q * r == part && Norm(dx, dy) <= Square(r)
    ensures Norm(dx * q, dy * q) <= Square(part)
  {
    ScaledLength(dx, dy, q);
    Squares(q, r);
    SquareNonNegative(dx);
    SquareNonNegative(dy);
    SquareNonNegative(q);
    ProductOrder(Norm(dx, dy), Square(r), Square(q), Square(q));
  }

  lemma CirclesApart(p: Vec2, a: Vec2, ar: real, b: Vec2, br: real)
    requires ar >= 0.0 && br >= 0.0 && InCircle(p, a, ar) && InCircle(p, b, br)
    ensures IntersectsCircle(a, ar, b, br)
  {
    Mirrored(p.x - a.x, p.y - a.y);
    TriangleInequality(-(p.x - a.x), -(p.y - a.y), p.x - b.x, p.y - b.y, ar, br);
    assert -(p.x - a.x) + (p.x - b.x) == a.x - b.x && -(p.y - a.y) + (p.y - b.y) == a.y - b.y;
  }

  lemma SharedRectCircle(r: Vec2, w: real, h: real, c: Vec2, radius: real) returns (p: Vec2)
    requires w >= 0.0 && h >= 0.0 && IntersectsRectCircle(r, w, h, c, radius)
    ensures InRect(p, r, w, h) && InCircle(p, c, radius)
  {
    p := Vec2(ClampReal(c.x, r.x - w, r.x + w), ClampReal(c.y, r.y - h, r.y + h));
    Mirrored(c.x - p.x, c.y - p.y);
    assert -(c.x - p.x) == p.x - c.x && -(c.y - p.y) == p.y - c.y;
  }

  /** Clamping is the nearest a coordinate of the rectangle comes to the centre. */
  lemma ClampIsNearest(c: real, lo: real, hi: real, x: real)
    requires lo <= x <= hi
    ensures Square(c - ClampReal(c, lo, hi)) <= Square(x - c)
  {
    SquareOrder(AbsReal(c - ClampReal(c, lo, hi)), AbsReal(x - c));
  }

  lemma RectCircleApart(p: Vec2, r: Vec2, w: real, h: real, c: Vec2, radius: real)
    requires InRect(p, r, w, h) && InCircle(p, c, radius)
    ensures IntersectsRectCircle(r, w, h, c, radius)
  {
    ClampIsNearest(c.x, r.x - w, r.x + w, p.x);
    ClampIsNearest(c.y, r.y - h, r.y + h, p.y);
  }

  lemma SharedPoint(posA: Vec2, a: Collider, posB: Vec2, b: Collider) returns (p: Vec2)
    requires Proper(a) && Proper(b) && Intersects(posA, a, posB, b)
    ensures Inside(p, posA, a) && Inside(p, posB, b)
  {
    match (a, b)
    case (Rect(ao, aw, ah), Rect(bo, bw, bh)) => p := SharedRect(Center(posA, ao), aw, ah, Center(posB, bo), bw, bh);
    case (Circle(ao, ar), Circle(bo, br)) => p := SharedCircle(Center(posA, ao), ar, Center(posB, bo), br);
    case (Rect(ao, aw, ah), Circle(bo, br)) => p := SharedRectCircle(Center(posA, ao), aw, ah, Center(posB, bo), br);
    case (Circle(ao, ar), Rect(bo, bw, bh)) => p := SharedRectCircle(Center(posB, bo), bw, bh, Center(posA, ao), ar);
  }

  lemma SharedMeans(p: Vec2, posA: Vec2, a: Collider, posB: Vec2, b: Collider)
    requires Proper(a) && Proper(b) && Inside(p, posA, a) && Inside(p, posB, b)
    ensures Intersects(posA, a, posB, b)
  {
    match (a, b)
    case (Rect(ao, aw, ah), Rect(bo, bw, bh)) => RectsApart(p, Center(posA, ao), aw, ah, Center(posB, bo), bw, bh);
    case (Circle(ao, ar), Circle(bo, br)) => CirclesApart(p, Center(posA, ao), ar, Center(posB, bo), br);
    case (Rect(ao, aw, ah), Circle(bo, br)) => RectCircleApart(p, Center(posA, ao), aw, ah, Center(posB, bo), br);
    case (Circle(ao, ar), Rect(bo, bw, bh)) => RectCircleApart(p, Center(posB, bo), bw, bh, Center(posA, ao), ar);
  }

  /** With extents that are not negative, a test is true exactly when the shapes share a point. */
  lemma IntersectsIff(posA: Vec2, a: Collider, posB: Vec2, b: Collider)
    requires Proper(a) && Proper(b)
    ensures Intersects(posA, a, posB, b) <==> Touch(posA, a, posB, b)
  {
    if Intersects(posA, a, posB, b) {
      var p := SharedPoint(posA, a, posB, b);
      assert Inside(p, posA, a) && Inside(p, posB, b);
    }
    if Touch(posA, a, posB, b) {
      var p: Vec2 :| Inside(p, posA, a) && Inside(p, posB, b);
      SharedMeans(p, posA, a, posB, b);
    }
  }

  /** The order of the two colliders makes no difference, whatever their extents. */
  lemma IntersectsSymmetric(posA: Vec2, a: Collider, posB: Vec2, b: Collider)
    ensures Intersects(posA, a, posB, b) <==> Intersects(posB, b, posA, a)
  {
    if a.Circle? && b.Circle? {
      var ca, cb := Center(posA, a.offset), Center(posB, b.offset);
      Mirrored(ca.x - cb.x, ca.y - cb.y);
      assert -(ca.x - cb.x) == cb.x - ca.x && -(ca.y - cb.y) == cb.y - ca.y;
    }
  }
}
