/** The even-odd rule on triangles: a point is found exactly when it is a mixture of the three corners. */
module Triangles {
  import Reals
  import opened Clipping
  import opened Coverage
  import opened Polygons

  function Triangle(a: Point, b: Point, c: Point): Ring { [a, b, c, a] }

  /** The point with these weights on the corners. */
  predicate Mixes(a: Point, b: Point, c: Point, u: real, v: real, w: real, point: Point) {
    && u >= 0.0 && v >= 0.0 && w >= 0.0 && u + v + w == 1.0
    && point.x == u * a.x + v * b.x + w * c.x && point.y == u * a.y + v * b.y + w * c.y
  }

  /** The closed triangle: all mixtures of its corners. */
  ghost predicate InTriangle(a: Point, b: Point, c: Point, point: Point) {
    exists u, v, w :: Mixes(a, b, c, u, v, w, point)
  }

  ghost predicate OnEdge(start: Point, end: Point, point: Point) { Meets(SegmentBetween(start, end), Spot(point)) }

  lemma OnTriangle(a: Point, b: Point, c: Point, point: Point)
    ensures OnRing(Triangle(a, b, c), point) <==> OnEdge(a, b, point) || OnEdge(b, c, point) || OnEdge(c, a, point)
  {
    var ring := Triangle(a, b, c);
    assert Piece(ring, 0) == SegmentBetween(a, b) && Piece(ring, 1) == SegmentBetween(b, c) && Piece(ring, 2) == SegmentBetween(c, a);
  }

  lemma OddTriangle(a: Point, b: Point, c: Point, point: Point)
    ensures Odd(Triangle(a, b, c), point) == ((Crosses(a, b, point) != Crosses(b, c, point)) != Crosses(c, a, point))
  {
    assert Triangle(a, b, c)[..3] == [a, b, c] && [a, b, c][..2] == [a, b] && [a, b][..1] == [a];
    assert Odd([a], point) == false;
    assert Odd([a, b], point) == Crosses(a, b, point);
    assert Odd([a, b, c], point) == (Crosses(a, b, point) != Crosses(b, c, point));
  }

  // ---- Twice the signed area that two corners span with the point ----

  function Area(start: Point, end: Point, point: Point): real {
    (start.x - point.x) * (end.y - point.y) - (start.y - point.y) * (end.x - point.x)
  }

  /** An edge that straddles the level of the point crosses the ray by the sign of that area, and holds the point at zero. */
  lemma EdgeSign(start: Point, end: Point, point: Point)
    requires Straddles(start, end, point)
    ensures Crosses(start, end, point) <==> if start.y > point.y then Area(start, end, point) < 0.0 else Area(start, end, point) > 0.0
    ensures Area(start, end, point) == 0.0 ==> OnEdge(start, end, point)
  {
    var rise, run, up := end.y - start.y, end.x - start.x, point.y - start.y;
    var ahead := CrossingX(start, end, point) - point.x;
    var share := Share(up, run, rise);
    AreaByCrossing(start, end, point, share);
    Reals.Sign(ahead, rise, Area(start, end, point));
    if Area(start, end, point) == 0.0 {
      var t := LevelAt(start, end, point);
      assert ContactAt(SegmentBetween(start, end), Spot(point), t);
    }
  }

  lemma AreaByCrossing(start: Point, end: Point, point: Point, share: real)
    requires start.y != end.y && share == Share(point.y - start.y, end.x - start.x, end.y - start.y)
    ensures (start.x + share - point.x) * (end.y - start.y) == Area(start, end, point)
  {
    var up, run, rise := point.y - start.y, end.x - start.x, end.y - start.y;
    var product := up * run;
    assert share * rise == product;
  }

  /** The areas opposite the corners balance around the point. */
  lemma Balance(a: Point, b: Point, c: Point, point: Point)
    ensures Area(b, c, point) * (a.y - point.y) + Area(c, a, point) * (b.y - point.y) + Area(a, b, point) * (c.y - point.y) == 0.0
    ensures Area(b, c, point) * (a.x - point.x) + Area(c, a, point) * (b.x - point.x) + Area(a, b, point) * (c.x - point.x) == 0.0
  {
  }

  // ---- Mixtures ----

  lemma EdgeIsMixed(a: Point, b: Point, c: Point, point: Point)
    requires OnEdge(a, b, point)
    ensures InTriangle(a, b, c, point)
  {
    var t :| ContactAt(SegmentBetween(a, b), Spot(point), t);
    assert Along(SegmentBetween(a, b), t) == point;
    Between(a.x, b.x, c.x, t, point.x);
    Between(a.y, b.y, c.y, t, point.y);
    assert Mixes(a, b, c, 1.0 - t, t, 0.0, point);
  }

  lemma Between(a: real, b: real, c: real, t: real, at: real)
    requires at == a + t * (b - a)
    ensures at == (1.0 - t) * a + t * b + 0.0 * c
  {
  }

  lemma Rotated(a: Point, b: Point, c: Point, point: Point)
    requires InTriangle(a, b, c, point)
    ensures InTriangle(b, c, a, point)
  {
    var u, v, w :| Mixes(a, b, c, u, v, w, point);
    assert Mixes(b, c, a, v, w, u, point);
  }

  // ---- One corner on its own side of the level ----

  /** Corner a is on one side of the level of the point, and the other two are on the other. */
  predicate Lone(a: Point, b: Point, c: Point, point: Point) { Straddles(a, b, point) && Straddles(c, a, point) }

  /** With the point off both edges of the lone corner, the ray crosses one of them exactly when the areas at them agree in sign. */
  lemma LoneOdd(a: Point, b: Point, c: Point, point: Point)
    requires Lone(a, b, c, point) && !OnEdge(a, b, point) && !OnEdge(c, a, point)
    ensures var p, q := Area(c, a, point), Area(a, b, point);
            p != 0.0 && q != 0.0 && (Odd(Triangle(a, b, c), point) <==> (p > 0.0 <==> q > 0.0))
  {
    OddTriangle(a, b, c, point);
    EdgeSign(a, b, point);
    EdgeSign(c, a, point);
    assert !Straddles(b, c, point);
  }

  /** Areas of one sign at the lone corner are weights, up to their sum. */
  lemma LoneWeights(a: Point, b: Point, c: Point, point: Point)
    requires Lone(a, b, c, point)
    requires var q, r := Area(c, a, point), Area(a, b, point); (q > 0.0 && r > 0.0) || (q < 0.0 && r < 0.0)
    ensures InTriangle(a, b, c, point)
  {
    var p, q, r := Area(b, c, point), Area(c, a, point), Area(a, b, point);
    Balance(a, b, c, point);
    ThirdSign(a.y - point.y, b.y - point.y, c.y - point.y, p, q, r);
    AreasMix(a, b, c, point, p, q, r);
  }

  lemma AreasMix(a: Point, b: Point, c: Point, point: Point, p: real, q: real, r: real)
    requires p * (a.y - point.y) + q * (b.y - point.y) + r * (c.y - point.y) == 0.0
    requires p * (a.x - point.x) + q * (b.x - point.x) + r * (c.x - point.x) == 0.0
    requires (p >= 0.0 && q >= 0.0 && r >= 0.0 && p + q + r > 0.0) || (p <= 0.0 && q <= 0.0 && r <= 0.0 && p + q + r < 0.0)
    ensures InTriangle(a, b, c, point)
  {
    var u, v, w := Weights(p, q, r);
    Weighted(p, q, r, u, v, w, a.x, b.x, c.x, point.x);
    Weighted(p, q, r, u, v, w, a.y, b.y, c.y, point.y);
    assert Mixes(a, b, c, u, v, w, point);
  }

  lemma Weights(p: real, q: real, r: real) returns (u: real, v: real, w: real)
    requires (p >= 0.0 && q >= 0.0 && r >= 0.0 && p + q + r > 0.0) || (p <= 0.0 && q <= 0.0 && r <= 0.0 && p + q + r < 0.0)
    ensures u >= 0.0 && v >= 0.0 && w >= 0.0 && u + v + w == 1.0
    ensures u == p / (p + q + r) && v == q / (p + q + r) && w == r / (p + q + r)
  {
    var whole := p + q + r;
    u, v, w := p / whole, q / whole, r / whole;
    Weight(p, whole);
    Weight(q, whole);
    Weight(r, whole);
    assert u * whole == p && v * whole == q && w * whole == r;
    SameScaled(u + v + w, 1.0, whole);
  }

  lemma Weight(part: real, whole: real)
    requires (part >= 0.0 && whole > 0.0) || (part <= 0.0 && whole < 0.0)
    ensures part / whole >= 0.0
  {
    var ratio := part / whole;
    assert ratio * whole == part;
    Reals.Sign(ratio, whole, part);
  }

  /** If a is on one side of the level and b and c are not, the balance gives p the sign of q and r. */
  lemma ThirdSign(a: real, b: real, c: real, p: real, q: real, r: real)
    requires p * a + q * b + r * c == 0.0
    requires (a > 0.0 && b <= 0.0 && c <= 0.0) || (a <= 0.0 && b > 0.0 && c > 0.0)
    requires (q > 0.0 && r > 0.0) || (q < 0.0 && r < 0.0)
    ensures if q > 0.0 then p >= 0.0 && p + q + r > 0.0 else p <= 0.0 && p + q + r < 0.0
  {
    var pa, qb, rc := p * a, q * b, r * c;
    Reals.Sign(p, a, pa);
    Reals.Sign(q, b, qb);
    Reals.Sign(r, c, rc);
  }

  lemma Weighted(p: real, q: real, r: real, u: real, v: real, w: real, a: real, b: real, c: real, at: real)
    requires p * (a - at) + q * (b - at) + r * (c - at) == 0.0 && p + q + r != 0.0
    requires u == p / (p + q + r) && v == q / (p + q + r) && w == r / (p + q + r)
    ensures at == u * a + v * b + w * c
  {
    var whole := p + q + r;
    assert u * whole == p && v * whole == q && w * whole == r;
    var mixed := u * a + v * b + w * c;
    Mixture(u, v, w, whole, a, b, c);
    assert p * a + q * b + r * c == (p + q + r) * at;
    SameScaled(mixed, at, whole);
  }

  lemma Mixture(u: real, v: real, w: real, whole: real, a: real, b: real, c: real)
    ensures (u * a + v * b + w * c) * whole == (u * whole) * a + (v * whole) * b + (w * whole) * c
  {
  }

  lemma SameScaled(a: real, b: real, scale: real)
    requires scale != 0.0 && a * scale == scale * b
    ensures a == b
  {
    var difference := (a - b) * scale;
    assert difference == 0.0;
    Reals.Sign(a - b, scale, difference);
  }

  /** The areas at a mixture are its weights times the whole area. */
  lemma AreasOfMixture(a: Point, b: Point, c: Point, u: real, v: real, w: real, point: Point)
    requires Mixes(a, b, c, u, v, w, point)
    ensures var whole := Area(b, c, point) + Area(c, a, point) + Area(a, b, point);
            Area(c, a, point) == v * whole && Area(a, b, point) == w * whole
  {
    var a1, a2, b1, b2, c1, c2 := a.x - point.x, a.y - point.y, b.x - point.x, b.y - point.y, c.x - point.x, c.y - point.y;
    Centred(a.x, b.x, c.x, u, v, w, point.x);
    Centred(a.y, b.y, c.y, u, v, w, point.y);
    WholeArea(a1, a2, b1, b2, c1, c2, u, v, w);
  }

  lemma Centred(a: real, b: real, c: real, u: real, v: real, w: real, at: real)
    requires at == u * a + v * b + w * c && u + v + w == 1.0
    ensures u * (a - at) + v * (b - at) + w * (c - at) == 0.0
  {
    assert (u + v + w) * at == at;
  }

  lemma WholeArea(a1: real, a2: real, b1: real, b2: real, c1: real, c2: real, u: real, v: real, w: real)
    requires u * a1 + v * b1 + w * c1 == 0.0 && u * a2 + v * b2 + w * c2 == 0.0 && u + v + w == 1.0
    ensures var whole := (b1 * c2 - b2 * c1) + (c1 * a2 - c2 * a1) + (a1 * b2 - a2 * b1);
            c1 * a2 - c2 * a1 == v * whole && a1 * b2 - a2 * b1 == w * whole
  {
    var p, q, r := b1 * c2 - b2 * c1, c1 * a2 - c2 * a1, a1 * b2 - a2 * b1;
    Proportion(a1, a2, b1, b2, c1, c2, u, v, w, p, q);
    Proportion(b1, b2, c1, c2, a1, a2, v, w, u, q, r);
    Proportion(c1, c2, a1, a2, b1, b2, w, u, v, r, p);
    Shares(p, q, r, u, v, w);
  }

  /** Two areas are in the proportion of the weights. */
  lemma Proportion(a1: real, a2: real, b1: real, b2: real, c1: real, c2: real, u: real, v: real, w: real, p: real, q: real)
    requires u * a1 + v * b1 + w * c1 == 0.0 && u * a2 + v * b2 + w * c2 == 0.0
    requires p == b1 * c2 - b2 * c1 && q == c1 * a2 - c2 * a1
    ensures v * p == u * q
  {
    var zeroX, zeroY := u * a1 + v * b1 + w * c1, u * a2 + v * b2 + w * c2;
    assert zeroX * c2 - zeroY * c1 == v * p - u * q;
    assert zeroX * c2 == 0.0 && zeroY * c1 == 0.0;
  }

  lemma Shares(p: real, q: real, r: real, u: real, v: real, w: real)
    requires v * p == u * q && w * q == v * r && u * r == w * p && u + v + w == 1.0
    ensures q == v * (p + q + r) && r == w * (p + q + r)
  {
    assert v * (p + q + r) == u * q + v * q + w * q == (u + v + w) * q;
    assert w * (p + q + r) == u * r + v * r + w * r == (u + v + w) * r;
  }

  /** A mixture off the edges has areas of one sign at the lone corner. */
  lemma MixtureSigns(a: Point, b: Point, c: Point, point: Point)
    requires InTriangle(a, b, c, point) && Area(c, a, point) != 0.0 && Area(a, b, point) != 0.0
    ensures Area(c, a, point) > 0.0 <==> Area(a, b, point) > 0.0
  {
    var u, v, w :| Mixes(a, b, c, u, v, w, point);
    var whole := Area(b, c, point) + Area(c, a, point) + Area(a, b, point);
    AreasOfMixture(a, b, c, u, v, w, point);
    Reals.Sign(v, whole, Area(c, a, point));
    Reals.Sign(w, whole, Area(a, b, point));
  }

  lemma LoneExactly(a: Point, b: Point, c: Point, point: Point)
    requires Lone(a, b, c, point) && !OnEdge(a, b, point) && !OnEdge(c, a, point)
    ensures Odd(Triangle(a, b, c), point) <==> InTriangle(a, b, c, point)
  {
    LoneOdd(a, b, c, point);
    if Odd(Triangle(a, b, c), point) { LoneWeights(a, b, c, point); }
    if InTriangle(a, b, c, point) { MixtureSigns(a, b, c, point); }
  }

  lemma RotatedOdd(a: Point, b: Point, c: Point, point: Point)
    ensures Odd(Triangle(a, b, c), point) == Odd(Triangle(b, c, a), point)
  {
    OddTriangle(a, b, c, point);
    OddTriangle(b, c, a, point);
  }

  lemma RotatedExactly(a: Point, b: Point, c: Point, point: Point)
    ensures InTriangle(a, b, c, point) <==> InTriangle(b, c, a, point)
  {
    if InTriangle(a, b, c, point) { Rotated(a, b, c, point); }
    if InTriangle(b, c, a, point) {
      Rotated(b, c, a, point);
      Rotated(c, a, b, point);
    }
  }

  // ---- All corners on one side of the level ----

  lemma Product(a: real, b: real)
    ensures a >= 0.0 && b >= 0.0 ==> a * b >= 0.0
    ensures a >= 0.0 && b <= 0.0 ==> a * b <= 0.0
    ensures a > 0.0 && b > 0.0 ==> a * b > 0.0
    ensures a > 0.0 && b < 0.0 ==> a * b < 0.0
  {
  }

  /** Heights of one sign that balance under weights: every corner with a weight is level. */
  lemma LevelCorners(a: real, b: real, c: real, u: real, v: real, w: real)
    requires u >= 0.0 && v >= 0.0 && w >= 0.0 && u + v + w == 1.0 && u * a + v * b + w * c == 0.0
    requires (a > 0.0 && b > 0.0 && c > 0.0) || (a <= 0.0 && b <= 0.0 && c <= 0.0)
    ensures (u > 0.0 ==> a == 0.0) && (v > 0.0 ==> b == 0.0) && (w > 0.0 ==> c == 0.0)
  {
    Product(u, a);
    Product(v, b);
    Product(w, c);
  }

  /** With no weight on c, a mixture is on the edge from a to b. */
  lemma MixtureOfTwo(a: Point, b: Point, c: Point, u: real, v: real, w: real, point: Point)
    requires Mixes(a, b, c, u, v, w, point) && w == 0.0
    ensures OnEdge(a, b, point)
  {
    Between(a.x, b.x, c.x, v, a.x + v * (b.x - a.x));
    Between(a.y, b.y, c.y, v, a.y + v * (b.y - a.y));
    assert u == 1.0 - v;
    assert ContactAt(SegmentBetween(a, b), Spot(point), v);
  }

  /** On a level edge, a point between the ends is on the edge. */
  lemma OnLevelEdge(a: Point, b: Point, point: Point)
    requires a.y == b.y == point.y && (a.x <= point.x <= b.x || b.x <= point.x <= a.x)
    ensures OnEdge(a, b, point)
  {
    if a.x == b.x {
      assert ContactAt(SegmentBetween(a, b), Spot(point), 0.0);
    } else {
      var t := (point.x - a.x) / (b.x - a.x);
      assert t * (b.x - a.x) == point.x - a.x;
      UnitFraction(point.x - a.x, b.x - a.x, t);
      assert ContactAt(SegmentBetween(a, b), Spot(point), t);
    }
  }

  lemma MixtureInRange(a: real, b: real, c: real, u: real, v: real, w: real, at: real)
    requires u >= 0.0 && v >= 0.0 && w >= 0.0 && u + v + w == 1.0 && at == u * a + v * b + w * c
    ensures a >= at || b >= at || c >= at
    ensures a <= at || b <= at || c <= at
  {
    Centred(a, b, c, u, v, w, at);
    if a < at && b < at && c < at {
      Product(u, a - at);
      Product(v, b - at);
      Product(w, c - at);
    }
    if a > at && b > at && c > at {
      Product(u, a - at);
      Product(v, b - at);
      Product(w, c - at);
    }
  }

  /** With all corners on one side of the level, only points on the boundary are mixtures. */
  lemma OneSided(a: Point, b: Point, c: Point, point: Point)
    requires InTriangle(a, b, c, point) && !Straddles(a, b, point) && !Straddles(b, c, point)
    ensures OnEdge(a, b, point) || OnEdge(b, c, point) || OnEdge(c, a, point)
  {
    var u, v, w :| Mixes(a, b, c, u, v, w, point);
    Centred(a.y, b.y, c.y, u, v, w, point.y);
    LevelCorners(a.y - point.y, b.y - point.y, c.y - point.y, u, v, w);
    if w == 0.0 {
      MixtureOfTwo(a, b, c, u, v, w, point);
    } else if u == 0.0 {
      MixtureOfTwo(b, c, a, v, w, u, point);
    } else if v == 0.0 {
      MixtureOfTwo(c, a, b, w, u, v, point);
    } else {
      AllLevel(a, b, c, u, v, w, point);
    }
  }

  lemma AllLevel(a: Point, b: Point, c: Point, u: real, v: real, w: real, point: Point)
    requires Mixes(a, b, c, u, v, w, point) && a.y == b.y == c.y == point.y
    ensures OnEdge(a, b, point) || OnEdge(b, c, point) || OnEdge(c, a, point)
  {
    MixtureInRange(a.x, b.x, c.x, u, v, w, point.x);
    if a.x <= point.x <= b.x || b.x <= point.x <= a.x {
      OnLevelEdge(a, b, point);
    } else if b.x <= point.x <= c.x || c.x <= point.x <= b.x {
      OnLevelEdge(b, c, point);
    } else {
      OnLevelEdge(c, a, point);
    }
  }

  // ---- Main results ----

  /** Off the boundary, the ray crosses an odd number of edges exactly around the mixtures of the corners. */
  lemma OddIsInside(a: Point, b: Point, c: Point, point: Point)
    requires !OnRing(Triangle(a, b, c), point)
    ensures Odd(Triangle(a, b, c), point) <==> InTriangle(a, b, c, point)
  {
    OnTriangle(a, b, c, point);
    RotatedOdd(a, b, c, point);
    RotatedOdd(b, c, a, point);
    RotatedExactly(a, b, c, point);
    RotatedExactly(b, c, a, point);
    if Lone(a, b, c, point) {
      LoneExactly(a, b, c, point);
    } else if Lone(b, c, a, point) {
      LoneExactly(b, c, a, point);
    } else if Lone(c, a, b, point) {
      LoneExactly(c, a, b, point);
    } else {
      OddTriangle(a, b, c, point);
      if InTriangle(a, b, c, point) { OneSided(a, b, c, point); }
    }
  }

  /** For every triangle, degenerate or not, and every point: the ring test without tolerance holds exactly of the
      mixtures of the three corners. */
  lemma TriangleIsItsHull(a: Point, b: Point, c: Point, point: Point)
    ensures InRing(Triangle(a, b, c), point) <==> InTriangle(a, b, c, point)
  {
    OnTriangle(a, b, c, point);
    if OnRing(Triangle(a, b, c), point) {
      if OnEdge(a, b, point) {
        EdgeIsMixed(a, b, c, point);
      } else if OnEdge(b, c, point) {
        EdgeIsMixed(b, c, a, point);
        RotatedExactly(a, b, c, point);
      } else {
        EdgeIsMixed(c, a, b, point);
        RotatedExactly(c, a, b, point);
      }
    } else {
      OddIsInside(a, b, c, point);
    }
  }

  /** What the code answers for triangles: every mixture of the corners is found at every tolerance, and without
      tolerance no other point; a triangular hole spares exactly its boundary. */
  lemma TriangleIsFound(a: Point, b: Point, c: Point, point: Point, epsilon: real)
    requires epsilon >= 0.0
    ensures InTriangle(a, b, c, point) ==> PolygonHolds([Triangle(a, b, c)], point, epsilon)
    ensures epsilon == 0.0 ==> (PolygonHolds([Triangle(a, b, c)], point, epsilon) <==> InTriangle(a, b, c, point))
  {
    TriangleIsItsHull(a, b, c, point);
    PolygonHoldsMeaning([Triangle(a, b, c)], point, epsilon);
    assert [Triangle(a, b, c)][1..] == [];
  }

  lemma TriangularHole(a: Point, b: Point, c: Point, d: Point, e: Point, f: Point, point: Point)
    ensures InPolygon([Triangle(a, b, c), Triangle(d, e, f)], point)
            <==> InTriangle(a, b, c, point)
                 && (InTriangle(d, e, f, point) ==> OnEdge(d, e, point) || OnEdge(e, f, point) || OnEdge(f, d, point))
  {
    TriangleIsItsHull(a, b, c, point);
    TriangleIsItsHull(d, e, f, point);
    OnTriangle(d, e, f, point);
    var rings := [Triangle(a, b, c), Triangle(d, e, f)];
    var holes := rings[1..];
    assert holes == [Triangle(d, e, f)] && holes[1..] == [];
    assert SparedByHoles(holes, point) == (InRing(holes[0], point) ==> OnRing(holes[0], point));
  }

  // ---- Every polygon, by its fan of triangles ----

  lemma CrossesBothWays(start: Point, end: Point, point: Point)
    ensures Crosses(start, end, point) == Crosses(end, start, point)
  {
    if Straddles(start, end, point) {
      EdgeSign(start, end, point);
      EdgeSign(end, start, point);
      assert Area(start, end, point) == -Area(end, start, point);
    }
  }

  /** How many triangles of the fan from the first vertex hold the point. */
  ghost function FanCount(ring: Ring, point: Point): nat {
    if |ring| < 3 then 0
    else FanCount(ring[..|ring| - 1], point) + if InTriangle(ring[0], ring[|ring| - 2], ring[|ring| - 1], point) then 1 else 0
  }

  /** The point is on no edge of the ring and on no diagonal from its first vertex. */
  ghost predicate OffFan(ring: Ring, point: Point) {
    forall i | 0 <= i < |ring| - 2 :: !OnFanAt(ring, i, point)
  }

  ghost predicate OnFanAt(ring: Ring, i: nat, point: Point)
    requires i < |ring| - 2
  {
    OnRing(Triangle(ring[0], ring[i + 1], ring[i + 2]), point)
  }

  lemma OffFront(ring: Ring, point: Point)
    requires |ring| > 2 && OffFan(ring, point)
    ensures OffFan(ring[..|ring| - 1], point)
  {
    var front := ring[..|ring| - 1];
    forall i | 0 <= i < |front| - 2
      ensures !OnFanAt(front, i, point)
    {
      assert !OnFanAt(ring, i, point);
    }
  }

  lemma {:induction false} FanParity(ring: Ring, point: Point)
    requires ring != [] && OffFan(ring, point)
    ensures (Odd(ring, point) != Crosses(ring[|ring| - 1], ring[0], point)) <==> FanCount(ring, point) % 2 == 1
  {
    if |ring| <= 2 {
      FanOfTwo(ring, point);
    } else {
      OffFront(ring, point);
      FanParity(ring[..|ring| - 1], point);
      FanGrows(ring, point);
    }
  }

  lemma FanOfTwo(ring: Ring, point: Point)
    requires 1 <= |ring| <= 2
    ensures Odd(ring, point) == Crosses(ring[|ring| - 1], ring[0], point) && FanCount(ring, point) == 0
  {
    if |ring| == 2 {
      assert Odd(ring[..1], point) == false;
      CrossesBothWays(ring[0], ring[1], point);
    }
  }

  lemma FanGrows(ring: Ring, point: Point)
    requires |ring| > 2 && OffFan(ring, point)
    requires var front := ring[..|ring| - 1];
             (Odd(front, point) != Crosses(front[|front| - 1], front[0], point)) <==> FanCount(front, point) % 2 == 1
    ensures (Odd(ring, point) != Crosses(ring[|ring| - 1], ring[0], point)) <==> FanCount(ring, point) % 2 == 1
  {
    var front, first, last, end := ring[..|ring| - 1], ring[0], ring[|ring| - 2], ring[|ring| - 1];
    FanStep(first, last, end, point, ring);
    LastOfFan(ring, point);
    Flip(Odd(front, point), Crosses(last, first, point), Crosses(last, end, point), Crosses(end, first, point),
         FanCount(front, point), InTriangle(first, last, end, point));
  }

  lemma LastOfFan(ring: Ring, point: Point)
    requires |ring| > 2
    ensures var front := ring[..|ring| - 1];
            && Odd(ring, point) == (Odd(front, point) != Crosses(ring[|ring| - 2], ring[|ring| - 1], point))
            && FanCount(ring, point)
               == FanCount(front, point) + (if InTriangle(ring[0], ring[|ring| - 2], ring[|ring| - 1], point) then 1 else 0)
            && front[0] == ring[0] && front[|front| - 1] == ring[|ring| - 2]
  {
  }

  lemma Flip(odd: bool, back: bool, edge: bool, forth: bool, count: nat, inside: bool)
    requires (odd != back) <==> count % 2 == 1
    requires inside <==> (back != (edge != forth))
    ensures ((odd != edge) != forth) <==> (count + (if inside then 1 else 0)) % 2 == 1
  {
  }

  lemma FanStep(first: Point, last: Point, end: Point, point: Point, ring: Ring)
    requires |ring| > 2 && OffFan(ring, point) && first == ring[0] && last == ring[|ring| - 2] && end == ring[|ring| - 1]
    ensures InTriangle(first, last, end, point)
            <==> (Crosses(last, first, point) != (Crosses(last, end, point) != Crosses(end, first, point)))
  {
    assert !OnFanAt(ring, |ring| - 3, point);
    OddIsInside(first, last, end, point);
    OddTriangle(first, last, end, point);
    CrossesBothWays(first, last, point);
  }

  /** For every closed ring, however it winds or crosses itself, and every point off its edges and its diagonals from the first
      vertex: the ray rule holds exactly when an odd number of triangles of the fan hold the point. */
  lemma RingIsItsFan(ring: Ring, point: Point)
    requires Closed(ring) && OffFan(ring, point)
    ensures Odd(ring, point) <==> FanCount(ring, point) % 2 == 1
  {
    FanParity(ring, point);
  }
}
