/** Maidenhead cells of polygons: their boundary, and the corners an even-odd rule puts inside. */
module Polygons {
  import Reals
  import opened Locator
  import opened Clipping
  import opened Coverage

  type Ring = seq<Point>

  function Spot(point: Point): Rect { Rect(point.x, point.y, point.x, point.y) }

  ghost predicate OnRing(ring: Ring, point: Point) { TouchesLine(ring, Spot(point)) }

  function Share(up: real, run: real, rise: real): real
    requires rise != 0.0
  {
    up * run / rise
  }

  /** Where the line through an edge has the point's y. */
  function CrossingX(start: Point, end: Point, point: Point): real
    requires start.y != end.y
  {
    start.x + Share(point.y - start.y, end.x - start.x, end.y - start.y)
  }

  /** The edge crosses the ray that leaves the point towards larger x. */
  predicate Crosses(start: Point, end: Point, point: Point) {
    (start.y > point.y) != (end.y > point.y) && point.x < CrossingX(start, end, point)
  }

  /** At parameter t the edge is level with the point, strictly to its right. */
  predicate RightAt(start: Point, end: Point, point: Point, t: real) {
    var spot := Along(SegmentBetween(start, end), t);
    0.0 <= t <= 1.0 && spot.y == point.y && spot.x > point.x
  }

  /** What the code computes with a division: an edge counts exactly when one end is above the point and
      the other is not, and some spot of the edge is level with the point, strictly to its right. */
  lemma CrossesExactly(start: Point, end: Point, point: Point)
    ensures Crosses(start, end, point) <==> (start.y > point.y) != (end.y > point.y) && exists t :: RightAt(start, end, point, t)
  {
    if (start.y > point.y) != (end.y > point.y) {
      var t := LevelAt(start, end, point);
      if Crosses(start, end, point) { assert RightAt(start, end, point, t); }
      if exists s :: RightAt(start, end, point, s) {
        var s :| RightAt(start, end, point, s);
        OneLevel(start, end, point, s, t);
      }
    }
  }

  lemma LevelAt(start: Point, end: Point, point: Point) returns (t: real)
    requires (start.y > point.y) != (end.y > point.y)
    ensures 0.0 <= t <= 1.0 && Along(SegmentBetween(start, end), t) == Point(CrossingX(start, end, point), point.y)
  {
    var rise, run, up := end.y - start.y, end.x - start.x, point.y - start.y;
    t := up / rise;
    var part := t * run;
    assert t * rise == up;
    UnitFraction(up, rise, t);
    SameQuotient(up, run, rise, t, part);
  }

  lemma OneLevel(start: Point, end: Point, point: Point, s: real, t: real)
    requires start.y != end.y
    requires Along(SegmentBetween(start, end), s).y == Along(SegmentBetween(start, end), t).y == point.y
    ensures s == t
  {
    var rise := end.y - start.y;
    var first, second, difference := s * rise, t * rise, (s - t) * rise;
    assert difference == first - second == 0.0;
    Reals.Sign(s - t, rise, difference);
  }

  /** How many edges of the ring the ray to the right meets, by that rule. */
  ghost function RayCount(ring: Ring, point: Point): nat {
    if |ring| < 2 then 0
    else
      var start, end := ring[|ring| - 2], ring[|ring| - 1];
      RayCount(ring[..|ring| - 1], point)
      + if (start.y > point.y) != (end.y > point.y) && exists t :: RightAt(start, end, point, t) then 1 else 0
  }

  lemma {:induction false} OddExactly(ring: Ring, point: Point)
    ensures Odd(ring, point) <==> RayCount(ring, point) % 2 == 1
  {
    if |ring| >= 2 {
      OddExactly(ring[..|ring| - 1], point);
      CrossesExactly(ring[|ring| - 2], ring[|ring| - 1], point);
    }
  }

  /** Whether the ray crosses the ring an odd number of times. */
  function Odd(ring: Ring, point: Point): bool {
    if |ring| < 2 then false
    else Odd(ring[..|ring| - 1], point) != Crosses(ring[|ring| - 2], ring[|ring| - 1], point)
  }

  lemma OddNext(ring: Ring, i: nat, point: Point)
    requires i + 1 < |ring|
    ensures Odd(ring[..i + 2], point) == (Odd(ring[..i + 1], point) != Crosses(ring[i], ring[i + 1], point))
  {
    assert ring[..i + 2][..i + 1] == ring[..i + 1];
  }

  ghost predicate InRing(ring: Ring, point: Point) { OnRing(ring, point) || Odd(ring, point) }

  /** A hole excludes its interior but not its boundary; the first hole that holds the point decides. */
  ghost predicate SparedByHoles(holes: seq<Ring>, point: Point) {
    holes == [] || if InRing(holes[0], point) then OnRing(holes[0], point) else SparedByHoles(holes[1..], point)
  }

  ghost predicate InPolygon(rings: seq<Ring>, point: Point) {
    rings != [] && InRing(rings[0], point) && SparedByHoles(rings[1..], point)
  }

  /** The holes spare a point exactly when it is on the boundary of the first hole that holds it, if any does. */
  lemma {:induction false} SparedExactly(holes: seq<Ring>, point: Point)
    ensures SparedByHoles(holes, point)
            <==> forall k | 0 <= k < |holes| && InRing(holes[k], point)
                            && (forall j | 0 <= j < k :: !InRing(holes[j], point)) :: OnRing(holes[k], point)
  {
    if holes != [] && !InRing(holes[0], point) {
      var rest := holes[1..];
      SparedExactly(rest, point);
      assert forall j | 0 < j < |holes| :: holes[j] == rest[j - 1];
      assert forall j | 0 <= j < |rest| :: rest[j] == holes[j + 1];
    }
  }

  // ---- The same with a tolerance ----

  /** What the ring test finds: a contact within the tolerance, or an odd number of crossings. */
  predicate RingHolds(ring: Ring, point: Point, epsilon: real)
    requires epsilon >= 0.0
  {
    LineHits(ring, Spot(point), epsilon) || Odd(ring, point)
  }

  predicate HolesSpare(holes: seq<Ring>, point: Point, epsilon: real)
    requires epsilon >= 0.0
  {
    holes == [] ||
      if RingHolds(holes[0], point, epsilon) then LineHits(holes[0], Spot(point), epsilon)
      else HolesSpare(holes[1..], point, epsilon)
  }

  predicate PolygonHolds(rings: seq<Ring>, point: Point, epsilon: real)
    requires epsilon >= 0.0
  {
    rings != [] && RingHolds(rings[0], point, epsilon) && HolesSpare(rings[1..], point, epsilon)
  }

  lemma RingHoldsMeaning(ring: Ring, point: Point, epsilon: real)
    requires epsilon >= 0.0
    ensures InRing(ring, point) ==> RingHolds(ring, point, epsilon)
    ensures epsilon == 0.0 ==> (RingHolds(ring, point, epsilon) <==> InRing(ring, point))
  {
    LineHitsMeaning(ring, Spot(point), epsilon);
  }

  /** A tolerance never turns a spared point into an excluded one: whatever hole it now touches spares it too. */
  lemma {:induction false} SparedAtEveryTolerance(holes: seq<Ring>, point: Point, epsilon: real)
    requires epsilon >= 0.0
    ensures SparedByHoles(holes, point) ==> HolesSpare(holes, point, epsilon)
    ensures epsilon == 0.0 ==> (HolesSpare(holes, point, epsilon) <==> SparedByHoles(holes, point))
  {
    if holes != [] {
      RingHoldsMeaning(holes[0], point, epsilon);
      LineHitsMeaning(holes[0], Spot(point), epsilon);
      SparedAtEveryTolerance(holes[1..], point, epsilon);
    }
  }

  /** Every point inside is found at every tolerance, and without tolerance no other. */
  lemma PolygonHoldsMeaning(rings: seq<Ring>, point: Point, epsilon: real)
    requires epsilon >= 0.0
    ensures InPolygon(rings, point) ==> PolygonHolds(rings, point, epsilon)
    ensures epsilon == 0.0 ==> (PolygonHolds(rings, point, epsilon) <==> InPolygon(rings, point))
  {
    if rings != [] {
      RingHoldsMeaning(rings[0], point, epsilon);
      SparedAtEveryTolerance(rings[1..], point, epsilon);
    }
  }

  lemma RingTestMeaning(ring: Ring, point: Point, epsilon: real)
    requires epsilon >= 0.0
    ensures InRing(ring, point) ==> RingHolds(ring, point, epsilon)
    ensures RingHolds(ring, point, epsilon) ==> NearLine(ring, Spot(point), epsilon) || RayCount(ring, point) % 2 == 1
    ensures epsilon == 0.0 ==> (RingHolds(ring, point, epsilon) <==> OnRing(ring, point) || RayCount(ring, point) % 2 == 1)
  {
    OddExactly(ring, point);
    RingHoldsMeaning(ring, point, epsilon);
    LineHitsMeaning(ring, Spot(point), epsilon);
  }

  method PointInRing(point: Point, ring: Ring, epsilon: real) returns (found: bool)
    requires epsilon >= 0.0
    ensures found == RingHolds(ring, point, epsilon)
    ensures InRing(ring, point) ==> found
    ensures found ==> NearLine(ring, Spot(point), epsilon) || RayCount(ring, point) % 2 == 1
    ensures epsilon == 0.0 ==> (found <==> OnRing(ring, point) || RayCount(ring, point) % 2 == 1)
  {
    RingTestMeaning(ring, point, epsilon);
    var inside := false;
    if |ring| >= 2 {
      for i := 0 to |ring| - 1
        invariant inside == Odd(ring[..i + 1], point)
        invariant forall k | 0 <= k < i :: !Hits(ring[k], ring[k + 1], Spot(point), epsilon)
      {
        var contact := SegmentIntersectsRect(ring[i], ring[i + 1], Spot(point), epsilon);
        if contact {
          return true;
        }
        OddNext(ring, i, point);
        if (ring[i].y > point.y) != (ring[i + 1].y > point.y) {
          var crossingX := CrossingX(ring[i], ring[i + 1], point);
          if point.x < crossingX {
            inside := !inside;
          }
        }
      }
      assert ring[..|ring|] == ring;
    }
    return inside;
  }

  method PointInPolygon(point: Point, rings: seq<Ring>, epsilon: real) returns (found: bool)
    requires epsilon >= 0.0
    ensures found == PolygonHolds(rings, point, epsilon)
    ensures InPolygon(rings, point) ==> found
    ensures found ==> rings != [] && (NearLine(rings[0], Spot(point), epsilon) || RayCount(rings[0], point) % 2 == 1)
    ensures epsilon == 0.0 ==> (found <==> InPolygon(rings, point))
  {
    PolygonHoldsMeaning(rings, point, epsilon);
    if rings == [] {
      return false;
    }
    var outer := PointInRing(point, rings[0], epsilon);
    if !outer {
      return false;
    }
    found := SparesPoint(rings[1..], point, epsilon);
  }

  /** The loop over the holes. */
  method SparesPoint(holes: seq<Ring>, point: Point, epsilon: real) returns (spared: bool)
    requires epsilon >= 0.0
    ensures spared == HolesSpare(holes, point, epsilon)
  {
    for i := 0 to |holes|
      invariant HolesSpare(holes, point, epsilon) == HolesSpare(holes[i..], point, epsilon)
    {
      var held := PointInRing(point, holes[i], epsilon);
      assert holes[i..][0] == holes[i] && holes[i..][1..] == holes[i + 1..];
      if held {
        var onBoundary := LineIntersectsRect(holes[i], Spot(point), epsilon);
        return onBoundary;
      }
    }
    assert holes[|holes|..] == [];
    return true;
  }

  // ---- Polygons and rectangles ----

  predicate PointInRect(point: Point, rect: Rect, epsilon: real) { Inside(Grown(rect, epsilon), point) }

  ghost predicate BoundaryMeets(rings: seq<Ring>, rect: Rect) {
    exists ring | ring in rings :: (exists point | point in ring :: Inside(rect, point)) || TouchesLine(ring, rect)
  }

  function Corners(rect: Rect): seq<Point> {
    [Point(rect.minX, rect.minY), Point(rect.minX, rect.maxY), Point(rect.maxX, rect.minY), Point(rect.maxX, rect.maxY)]
  }

  ghost predicate CornerInside(rings: seq<Ring>, rect: Rect) {
    exists x, y | IsCorner(rect, x, y) :: InPolygon(rings, Point(x, y))
  }

  predicate IsCorner(rect: Rect, x: real, y: real) {
    (x == rect.minX || x == rect.maxX) && (y == rect.minY || y == rect.maxY)
  }

  lemma CornersExactly(rings: seq<Ring>, rect: Rect)
    ensures CornerInside(rings, rect) <==> exists k | 0 <= k < 4 :: InPolygon(rings, Corners(rect)[k])
  {
    if k :| 0 <= k < 4 && InPolygon(rings, Corners(rect)[k]) {
      assert IsCorner(rect, Corners(rect)[k].x, Corners(rect)[k].y);
    }
    forall x, y | IsCorner(rect, x, y)
      ensures exists k | 0 <= k < 4 :: Corners(rect)[k] == Point(x, y)
    {
      assert Corners(rect)[if x == rect.minX then if y == rect.minY then 0 else 1 else if y == rect.minY then 2 else 3] == Point(x, y);
    }
  }

  /** A vertex in the rectangle or a contact with it, up to the tolerance. */
  predicate RingReaches(ring: Ring, rect: Rect, epsilon: real)
    requires epsilon >= 0.0
  {
    (exists point | point in ring :: PointInRect(point, rect, epsilon)) || LineHits(ring, rect, epsilon)
  }

  predicate BoundaryHits(rings: seq<Ring>, rect: Rect, epsilon: real)
    requires epsilon >= 0.0
  {
    exists ring | ring in rings :: RingReaches(ring, rect, epsilon)
  }

  /** What the rectangle test finds: the boundary, or a corner that the polygon holds. */
  predicate PolygonHits(rings: seq<Ring>, rect: Rect, epsilon: real)
    requires epsilon >= 0.0
  {
    BoundaryHits(rings, rect, epsilon) || exists k | 0 <= k < 4 :: PolygonHolds(rings, Corners(rect)[k], epsilon)
  }

  ghost predicate RingMeets(ring: Ring, rect: Rect) {
    (exists point | point in ring :: Inside(rect, point)) || TouchesLine(ring, rect)
  }

  lemma RingReachesMeaning(ring: Ring, rect: Rect, epsilon: real)
    requires epsilon >= 0.0
    ensures RingMeets(ring, rect) ==> RingReaches(ring, rect, epsilon)
    ensures epsilon == 0.0 ==> (RingReaches(ring, rect, epsilon) <==> RingMeets(ring, rect))
  {
    LineHitsMeaning(ring, rect, epsilon);
    forall point
      ensures Inside(rect, point) ==> PointInRect(point, rect, epsilon)
      ensures epsilon == 0.0 ==> (PointInRect(point, rect, epsilon) <==> Inside(rect, point))
    {
    }
  }

  /** Every boundary contact and every corner inside is a hit at every tolerance, and without
      tolerance nothing else is. */
  lemma PolygonHitsMeaning(rings: seq<Ring>, rect: Rect, epsilon: real)
    requires epsilon >= 0.0
    ensures BoundaryMeets(rings, rect) || CornerInside(rings, rect) ==> PolygonHits(rings, rect, epsilon)
    ensures epsilon == 0.0 ==> (PolygonHits(rings, rect, epsilon) <==> BoundaryMeets(rings, rect) || CornerInside(rings, rect))
  {
    forall ring | ring in rings
      ensures RingMeets(ring, rect) ==> RingReaches(ring, rect, epsilon)
      ensures epsilon == 0.0 ==> (RingReaches(ring, rect, epsilon) <==> RingMeets(ring, rect))
    {
      RingReachesMeaning(ring, rect, epsilon);
    }
    forall k | 0 <= k < 4
      ensures InPolygon(rings, Corners(rect)[k]) ==> PolygonHolds(rings, Corners(rect)[k], epsilon)
      ensures epsilon == 0.0 ==> (PolygonHolds(rings, Corners(rect)[k], epsilon) <==> InPolygon(rings, Corners(rect)[k]))
    {
      PolygonHoldsMeaning(rings, Corners(rect)[k], epsilon);
    }
    CornersExactly(rings, rect);
  }

  method RingIntersectsRect(ring: Ring, rect: Rect, epsilon: real) returns (hit: bool)
    requires epsilon >= 0.0
    ensures hit == RingReaches(ring, rect, epsilon)
  {
    for i := 0 to |ring|
      invariant forall k | 0 <= k < i :: !PointInRect(ring[k], rect, epsilon)
    {
      if PointInRect(ring[i], rect, epsilon) {
        assert ring[i] in ring;
        return true;
      }
    }
    hit := LineIntersectsRect(ring, rect, epsilon);
  }

  method PolygonIntersectsRect(rings: seq<Ring>, rect: Rect, epsilon: real) returns (hit: bool)
    requires epsilon >= 0.0
    ensures hit == PolygonHits(rings, rect, epsilon)
    ensures BoundaryMeets(rings, rect) || CornerInside(rings, rect) ==> hit
    ensures epsilon == 0.0 ==> (hit <==> BoundaryMeets(rings, rect) || CornerInside(rings, rect))
  {
    PolygonHitsMeaning(rings, rect, epsilon);
    for i := 0 to |rings|
      invariant forall k | 0 <= k < i :: !RingReaches(rings[k], rect, epsilon)
    {
      hit := RingIntersectsRect(rings[i], rect, epsilon);
      if hit {
        assert rings[i] in rings;
        return;
      }
    }
    var corners := Corners(rect);
    for k := 0 to 4
      invariant forall j | 0 <= j < k :: !PolygonHolds(rings, corners[j], epsilon)
    {
      hit := PointInPolygon(corners[k], rings, epsilon);
      if hit {
        return;
      }
    }
    return false;
  }

  // ---- Points inside lie in the bounding box ----

  /** Rings of well-formed polygons end where they start. */
  predicate Closed(ring: Ring) { ring != [] && ring[0] == ring[|ring| - 1] }

  predicate Straddles(start: Point, end: Point, point: Point) { (start.y > point.y) != (end.y > point.y) }

  function OddStraddles(ring: Ring, point: Point): bool {
    if |ring| < 2 then false
    else OddStraddles(ring[..|ring| - 1], point) != Straddles(ring[|ring| - 2], ring[|ring| - 1], point)
  }

  /** A ring that returns to its start crosses every level an even number of times. */
  lemma {:induction false} StraddlesCancel(ring: Ring, point: Point)
    requires ring != []
    ensures OddStraddles(ring, point) == Straddles(ring[0], ring[|ring| - 1], point)
  {
    if |ring| >= 2 { StraddlesCancel(ring[..|ring| - 1], point); }
  }

  /** The crossing lies between the ends of the edge. */
  lemma CrossingInBox(start: Point, end: Point, point: Point, box: Rect)
    requires Straddles(start, end, point) && Inside(box, start) && Inside(box, end)
    ensures box.minX <= CrossingX(start, end, point) <= box.maxX
    ensures box.minY <= point.y <= box.maxY
  {
    var rise, run, up := end.y - start.y, end.x - start.x, point.y - start.y;
    var t, part := up / rise, up / rise * run;
    assert t * rise == up;
    UnitFraction(up, rise, t);
    SameQuotient(up, run, rise, t, part);
    BetweenEnds(start.x, run, t, box.minX, box.maxX);
  }

  lemma UnitFraction(up: real, rise: real, t: real)
    requires rise != 0.0 && t * rise == up
    requires if rise > 0.0 then 0.0 <= up <= rise else rise <= up <= 0.0
    ensures 0.0 <= t <= 1.0
  {
    Reals.Sign(t, rise, up);
    var rest := (t - 1.0) * rise;
    assert rest == up - rise;
    Reals.Sign(t - 1.0, rise, rest);
  }

  lemma SameQuotient(up: real, run: real, rise: real, t: real, part: real)
    requires rise != 0.0 && t * rise == up && part == t * run
    ensures Share(up, run, rise) == part
  {
    var product := up * run;
    assert product == t * rise * run == part * rise;
  }

  lemma {:induction false} OddHasCrossing(ring: Ring, point: Point)
    requires Odd(ring, point)
    ensures exists i | 0 <= i < |ring| - 1 :: Crosses(ring[i], ring[i + 1], point)
  {
    var front := ring[..|ring| - 1];
    if Crosses(ring[|ring| - 2], ring[|ring| - 1], point) {
      assert Crosses(ring[|ring| - 2], ring[|ring| - 2 + 1], point);
    } else {
      OddHasCrossing(front, point);
      var i :| 0 <= i < |front| - 1 && Crosses(front[i], front[i + 1], point);
      assert Crosses(ring[i], ring[i + 1], point);
    }
  }

  /** Left of the box every straddling edge crosses the ray. */
  lemma {:induction false} LeftOfBox(ring: Ring, point: Point, box: Rect)
    requires (forall vertex | vertex in ring :: Inside(box, vertex)) && point.x < box.minX
    ensures Odd(ring, point) == OddStraddles(ring, point)
  {
    if |ring| >= 2 {
      var start, end := ring[|ring| - 2], ring[|ring| - 1];
      assert start in ring && end in ring;
      LeftOfBox(ring[..|ring| - 1], point, box);
      if Straddles(start, end, point) { CrossingInBox(start, end, point, box); }
    }
  }

  lemma OddInBox(ring: Ring, point: Point, box: Rect)
    requires Closed(ring) && Odd(ring, point)
    requires forall vertex | vertex in ring :: Inside(box, vertex)
    ensures Inside(box, point)
  {
    OddHasCrossing(ring, point);
    var i :| 0 <= i < |ring| - 1 && Crosses(ring[i], ring[i + 1], point);
    assert ring[i] in ring && ring[i + 1] in ring;
    CrossingInBox(ring[i], ring[i + 1], point, box);
    if point.x < box.minX {
      LeftOfBox(ring, point, box);
      StraddlesCancel(ring, point);
    }
  }

  // ---- Cells ----

  function Vertices(rings: seq<Ring>): (points: seq<Point>)
    ensures forall ring, point | ring in rings && point in ring :: point in points
  {
    if rings == [] then [] else rings[0] + Vertices(rings[1..])
  }

  /** The candidate cells of a polygon's bounding box. */
  ghost predicate Candidate(rings: seq<Ring>, cell: (int, int), precision: int, epsilon: real)
    requires Vertices(rings) != []
  {
    var box := ComponentBounds(Vertices(rings));
    InRanges(cell, XIndices(box, precision, epsilon), YIndices(box, precision, epsilon))
  }

  lemma BoundaryIsCandidate(rings: seq<Ring>, cell: (int, int), precision: int, epsilon: real)
    requires Vertices(rings) != [] && InGrid(cell, precision) && 0.0 <= epsilon < 1.0
    requires BoundaryMeets(rings, CellRect(cell, precision))
    ensures Candidate(rings, cell, precision, epsilon)
  {
    var box, rect := ComponentBounds(Vertices(rings)), CellRect(cell, precision);
    var ring :| ring in rings && ((exists point | point in ring :: Inside(rect, point)) || TouchesLine(ring, rect));
    if TouchesLine(ring, rect) {
      var i :| 0 <= i < |ring| - 1 && Meets(Piece(ring, i), rect);
      var t :| ContactAt(Piece(ring, i), rect, t);
      PieceInBox(ring, i, t, box);
      PointIsCandidate(Along(Piece(ring, i), t), box, cell, precision, epsilon);
    } else {
      var point :| point in ring && Inside(rect, point);
      PointIsCandidate(point, box, cell, precision, epsilon);
    }
  }

  /** With a closed outer ring, a cell with a corner inside is among the candidates. */
  lemma CornerIsCandidate(rings: seq<Ring>, cell: (int, int), precision: int, epsilon: real)
    requires rings != [] && Closed(rings[0]) && Vertices(rings) != [] && 0.0 <= epsilon < 1.0
    requires (precision == 4 || precision == 6) && InGrid(cell, precision) && CornerInside(rings, CellRect(cell, precision))
    ensures Candidate(rings, cell, precision, epsilon)
  {
    var rect := CellRect(cell, precision);
    CornersExactly(rings, rect);
    var k :| 0 <= k < 4 && InPolygon(rings, Corners(rect)[k]);
    var corner := Corners(rect)[k];
    CornerInRect(cell, precision, k);
    if OnRing(rings[0], corner) {
      var i :| 0 <= i < |rings[0]| - 1 && Meets(Piece(rings[0], i), Spot(corner));
      var t :| ContactAt(Piece(rings[0], i), Spot(corner), t);
      assert ContactAt(Piece(rings[0], i), rect, t);
      assert rings[0] in rings && TouchesLine(rings[0], rect);
      BoundaryIsCandidate(rings, cell, precision, epsilon);
    } else {
      var box := ComponentBounds(Vertices(rings));
      assert rings[0] in rings;
      OddInBox(rings[0], corner, box);
      PointIsCandidate(corner, box, cell, precision, epsilon);
    }
  }

  lemma CornerInRect(cell: (int, int), precision: int, k: nat)
    requires (precision == 4 || precision == 6) && InGrid(cell, precision) && k < 4
    ensures Inside(CellRect(cell, precision), Corners(CellRect(cell, precision))[k])
  {
    CellExtent(cell.0, LongitudeStep(precision), Count(precision), -180.0, 360.0);
    CellExtent(cell.1, LatitudeStep(precision), Count(precision), -90.0, 180.0);
  }

  lemma CellExtent(k: int, step: real, count: int, origin: real, extent: real)
    requires step > 0.0 && 0 <= k < count && count as real * step == extent
    ensures origin + k as real * step <= Min(origin + extent, origin + k as real * step + step)
  {
    var low := k as real * step;
    Reals.Ordered(k as real, count as real, step, low, extent);
  }

  /** Exactly the candidates that the rectangle test hits, at every tolerance. */
  method CellsForPolygon(rings: seq<Ring>, precision: int, epsilon: real) returns (cells: set<(int, int)>)
    requires Vertices(rings) != [] && 0.0 <= epsilon < 1.0
    ensures forall cell :: cell in cells <==>
              Candidate(rings, cell, precision, epsilon) && PolygonHits(rings, CellRect(cell, precision), epsilon)
  {
    var box := ComponentBounds(Vertices(rings));
    var xs, ys := XIndices(box, precision, epsilon), YIndices(box, precision, epsilon);
    cells := {};
    var x := xs.0;
    while x <= xs.1
      invariant xs.0 <= x
      invariant forall cell :: cell in cells <==>
                  InRanges(cell, xs, ys) && cell.0 < x && PolygonHits(rings, CellRect(cell, precision), epsilon)
      decreases xs.1 - x
    {
      var column := CellsInColumn(rings, x, ys, precision, epsilon);
      cells := cells + column;
      x := x + 1;
    }
  }

  method CellsInColumn(rings: seq<Ring>, x: int, ys: (int, int), precision: int, epsilon: real) returns (cells: set<(int, int)>)
    requires epsilon >= 0.0
    ensures forall cell :: cell in cells <==>
              cell.0 == x && ys.0 <= cell.1 <= ys.1 && PolygonHits(rings, CellRect(cell, precision), epsilon)
  {
    cells := {};
    var y := ys.0;
    while y <= ys.1
      invariant ys.0 <= y
      invariant forall cell :: cell in cells <==>
                  cell.0 == x && ys.0 <= cell.1 < y && cell.1 <= ys.1 && PolygonHits(rings, CellRect(cell, precision), epsilon)
      decreases ys.1 - y
    {
      var hit := PolygonIntersectsRect(rings, CellRect((x, y), precision), epsilon);
      if hit {
        cells := cells + {(x, y)};
      }
      y := y + 1;
    }
  }

  /** A cell belongs to a polygon: its closed rectangle meets the boundary, or a corner is inside. */
  ghost predicate Belongs(rings: seq<Ring>, cell: (int, int), precision: int) {
    BoundaryMeets(rings, CellRect(cell, precision)) || CornerInside(rings, CellRect(cell, precision))
  }

  /** With a closed outer ring, every grid cell that belongs is a candidate that the test hits, at every
      tolerance; without tolerance there is no other. */
  lemma BelongingIsFound(rings: seq<Ring>, cell: (int, int), precision: int, epsilon: real)
    requires HasOutline(rings) && Closed(rings[0]) && 0.0 <= epsilon < 1.0
    requires (precision == 4 || precision == 6) && InGrid(cell, precision)
    ensures Vertices(rings) != []
    ensures Belongs(rings, cell, precision) ==>
              Candidate(rings, cell, precision, epsilon) && PolygonHits(rings, CellRect(cell, precision), epsilon)
    ensures epsilon == 0.0 && PolygonHits(rings, CellRect(cell, precision), epsilon) ==> Belongs(rings, cell, precision)
  {
    PolygonHitsMeaning(rings, CellRect(cell, precision), epsilon);
    if BoundaryMeets(rings, CellRect(cell, precision)) {
      BoundaryIsCandidate(rings, cell, precision, epsilon);
    } else if CornerInside(rings, CellRect(cell, precision)) {
      CornerIsCandidate(rings, cell, precision, epsilon);
    }
  }

  // ---- Whole geometries ----

  /** Polygons without an outer ring, or with an empty one, are passed over. */
  predicate HasOutline(rings: seq<Ring>) { rings != [] && rings[0] != [] }

  ghost predicate OnOutline(polygons: seq<seq<Ring>>, point: Point) {
    exists rings, ring | rings in polygons && ring in rings :: rings[0] != [] && LineInRange(ring) && OnBoundary(ring, point)
  }

  ghost predicate OnBoundary(ring: Ring, point: Point) { point in ring || OnLine(ring, point) }

  lemma OutlineMeetsCell(rings: seq<Ring>, ring: Ring, point: Point, precision: int)
    requires (precision == 4 || precision == 6) && ring in rings && LineInRange(ring) && OnBoundary(ring, point)
    ensures InRange(point.x, point.y)
    ensures var cell := CellOf(point.x, point.y, precision);
            InGrid(cell, precision) && BoundaryMeets(rings, CellRect(cell, precision))
  {
    if point in ring {
      CellHoldsPoint(point, precision);
    } else {
      PointIsCovered(ring, point, precision);
      assert ring != [point];
    }
  }

  /** Some polygon with an outline has this candidate hit. */
  ghost predicate Found(polygons: seq<seq<Ring>>, cell: (int, int), precision: int, epsilon: real)
    requires epsilon >= 0.0
  {
    exists rings | rings in polygons :: FoundIn(rings, cell, precision, epsilon)
  }

  ghost predicate FoundIn(rings: seq<Ring>, cell: (int, int), precision: int, epsilon: real)
    requires epsilon >= 0.0
  {
    HasOutline(rings) && Vertices(rings) != [] && Candidate(rings, cell, precision, epsilon)
    && PolygonHits(rings, CellRect(cell, precision), epsilon)
  }

  /** Some polygon with an outline has the cell belong to it. */
  ghost predicate Covered(polygons: seq<seq<Ring>>, cell: (int, int), precision: int) {
    exists rings | rings in polygons :: rings != [] && rings[0] != [] && Belongs(rings, cell, precision)
  }

  /** The locators of the cells of a (multi)polygon: those that some polygon has hit, no more and no less. */
  method CoveredPolygonCells(polygons: seq<seq<Ring>>, precision: int, epsilon: real) returns (locators: set<string>)
    requires (precision == 4 || precision == 6) && 0.0 <= epsilon < 1.0
    ensures forall cell | InGrid(cell, precision) :: Name(cell, precision) in locators <==> Found(polygons, cell, precision, epsilon)
    ensures forall locator | locator in locators :: exists cell :: InGrid(cell, precision) && locator == Name(cell, precision)
  {
    var indices: set<(int, int)> := {};
    for i := 0 to |polygons|
      invariant forall cell :: cell in indices <==> Found(polygons[..i], cell, precision, epsilon)
    {
      var more := CellsOfOutline(polygons[i], precision, epsilon);
      indices := indices + more;
      FoundNext(polygons, i, precision, epsilon);
    }
    assert polygons[..|polygons|] == polygons;
    FoundInGrid(polygons, precision, epsilon);
    locators := NamesOf(indices, precision);
    NamesOfCells(indices, precision);
  }

  method CellsOfOutline(rings: seq<Ring>, precision: int, epsilon: real) returns (cells: set<(int, int)>)
    requires 0.0 <= epsilon < 1.0
    ensures forall cell :: cell in cells <==> FoundIn(rings, cell, precision, epsilon)
  {
    cells := {};
    if HasOutline(rings) {
      cells := CellsForPolygon(rings, precision, epsilon);
    }
  }

  lemma FoundNext(polygons: seq<seq<Ring>>, i: nat, precision: int, epsilon: real)
    requires i < |polygons| && epsilon >= 0.0
    ensures forall cell :: Found(polygons[..i + 1], cell, precision, epsilon)
                           <==> Found(polygons[..i], cell, precision, epsilon) || FoundIn(polygons[i], cell, precision, epsilon)
  {
    assert polygons[..i + 1] == polygons[..i] + [polygons[i]];
  }

  lemma FoundInGrid(polygons: seq<seq<Ring>>, precision: int, epsilon: real)
    requires epsilon >= 0.0
    ensures forall cell | Found(polygons, cell, precision, epsilon) :: InGrid(cell, precision)
  {
  }

  /** What the result means: the locator of every point of a boundary in range is in it, and so is every cell that
      belongs to a polygon with a closed outline; without tolerance, and with closed outlines, no other. */
  lemma CoverageOfPolygons(polygons: seq<seq<Ring>>, precision: int, epsilon: real)
    requires (precision == 4 || precision == 6) && 0.0 <= epsilon < 1.0
    ensures forall point | OnOutline(polygons, point) ::
              InRange(point.x, point.y)
              && var cell := CellOf(point.x, point.y, precision);
                 InGrid(cell, precision) && Found(polygons, cell, precision, epsilon)
                 && LocatorForPoint(point.x, point.y, precision) == Ok(Name(cell, precision))
    ensures (forall rings | rings in polygons && rings != [] && rings[0] != [] :: Closed(rings[0])) ==>
              forall cell | InGrid(cell, precision) ::
                && (Covered(polygons, cell, precision) ==> Found(polygons, cell, precision, epsilon))
                && (epsilon == 0.0 ==> (Found(polygons, cell, precision, epsilon) <==> Covered(polygons, cell, precision)))
  {
    forall point | OnOutline(polygons, point)
      ensures InRange(point.x, point.y)
      ensures var cell := CellOf(point.x, point.y, precision);
              InGrid(cell, precision) && Found(polygons, cell, precision, epsilon)
              && LocatorForPoint(point.x, point.y, precision) == Ok(Name(cell, precision))
    {
      var rings, ring :| rings in polygons && ring in rings && rings[0] != [] && LineInRange(ring) && OnBoundary(ring, point);
      OutlineMeetsCell(rings, ring, point, precision);
      LocatorNamesCell(point.x, point.y, precision);
      var cell := CellOf(point.x, point.y, precision);
      PolygonHitsMeaning(rings, CellRect(cell, precision), epsilon);
      BoundaryIsCandidate(rings, cell, precision, epsilon);
      assert FoundIn(rings, cell, precision, epsilon);
    }
    if forall rings | rings in polygons && HasOutline(rings) :: Closed(rings[0]) {
      forall cell, rings | InGrid(cell, precision) && rings in polygons && HasOutline(rings)
        ensures Belongs(rings, cell, precision) ==> FoundIn(rings, cell, precision, epsilon)
        ensures epsilon == 0.0 && FoundIn(rings, cell, precision, epsilon) ==> Belongs(rings, cell, precision)
      {
        BelongingIsFound(rings, cell, precision, epsilon);
      }
    }
  }
}
