/** The Maidenhead cells covered by line geometries. */
module Coverage {
  import Reals
  import opened Locator
  import opened Clipping

  datatype Geometry =
    | PointGeometry(point: Point)
    | LineString(line: seq<Point>)
    | MultiLineString(lines: seq<seq<Point>>)
    | Unsupported

  function Lines(geometry: Geometry): seq<seq<Point>> {
    match geometry
    case LineString(line) => [line]
    case MultiLineString(lines) => lines
    case _ => []
  }

  predicate HasLine(geometry: Geometry, line: seq<Point>) {
    geometry == LineString(line) || (geometry.MultiLineString? && line in geometry.lines)
  }

  predicate IsLinear(geometry: Geometry) { geometry.LineString? || geometry.MultiLineString? }

  /** The closed rectangle of a grid cell. */
  function CellRect(cell: (int, int), precision: int): Rect {
    var minX := -180.0 + cell.0 as real * LongitudeStep(precision);
    var minY := -90.0 + cell.1 as real * LatitudeStep(precision);
    Rect(minX, minY, Min(180.0, minX + LongitudeStep(precision)), Min(90.0, minY + LatitudeStep(precision)))
  }

  function Piece(line: seq<Point>, i: int): Segment
    requires 0 <= i < |line| - 1
  {
    SegmentBetween(line[i], line[i + 1])
  }

  ghost predicate TouchesLine(line: seq<Point>, rect: Rect) {
    exists i | 0 <= i < |line| - 1 :: Meets(Piece(line, i), rect)
  }

  ghost predicate NearLine(line: seq<Point>, rect: Rect, epsilon: real) {
    exists i | 0 <= i < |line| - 1 :: Meets(Piece(line, i), Grown(rect, Margin(Piece(line, i), epsilon)))
  }

  /** A cell belongs to a line's coverage: a lone vertex covers its own cell, a
      polyline every cell whose closed rectangle it meets. */
  ghost predicate Covers(line: seq<Point>, cell: (int, int), precision: int) {
    if |line| == 1 then cell == CellOf(line[0].x, line[0].y, precision)
    else TouchesLine(line, CellRect(cell, precision))
  }

  ghost predicate Covered(geometry: Geometry, cell: (int, int), precision: int) {
    exists line :: HasLine(geometry, line) && Covers(line, cell, precision)
  }

  /** What a tolerance may add to a line's coverage: cells the line passes within the margin. */
  ghost predicate NearlyCovers(line: seq<Point>, cell: (int, int), precision: int, epsilon: real) {
    if |line| == 1 then Covers(line, cell, precision)
    else NearLine(line, CellRect(cell, precision), epsilon)
  }

  ghost predicate NearlyCovered(geometry: Geometry, cell: (int, int), precision: int, epsilon: real) {
    exists line :: HasLine(geometry, line) && NearlyCovers(line, cell, precision, epsilon)
  }

  ghost predicate OnLine(line: seq<Point>, point: Point) {
    || line == [point]
    || exists i, t | 0 <= i < |line| - 1 && 0.0 <= t <= 1.0 :: Along(Piece(line, i), t) == point
  }

  predicate LineInRange(line: seq<Point>) {
    forall point | point in line :: InRange(point.x, point.y)
  }

  // ---- Candidate index ranges ----

  /** Rounds to the nearest integer, ties to the even one. */
  function Round(value: real): int {
    var below := value.Floor;
    var rest := value - below as real;
    if rest < 0.5 then below
    else if rest > 0.5 then below + 1
    else if below % 2 == 0 then below else below + 1
  }

  /** First and last index of the cells a coordinate span may touch. */
  function CandidateIndices(minimum: real, maximum: real, origin: real, step: real, count: int, epsilon: real): (int, int)
    requires step > 0.0 && 0 < count
  {
    var low, high := (minimum - origin) / step, (maximum - origin) / step;
    var nearestLow := Round(low);
    var first := if Abs(low - nearestLow as real) <= epsilon then nearestLow - 1 else low.Floor;
    (Clamp(first, count), Clamp(high.Floor, count))
  }

  lemma ScaledBounds(value: real, origin: real, step: real, k: int)
    requires step > 0.0
    ensures origin + k as real * step <= value <==> k as real <= (value - origin) / step
    ensures value <= origin + k as real * step <==> (value - origin) / step <= k as real
  {
    var product := k as real * step;
    Reals.Divided(k as real, step, value - origin, product);
  }

  lemma ScaledOrder(a: real, b: real, origin: real, step: real)
    requires step > 0.0 && a <= b
    ensures (a - origin) / step <= (b - origin) / step
  {
    var x := (a - origin) / step;
    assert x * step == a - origin;
    Reals.Divided(x, step, b - origin, a - origin);
  }

  /** The candidate range misses no cell whose closed interval the span reaches. */
  lemma CandidatesComplete(minimum: real, value: real, maximum: real, origin: real, step: real, count: int, epsilon: real, k: int)
    requires step > 0.0 && 0 <= k < count && 0.0 <= epsilon < 1.0
    requires minimum <= value <= maximum
    requires origin + k as real * step <= value <= origin + k as real * step + step
    ensures var (first, last) := CandidateIndices(minimum, maximum, origin, step, count, epsilon);
            0 <= first <= k <= last < count
  {
    var low, high := (minimum - origin) / step, (maximum - origin) / step;
    ScaledBounds(value, origin, step, k);
    ScaledBounds(value, origin, step, k + 1);
    assert (k + 1) as real * step == k as real * step + step;
    ScaledOrder(minimum, value, origin, step);
    ScaledOrder(value, maximum, origin, step);
    RangeReaches(low, (value - origin) / step, high, k, epsilon);
  }

  lemma RangeReaches(low: real, at: real, high: real, k: int, epsilon: real)
    requires low <= at <= high && k as real <= at <= (k + 1) as real && 0.0 <= epsilon < 1.0
    ensures k <= high.Floor
    ensures (if Abs(low - Round(low) as real) <= epsilon then Round(low) - 1 else low.Floor) <= k
  {
    if low == low.Floor as real {
      assert Round(low) == low.Floor;
    }
  }

  // ---- Enumeration of the cells of one component ----

  /** The bounding box of a component's vertices. */
  function ComponentBounds(points: seq<Point>): (box: Rect)
    requires points != []
    ensures forall point | point in points :: Inside(box, point)
    ensures exists point | point in points :: point.x == box.minX
    ensures exists point | point in points :: point.y == box.minY
    ensures exists point | point in points :: point.x == box.maxX
    ensures exists point | point in points :: point.y == box.maxY
  {
    var head := points[0];
    if |points| == 1 then Rect(head.x, head.y, head.x, head.y)
    else
      var rest := ComponentBounds(points[1..]);
      assert forall point | point in points[1..] :: point in points;
      assert forall point | point in points :: point == head || point in points[1..];
      Rect(Min(head.x, rest.minX), Min(head.y, rest.minY), Max(head.x, rest.maxX), Max(head.y, rest.maxY))
  }

  /** The verdict of the clipping test on some piece of a polyline. */
  predicate LineHits(line: seq<Point>, rect: Rect, epsilon: real)
    requires epsilon >= 0.0
  {
    exists i | 0 <= i < |line| - 1 :: Hits(line[i], line[i + 1], rect, epsilon)
  }

  /** The clipping test of a polyline misses no contact, and finds nothing else without tolerance. */
  lemma LineHitsMeaning(line: seq<Point>, rect: Rect, epsilon: real)
    requires epsilon >= 0.0
    ensures TouchesLine(line, rect) ==> LineHits(line, rect, epsilon)
    ensures LineHits(line, rect, epsilon) ==> NearLine(line, rect, epsilon)
    ensures epsilon == 0.0 ==> (LineHits(line, rect, epsilon) <==> TouchesLine(line, rect))
  {
    forall i | 0 <= i < |line| - 1
      ensures Meets(Piece(line, i), rect) ==> Hits(line[i], line[i + 1], rect, epsilon)
      ensures Hits(line[i], line[i + 1], rect, epsilon) ==>
                Meets(Piece(line, i), Grown(rect, Margin(Piece(line, i), epsilon))) && (epsilon == 0.0 ==> Meets(Piece(line, i), rect))
    {
      HitsMeaning(line[i], line[i + 1], rect, epsilon);
    }
  }

  method LineIntersectsRect(points: seq<Point>, rect: Rect, epsilon: real) returns (hit: bool)
    requires epsilon >= 0.0
    ensures hit == LineHits(points, rect, epsilon)
    ensures TouchesLine(points, rect) ==> hit
    ensures hit ==> NearLine(points, rect, epsilon)
    ensures epsilon == 0.0 ==> (hit <==> TouchesLine(points, rect))
  {
    LineHitsMeaning(points, rect, epsilon);
    var i := 0;
    while i + 1 < |points|
      invariant 0 <= i
      invariant forall k | 0 <= k < i && k < |points| - 1 :: !Hits(points[k], points[k + 1], rect, epsilon)
    {
      hit := SegmentIntersectsRect(points[i], points[i + 1], rect, epsilon);
      if hit {
        return;
      }
      i := i + 1;
    }
    return false;
  }

  lemma BetweenEnds(from: real, delta: real, t: real, low: real, high: real)
    requires 0.0 <= t <= 1.0 && low <= from <= high && low <= from + delta <= high
    ensures low <= from + t * delta <= high
  {
    var part := t * delta;
    Reals.Fraction(delta, t, part);
  }

  /** A polyline stays in any box that holds its vertices. */
  lemma PieceInBox(line: seq<Point>, i: int, t: real, box: Rect)
    requires 0 <= i < |line| - 1 && 0.0 <= t <= 1.0
    requires forall point | point in line :: Inside(box, point)
    ensures Inside(box, Along(Piece(line, i), t))
  {
    var piece := Piece(line, i);
    assert line[i] in line && line[i + 1] in line;
    BetweenEnds(piece.start.x, piece.dx, t, box.minX, box.maxX);
    BetweenEnds(piece.start.y, piece.dy, t, box.minY, box.maxY);
  }

  ghost predicate InRanges(cell: (int, int), xs: (int, int), ys: (int, int)) {
    xs.0 <= cell.0 <= xs.1 && ys.0 <= cell.1 <= ys.1
  }

  function XIndices(box: Rect, precision: int, epsilon: real): (int, int) {
    CandidateIndices(box.minX, box.maxX, -180.0, LongitudeStep(precision), Count(precision), epsilon)
  }

  function YIndices(box: Rect, precision: int, epsilon: real): (int, int) {
    CandidateIndices(box.minY, box.maxY, -90.0, LatitudeStep(precision), Count(precision), epsilon)
  }

  /** Every grid cell a polyline touches is among the candidates of its bounding box. */
  lemma TouchedAreCandidates(line: seq<Point>, cell: (int, int), precision: int, epsilon: real)
    requires line != [] && InGrid(cell, precision) && 0.0 <= epsilon < 1.0
    requires TouchesLine(line, CellRect(cell, precision))
    ensures var box := ComponentBounds(line);
            InRanges(cell, XIndices(box, precision, epsilon), YIndices(box, precision, epsilon))
  {
    var box, rect := ComponentBounds(line), CellRect(cell, precision);
    var i :| 0 <= i < |line| - 1 && Meets(Piece(line, i), rect);
    var t :| ContactAt(Piece(line, i), rect, t);
    PieceInBox(line, i, t, box);
    PointIsCandidate(Along(Piece(line, i), t), box, cell, precision, epsilon);
  }

  lemma PointIsCandidate(point: Point, box: Rect, cell: (int, int), precision: int, epsilon: real)
    requires InGrid(cell, precision) && 0.0 <= epsilon < 1.0
    requires Inside(box, point) && Inside(CellRect(cell, precision), point)
    ensures InRanges(cell, XIndices(box, precision, epsilon), YIndices(box, precision, epsilon))
  {
    CandidatesComplete(box.minX, point.x, box.maxX, -180.0, LongitudeStep(precision), Count(precision), epsilon, cell.0);
    CandidatesComplete(box.minY, point.y, box.maxY, -90.0, LatitudeStep(precision), Count(precision), epsilon, cell.1);
  }

  method CellsForComponent(line: seq<Point>, precision: int, epsilon: real) returns (cells: set<(int, int)>)
    requires line != [] && 0.0 <= epsilon < 1.0
    ensures forall cell | cell in cells :: InGrid(cell, precision) && NearLine(line, CellRect(cell, precision), epsilon)
    ensures forall cell | InGrid(cell, precision) && TouchesLine(line, CellRect(cell, precision)) :: cell in cells
    ensures epsilon == 0.0 ==> forall cell | cell in cells :: TouchesLine(line, CellRect(cell, precision))
  {
    var box := ComponentBounds(line);
    var xs, ys := XIndices(box, precision, epsilon), YIndices(box, precision, epsilon);
    cells := {};
    var x := xs.0;
    while x <= xs.1
      invariant xs.0 <= x
      invariant forall cell :: cell in cells <==>
                  InRanges(cell, xs, ys) && cell.0 < x && LineHits(line, CellRect(cell, precision), epsilon)
      decreases xs.1 - x
    {
      var column := LineCellsInColumn(line, x, ys, precision, epsilon);
      cells := cells + column;
      x := x + 1;
    }
    HitCells(line, precision, epsilon);
  }

  method LineCellsInColumn(line: seq<Point>, x: int, ys: (int, int), precision: int, epsilon: real) returns (cells: set<(int, int)>)
    requires epsilon >= 0.0
    ensures forall cell :: cell in cells <==>
              cell.0 == x && ys.0 <= cell.1 <= ys.1 && LineHits(line, CellRect(cell, precision), epsilon)
  {
    cells := {};
    var y := ys.0;
    while y <= ys.1
      invariant ys.0 <= y
      invariant forall cell :: cell in cells <==>
                  cell.0 == x && ys.0 <= cell.1 < y && cell.1 <= ys.1 && LineHits(line, CellRect(cell, precision), epsilon)
      decreases ys.1 - y
    {
      var hit := LineIntersectsRect(line, CellRect((x, y), precision), epsilon);
      if hit {
        cells := cells + {(x, y)};
      }
      y := y + 1;
    }
  }

  /** The candidates that the clipping test hits: all cells touched, and only cells nearby. */
  lemma HitCells(line: seq<Point>, precision: int, epsilon: real)
    requires line != [] && 0.0 <= epsilon < 1.0
    ensures var box := ComponentBounds(line);
            forall cell | InRanges(cell, XIndices(box, precision, epsilon), YIndices(box, precision, epsilon)) :: InGrid(cell, precision)
    ensures forall cell | LineHits(line, CellRect(cell, precision), epsilon) ::
              NearLine(line, CellRect(cell, precision), epsilon) && (epsilon == 0.0 ==> TouchesLine(line, CellRect(cell, precision)))
    ensures var box := ComponentBounds(line);
            forall cell | InGrid(cell, precision) && TouchesLine(line, CellRect(cell, precision)) ::
              InRanges(cell, XIndices(box, precision, epsilon), YIndices(box, precision, epsilon))
              && LineHits(line, CellRect(cell, precision), epsilon)
  {
    forall cell
      ensures TouchesLine(line, CellRect(cell, precision)) ==> LineHits(line, CellRect(cell, precision), epsilon)
      ensures LineHits(line, CellRect(cell, precision), epsilon) ==>
                NearLine(line, CellRect(cell, precision), epsilon) && (epsilon == 0.0 ==> TouchesLine(line, CellRect(cell, precision)))
    {
      LineHitsMeaning(line, CellRect(cell, precision), epsilon);
    }
    var box := ComponentBounds(line);
    forall cell | InGrid(cell, precision) && TouchesLine(line, CellRect(cell, precision))
      ensures InRanges(cell, XIndices(box, precision, epsilon), YIndices(box, precision, epsilon))
    {
      TouchedAreCandidates(line, cell, precision, epsilon);
    }
  }

  // ---- Whole geometries ----

  /** Cells of one line of a geometry, segment by segment. */
  method CellsForLine(line: seq<Point>, precision: int, epsilon: real) returns (cells: set<(int, int)>)
    requires (precision == 4 || precision == 6) && 0.0 <= epsilon < 1.0
    ensures forall cell | cell in cells :: InGrid(cell, precision) && NearlyCovers(line, cell, precision, epsilon)
    ensures forall cell | InGrid(cell, precision) && Covers(line, cell, precision) :: cell in cells
    ensures epsilon == 0.0 ==> forall cell | cell in cells :: Covers(line, cell, precision)
  {
    cells := {};
    if |line| == 1 {
      cells := {CellOf(line[0].x, line[0].y, precision)};
    } else if |line| >= 2 {
      for i := 0 to |line| - 1
        invariant forall cell | cell in cells :: InGrid(cell, precision) && NearLine(line, CellRect(cell, precision), epsilon)
        invariant forall cell, k | InGrid(cell, precision) && 0 <= k < i && Meets(Piece(line, k), CellRect(cell, precision)) :: cell in cells
        invariant epsilon == 0.0 ==> forall cell | cell in cells :: TouchesLine(line, CellRect(cell, precision))
      {
        var ends := [line[i], line[i + 1]];
        var more := CellsForComponent(ends, precision, epsilon);
        assert Piece(ends, 0) == Piece(line, i);
        forall cell | InGrid(cell, precision) && Meets(Piece(line, i), CellRect(cell, precision))
          ensures cell in more
        {
          assert TouchesLine(ends, CellRect(cell, precision));
        }
        forall cell | cell in more
          ensures NearLine(line, CellRect(cell, precision), epsilon)
        {
          assert NearLine(ends, CellRect(cell, precision), epsilon);
          assert Meets(Piece(line, i), Grown(CellRect(cell, precision), Margin(Piece(line, i), epsilon)));
        }
        forall cell | cell in more && epsilon == 0.0
          ensures TouchesLine(line, CellRect(cell, precision))
        {
          assert TouchesLine(ends, CellRect(cell, precision));
          assert Meets(Piece(line, i), CellRect(cell, precision));
        }
        cells := cells + more;
      }
    }
  }

  /** The locators of all cells a geometry covers. */
  method CoveredCells(geometry: Geometry, precision: int, epsilon: real) returns (result: Result<set<string>>)
    requires (precision == 4 || precision == 6) && 0.0 <= epsilon < 1.0
    ensures geometry.Unsupported? ==> result == Err(UnsupportedGeometry)
    ensures geometry.PointGeometry? ==>
      var locator := LocatorForPoint(geometry.point.x, geometry.point.y, precision);
      result == if locator.Ok? then Ok({locator.value}) else Err(locator.error)
    ensures IsLinear(geometry) ==> result.Ok?
    ensures IsLinear(geometry) ==> forall line, point | HasLine(geometry, line) && LineInRange(line) && OnLine(line, point) ::
      LocatorForPoint(point.x, point.y, precision).Ok? && LocatorForPoint(point.x, point.y, precision).value in result.value
    ensures IsLinear(geometry) ==> forall cell | InGrid(cell, precision) && Covered(geometry, cell, precision) ::
      Name(cell, precision) in result.value
    ensures IsLinear(geometry) && epsilon == 0.0 ==> forall cell | InGrid(cell, precision) ::
      Name(cell, precision) in result.value <==> Covered(geometry, cell, precision)
    ensures IsLinear(geometry) ==> forall locator | locator in result.value ::
      exists cell | InGrid(cell, precision) && NearlyCovered(geometry, cell, precision, epsilon) :: locator == Name(cell, precision)
  {
    match geometry
    case Unsupported => return Err(UnsupportedGeometry);
    case PointGeometry(point) =>
      var locator := LocatorForPoint(point.x, point.y, precision);
      return if locator.Ok? then Ok({locator.value}) else Err(locator.error);
    case _ =>
      var lines := Lines(geometry);
      var indices: set<(int, int)> := {};
      for i := 0 to |lines|
        invariant forall cell | cell in indices :: InGrid(cell, precision) && NearlyCovered(geometry, cell, precision, epsilon)
        invariant forall cell, k | InGrid(cell, precision) && 0 <= k < i && Covers(lines[k], cell, precision) :: cell in indices
        invariant epsilon == 0.0 ==> forall cell | cell in indices :: Covered(geometry, cell, precision)
      {
        var more := CellsForLine(lines[i], precision, epsilon);
        indices := indices + more;
      }
      forall cell | InGrid(cell, precision) && Covered(geometry, cell, precision)
        ensures cell in indices
      {
        var line :| HasLine(geometry, line) && Covers(line, cell, precision);
        assert line in lines;
        var k :| 0 <= k < |lines| && lines[k] == line;
      }
      var locators := NamesOf(indices, precision);
      NamesOfCells(indices, precision);
      forall line, point | HasLine(geometry, line) && LineInRange(line) && OnLine(line, point)
        ensures LocatorForPoint(point.x, point.y, precision).Ok?
        ensures LocatorForPoint(point.x, point.y, precision).value in locators
      {
        PointIsCovered(line, point, precision);
        LocatorNamesCell(point.x, point.y, precision);
        assert Covered(geometry, CellOf(point.x, point.y, precision), precision);
      }
      return Ok(locators);
  }

  function CentreLocator(cell: (int, int), precision: int): (name: string)
    requires (precision == 4 || precision == 6) && InGrid(cell, precision)
    ensures name == Name(cell, precision)
  {
    CentreKeepsName(cell, precision);
    LocatorForPoint(-180.0 + (cell.0 as real + 0.5) * LongitudeStep(precision),
                    -90.0 + (cell.1 as real + 0.5) * LatitudeStep(precision), precision).value
  }

  function NamesOf(indices: set<(int, int)>, precision: int): (names: set<string>)
    requires precision == 4 || precision == 6
    requires forall cell | cell in indices :: InGrid(cell, precision)
    ensures names == set cell | cell in indices :: Name(cell, precision)
  {
    set cell | cell in indices :: CentreLocator(cell, precision)
  }

  /** Encoding the accepted cells neither loses, adds nor identifies cells. */
  lemma NamesOfCells(indices: set<(int, int)>, precision: int)
    requires precision == 4 || precision == 6
    requires forall cell | cell in indices :: InGrid(cell, precision)
    ensures forall cell | InGrid(cell, precision) :: Name(cell, precision) in NamesOf(indices, precision) <==> cell in indices
    ensures forall locator | locator in NamesOf(indices, precision) ::
      exists cell | cell in indices :: locator == Name(cell, precision)
  {
    forall cell | InGrid(cell, precision) && Name(cell, precision) in NamesOf(indices, precision)
      ensures cell in indices
    {
      var other :| other in indices && Name(other, precision) == Name(cell, precision);
      NameRoundTrip(other, precision);
      NameRoundTrip(cell, precision);
    }
  }

  lemma AxisCellHolds(value: real, origin: real, step: real, count: int, extent: real)
    requires step > 0.0 && 0 < count && origin <= value <= origin + extent && count as real * step == extent
    ensures var k := ClampedIndex(value, origin, step, count);
            0 <= k < count && origin + k as real * step <= value <= Min(origin + extent, origin + k as real * step + step)
  {
    var k := ClampedIndex(value, origin, step, count);
    var whole := ((value - origin) / step).Floor;
    ScaledBounds(value, origin, step, 0);
    ScaledBounds(value, origin, step, count);
    ScaledBounds(value, origin, step, whole);
    ScaledBounds(value, origin, step, whole + 1);
    assert (whole + 1) as real * step == whole as real * step + step;
    if k != whole {
      assert k == count - 1;
      ScaledBounds(value, origin, step, k);
      assert k as real * step + step == extent;
    }
  }

  /** A point lies in the closed rectangle of its own grid cell. */
  lemma CellHoldsPoint(point: Point, precision: int)
    requires (precision == 4 || precision == 6) && InRange(point.x, point.y)
    ensures var cell := CellOf(point.x, point.y, precision);
            InGrid(cell, precision) && Inside(CellRect(cell, precision), point)
  {
    AxisCellHolds(point.x, -180.0, LongitudeStep(precision), Count(precision), 360.0);
    AxisCellHolds(point.y, -90.0, LatitudeStep(precision), Count(precision), 180.0);
  }

  /** Every point of a line in WGS84 range lies in a cell the line covers. */
  lemma PointIsCovered(line: seq<Point>, point: Point, precision: int)
    requires (precision == 4 || precision == 6) && LineInRange(line) && OnLine(line, point)
    ensures InRange(point.x, point.y)
    ensures InGrid(CellOf(point.x, point.y, precision), precision)
    ensures Covers(line, CellOf(point.x, point.y, precision), precision)
  {
    var cell := CellOf(point.x, point.y, precision);
    if line == [point] {
      assert point in line;
      CellHoldsPoint(point, precision);
    } else {
      var i, t :| 0 <= i < |line| - 1 && 0.0 <= t <= 1.0 && Along(Piece(line, i), t) == point;
      PieceInBox(line, i, t, Rect(-180.0, -90.0, 180.0, 90.0));
      CellHoldsPoint(point, precision);
      assert ContactAt(Piece(line, i), CellRect(cell, precision), t);
    }
  }
}
