/** Liang-Barsky contact tests between segments and rectangles, with a tolerance. */
module Clipping {
  import Reals

  datatype Point = Point(x: real, y: real)
  datatype Rect = Rect(minX: real, minY: real, maxX: real, maxY: real)

  function Abs(r: real): real { if r < 0.0 then -r else r }

  function Max(a: real, b: real): real { if a < b then b else a }

  function Min(a: real, b: real): real { if b < a then b else a }

  /** A segment by its start and its extent along each axis. */
  datatype Segment = Segment(start: Point, dx: real, dy: real)

  function SegmentBetween(start: Point, end: Point): Segment {
    Segment(start, end.x - start.x, end.y - start.y)
  }

  function Along(segment: Segment, t: real): Point {
    Point(segment.start.x + t * segment.dx, segment.start.y + t * segment.dy)
  }

  predicate Inside(rect: Rect, point: Point) {
    rect.minX <= point.x <= rect.maxX && rect.minY <= point.y <= rect.maxY
  }

  function Grown(rect: Rect, margin: real): Rect {
    Rect(rect.minX - margin, rect.minY - margin, rect.maxX + margin, rect.maxY + margin)
  }

  /** The segment is inside the closed rectangle at parameter t. */
  predicate ContactAt(segment: Segment, rect: Rect, t: real) {
    0.0 <= t <= 1.0 && Inside(rect, Along(segment, t))
  }

  ghost predicate Meets(segment: Segment, rect: Rect) {
    exists t :: ContactAt(segment, rect, t)
  }

  /** How far outside the rectangle an accepted segment may pass. */
  function Margin(segment: Segment, epsilon: real): real {
    epsilon * Max(2.0, Max(Abs(segment.dx), Abs(segment.dy)))
  }

  /** The four half planes of the rectangle, each as t * direction <= distance. */
  function Constraint(segment: Segment, rect: Rect, k: nat): (real, real) {
    if k == 0 then (-segment.dx, segment.start.x - rect.minX)
    else if k == 1 then (segment.dx, rect.maxX - segment.start.x)
    else if k == 2 then (-segment.dy, segment.start.y - rect.minY)
    else (segment.dy, rect.maxY - segment.start.y)
  }

  /** What the window [lower, upper] guarantees about a constraint it has absorbed. */
  predicate Absorbed(direction: real, distance: real, lower: real, upper: real, epsilon: real) {
    if Abs(direction) <= epsilon then distance >= -epsilon
    else if direction < 0.0 then lower * direction <= distance
    else upper * direction <= distance
  }

  ghost predicate Absorbs(segment: Segment, rect: Rect, k: nat, lower: real, upper: real, epsilon: real) {
    var (direction, distance) := Constraint(segment, rect, k);
    Absorbed(direction, distance, lower, upper, epsilon)
  }

  /** The parameters that the half planes tested so far leave to the segment. */
  datatype Window = Rejected | Open(lower: real, upper: real)

  /** One half plane narrows the window; directions within the tolerance only reject. */
  function Tested(window: Window, direction: real, distance: real, epsilon: real): Window
    requires epsilon >= 0.0
  {
    if window.Rejected? then Rejected
    else if Abs(direction) <= epsilon then if distance < -epsilon then Rejected else window
    else
      var ratio := distance / direction;
      var lower := if direction < 0.0 then Max(window.lower, ratio) else window.lower;
      var upper := if direction < 0.0 then window.upper else Min(window.upper, ratio);
      if lower > upper + epsilon then Rejected else Open(lower, upper)
  }

  function Clipped(segment: Segment, rect: Rect, k: nat, epsilon: real): Window
    requires epsilon >= 0.0
  {
    if k == 0 then Open(0.0, 1.0)
    else
      var (direction, distance) := Constraint(segment, rect, k - 1);
      Tested(Clipped(segment, rect, k - 1, epsilon), direction, distance, epsilon)
  }

  /** The verdict of the clipping test. */
  predicate Hits(start: Point, end: Point, rect: Rect, epsilon: real)
    requires epsilon >= 0.0
  {
    Clipped(SegmentBetween(start, end), rect, 4, epsilon).Open?
  }

  method SegmentIntersectsRect(start: Point, end: Point, rect: Rect, epsilon: real) returns (hit: bool)
    requires epsilon >= 0.0
    ensures hit == Hits(start, end, rect, epsilon)
    ensures Meets(SegmentBetween(start, end), rect) ==> hit
    ensures hit ==> Meets(SegmentBetween(start, end), Grown(rect, Margin(SegmentBetween(start, end), epsilon)))
    ensures epsilon == 0.0 ==> (hit <==> Meets(SegmentBetween(start, end), rect))
  {
    HitsMeaning(start, end, rect, epsilon);
    hit := ClipSegment(SegmentBetween(start, end), rect, epsilon);
  }

  /** The loop over the four half planes. */
  method ClipSegment(segment: Segment, rect: Rect, epsilon: real) returns (hit: bool)
    requires epsilon >= 0.0
    ensures hit == Clipped(segment, rect, 4, epsilon).Open?
  {
    var lower, upper := 0.0, 1.0;
    for k := 0 to 4
      invariant Clipped(segment, rect, k, epsilon) == Open(lower, upper)
    {
      var (direction, distance) := Constraint(segment, rect, k);
      if Abs(direction) <= epsilon {
        if distance < -epsilon {
          StaysRejected(segment, rect, k + 1, epsilon);
          return false;
        }
        continue;
      }
      var ratio := distance / direction;
      if direction < 0.0 {
        lower := Max(lower, ratio);
      } else {
        upper := Min(upper, ratio);
      }
      if lower > upper + epsilon {
        StaysRejected(segment, rect, k + 1, epsilon);
        return false;
      }
    }
    return true;
  }

  lemma {:induction false} StaysRejected(segment: Segment, rect: Rect, k: nat, epsilon: real)
    requires epsilon >= 0.0 && k <= 4 && Clipped(segment, rect, k, epsilon) == Rejected
    ensures Clipped(segment, rect, 4, epsilon) == Rejected
    decreases 4 - k
  {
    if k < 4 { StaysRejected(segment, rect, k + 1, epsilon); }
  }

  /** The test never rejects a contact, accepts only near ones, and is exact without tolerance. */
  lemma HitsMeaning(start: Point, end: Point, rect: Rect, epsilon: real)
    requires epsilon >= 0.0
    ensures var segment := SegmentBetween(start, end);
            && (Meets(segment, rect) ==> Hits(start, end, rect, epsilon))
            && (Hits(start, end, rect, epsilon) ==> Meets(segment, Grown(rect, Margin(segment, epsilon))))
            && (epsilon == 0.0 && Hits(start, end, rect, epsilon) ==> Meets(segment, rect))
  {
    var segment := SegmentBetween(start, end);
    ClippedWindow(segment, rect, 4, epsilon);
    match Clipped(segment, rect, 4, epsilon)
    case Rejected =>
    case Open(lower, upper) => NearContact(segment, rect, lower, upper, epsilon);
  }

  /** What the window says after the first k half planes. */
  ghost predicate WindowOf(segment: Segment, rect: Rect, k: nat, window: Window, epsilon: real) {
    match window
    case Rejected => forall t :: !ContactAt(segment, rect, t)
    case Open(lower, upper) =>
      && 0.0 <= lower && upper <= 1.0 && lower <= upper + epsilon
      && (forall t :: ContactAt(segment, rect, t) ==> lower <= t <= upper)
      && forall i: nat | i < k :: Absorbs(segment, rect, i, lower, upper, epsilon)
  }

  lemma {:induction false} ClippedWindow(segment: Segment, rect: Rect, k: nat, epsilon: real)
    requires epsilon >= 0.0 && k <= 4
    ensures WindowOf(segment, rect, k, Clipped(segment, rect, k, epsilon), epsilon)
  {
    if k > 0 {
      ClippedWindow(segment, rect, k - 1, epsilon);
      TestedWindow(segment, rect, k - 1, Clipped(segment, rect, k - 1, epsilon), epsilon);
    }
  }

  lemma TestedWindow(segment: Segment, rect: Rect, k: nat, window: Window, epsilon: real)
    requires epsilon >= 0.0 && k < 4 && WindowOf(segment, rect, k, window, epsilon)
    ensures var (direction, distance) := Constraint(segment, rect, k);
            WindowOf(segment, rect, k + 1, Tested(window, direction, distance, epsilon), epsilon)
  {
    var (direction, distance) := Constraint(segment, rect, k);
    forall t | ContactAt(segment, rect, t)
      ensures Respects(t, direction, distance, epsilon)
    {
      ContactRespects(segment, rect, k, epsilon, t);
    }
    if window.Open? && Abs(direction) > epsilon {
      Narrow(segment, rect, k, window.lower, window.upper, epsilon);
    }
  }

  /** Narrowing the window by one ratio absorbs its constraint and keeps the earlier ones. */
  lemma Narrow(segment: Segment, rect: Rect, k: nat, lower: real, upper: real, epsilon: real)
    requires epsilon >= 0.0 && Abs(Constraint(segment, rect, k).0) > epsilon
    requires forall i: nat | i < k :: Absorbs(segment, rect, i, lower, upper, epsilon)
    ensures var (direction, distance) := Constraint(segment, rect, k);
            var lower' := if direction < 0.0 then Max(lower, distance / direction) else lower;
            var upper' := if direction < 0.0 then upper else Min(upper, distance / direction);
            forall i: nat | i <= k :: Absorbs(segment, rect, i, lower', upper', epsilon)
  {
    var (direction, distance) := Constraint(segment, rect, k);
    var lower' := if direction < 0.0 then Max(lower, distance / direction) else lower;
    var upper' := if direction < 0.0 then upper else Min(upper, distance / direction);
    forall i: nat | i <= k
      ensures Absorbs(segment, rect, i, lower', upper', epsilon)
    {
      var (direction', distance') := Constraint(segment, rect, i);
      if i < k {
        assert Absorbs(segment, rect, i, lower, upper, epsilon);
        StayAbsorbed(direction', distance', lower, upper, lower', upper', epsilon);
      } else {
        var low, high := lower' * direction, upper' * direction;
        Reals.Divided(lower', direction, distance, low);
        Reals.Divided(upper', direction, distance, high);
      }
    }
  }

  lemma StayAbsorbed(direction: real, distance: real, lower: real, upper: real, lower': real, upper': real, epsilon: real)
    requires epsilon >= 0.0 && lower <= lower' && upper' <= upper
    requires Absorbed(direction, distance, lower, upper, epsilon)
    ensures Absorbed(direction, distance, lower', upper', epsilon)
  {
    if direction < 0.0 { Reals.Scale(-direction, lower, lower'); } else { Reals.Scale(direction, upper', upper); }
  }

  /** A parameter respects a constraint, in the form the test uses. */
  predicate Respects(t: real, direction: real, distance: real, epsilon: real) {
    if Abs(direction) <= epsilon then distance >= -epsilon
    else direction != 0.0 && if direction < 0.0 then t >= distance / direction else t <= distance / direction
  }

  lemma ContactRespects(segment: Segment, rect: Rect, k: nat, epsilon: real, t: real)
    requires k < 4 && epsilon >= 0.0 && ContactAt(segment, rect, t)
    ensures var (direction, distance) := Constraint(segment, rect, k); Respects(t, direction, distance, epsilon)
  {
    var (direction, distance) := Constraint(segment, rect, k);
    ContactMeetsConstraint(segment, rect, t, k);
    BoundRespects(t, direction, distance, t * direction, epsilon);
  }

  lemma BoundRespects(t: real, direction: real, distance: real, product: real, epsilon: real)
    requires 0.0 <= t <= 1.0 && epsilon >= 0.0 && product == t * direction && product <= distance
    ensures Respects(t, direction, distance, epsilon)
  {
    if Abs(direction) <= epsilon {
      SmallProduct(t, direction, epsilon, product);
    } else {
      Reals.Divided(t, direction, distance, product);
    }
  }

  lemma ContactMeetsConstraint(segment: Segment, rect: Rect, t: real, k: nat)
    requires k < 4 && ContactAt(segment, rect, t)
    ensures t * Constraint(segment, rect, k).0 <= Constraint(segment, rect, k).1
  {
    var (direction, distance) := Constraint(segment, rect, k);
    var dx, dy := segment.dx, segment.dy;
    if k == 0 {
      assert t * direction == -(t * dx);
    } else if k == 2 {
      assert t * direction == -(t * dy);
    }
  }

  lemma SmallProduct(t: real, direction: real, epsilon: real, product: real)
    requires 0.0 <= t <= 1.0 && Abs(direction) <= epsilon && product == t * direction
    ensures -epsilon <= product <= epsilon
  {
    Reals.Fraction(direction, t, product);
  }

  /** A window that closed by at most epsilon gives a parameter that violates each
      half plane by at most the margin. */
  lemma NearContact(segment: Segment, rect: Rect, lower: real, upper: real, epsilon: real)
    requires epsilon >= 0.0 && 0.0 <= lower && upper <= 1.0 && lower <= upper + epsilon
    requires forall i: nat | i < 4 :: Absorbs(segment, rect, i, lower, upper, epsilon)
    ensures Meets(segment, Grown(rect, Margin(segment, epsilon)))
    ensures epsilon == 0.0 ==> Meets(segment, rect)
  {
    var margin := Margin(segment, epsilon);
    MarginCovers(segment, epsilon, margin);
    var t := NearParameter(segment, rect, lower, upper, epsilon, margin);
    assert ContactAt(segment, Grown(rect, margin), t);
    assert margin == 0.0 ==> Grown(rect, margin) == rect;
  }

  lemma NearParameter(segment: Segment, rect: Rect, lower: real, upper: real, epsilon: real, margin: real) returns (t: real)
    requires epsilon >= 0.0 && 0.0 <= lower && upper <= 1.0 && lower <= upper + epsilon
    requires forall i: nat | i < 4 :: Absorbs(segment, rect, i, lower, upper, epsilon)
    requires epsilon * 2.0 <= margin
    requires epsilon * Abs(segment.dx) <= margin && epsilon * Abs(segment.dy) <= margin
    ensures ContactAt(segment, Grown(rect, margin), t)
  {
    t := if lower <= 1.0 then lower else 1.0;
    NearHorizontally(segment, rect, lower, upper, t, epsilon, margin);
    NearVertically(segment, rect, lower, upper, t, epsilon, margin);
  }

  lemma NearHorizontally(segment: Segment, rect: Rect, lower: real, upper: real, t: real, epsilon: real, margin: real)
    requires epsilon >= 0.0 && 0.0 <= t <= 1.0 && lower - epsilon <= t <= upper + epsilon
    requires Absorbs(segment, rect, 0, lower, upper, epsilon) && Absorbs(segment, rect, 1, lower, upper, epsilon)
    requires epsilon * 2.0 <= margin && epsilon * Abs(segment.dx) <= margin
    ensures rect.minX - margin <= Along(segment, t).x <= rect.maxX + margin
  {
    AxisNear(segment.start.x, segment.dx, rect.minX, rect.maxX, lower, upper, t, epsilon, margin);
  }

  lemma NearVertically(segment: Segment, rect: Rect, lower: real, upper: real, t: real, epsilon: real, margin: real)
    requires epsilon >= 0.0 && 0.0 <= t <= 1.0 && lower - epsilon <= t <= upper + epsilon
    requires Absorbs(segment, rect, 2, lower, upper, epsilon) && Absorbs(segment, rect, 3, lower, upper, epsilon)
    requires epsilon * 2.0 <= margin && epsilon * Abs(segment.dy) <= margin
    ensures rect.minY - margin <= Along(segment, t).y <= rect.maxY + margin
  {
    AxisNear(segment.start.y, segment.dy, rect.minY, rect.maxY, lower, upper, t, epsilon, margin);
  }

  lemma AxisNear(from: real, delta: real, low: real, high: real, lower: real, upper: real, t: real, epsilon: real, margin: real)
    requires epsilon >= 0.0 && 0.0 <= t <= 1.0 && lower - epsilon <= t <= upper + epsilon
    requires Absorbed(-delta, from - low, lower, upper, epsilon)
    requires Absorbed(delta, high - from, lower, upper, epsilon)
    requires epsilon * 2.0 <= margin && epsilon * Abs(delta) <= margin
    ensures low - margin <= from + t * delta <= high + margin
  {
    NearConstraint(-delta, from - low, lower, upper, t, epsilon, margin);
    NearConstraint(delta, high - from, lower, upper, t, epsilon, margin);
    assert t * -delta == -(t * delta);
  }

  lemma NearConstraint(direction: real, distance: real, lower: real, upper: real, t: real, epsilon: real, margin: real)
    requires epsilon >= 0.0 && 0.0 <= t <= 1.0 && lower - epsilon <= t <= upper + epsilon
    requires Absorbed(direction, distance, lower, upper, epsilon)
    requires epsilon * 2.0 <= margin && epsilon * Abs(direction) <= margin
    ensures t * direction <= distance + margin
  {
    var product := t * direction;
    if Abs(direction) <= epsilon {
      SmallProduct(t, direction, epsilon, product);
    } else if direction < 0.0 {
      var bound := (lower - epsilon) * direction;
      assert bound == lower * direction + epsilon * -direction;
      Below(t, lower - epsilon, direction, product, bound);
    } else {
      var bound := (upper + epsilon) * direction;
      assert bound == upper * direction + epsilon * direction;
      Reals.Ordered(t, upper + epsilon, direction, product, bound);
    }
  }

  lemma Below(t: real, least: real, direction: real, product: real, bound: real)
    requires direction < 0.0 && least <= t && product == t * direction && bound == least * direction
    ensures product <= bound
  {
    var difference := (t - least) * direction;
    assert difference == product - bound;
    Reals.Sign(t - least, direction, difference);
  }

  lemma MarginCovers(segment: Segment, epsilon: real, margin: real)
    requires epsilon >= 0.0 && margin == Margin(segment, epsilon)
    ensures epsilon * 2.0 <= margin
    ensures epsilon * Abs(segment.dx) <= margin && epsilon * Abs(segment.dy) <= margin
    ensures epsilon == 0.0 ==> margin == 0.0
  {
    var dx, dy := Abs(segment.dx), Abs(segment.dy);
    ScaleAll(epsilon, dx, dy, Max(2.0, Max(dx, dy)));
  }

  lemma ScaleAll(epsilon: real, dx: real, dy: real, widest: real)
    requires epsilon >= 0.0 && 2.0 <= widest && dx <= widest && dy <= widest
    ensures epsilon * 2.0 <= epsilon * widest && epsilon * dx <= epsilon * widest && epsilon * dy <= epsilon * widest
  {
    Reals.Scale(epsilon, 2.0, widest);
    Reals.Scale(epsilon, dx, widest);
    Reals.Scale(epsilon, dy, widest);
  }
}
