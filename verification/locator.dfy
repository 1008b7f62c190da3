/** Maidenhead locators of WGS84 points, over exact reals. */
module Locator {
  import Reals

  datatype Error = BadPrecision | OutOfRange | UnsupportedGeometry
  datatype Result<+T> = Ok(value: T) | Err(error: Error)

  /** Fields are lettered A to R. */
  function FieldLetter(index: int): char requires 0 <= index < 18 { (65 + index) as char }

  /** Squares are numbered 0 to 9. */
  function Digit(index: int): char requires 0 <= index < 10 { (48 + index) as char }

  /** Subsquares are lettered a to x. */
  function SubsquareLetter(index: int): char requires 0 <= index < 24 { (97 + index) as char }

  function Clamp(index: int, count: int): (i: int)
    requires 0 < count
  {
    var low := if index < 0 then 0 else index;
    if count - 1 < low then count - 1 else low
  }

  function ClampedIndex(value: real, origin: real, step: real, count: int): int
    requires step > 0.0 && 0 < count
  {
    Clamp(((value - origin) / step).Floor, count)
  }

  predicate InRange(longitude: real, latitude: real) {
    -180.0 <= longitude <= 180.0 && -90.0 <= latitude <= 90.0
  }

  /** Field, square and subsquare of a longitude, each from what the coarser ones left over. */
  function LongitudeDigits(longitude: real): (int, int, int) {
    var x := ClampedIndex(longitude, -180.0, 20.0, 18);
    var remainder := longitude + 180.0 - x as real * 20.0;
    var square := Clamp((remainder / 2.0).Floor, 10);
    (x, square, Clamp(((remainder - square as real * 2.0) * 12.0).Floor, 24))
  }

  function LatitudeDigits(latitude: real): (int, int, int) {
    var y := ClampedIndex(latitude, -90.0, 10.0, 18);
    var remainder := latitude + 90.0 - y as real * 10.0;
    var square := Clamp(remainder.Floor, 10);
    (y, square, Clamp(((remainder - square as real) * 24.0).Floor, 24))
  }

  function LocatorForPoint(longitude: real, latitude: real, precision: int): Result<string> {
    if precision != 4 && precision != 6 then Err(BadPrecision)
    else if !InRange(longitude, latitude) then Err(OutOfRange)
    else
      var (x, squareX, subsquareX) := LongitudeDigits(longitude);
      var (y, squareY, subsquareY) := LatitudeDigits(latitude);
      var square := [FieldLetter(x), FieldLetter(y), Digit(squareX), Digit(squareY)];
      if precision == 4 then Ok(square)
      else Ok(square + [SubsquareLetter(subsquareX), SubsquareLetter(subsquareY)])
  }

  // ---- The grid the locators name: one flat index per axis ----

  function LongitudeStep(precision: int): real { if precision == 4 then 2.0 else 1.0 / 12.0 }

  function LatitudeStep(precision: int): real { if precision == 4 then 1.0 else 1.0 / 24.0 }

  function Count(precision: int): int { if precision == 4 then 180 else 4320 }

  predicate InGrid(cell: (int, int), precision: int) {
    0 <= cell.0 < Count(precision) && 0 <= cell.1 < Count(precision)
  }

  function CellOf(longitude: real, latitude: real, precision: int): (int, int) {
    (ClampedIndex(longitude, -180.0, LongitudeStep(precision), Count(precision)),
     ClampedIndex(latitude, -90.0, LatitudeStep(precision), Count(precision)))
  }

  /** The name of a grid cell, written without going through a point. */
  function Name(cell: (int, int), precision: int): string
    requires InGrid(cell, precision)
  {
    if precision == 4 then
      [FieldLetter(cell.0 / 10), FieldLetter(cell.1 / 10), Digit(cell.0 % 10), Digit(cell.1 % 10)]
    else
      [FieldLetter(cell.0 / 240), FieldLetter(cell.1 / 240), Digit(cell.0 / 24 % 10), Digit(cell.1 / 24 % 10)]
      + [SubsquareLetter(cell.0 % 24), SubsquareLetter(cell.1 % 24)]
  }

  /** Reads a locator back into its grid cell. */
  function CellNamed(name: string): (int, int)
    requires |name| == 4 || |name| == 6
  {
    var x, y := name[0] as int - 65, name[1] as int - 65;
    var squareX, squareY := name[2] as int - 48, name[3] as int - 48;
    if |name| == 4 then (x * 10 + squareX, y * 10 + squareY)
    else (x * 240 + squareX * 24 + name[4] as int - 97, y * 240 + squareY * 24 + name[5] as int - 97)
  }

  /** A name determines its cell. */
  lemma NameRoundTrip(cell: (int, int), precision: int)
    requires (precision == 4 || precision == 6) && InGrid(cell, precision)
    ensures CellNamed(Name(cell, precision)) == cell
  {
    if precision == 6 {
      MixedRadix(cell.0);
      MixedRadix(cell.1);
    }
  }

  lemma MixedRadix(index: int)
    requires 0 <= index < 4320
    ensures 0 <= index / 240 < 18 && index / 240 * 240 + index / 24 % 10 * 24 + index % 24 == index
  {
    assert index / 24 == index / 240 * 10 + index / 24 % 10;
  }

  lemma FloorOfQuotient(u: real, n: int)
    requires u >= 0.0 && n > 0
    ensures (u / n as real).Floor == u.Floor / n
  {
    var q, d := u.Floor / n, n as real;
    assert n * q <= u.Floor < n * q + n;
    var low := q as real * d;
    assert low == (n * q) as real;
    var high := (q as real + 1.0) * d;
    assert high == low + d;
    Reals.Divided(q as real, d, u, low);
    Reals.Divided(q as real + 1.0, d, u, high);
  }

  /** The digits of a flat fine index in the radices 18, 10 and 24. */
  function Radix(flat: int): (int, int, int) { (flat / 240, flat / 24 % 10, flat % 24) }

  lemma Digits(field: int, square: int, unit: int)
    requires 0 <= square < 10 && 0 <= unit < 24
    ensures Radix(field * 240 + square * 24 + unit) == (field, square, unit)
  {
    var flat := field * 240 + square * 24 + unit;
    var tens := field * 10 + square;
    assert flat == tens * 24 + unit;
    assert flat / 24 == tens && flat % 24 == unit;
    assert tens % 10 == square;
  }

  /** Peeling clamped digits off a whole index gives its digits. */
  lemma PeelDigits(whole: int)
    requires 0 <= whole <= 4320
    ensures var field := Clamp(whole / 240, 18);
            var square := Clamp((whole - field * 240) / 24, 10);
            (field, square, Clamp(whole - field * 240 - square * 24, 24)) == Radix(Clamp(whole, 4320))
  {
    if whole < 4320 {
      var field := whole / 240;
      var rest := whole - field * 240;
      var square := rest / 24;
      assert 0 <= field < 18 && 0 <= rest < 240 && 0 <= square < 10 && 0 <= rest - square * 24 < 24;
      Digits(field, square, rest - square * 24);
    }
  }

  /** Peeling field, square and subsquare off one axis gives the digits of the flat index. */
  lemma AxisDigits(u: real)
    requires 0.0 <= u <= 4320.0
    ensures var field := Clamp((u / 240.0).Floor, 18);
            var square := Clamp(((u - (field * 240) as real) / 24.0).Floor, 10);
            var subsquare := Clamp((u - (field * 240 + square * 24) as real).Floor, 24);
            (field, square, subsquare) == Radix(Clamp(u.Floor, 4320))
  {
    PeelDigits(u.Floor);
    FloorOfQuotient(u, 240);
    var field := Clamp((u / 240.0).Floor, 18);
    var rest := u - (field * 240) as real;
    assert rest.Floor == u.Floor - field * 240;
    FloorOfQuotient(rest, 24);
  }

  lemma LongitudeRadix(longitude: real)
    requires -180.0 <= longitude <= 180.0
    ensures LongitudeDigits(longitude) == Radix(ClampedIndex(longitude, -180.0, 1.0 / 12.0, 4320))
  {
    var u := (longitude + 180.0) * 12.0;
    AxisDigits(u);
    assert (longitude - -180.0) / 20.0 == u / 240.0;
    assert (longitude - -180.0) / (1.0 / 12.0) == u;
  }

  lemma LatitudeRadix(latitude: real)
    requires -90.0 <= latitude <= 90.0
    ensures LatitudeDigits(latitude) == Radix(ClampedIndex(latitude, -90.0, 1.0 / 24.0, 4320))
  {
    var v := (latitude + 90.0) * 24.0;
    AxisDigits(v);
    assert (latitude - -90.0) / 10.0 == v / 240.0;
    assert (latitude - -90.0) / (1.0 / 24.0) == v;
  }

  /** The coarse grid is the fine grid with its subsquares dropped. */
  lemma CoarseGrid(longitude: real, latitude: real)
    requires InRange(longitude, latitude)
    ensures CellOf(longitude, latitude, 4).0 == CellOf(longitude, latitude, 6).0 / 24
    ensures CellOf(longitude, latitude, 4).1 == CellOf(longitude, latitude, 6).1 / 24
  {
    var u, v := (longitude + 180.0) * 12.0, (latitude + 90.0) * 24.0;
    FloorOfQuotient(u, 24);
    FloorOfQuotient(v, 24);
    assert (longitude - -180.0) / 2.0 == u / 24.0 && (latitude - -90.0) / 1.0 == v / 24.0;
    assert (longitude - -180.0) / (1.0 / 12.0) == u && (latitude - -90.0) / (1.0 / 24.0) == v;
  }

  /** A point's locator is the name of the grid cell it falls in. */
  lemma LocatorNamesCell(longitude: real, latitude: real, precision: int)
    requires (precision == 4 || precision == 6) && InRange(longitude, latitude)
    ensures InGrid(CellOf(longitude, latitude, precision), precision)
    ensures LocatorForPoint(longitude, latitude, precision) == Ok(Name(CellOf(longitude, latitude, precision), precision))
  {
    LongitudeRadix(longitude);
    LatitudeRadix(latitude);
    CoarseGrid(longitude, latitude);
    var fine := CellOf(longitude, latitude, 6);
    assert fine.0 / 24 / 10 == fine.0 / 240 && fine.1 / 24 / 10 == fine.1 / 240;
  }

  /** Re-encoding the centre of a grid cell gives the name of that cell. */
  lemma CentreKeepsName(cell: (int, int), precision: int)
    requires (precision == 4 || precision == 6) && InGrid(cell, precision)
    ensures LocatorForPoint(-180.0 + (cell.0 as real + 0.5) * LongitudeStep(precision),
                            -90.0 + (cell.1 as real + 0.5) * LatitudeStep(precision), precision)
            == Ok(Name(cell, precision))
  {
    var longitude := -180.0 + (cell.0 as real + 0.5) * LongitudeStep(precision);
    var latitude := -90.0 + (cell.1 as real + 0.5) * LatitudeStep(precision);
    assert (longitude - -180.0) / LongitudeStep(precision) == cell.0 as real + 0.5;
    assert (latitude - -90.0) / LatitudeStep(precision) == cell.1 as real + 0.5;
    assert CellOf(longitude, latitude, precision) == cell;
    LocatorNamesCell(longitude, latitude, precision);
  }

  /** The grid starts at AA00aa in the south west and ends at RR99xx in the north east, longitude first. */
  lemma KnownLocators()
    ensures LocatorForPoint(-180.0, -90.0, 6) == Ok("AA00aa") && LocatorForPoint(180.0, 90.0, 6) == Ok("RR99xx")
    ensures LocatorForPoint(0.0, 0.0, 4) == Ok("JJ00") && LocatorForPoint(11.6083, 48.1466, 6) == Ok("JN58td")
  {
    assert LongitudeDigits(-180.0) == (0, 0, 0) && LatitudeDigits(-90.0) == (0, 0, 0);
    assert LongitudeDigits(180.0) == (17, 9, 23) && LatitudeDigits(90.0) == (17, 9, 23);
    assert LongitudeDigits(0.0) == (9, 0, 0) && LatitudeDigits(0.0) == (9, 0, 0);
    assert LongitudeDigits(11.6083) == (9, 5, 19) && LatitudeDigits(48.1466) == (13, 8, 3);
    assert ['A', 'A', '0', '0'] + ['a', 'a'] == "AA00aa" && ['R', 'R', '9', '9'] + ['x', 'x'] == "RR99xx";
    assert ['J', 'J', '0', '0'] == "JJ00" && ['J', 'N', '5', '8'] + ['t', 'd'] == "JN58td";
  }

  /** Which points are refused, and with which error. */
  lemma RefusedPoints(longitude: real, latitude: real, precision: int)
    ensures var located := LocatorForPoint(longitude, latitude, precision);
            && (precision != 4 && precision != 6 ==> located == Err(BadPrecision))
            && (precision == 4 || precision == 6 ==>
                  (located == Err(OutOfRange) <==> longitude < -180.0 || longitude > 180.0 || latitude < -90.0 || latitude > 90.0))
            && (located.Ok? ==> |located.value| == precision)
  {
  }
}
