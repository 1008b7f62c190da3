/** Order and sign of products of reals, each product under a name of its own. */
module Reals {

  lemma Sign(a: real, b: real, product: real)
    requires product == a * b
    ensures b > 0.0 ==> (product > 0.0 <==> a > 0.0) && (product < 0.0 <==> a < 0.0)
    ensures b < 0.0 ==> (product > 0.0 <==> a < 0.0) && (product < 0.0 <==> a > 0.0)
    ensures a == 0.0 || b == 0.0 ==> product == 0.0
  {
  }

  /** Scaling by a positive factor keeps the order, in both directions. */
  lemma Ordered(a: real, b: real, c: real, ac: real, bc: real)
    requires c > 0.0 && ac == a * c && bc == b * c
    ensures a < b <==> ac < bc
    ensures a == b <==> ac == bc
  {
    var difference := (b - a) * c;
    assert difference == bc - ac;
    Sign(b - a, c, difference);
  }

  /** A fraction of a length lies between nothing and the whole. */
  lemma Fraction(size: real, t: real, part: real)
    requires 0.0 <= t <= 1.0 && part == t * size
    ensures size >= 0.0 ==> 0.0 <= part <= size
    ensures size <= 0.0 ==> size <= part <= 0.0
  {
    var rest := (1.0 - t) * size;
    assert rest == size - part;
    Sign(t, size, part);
    Sign(1.0 - t, size, rest);
  }

  /** Clearing a denominator. */
  lemma Divided(t: real, divisor: real, dividend: real, product: real)
    requires divisor != 0.0 && product == t * divisor
    ensures divisor > 0.0 ==> (product <= dividend <==> t <= dividend / divisor) && (product < dividend <==> t < dividend / divisor)
    ensures divisor < 0.0 ==> (product <= dividend <==> t >= dividend / divisor)
  {
    var ratio := dividend / divisor;
    assert ratio * divisor == dividend;
    var difference := (t - ratio) * divisor;
    assert difference == product - dividend;
    Sign(t - ratio, divisor, difference);
  }

  /** Scaling by a factor that is not negative. */
  lemma Scale(c: real, a: real, b: real)
    requires c >= 0.0 && a <= b
    ensures c * a <= c * b
  {
    var ca, cb := c * a, c * b;
    if c > 0.0 { Ordered(a, b, c, ca, cb); }
  }
}
