/** The cubic blend 3x^2 - 2x^3 used by the action handoff and by the startup ramp. */
module Smoothstep {
  import opened Prelude

  function Smooth(x: real): real { x * x * (3.0 - 2.0 * x) }

  /** On the unit interval the blend never falls and never climbs faster than slope 1.5. */
  lemma SmoothIncrement(x: real, y: real)
    requires 0.0 <= x <= y <= 1.0
    ensures 0.0 <= Smooth(y) - Smooth(x) <= 1.5 * (y - x)
  {
    var u, v := x - 0.5, y - 0.5;
    var spread := u * u + u * v + v * v;
    SpreadBound(u, v);
    var slope := 1.5 - 2.0 * spread;
    assert Smooth(y) - Smooth(x) == (y - x) * slope by { Factor(x, y); }
    NonNegativeProduct(y - x, slope);
    NonNegativeProduct(y - x, spread);
    assert (y - x) * slope == 1.5 * (y - x) - 2.0 * ((y - x) * spread);
  }

  lemma SpreadBound(u: real, v: real)
    requires -0.5 <= u <= 0.5 && -0.5 <= v <= 0.5
    ensures 0.0 <= u * u + u * v + v * v <= 0.75
  {
    SquareBound(u);
    SquareBound(v);
    SquareNonNegative(u + v);
    assert (u + v) * (u + v) == u * u + 2.0 * (u * v) + v * v;
    SquareNonNegative(u - v);
    assert (u - v) * (u - v) == u * u - 2.0 * (u * v) + v * v;
  }

  lemma SquareBound(u: real)
    requires -0.5 <= u <= 0.5
    ensures 0.0 <= u * u <= 0.25
  {
    NonNegativeProduct(0.5 - u, 0.5 + u);
    assert (0.5 - u) * (0.5 + u) == 0.25 - u * u;
  }

  lemma Factor(x: real, y: real)
    ensures var u, v := x - 0.5, y - 0.5;
            Smooth(y) - Smooth(x) == (y - x) * (1.5 - 2.0 * (u * u + u * v + v * v))
  {
    var xx, xy, yy := x * x, x * y, y * y;
    var u, v := x - 0.5, y - 0.5;
    assert u * u + u * v + v * v == xx + xy + yy - 1.5 * x - 1.5 * y + 0.75;
    assert (y - x) * (xx + xy + yy) == y * yy - x * xx;
    assert (y - x) * (x + y) == yy - xx;
  }

  /** The end points, and only they, give the values zero and one. */
  lemma SmoothEnds(x: real)
    requires 0.0 <= x <= 1.0
    ensures 0.0 <= Smooth(x) <= 1.0
    ensures Smooth(x) == 0.0 <==> x == 0.0
    ensures Smooth(x) == 1.0 <==> x == 1.0
  {
    SmoothIncrement(0.0, x);
    SmoothIncrement(x, 1.0);
    GapAbove(x);
    if x > 0.0 {
      PositiveProduct(x, x);
      PositiveProduct(x * x, 3.0 - 2.0 * x);
    }
  }

  lemma GapAbove(x: real)
    requires 0.0 <= x <= 1.0
    ensures Smooth(x) == 1.0 <==> x == 1.0
  {
    GapFactors(x);
    hide Smooth, Product;
    if x < 1.0 {
      ProductPositive(1.0 - x, 1.0 - x);
      ProductPositive(Product(1.0 - x, 1.0 - x), 1.0 + 2.0 * x);
    }
  }

  lemma GapFactors(x: real)
    ensures 1.0 - Smooth(x) == Product(Product(1.0 - x, 1.0 - x), 1.0 + 2.0 * x)
    ensures x == 1.0 ==> Smooth(x) == 1.0
  {
    assert (1.0 - x) * (1.0 - x) == 1.0 - 2.0 * x + x * x;
  }

  lemma ProductPositive(x: real, y: real)
    requires x > 0.0 && y > 0.0
    ensures Product(x, y) > 0.0
  {
  }

  /** The blend leaves zero and arrives at one at rest, and runs the same way back: it stays below a
      multiple of the square of the distance at both ends, and mirroring the time mirrors the value. */
  lemma SmoothStartsAtRest(x: real)
    requires 0.0 <= x <= 1.0
    ensures Smooth(x) <= 3.0 * (x * x) && 1.0 - Smooth(x) <= 3.0 * ((1.0 - x) * (1.0 - x))
    ensures Smooth(x) + Smooth(1.0 - x) == 1.0
    ensures Smooth(0.25) == 0.15625 && Smooth(0.5) == 0.5
  {
    SquareNonNegative(x);
    NonNegativeProduct(x * x, x);
    assert Smooth(x) == 3.0 * (x * x) - 2.0 * ((x * x) * x);
    Mirrored(x);
    var y := 1.0 - x;
    SquareNonNegative(y);
    NonNegativeProduct(y * y, y);
    assert Smooth(y) == 3.0 * (y * y) - 2.0 * ((y * y) * y);
  }

  lemma Mirrored(x: real)
    ensures Smooth(x) + Smooth(1.0 - x) == 1.0
  {
    assert (1.0 - x) * (1.0 - x) == 1.0 - 2.0 * x + x * x;
  }

  /** A blend of two numbers. */
  function Mix(a: real, x: real, y: real): real { Product(1.0 - a, x) + Product(a, y) }

  lemma MixWithin(a: real, x: real, y: real, low: real, high: real)
    requires 0.0 <= a <= 1.0 && low <= x <= high && low <= y <= high
    ensures low <= Mix(a, x, y) <= high
  {
    NonNegativeProduct(1.0 - a, x - low);
    NonNegativeProduct(a, y - low);
    NonNegativeProduct(1.0 - a, high - x);
    NonNegativeProduct(a, high - y);
  }

  lemma MixEnds(x: real, y: real)
    ensures Mix(0.0, x, y) == x && Mix(1.0, x, y) == y
  {
  }

  /** Moving the blend moves the value in proportion to the distance it spans. */
  lemma MixStep(a: real, b: real, x: real, y: real)
    ensures Mix(b, x, y) - Mix(a, x, y) == Product(b - a, y - x)
  {
  }
}
