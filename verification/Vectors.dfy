/** Three-vectors and quaternions of the IMU chain, over exact reals. */
module Vectors {
  import opened Prelude

  function Square(x: real): real { x * x }

  type Vec3 = v: seq<real> | |v| == 3 witness [0.0, 0.0, 0.0]

  function Norm2(v: Vec3): real { Square(v[0]) + Square(v[1]) + Square(v[2]) }

  lemma NormNonNegative(v: Vec3)
    ensures Norm2(v) >= 0.0
  {
    SquareNonNegative(v[0]);
    SquareNonNegative(v[1]);
    SquareNonNegative(v[2]);
  }

  // ---- elementary functions ------------------------------------------------

  /** The C++ mathematical functions the chain calls. Only the laws below are used; the real
      functions have them. */
  datatype Maths = Maths(root: real -> real, sin: real -> real, cos: real -> real, atan2: (real, real) -> real) {
    ghost predicate Valid() {
      && (forall x :: x >= 0.0 ==> root(x) >= 0.0 && Square(root(x)) == x)
      && (forall t :: Square(sin(t)) + Square(cos(t)) == 1.0)
      && (forall t :: Square(sin(t)) <= Square(t))
      && (forall t :: SeriesBounds(t))
      && cos(0.0) == 1.0
      && (forall y, x :: AtanLaw(y, x))
      && (forall t :: cos(t) == Square(cos(0.5 * t)) - Square(sin(0.5 * t)))
      && (forall t :: sin(t) == 2.0 * Product(sin(0.5 * t), cos(0.5 * t)))
    }

    /** `atan2` is the angle of a point; the origin has angle zero. */
    predicate AtanLaw(y: real, x: real) {
      var h := root(Square(x) + Square(y));
      && (h != 0.0 ==> Product(h, cos(atan2(y, x))) == x && Product(h, sin(atan2(y, x))) == y)
      && (x == 0.0 && y == 0.0 ==> atan2(y, x) == 0.0)
    }

    /** The first terms of the series bound sine and cosine. */
    predicate SeriesBounds(t: real) {
      && (t >= 0.0 ==> t - Product(t, Square(t)) / 6.0 <= sin(t) <= t)
      && cos(t) >= 1.0 - Square(t) / 2.0
    }

    function Length(v: Vec3): real { root(Norm2(v)) }
  }

  /** Comparing a square root with a bound is comparing the squares. */
  lemma RootCompare(m: Maths, x: real, bound: real)
    requires m.Valid() && x >= 0.0 && bound >= 0.0
    ensures m.root(x) >= 0.0
    ensures m.root(x) > bound <==> x > Square(bound)
    ensures m.root(x) < bound <==> x < Square(bound)
  {
    var r := m.root(x);
    assert r >= 0.0 && Square(r) == x;
    SquareOrder(bound, r);
    SquareOrder(r, bound);
  }

  lemma SquareOrder(a: real, b: real)
    requires a >= 0.0 && b >= 0.0
    ensures a < b ==> Square(a) < Square(b)
    ensures a == b ==> Square(a) == Square(b)
    ensures Square(a) < Square(b) ==> a < b
  {
    if a < b {
      PositiveProduct(b - a, a + b);
    } else {
      NonNegativeProduct(a - b, a + b);
    }
  }
}
