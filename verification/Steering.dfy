/** Where one update of the attitude filter turns the estimate: every rate turns the estimated up
    direction by minus that rate, and the tilt correction turns it towards the measured one
    (native/src/imu_six_axis.hpp:76-101). */
module Steering {
  import opened Prelude
  import opened Vectors
  import opened AttitudeFilter

  function Dot(a: Vec3, b: Vec3): real { Product(a[0], b[0]) + Product(a[1], b[1]) + Product(a[2], b[2]) }

  function Scaled(k: real, v: Vec3): Vec3 { [Product(k, v[0]), Product(k, v[1]), Product(k, v[2])] }

  function Minus(a: Vec3, b: Vec3): Vec3 { [a[0] - b[0], a[1] - b[1], a[2] - b[2]] }

  function Plus(a: Vec3, b: Vec3): Vec3 { [a[0] + b[0], a[1] + b[1], a[2] + b[2]] }

  // ---- quaternion algebra --------------------------------------------------

  function Conj(q: Quat): Quat { [q[0], -q[1], -q[2], -q[3]] }

  function Pure(v: Vec3): Quat { [0.0, v[0], v[1], v[2]] }

  lemma Associates(a: Quat, b: Quat, c: Quat)
    ensures Times(Times(a, b), c) == Times(a, Times(b, c))
  {
    var u, v := Times(a, b), Times(b, c);
    forall i | 0 <= i < 4 ensures Times(u, c)[i] == Times(a, v)[i] {
      Associated(a, b, c, u, v);
    }
  }

  lemma Associated(a: Quat, b: Quat, c: Quat, u: Quat, v: Quat)
    requires u == Times(a, b) && v == Times(b, c)
    ensures Times(u, c)[0] == Times(a, v)[0] && Times(u, c)[1] == Times(a, v)[1]
    ensures Times(u, c)[2] == Times(a, v)[2] && Times(u, c)[3] == Times(a, v)[3]
  {
    hide Product;
    Spread(a, b, u, c[0]);
    Spread(a, b, u, c[1]);
    Spread(a, b, u, c[2]);
    Spread(a, b, u, c[3]);
    SpreadRight(b, c, v, a[0]);
    SpreadRight(b, c, v, a[1]);
    SpreadRight(b, c, v, a[2]);
    SpreadRight(b, c, v, a[3]);
  }

  lemma Spread(a: Quat, b: Quat, c: Quat, w: real)
    requires c == Times(a, b)
    ensures Product(c[0], w) == Product(Product(a[0], b[0]), w) - Product(Product(a[1], b[1]), w) - Product(Product(a[2], b[2]), w) - Product(Product(a[3], b[3]), w)
    ensures Product(c[1], w) == Product(Product(a[0], b[1]), w) + Product(Product(a[1], b[0]), w) + Product(Product(a[2], b[3]), w) - Product(Product(a[3], b[2]), w)
    ensures Product(c[2], w) == Product(Product(a[0], b[2]), w) - Product(Product(a[1], b[3]), w) + Product(Product(a[2], b[0]), w) + Product(Product(a[3], b[1]), w)
    ensures Product(c[3], w) == Product(Product(a[0], b[3]), w) + Product(Product(a[1], b[2]), w) - Product(Product(a[2], b[1]), w) + Product(Product(a[3], b[0]), w)
  {
    hide Product;
    FourTimes(c[0], Product(a[0], b[0]), -Product(a[1], b[1]), -Product(a[2], b[2]), -Product(a[3], b[3]), w);
    FourTimes(c[1], Product(a[0], b[1]), Product(a[1], b[0]), Product(a[2], b[3]), -Product(a[3], b[2]), w);
    FourTimes(c[2], Product(a[0], b[2]), -Product(a[1], b[3]), Product(a[2], b[0]), Product(a[3], b[1]), w);
    FourTimes(c[3], Product(a[0], b[3]), Product(a[1], b[2]), -Product(a[2], b[1]), Product(a[3], b[0]), w);
  }

  lemma SpreadRight(a: Quat, b: Quat, c: Quat, w: real)
    requires c == Times(a, b)
    ensures Product(w, c[0]) == Product(Product(w, a[0]), b[0]) - Product(Product(w, a[1]), b[1]) - Product(Product(w, a[2]), b[2]) - Product(Product(w, a[3]), b[3])
    ensures Product(w, c[1]) == Product(Product(w, a[0]), b[1]) + Product(Product(w, a[1]), b[0]) + Product(Product(w, a[2]), b[3]) - Product(Product(w, a[3]), b[2])
    ensures Product(w, c[2]) == Product(Product(w, a[0]), b[2]) - Product(Product(w, a[1]), b[3]) + Product(Product(w, a[2]), b[0]) + Product(Product(w, a[3]), b[1])
    ensures Product(w, c[3]) == Product(Product(w, a[0]), b[3]) + Product(Product(w, a[1]), b[2]) - Product(Product(w, a[2]), b[1]) + Product(Product(w, a[3]), b[0])
  {
    hide Product;
    Spread(a, b, c, w);
    forall i, j | 0 <= i < 4 && 0 <= j < 4 ensures Product(Product(a[i], b[j]), w) == Product(Product(w, a[i]), b[j]) {
      Associate(w, a[i], b[j]);
      Commute(w, Product(a[i], b[j]));
    }
    forall i | 0 <= i < 4 ensures Product(c[i], w) == Product(w, c[i]) {
      Commute(c[i], w);
    }
  }

  lemma FourTimes(x: real, e: real, f: real, g: real, h: real, w: real)
    requires x == e + f + g + h
    ensures Product(x, w) == Product(e, w) + Product(f, w) + Product(g, w) + Product(h, w)
    ensures Product(-f, w) == -Product(f, w) && Product(-g, w) == -Product(g, w) && Product(-h, w) == -Product(h, w)
  {
  }

  lemma Expanded(a: Quat, b: Quat, c: Quat)
    requires c == Times(a, b)
    ensures c[0] == a[0] * b[0] - a[1] * b[1] - a[2] * b[2] - a[3] * b[3]
    ensures c[1] == a[0] * b[1] + a[1] * b[0] + a[2] * b[3] - a[3] * b[2]
    ensures c[2] == a[0] * b[2] - a[1] * b[3] + a[2] * b[0] + a[3] * b[1]
    ensures c[3] == a[0] * b[3] + a[1] * b[2] - a[2] * b[1] + a[3] * b[0]
  {
  }

  lemma ConjOfTimes(a: Quat, b: Quat)
    ensures Conj(Times(a, b)) == Times(Conj(b), Conj(a))
  {
    Expanded(a, b, Times(a, b));
    Expanded(Conj(b), Conj(a), Times(Conj(b), Conj(a)));
    hide Times;
    var l, r := Conj(Times(a, b)), Times(Conj(b), Conj(a));
    assert l[0] == r[0] && l[1] == r[1] && l[2] == r[2] && l[3] == r[3];
  }

  /** A world vector seen from the body, as a quaternion: times the square of the norm. */
  function Seen(q: Quat, v: Quat): Quat { Times(Times(Conj(q), v), q) }

  /** First the one view, then the other. */
  lemma SeenTwice(q: Quat, r: Quat, v: Quat)
    ensures Seen(Times(q, r), v) == Seen(r, Seen(q, v))
  {
    hide Times, Conj;
    ConjOfTimes(q, r);
    var a, b := Conj(q), Conj(r);
    Associates(b, a, v);
    Associates(Times(b, Times(a, v)), q, r);
    Associates(b, Times(a, v), q);
  }

  const WORLD_UP: Vec3 := [0.0, 0.0, 1.0]

  /** World up seen from the body, for a quaternion of any norm. */
  lemma UpSeen(q: Quat)
    ensures Seen(q, Pure(WORLD_UP))
            == [0.0, 2.0 * (Product(q[1], q[3]) - Product(q[0], q[2])), 2.0 * (Product(q[2], q[3]) + Product(q[0], q[1])),
                Square(q[0]) + Square(q[3]) - Square(q[1]) - Square(q[2])]
  {
    var a := Times(Conj(q), Pure(WORLD_UP));
    HalfUp(q, a);
    var s := Times(a, q);
    Commute(q[1], q[3]);
    Commute(q[0], q[2]);
    Commute(q[2], q[3]);
    Commute(q[0], q[1]);
    Commute(q[1], q[2]);
    Commute(q[0], q[3]);
    assert Product(q[0], q[0]) == Square(q[0]) && Product(q[1], q[1]) == Square(q[1]);
    assert Product(q[2], q[2]) == Square(q[2]) && Product(q[3], q[3]) == Square(q[3]);
    Negations(q[2], q);
    hide Product, Square;
  }

  lemma HalfUp(q: Quat, a: Quat)
    requires a == Times(Conj(q), Pure(WORLD_UP))
    ensures a == [q[3], -q[2], q[1], q[0]]
  {
  }

  lemma Negations(x: real, q: Quat)
    ensures forall i :: 0 <= i < 4 ==> Product(-x, q[i]) == -Product(x, q[i])
  {
  }

  /** The estimated up direction is world up seen from the body. */
  lemma UpIsSeen(q: Quat)
    requires QNorm2(q) == 1.0
    ensures Seen(q, Pure(WORLD_UP)) == Pure(Up(q))
  {
    UpSeen(q);
    hide Seen, Product, Square;
  }

  // ---- what an increment does to the view ----------------------------------

  function Axis(r: Quat): Vec3 { [r[1], r[2], r[3]] }

  /** The view after turning the body by the increment `r`, times the square of its norm. */
  function Turned(r: Quat, u: Vec3): Vec3 {
    var across, back := Cross(u, Axis(r)), Cross(Axis(r), Cross(Axis(r), u));
    [Product(QNorm2(r), u[0]) + 2.0 * Product(r[0], across[0]) + 2.0 * back[0],
     Product(QNorm2(r), u[1]) + 2.0 * Product(r[0], across[1]) + 2.0 * back[1],
     Product(QNorm2(r), u[2]) + 2.0 * Product(r[0], across[2]) + 2.0 * back[2]]
  }

  lemma TurnSees(r: Quat, u: Vec3)
    ensures Seen(r, Pure(u)) == Pure(Turned(r, u))
  {
    var a := Times(Conj(r), Pure(u));
    HalfSeen(r, u, a);
    hide Square;
    SeenScalar(r[0], r[1], r[2], r[3], u[0], u[1], u[2], a[0], a[1], a[2], a[3]);
    SeenComponent(r[0], r[1], r[2], r[3], u[0], u[1], u[2], a[0], a[1], a[2], a[3]);
    SeenComponent(r[0], r[2], r[3], r[1], u[1], u[2], u[0], a[0], a[2], a[3], a[1]);
    SeenComponent(r[0], r[3], r[1], r[2], u[2], u[0], u[1], a[0], a[3], a[1], a[2]);
    hide Product;
    assert QNorm2(r) == Square(r[0]) + Square(r[2]) + Square(r[3]) + Square(r[1]);
    assert QNorm2(r) == Square(r[0]) + Square(r[3]) + Square(r[1]) + Square(r[2]);
    var s := Times(a, r);
    assert s[0] == 0.0 && s[1] == Turned(r, u)[0] && s[2] == Turned(r, u)[1] && s[3] == Turned(r, u)[2];
  }

  lemma HalfSeen(r: Quat, u: Vec3, a: Quat)
    requires a == Times(Conj(r), Pure(u))
    ensures a[0] == Product(r[1], u[0]) + Product(r[2], u[1]) + Product(r[3], u[2])
    ensures a[1] == Product(r[0], u[0]) - Product(r[2], u[2]) + Product(r[3], u[1])
    ensures a[2] == Product(r[0], u[1]) - Product(r[3], u[0]) + Product(r[1], u[2])
    ensures a[3] == Product(r[0], u[2]) - Product(r[1], u[1]) + Product(r[2], u[0])
  {
    forall i, j | 0 <= i < 4 && 0 <= j < 3 ensures Product(-r[i], u[j]) == -Product(r[i], u[j]) {
      MinusTimes(u[j], r[i]);
      Commute(-r[i], u[j]);
      Commute(r[i], u[j]);
    }
    forall x: real ensures Product(x, 0.0) == 0.0 {
      ZeroTimes(x);
    }
    hide Product;
  }

  lemma Orders(x: real, y: real, z: real)
    ensures Product(Product(x, y), z) == Product(Product(y, x), z) == Product(Product(x, z), y)
            == Product(Product(z, y), x)
    ensures Product(x, Product(y, z)) == Product(Product(x, y), z)
  {
  }

  lemma AllOrders()
    ensures forall x: real, y: real, z: real {:trigger Product(Product(x, y), z)} ::
              Product(Product(x, y), z) == Product(Product(y, x), z) == Product(Product(x, z), y)
  {
    forall x: real, y: real, z: real
      ensures Product(Product(x, y), z) == Product(Product(y, x), z) == Product(Product(x, z), y)
    {
      Orders(x, y, z);
    }
  }

  lemma ThreeTimes(x: real, e: real, f: real, g: real, w: real)
    requires x == e - f + g
    ensures Product(x, w) == Product(e, w) - Product(f, w) + Product(g, w)
  {
  }

  lemma Sums(x: real, e: real, f: real, g: real, w: real)
    requires x == e + f + g
    ensures Product(x, w) == Product(e, w) + Product(f, w) + Product(g, w)
  {
  }

  lemma SeenScalar(c: real, x: real, y: real, z: real, u: real, v: real, w: real, a: real, d: real, e: real, f: real)
    requires a == Product(x, u) + Product(y, v) + Product(z, w) && d == Product(c, u) - Product(y, w) + Product(z, v)
    requires e == Product(c, v) - Product(z, u) + Product(x, w) && f == Product(c, w) - Product(x, v) + Product(y, u)
    ensures Product(a, c) - Product(d, x) - Product(e, y) - Product(f, z) == 0.0
  {
    hide Product;
    AllOrders();
    Sums(a, Product(x, u), Product(y, v), Product(z, w), c);
    ThreeTimes(d, Product(c, u), Product(y, w), Product(z, v), x);
    ThreeTimes(e, Product(c, v), Product(z, u), Product(x, w), y);
    ThreeTimes(f, Product(c, w), Product(x, v), Product(y, u), z);
  }

  lemma SeenComponent(c: real, x: real, y: real, z: real, u: real, v: real, w: real, a: real, d: real, e: real, f: real)
    requires a == Product(x, u) + Product(y, v) + Product(z, w) && d == Product(c, u) - Product(y, w) + Product(z, v)
    requires e == Product(c, v) - Product(z, u) + Product(x, w) && f == Product(c, w) - Product(x, v) + Product(y, u)
    ensures Product(a, x) + Product(d, c) + Product(e, z) - Product(f, y)
            == Product(Square(c) + Square(x) + Square(y) + Square(z), u) + 2.0 * Product(c, Product(v, z) - Product(w, y))
               + 2.0 * (Product(y, Product(x, v) - Product(y, u)) - Product(z, Product(z, u) - Product(x, w)))
  {
    SquaresTimes(c, x, y, z, u);
    Difference(c, Product(v, z), Product(w, y));
    Difference(y, Product(x, v), Product(y, u));
    Difference(z, Product(z, u), Product(x, w));
    hide Product, Square;
    AllOrders();
    Sums(a, Product(x, u), Product(y, v), Product(z, w), x);
    ThreeTimes(d, Product(c, u), Product(y, w), Product(z, v), c);
    ThreeTimes(e, Product(c, v), Product(z, u), Product(x, w), z);
    ThreeTimes(f, Product(c, w), Product(x, v), Product(y, u), y);
  }

  lemma SquaresTimes(c: real, x: real, y: real, z: real, u: real)
    ensures Product(Square(c) + Square(x) + Square(y) + Square(z), u)
            == Product(Product(c, c), u) + Product(Product(x, x), u) + Product(Product(y, y), u) + Product(Product(z, z), u)
  {
  }

  lemma Difference(k: real, a: real, b: real)
    ensures Product(k, a - b) == Product(a, k) - Product(b, k)
  {
  }

  /** What is seen after normalizing, times the square of the norm that was taken out. */
  lemma UpAfterNormalizing(m: Maths, p: Quat)
    requires m.Valid() && QNorm2(p) > 0.0
    ensures m.root(QNorm2(p)) != 0.0
    ensures var n := Normalized(m, p);
            Seen(p, Pure(WORLD_UP)) == [0.0, Product(QNorm2(p), Up(n)[0]), Product(QNorm2(p), Up(n)[1]), Product(QNorm2(p), Up(n)[2])]
  {
    hide QNorm2, Up, Seen;
    NormalizedIsUnit(m, p);
    var n, r, s := Normalized(m, p), QNorm2(p), m.root(QNorm2(p));
    assert Square(s) == r;
    hide Maths.Valid;
    UpSeen(p);
    UpSeen(n);
    UpIsSeen(n);
    forall i, j | 0 <= i < 4 && 0 <= j < 4 ensures Product(p[i], p[j]) == Product(r, Product(n[i], n[j])) {
      ScaledProduct(p[i], p[j], s);
    }
    forall i | 0 <= i < 4 ensures Square(p[i]) == Product(p[i], p[i]) && Square(n[i]) == Product(n[i], n[i]) {
    }
    hide Normalized;
    Combined(r, Product(n[1], n[3]), Product(n[0], n[2]), Product(n[2], n[3]), Product(n[0], n[1]));
    FourCombined(r, Square(n[0]), Square(n[3]), Square(n[1]), Square(n[2]));
    hide Product, Square;
  }

  lemma Combined(r: real, a: real, b: real, c: real, d: real)
    ensures Product(r, 2.0 * (a - b)) == 2.0 * (Product(r, a) - Product(r, b))
    ensures Product(r, 2.0 * (c + d)) == 2.0 * (Product(r, c) + Product(r, d))
  {
  }

  lemma FourCombined(r: real, a: real, b: real, c: real, d: real)
    ensures Product(r, a + b - c - d) == Product(r, a) + Product(r, b) - Product(r, c) - Product(r, d)
  {
  }

  /** The attitude after an increment, as a view. */
  lemma UpAfter(m: Maths, q: Quat, r: Quat)
    requires m.Valid() && QNorm2(q) == 1.0 && QNorm2(r) > 0.0
    ensures QNorm2(Times(q, r)) == QNorm2(r) && m.root(QNorm2(r)) != 0.0
    ensures forall i :: 0 <= i < 3 ==>
              Product(QNorm2(r), Up(Normalized(m, Times(q, r)))[i]) == Turned(r, Up(q))[i]
  {
    hide QNorm2, Up, Seen, Times, Normalized, Maths.Valid, Turned;
    var p := Times(q, r);
    FourSquares(q, r);
    OneTimes(QNorm2(r));
    UpAfterNormalizing(m, p);
    SeenTwice(q, r, Pure(WORLD_UP));
    UpIsSeen(q);
    TurnSees(r, Up(q));
    assert Seen(p, Pure(WORLD_UP)) == Pure(Turned(r, Up(q)));
    hide Product;
    var t, up := Turned(r, Up(q)), Up(Normalized(m, p));
    assert Pure(t)[1] == t[0] && Pure(t)[2] == t[1] && Pure(t)[3] == t[2];
    forall i | 0 <= i < 3 ensures Product(QNorm2(r), up[i]) == t[i] {
      assert Pure(t)[i + 1] == t[i];
    }
  }

  // ---- what a rate does ----------------------------------------------------

  /** The scale of the increment and the cosine in it. */
  lemma TurnParts(m: Maths, omega: Vec3, dt: real)
    ensures var k := SineScale(m, m.Length(omega), dt);
            Axis(Turn(m, omega, dt)) == Scaled(k, omega) && Turn(m, omega, dt)[0] == m.cos(HalfAngle(m.Length(omega), dt))
  {
    hide SineScale, HalfAngle, Product;
  }

  lemma CrossScaled(k: real, u: Vec3, w: Vec3)
    ensures Cross(u, Scaled(k, w)) == Scaled(k, Cross(u, w))
    ensures Cross(Scaled(k, w), u) == Scaled(k, Cross(w, u))
  {
    Apart(k, Cross(u, w), u, w);
    Apart(k, Cross(w, u), w, u);
    forall i, j | 0 <= i < 3 && 0 <= j < 3
      ensures Product(u[i], Product(k, w[j])) == Product(k, Product(u[i], w[j]))
      ensures Product(Product(k, w[j]), u[i]) == Product(k, Product(w[j], u[i]))
    {
      Slides(k, u[i], w[j]);
    }
    hide Product;
  }

  lemma Slides(k: real, a: real, b: real)
    ensures Product(a, Product(k, b)) == Product(k, Product(a, b)) && Product(Product(k, b), a) == Product(k, Product(b, a))
  {
  }

  lemma Apart(k: real, c: Vec3, u: Vec3, w: Vec3)
    requires c == Cross(u, w)
    ensures Product(k, c[0]) == Product(k, Product(u[1], w[2])) - Product(k, Product(u[2], w[1]))
    ensures Product(k, c[1]) == Product(k, Product(u[2], w[0])) - Product(k, Product(u[0], w[2]))
    ensures Product(k, c[2]) == Product(k, Product(u[0], w[1])) - Product(k, Product(u[1], w[0]))
  {
  }

  /** Any rate turns the view by minus itself: the exact step, whatever its size, with the
      increment's own cosine and scale. */
  lemma UpAfterTurn(m: Maths, q: Quat, omega: Vec3, dt: real)
    requires m.Valid() && QNorm2(q) == 1.0
    ensures var r, u := Turn(m, omega, dt), Up(q);
            var c, k := m.cos(HalfAngle(m.Length(omega), dt)), SineScale(m, m.Length(omega), dt);
            && QNorm2(r) >= 1.0 && QNorm2(Times(q, r)) == QNorm2(r) && m.root(QNorm2(r)) != 0.0
            && forall i :: 0 <= i < 3 ==>
                 Product(QNorm2(r), Up(Normalized(m, Times(q, r)))[i] - u[i])
                 == 2.0 * Product(Product(c, k), Cross(u, omega)[i]) + 2.0 * Product(Product(k, k), Cross(omega, Cross(omega, u))[i])
  {
    hide Up, Times, Normalized, Maths.Valid, QNorm2, Turn, SineScale, HalfAngle;
    var r, u := Turn(m, omega, dt), Up(q);
    var c, k := m.cos(HalfAngle(m.Length(omega), dt)), SineScale(m, m.Length(omega), dt);
    TurnIsLong(m, omega, dt);
    UpAfter(m, q, r);
    TurnParts(m, omega, dt);
    TurnedByRate(r, u, c, k, omega);
    var after := Up(Normalized(m, Times(q, r)));
    hide Product, Cross, Turned;
    forall i | 0 <= i < 3
      ensures Product(QNorm2(r), after[i] - u[i])
              == 2.0 * Product(Product(c, k), Cross(u, omega)[i]) + 2.0 * Product(Product(k, k), Cross(omega, Cross(omega, u))[i])
    {
      Subtracted(QNorm2(r), after[i], u[i]);
    }
  }

  lemma Subtracted(n: real, a: real, b: real)
    ensures Product(n, a - b) == Product(n, a) - Product(n, b)
  {
  }

  lemma TurnedByRate(r: Quat, u: Vec3, c: real, k: real, omega: Vec3)
    requires r[0] == c && Axis(r) == Scaled(k, omega)
    ensures forall i :: 0 <= i < 3 ==>
              Turned(r, u)[i] == Product(QNorm2(r), u[i]) + 2.0 * Product(Product(c, k), Cross(u, omega)[i])
                                 + 2.0 * Product(Product(k, k), Cross(omega, Cross(omega, u))[i])
  {
    hide Cross, QNorm2;
    CrossScaled(k, u, omega);
    CrossScaled(k, Cross(omega, u), omega);
    CrossScaled(k, Scaled(k, Cross(omega, u)), omega);
    var x, y := Cross(u, omega), Cross(omega, Cross(omega, u));
    ScaledInside(k, omega, Cross(omega, u));
    forall i | 0 <= i < 3
      ensures Product(c, Product(k, x[i])) == Product(Product(c, k), x[i]) && Product(k, Product(k, y[i])) == Product(Product(k, k), y[i])
    {
      Associate(c, k, x[i]);
      Associate(k, k, y[i]);
    }
    hide Product;
  }

  lemma ScaledInside(k: real, a: Vec3, b: Vec3)
    ensures Cross(a, Scaled(k, b)) == Scaled(k, Cross(a, b))
  {
    CrossScaled(k, a, b);
  }

  /** Rodrigues' formula: over `dt` a rate of some size turns the estimated up direction, seen from
      the body, about itself by minus its angle. */
  lemma UpTurnsByRate(m: Maths, q: Quat, omega: Vec3, dt: real)
    requires m.Valid() && QNorm2(q) == 1.0 && m.Length(omega) > TINY_SPEED
    ensures var u, s, angle := Up(q), m.Length(omega), Product(m.Length(omega), dt);
            && QNorm2(Times(q, Turn(m, omega, dt))) == 1.0 && m.root(1.0) != 0.0
            && forall i :: 0 <= i < 3 ==>
                 Product(Square(s), Up(Normalized(m, Times(q, Turn(m, omega, dt))))[i] - u[i])
                 == Product(Product(m.sin(angle), s), Cross(u, omega)[i])
                    + Product(1.0 - m.cos(angle), Cross(omega, Cross(omega, u))[i])
  {
    hide Up, Times, Normalized, Turn, Cross, QNorm2;
    UpAfterTurn(m, q, omega, dt);
    TurnIsLong(m, omega, dt);
    RootOfOne(m);
    var u, s, angle := Up(q), m.Length(omega), Product(m.Length(omega), dt);
    var half, k := HalfAngle(s, dt), SineScale(m, s, dt);
    assert half == 0.5 * angle;
    var sine, cosine := m.sin(half), m.cos(half);
    assert m.cos(angle) == Square(cosine) - Square(sine) && m.sin(angle) == 2.0 * Product(sine, cosine);
    assert Square(sine) + Square(cosine) == 1.0;
    hide Maths.Valid, HalfAngle;
    DivideTimes(sine, s);
    var after := Up(Normalized(m, Times(q, Turn(m, omega, dt))));
    forall i | 0 <= i < 3
      ensures Product(Square(s), after[i] - u[i])
              == Product(Product(m.sin(angle), s), Cross(u, omega)[i])
                 + Product(1.0 - m.cos(angle), Cross(omega, Cross(omega, u))[i])
    {
      FullAngle(s, k, sine, cosine, after[i] - u[i], Cross(u, omega)[i], Cross(omega, Cross(omega, u))[i]);
    }
  }

  /** Half-angle terms against the full angle. */
  lemma FullAngle(s: real, k: real, sine: real, cosine: real, d: real, x: real, y: real)
    requires Product(k, s) == sine && Square(sine) + Square(cosine) == 1.0
    requires Product(1.0, d) == 2.0 * Product(Product(cosine, k), x) + 2.0 * Product(Product(k, k), y)
    ensures Product(Square(s), d)
            == Product(Product(2.0 * Product(sine, cosine), s), x) + Product(1.0 - (Square(cosine) - Square(sine)), y)
  {
    OneTimes(d);
    SplitTwice(Square(s), Product(Product(cosine, k), x), Product(Product(k, k), y));
    FirstTerm(s, k, sine, cosine, x);
    SecondTerm(s, k, sine, y);
    assert 1.0 - (Square(cosine) - Square(sine)) == 2.0 * Square(sine);
    hide Product, Square;
  }

  lemma SplitTwice(n: real, a: real, b: real)
    ensures Product(n, 2.0 * a + 2.0 * b) == 2.0 * Product(n, a) + 2.0 * Product(n, b)
  {
  }

  lemma FirstTerm(s: real, k: real, sine: real, cosine: real, x: real)
    requires Product(k, s) == sine
    ensures 2.0 * Product(Square(s), Product(Product(cosine, k), x)) == Product(Product(2.0 * Product(sine, cosine), s), x)
  {
    assert (s * s) * ((cosine * k) * x) == ((k * s) * cosine * s) * x;
    assert ((k * s) * cosine * s) * x == (sine * cosine * s) * x;
    assert (2.0 * (sine * cosine)) * s * x == 2.0 * ((sine * cosine * s) * x);
  }

  lemma SecondTerm(s: real, k: real, sine: real, y: real)
    requires Product(k, s) == sine
    ensures 2.0 * Product(Square(s), Product(Product(k, k), y)) == Product(2.0 * Square(sine), y)
  {
    assert (s * s) * ((k * k) * y) == ((k * s) * (k * s)) * y;
    assert ((k * s) * (k * s)) * y == (sine * sine) * y;
  }

  // ---- the tilt correction -------------------------------------------------

  /** Lagrange's identity, and the products that go with it. */
  lemma CrossFacts(d: Vec3, u: Vec3)
    ensures Dot(Cross(d, u), d) == 0.0 && Dot(Cross(d, u), u) == 0.0
    ensures Dot(d, Cross(u, Cross(d, u))) == Norm2(Cross(d, u)) == Product(Norm2(d), Norm2(u)) - Square(Dot(d, u))
  {
    var x := Cross(d, u);
    Orthogonal(d, u);
    Lagrange(d[0], d[1], d[2], u[0], u[1], u[2]);
    assert Norm2(x) == Product(Norm2(d), Norm2(u)) - Square(Dot(d, u));
    Cyclic(d, u, x);
    assert Dot(x, x) == Norm2(x);
    hide Dot, Cross, Norm2;
  }

  lemma Orthogonal(d: Vec3, u: Vec3)
    ensures Dot(Cross(d, u), d) == 0.0 && Dot(Cross(d, u), u) == 0.0
  {
  }

  lemma Cyclic(d: Vec3, u: Vec3, x: Vec3)
    ensures Dot(d, Cross(u, x)) == Dot(x, Cross(d, u))
  {
  }

  lemma Lagrange(a: real, b: real, c: real, x: real, y: real, z: real)
    ensures Square(Product(b, z) - Product(c, y)) + Square(Product(c, x) - Product(a, z)) + Square(Product(a, y) - Product(b, x))
            == Product(Square(a) + Square(b) + Square(c), Square(x) + Square(y) + Square(z))
               - Square(Product(a, x) + Product(b, y) + Product(c, z))
  {
    LagrangeReals(a, b, c, x, y, z);
    hide Square;
  }

  lemma LagrangeReals(a: real, b: real, c: real, x: real, y: real, z: real)
    ensures Square(b * z - c * y) + Square(c * x - a * z) + Square(a * y - b * x)
            == Product(Square(a) + Square(b) + Square(c), Square(x) + Square(y) + Square(z)) - Square(a * x + b * y + c * z)
  {
  }

  lemma DotScaled(k: real, d: Vec3, v: Vec3)
    ensures Dot(Scaled(k, v), d) == Dot(d, Scaled(k, v)) == Product(k, Dot(d, v))
  {
    forall i | 0 <= i < 3
      ensures Product(d[i], Product(k, v[i])) == Product(Product(k, v[i]), d[i]) == Product(k, Product(d[i], v[i]))
    {
      Slides(k, d[i], v[i]);
      Commute(d[i], Product(k, v[i]));
    }
    SumTimes(k, Product(d[0], v[0]), Product(d[1], v[1]), Product(d[2], v[2]));
    hide Product;
  }

  lemma SumTimes(k: real, a: real, b: real, c: real)
    ensures Product(k, a + b + c) == Product(k, a) + Product(k, b) + Product(k, c)
  {
  }

  lemma DirectionIsUnit(m: Maths, a: Vec3)
    requires m.Valid() && m.Length(a) > TINY_LENGTH
    ensures Norm2(Direction(m, a)) == 1.0
  {
    var l := m.Length(a);
    NormNonNegative(a);
    assert Square(l) == Norm2(a);
    hide Maths.Valid;
    QuotientSquare(a[0], l);
    QuotientSquare(a[1], l);
    QuotientSquare(a[2], l);
    SumTimes(Square(l), Square(a[0] / l), Square(a[1] / l), Square(a[2] / l));
    PositiveProduct(l, l);
    UnitOfProduct(Square(l), Norm2(Direction(m, a)));
    hide Square, Product;
  }

  /** What the accelerometer adds to the integrated rate. */
  function Correction(m: Maths, q: Quat, bias: Vec3, a: Vec3, w: Vec3): Vec3 {
    Minus(Rate(m, q, bias, a, w), CorrectedGyro(w, bias))
  }

  lemma CorrectionIs(m: Maths, q: Quat, bias: Vec3, a: Vec3, w: Vec3)
    requires Corrects(m, a)
    ensures m.Length(a) != 0.0 && Correction(m, q, bias, a, w) == Scaled(Trust(m, a), Cross(Direction(m, a), Up(q)))
  {
    hide Trust, Up, Direction, Cross, Product;
  }

  /** The correction is orthogonal to the measured and to the estimated up direction, and turns
      the one towards the other: the rate at which their cosine grows is the trust times the
      square of their sine. */
  lemma CorrectionTurnsHome(m: Maths, q: Quat, bias: Vec3, a: Vec3, w: Vec3)
    requires m.Valid() && QNorm2(q) == 1.0 && Corrects(m, a)
    ensures m.Length(a) != 0.0
    ensures var e, d, u := Correction(m, q, bias, a, w), Direction(m, a), Up(q);
            && Norm2(d) == Norm2(u) == 1.0 && Dot(e, d) == 0.0 && Dot(e, u) == 0.0
            && Dot(d, Cross(u, e)) == Product(Trust(m, a), 1.0 - Square(Dot(d, u)))
            && Norm2(e) == Product(Square(Trust(m, a)), 1.0 - Square(Dot(d, u)))
  {
    hide Trust, Up, Direction, Cross, Dot, Norm2, QNorm2, Rate, CorrectedGyro;
    DirectionIsUnit(m, a);
    hide Maths.Valid;
    UpIsUnit(q);
    CorrectionIs(m, q, bias, a, w);
    var d, u, t := Direction(m, a), Up(q), Trust(m, a);
    var x := Cross(d, u);
    CrossFacts(d, u);
    OneTimes(1.0);
    DotScaled(t, d, x);
    DotScaled(t, u, x);
    CommuteDot(x, d);
    CommuteDot(x, u);
    ZeroTimes(t);
    CrossScaled(t, u, x);
    DotScaled(t, d, Cross(u, x));
    NormScaled(t, x);
    hide Product, Square, Scaled;
  }

  lemma CommuteDot(a: Vec3, b: Vec3)
    ensures Dot(a, b) == Dot(b, a)
  {
    Commute(a[0], b[0]);
    Commute(a[1], b[1]);
    Commute(a[2], b[2]);
    hide Product;
  }

  lemma NormScaled(k: real, v: Vec3)
    ensures Norm2(Scaled(k, v)) == Product(Square(k), Norm2(v))
  {
    ScaledSquares(k, v[0], v[1], v[2]);
    hide Square, Product;
  }

  // ---- the estimate converges ----------------------------------------------

  /** Turning twice about an axis at right angles. */
  lemma TwiceAcross(e: Vec3, u: Vec3, d: Vec3)
    requires Dot(e, u) == 0.0
    ensures Dot(d, Cross(e, Cross(e, u))) == -Product(Norm2(e), Dot(d, u))
  {
    Cyclic(d, e, Cross(e, u));
    Binet(e, u, d);
    ZeroTimes(Dot(d, e));
    CommuteDot(d, e);
    CommuteDot(Cross(e, u), Cross(d, e));
    hide Dot, Cross, Norm2, Product;
  }

  lemma Binet(e: Vec3, u: Vec3, d: Vec3)
    ensures Dot(Cross(d, e), Cross(e, u)) == Product(Dot(d, e), Dot(e, u)) - Product(Norm2(e), Dot(d, u))
  {
    BinetReals(e[0], e[1], e[2], u[0], u[1], u[2], d[0], d[1], d[2]);
    hide Product;
  }

  lemma BinetReals(a: real, b: real, c: real, x: real, y: real, z: real, p: real, q: real, r: real)
    ensures Product(Product(q, c) - Product(r, b), Product(b, z) - Product(c, y))
            + Product(Product(r, a) - Product(p, c), Product(c, x) - Product(a, z))
            + Product(Product(p, b) - Product(q, a), Product(a, y) - Product(b, x))
            == Product(Product(p, a) + Product(q, b) + Product(r, c), Product(a, x) + Product(b, y) + Product(c, z))
               - Product(Square(a) + Square(b) + Square(c), Product(p, x) + Product(q, y) + Product(r, z))
  {
    BinetPlain(a, b, c, x, y, z, p, q, r);
    assert forall v: real, w: real {:trigger Product(v, w)} :: Product(v, w) == v * w;
    assert Square(a) == a * a && Square(b) == b * b && Square(c) == c * c;
    hide Product, Square;
  }

  lemma BinetPlain(a: real, b: real, c: real, x: real, y: real, z: real, p: real, q: real, r: real)
    ensures Product(q * c - r * b, b * z - c * y) + Product(r * a - p * c, c * x - a * z) + Product(p * b - q * a, a * y - b * x)
            == Product(p * a + q * b + r * c, a * x + b * y + c * z) - Product(a * a + b * b + c * c, p * x + q * y + r * z)
  {
  }

  /** A step given component by component, seen along a direction. */
  lemma AlongDirection(n: real, d: Vec3, a: Vec3, b: Vec3, f: real, x: Vec3, g: real, y: Vec3)
    requires forall i :: 0 <= i < 3 ==> Product(n, a[i] - b[i]) == 2.0 * Product(f, x[i]) + 2.0 * Product(g, y[i])
    ensures Product(n, Dot(d, a) - Dot(d, b)) == 2.0 * Product(f, Dot(d, x)) + 2.0 * Product(g, Dot(d, y))
  {
    forall i | 0 <= i < 3
      ensures Product(n, Product(d[i], a[i]) - Product(d[i], b[i])) == 2.0 * Product(f, Product(d[i], x[i])) + 2.0 * Product(g, Product(d[i], y[i]))
    {
      OneAlong(n, d[i], a[i], b[i], f, x[i], g, y[i]);
    }
    var p: Vec3 := [Product(d[0], a[0]) - Product(d[0], b[0]), Product(d[1], a[1]) - Product(d[1], b[1]), Product(d[2], a[2]) - Product(d[2], b[2])];
    SumTimes(n, p[0], p[1], p[2]);
    SumTimes(f, Product(d[0], x[0]), Product(d[1], x[1]), Product(d[2], x[2]));
    SumTimes(g, Product(d[0], y[0]), Product(d[1], y[1]), Product(d[2], y[2]));
    hide Product;
    assert Dot(d, a) - Dot(d, b) == p[0] + p[1] + p[2];
  }

  lemma OneAlong(n: real, d: real, a: real, b: real, f: real, x: real, g: real, y: real)
    requires Product(n, a - b) == 2.0 * Product(f, x) + 2.0 * Product(g, y)
    ensures Product(n, Product(d, a) - Product(d, b)) == 2.0 * Product(f, Product(d, x)) + 2.0 * Product(g, Product(d, y))
  {
    assert n * (d * a - d * b) == d * (n * (a - b));
    assert d * (2.0 * (f * x) + 2.0 * (g * y)) == 2.0 * (f * (d * x)) + 2.0 * (g * (d * y));
  }

  /** One update without corrected rate, seen along the measured direction. */
  lemma StepTowardsMeasured(m: Maths, q: Quat, bias: Vec3, a: Vec3, w: Vec3, dt: real)
    requires m.Valid() && QNorm2(q) == 1.0 && w == bias && Corrects(m, a)
    ensures m.Length(a) != 0.0
    ensures var e, d, t := Rate(m, q, bias, a, w), Direction(m, a), Trust(m, a);
            var x, s := Dot(d, Up(q)), m.Length(e);
            var c, k, n := m.cos(HalfAngle(s, dt)), SineScale(m, s, dt), QNorm2(Turn(m, e, dt));
            && 0.0 <= 1.0 - Square(x) && Square(s) == Product(Square(t), 1.0 - Square(x)) && s >= 0.0
            && n == Square(c) + Square(Product(k, s))
            && Product(n, Dot(d, Up(Updated(m, q, bias, a, w, dt))) - x)
               == 2.0 * Product(Product(c, k), Product(t, 1.0 - Square(x)))
                  - 2.0 * Product(Product(k, k), Product(Product(Square(t), 1.0 - Square(x)), x))
  {
    hide Up, Trust, Direction, Rate, Turn, Times, Normalized, QNorm2, Cross, Dot, Norm2, SineScale, HalfAngle, CorrectedGyro;
    var e, d, t, u := Rate(m, q, bias, a, w), Direction(m, a), Trust(m, a), Up(q);
    CorrectionTurnsHome(m, q, bias, a, w);
    NothingTaken(m, q, bias, a, w);
    LengthSquared(m, e);
    UpAfterTurn(m, q, e, dt);
    TurnNorm(m, e, dt);
    UpdatedIsUnit(m, q, bias, a, w, dt);
    assert Updated(m, q, bias, a, w, dt) == Normalized(m, Times(q, Turn(m, e, dt)));
    SinesAreSquares(d, u);
    hide Maths.Valid, Updated;
    var c, k := m.cos(HalfAngle(m.Length(e), dt)), SineScale(m, m.Length(e), dt);
    AlongDirection(QNorm2(Turn(m, e, dt)), d, Up(Normalized(m, Times(q, Turn(m, e, dt)))), u,
                   Product(c, k), Cross(u, e), Product(k, k), Cross(e, Cross(e, u)));
    TwiceAcross(e, u, d);
    MinusTimes(Product(k, k), Product(Norm2(e), Dot(d, u)));
    hide Product, Square;
  }

  lemma MinusTimes(a: real, b: real)
    ensures Product(a, -b) == -Product(a, b)
  {
  }

  lemma LengthSquared(m: Maths, v: Vec3)
    requires m.Valid()
    ensures m.Length(v) >= 0.0 && Square(m.Length(v)) == Norm2(v)
  {
    NormNonNegative(v);
    hide Norm2;
  }

  lemma SinesAreSquares(d: Vec3, u: Vec3)
    requires Norm2(d) == Norm2(u) == 1.0
    ensures 1.0 - Square(Dot(d, u)) >= 0.0
  {
    CrossFacts(d, u);
    NormNonNegative(Cross(d, u));
    OneTimes(1.0);
    hide Dot, Cross, Norm2, Square, Product;
  }

  /** With no corrected rate the integrated rate is the correction. */
  lemma NothingTaken(m: Maths, q: Quat, bias: Vec3, a: Vec3, w: Vec3)
    requires w == bias
    ensures Rate(m, q, bias, a, w) == Correction(m, q, bias, a, w)
  {
    hide Rate;
    var e := Rate(m, q, bias, a, w);
    assert CorrectedGyro(w, bias) == [0.0, 0.0, 0.0];
    assert Minus(e, [0.0, 0.0, 0.0]) == e;
  }

  lemma TurnNorm(m: Maths, omega: Vec3, dt: real)
    requires m.Valid()
    ensures QNorm2(Turn(m, omega, dt))
            == Square(m.cos(HalfAngle(m.Length(omega), dt))) + Square(Product(SineScale(m, m.Length(omega), dt), m.Length(omega)))
  {
    LengthSquared(m, omega);
    hide Maths.Valid, SineScale, HalfAngle;
    var k, s := SineScale(m, m.Length(omega), dt), m.Length(omega);
    ScaledSquares(k, omega[0], omega[1], omega[2]);
    SquareOfProduct(k, s);
    hide Product, Square;
  }

  const LONGEST: real := 0.03

  /** Over a short step of a slow rate the increment is nearly half the rotation. */
  lemma NearlyHalf(m: Maths, s: real, dt: real)
    requires m.Valid() && 0.0 <= s <= 1.0 && 0.0 < dt <= LONGEST
    ensures var c, k := m.cos(HalfAngle(s, dt)), SineScale(m, s, dt);
            && 0.99 <= c <= 1.0 && 0.49 * dt <= k <= 0.5 * dt
            && 1.0 <= Square(c) + Square(Product(k, s)) <= 1.001
  {
    var half, k := HalfAngle(s, dt), SineScale(m, s, dt);
    var sine, c := m.sin(half), m.cos(half);
    assert m.SeriesBounds(half);
    assert Square(sine) + Square(c) == 1.0 && Square(sine) <= Square(half);
    assert half >= 0.0 ==> half - Product(half, Square(half)) / 6.0 <= sine <= half;
    assert c >= 1.0 - Square(half) / 2.0;
    hide Maths.Valid;
    SmallAngle(s, dt, half);
    CosineAtMostOne(sine, c);
    if s > TINY_SPEED {
      assert k == sine / s;
      DivideTimes(sine, s);
      ScaleWithin(s, dt, half, sine, k);
      assert Square(Product(k, s)) == Square(sine);
    } else {
      HalfCommutes(s, dt);
      assert Product(k, s) == half;
    }
  }

  lemma CosineAtMostOne(sine: real, c: real)
    requires Square(sine) + Square(c) == 1.0
    ensures c <= 1.0
  {
    SquareNonNegative(sine);
    if c > 1.0 {
      PositiveProduct(c - 1.0, c + 1.0);
    }
  }

  lemma SmallAngle(s: real, dt: real, half: real)
    requires 0.0 <= s <= 1.0 && 0.0 < dt <= LONGEST && half == Product(0.5 * s, dt)
    ensures 0.0 <= half <= 0.015 && 0.0 <= Square(half) <= 0.000225
  {
    NonNegativeProduct(0.5 * s, dt);
    NonNegativeProduct(0.5 - 0.5 * s, dt);
    assert half <= 0.5 * dt;
    NonNegativeProduct(0.015 - half, 0.015 + half);
    SquareNonNegative(half);
  }

  /** `sin(half) / s` against half the step. */
  lemma ScaleWithin(s: real, dt: real, half: real, sine: real, k: real)
    requires s > 0.0 && dt > 0.0 && half == Product(0.5 * s, dt) && 0.0 <= Square(half) <= 0.000225 && half >= 0.0
    requires half - Product(half, Square(half)) / 6.0 <= sine <= half && Product(k, s) == sine
    ensures 0.49 * dt <= k <= 0.5 * dt
  {
    NonNegativeProduct(half, 0.000225 - Square(half));
    assert Product(half, Square(half)) <= 0.000225 * half;
    assert sine >= 0.99 * half;
    assert 0.5 * s * dt == (0.5 * dt) * s;
    if k > 0.5 * dt {
      PositiveProduct(k - 0.5 * dt, s);
    }
    if k < 0.49 * dt {
      PositiveProduct(0.49 * dt - k, s);
      PositiveProduct(dt, s);
    }
  }

  /** What the step comes to, once the increment is bounded. */
  lemma StepWithin(n: real, step: real, c: real, k: real, t: real, g: real, x: real, dt: real)
    requires 1.0 <= n <= 1.001 && 0.99 <= c <= 1.0 && 0.49 * dt <= k <= 0.5 * dt && 0.0 < dt <= LONGEST
    requires 0.0 <= t <= 1.0 && 0.0 <= g && -1.0 <= x <= 1.0
    requires Product(n, step) == 2.0 * Product(Product(c, k), Product(t, g)) - 2.0 * Product(Product(k, k), Product(Product(Square(t), g), x))
    ensures Product(dt, Product(t, g)) >= 0.0
    ensures 0.9 * Product(dt, Product(t, g)) <= step <= 1.1 * Product(dt, Product(t, g))
  {
    var z := Product(t, g);
    NonNegativeProduct(t, g);
    var share := c - k * t * x;
    Factored(c, k, t, g, x);
    assert Product(n, step) == (2.0 * k * share) * z;
    ShareWithin(c, k, t, x, dt, share);
    NonNegativeProduct(2.0 * k * share - 0.94 * dt, z);
    NonNegativeProduct(1.04 * dt - 2.0 * k * share, z);
    NonNegativeProduct(dt, z);
    assert 0.94 * dt * z == 0.94 * (dt * z) && 1.04 * dt * z == 1.04 * (dt * z);
    hide Product;
    Divided(n, step, dt * z);
  }

  lemma Factored(c: real, k: real, t: real, g: real, x: real)
    ensures 2.0 * Product(Product(c, k), Product(t, g)) - 2.0 * Product(Product(k, k), Product(Product(Square(t), g), x))
            == (2.0 * k * (c - k * t * x)) * Product(t, g)
  {
  }

  lemma ShareWithin(c: real, k: real, t: real, x: real, dt: real, share: real)
    requires 0.99 <= c <= 1.0 && 0.49 * dt <= k <= 0.5 * dt && 0.0 < dt <= LONGEST
    requires 0.0 <= t <= 1.0 && -1.0 <= x <= 1.0 && share == c - k * t * x
    ensures 0.94 * dt <= 2.0 * k * share <= 1.04 * dt
  {
    NonNegativeProduct(k, t);
    NonNegativeProduct(k, 1.0 - t);
    var p := k * t;
    assert 0.0 <= p <= 0.015;
    NonNegativeProduct(p, 1.0 - x);
    NonNegativeProduct(p, 1.0 + x);
    assert p * (1.0 - x) == p - p * x && p * (1.0 + x) == p + p * x;
    assert share == c - p * x;
    assert 0.975 <= share <= 1.015;
    NonNegativeProduct(2.0 * k, share - 0.975);
    NonNegativeProduct(2.0 * k, 1.015 - share);
  }

  lemma Divided(n: real, step: real, z: real)
    requires 1.0 <= n <= 1.001 && z >= 0.0 && 0.94 * z <= Product(n, step) <= 1.04 * z
    ensures 0.9 * z <= step <= 1.1 * z
  {
    if step < 0.0 {
      NonNegativeProduct(n, -step - 0.0);
      NonNegativeProduct(n - 1.0, -step);
    } else {
      NonNegativeProduct(n - 1.0, step);
      NonNegativeProduct(1.001 - n, step);
    }
  }

  /** Main result: with no corrected rate and an accelerometer that counts, every update the
      timestamp test lets through brings the estimated up direction closer to the measured one.
      Their cosine grows by the trust times the step times the square of their sine, to within
      a tenth. */
  lemma CorrectionConverges(m: Maths, q: Quat, bias: Vec3, a: Vec3, w: Vec3, dt: real)
    requires m.Valid() && QNorm2(q) == 1.0 && w == bias && Corrects(m, a) && 0.0 < dt <= LONGEST
    ensures m.Length(a) != 0.0
    ensures var d := Direction(m, a);
            var x := Dot(d, Up(q));
            var gain := Product(dt, Product(Trust(m, a), 1.0 - Square(x)));
            && gain >= 0.0
            && 0.9 * gain <= Dot(d, Up(Updated(m, q, bias, a, w, dt))) - x <= 1.1 * gain
  {
    hide Up, Direction, Dot, Rate, Turn, Updated, QNorm2, SineScale, HalfAngle;
    StepTowardsMeasured(m, q, bias, a, w, dt);
    var d, t, s := Direction(m, a), Trust(m, a), m.Length(Rate(m, q, bias, a, w));
    var x := Dot(d, Up(q));
    assert 0.0 <= t <= 1.0;
    hide Trust;
    SquareWithin(x);
    SpeedWithin(s, t, 1.0 - Square(x));
    NearlyHalf(m, s, dt);
    hide Maths.Valid;
    StepWithin(QNorm2(Turn(m, Rate(m, q, bias, a, w), dt)), Dot(d, Up(Updated(m, q, bias, a, w, dt))) - x,
               m.cos(HalfAngle(s, dt)), SineScale(m, s, dt), t, 1.0 - Square(x), x, dt);
  }

  lemma SquareWithin(x: real)
    requires 1.0 - Square(x) >= 0.0
    ensures -1.0 <= x <= 1.0 && 0.0 <= Square(x)
  {
    SquareNonNegative(x);
    if x > 1.0 {
      PositiveProduct(x - 1.0, x + 1.0);
    } else if x < -1.0 {
      PositiveProduct(-x - 1.0, -x + 1.0);
    }
  }

  lemma SpeedWithin(s: real, t: real, g: real)
    requires s >= 0.0 && Square(s) == Product(Square(t), g) && 0.0 <= t <= 1.0 && 0.0 <= g <= 1.0
    ensures s <= 1.0
  {
    NonNegativeProduct(t, 1.0 - t);
    NonNegativeProduct(1.0 - Square(t), g);
    if s > 1.0 {
      PositiveProduct(s - 1.0, s + 1.0);
    }
  }
}
