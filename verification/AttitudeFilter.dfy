/** Six-axis attitude estimation: accelerometer start, gyro propagation with a proportional
    tilt correction (native/src/imu_six_axis.hpp:51-105). */
module AttitudeFilter {
  import opened Prelude
  import opened Vectors
  import opened BiasWindow

  datatype FilterFault = BadStart | TimestampGap | InvalidAttitude

  type Quat = q: seq<real> | |q| == 4 witness [1.0, 0.0, 0.0, 0.0]

  function QNorm2(q: Quat): real { Square(q[0]) + Square(q[1]) + Square(q[2]) + Square(q[3]) }

  /** World up seen from the sensor. */
  function Up(q: Quat): Vec3 {
    [2.0 * (Product(q[1], q[3]) - Product(q[0], q[2])),
     2.0 * (Product(q[2], q[3]) + Product(q[0], q[1])),
     1.0 - 2.0 * (Square(q[1]) + Square(q[2]))]
  }

  /** The quaternion product the propagation writes out. */
  function Times(q: Quat, r: Quat): Quat {
    [Product(q[0], r[0]) - Product(q[1], r[1]) - Product(q[2], r[2]) - Product(q[3], r[3]),
     Product(q[0], r[1]) + Product(q[1], r[0]) + Product(q[2], r[3]) - Product(q[3], r[2]),
     Product(q[0], r[2]) - Product(q[1], r[3]) + Product(q[2], r[0]) + Product(q[3], r[1]),
     Product(q[0], r[3]) + Product(q[1], r[2]) - Product(q[2], r[1]) + Product(q[3], r[0])]
  }

  /** Euler's four-square identity: norms multiply. */
  lemma FourSquares(q: Quat, r: Quat)
    ensures QNorm2(Times(q, r)) == Product(QNorm2(q), QNorm2(r))
  {
    hide Square, Product;
    FourSquareReals(q[0], q[1], q[2], q[3], r[0], r[1], r[2], r[3]);
  }

  lemma FourSquareReals(a: real, b: real, c: real, d: real, w: real, x: real, y: real, z: real)
    ensures Square(Product(a, w) - Product(b, x) - Product(c, y) - Product(d, z))
            + Square(Product(a, x) + Product(b, w) + Product(c, z) - Product(d, y))
            + Square(Product(a, y) - Product(b, z) + Product(c, w) + Product(d, x))
            + Square(Product(a, z) + Product(b, y) - Product(c, x) + Product(d, w))
            == Product(Square(a) + Square(b) + Square(c) + Square(d), Square(w) + Square(x) + Square(y) + Square(z))
  {
    FourSquareExpanded(a, b, c, d, w, x, y, z);
    hide Square;
  }

  lemma FourSquareExpanded(a: real, b: real, c: real, d: real, w: real, x: real, y: real, z: real)
    ensures Square(a * w - b * x - c * y - d * z) + Square(a * x + b * w + c * z - d * y)
            + Square(a * y - b * z + c * w + d * x) + Square(a * z + b * y - c * x + d * w)
            == Product(Square(a) + Square(b) + Square(c) + Square(d), Square(w) + Square(x) + Square(y) + Square(z))
  {
  }

  /** The direction read from a unit quaternion is a unit vector. */
  lemma UpIsUnit(q: Quat)
    requires QNorm2(q) == 1.0
    ensures Norm2(Up(q)) == 1.0
  {
    UpReals(q[0], q[1], q[2], q[3]);
  }

  lemma UpReals(w: real, x: real, y: real, z: real)
    requires Square(w) + Square(x) + Square(y) + Square(z) == 1.0
    ensures Square(2.0 * (Product(x, z) - Product(w, y))) + Square(2.0 * (Product(y, z) + Product(w, x)))
            + Square(1.0 - 2.0 * (Square(x) + Square(y))) == 1.0
  {
    var s, t := x * x + y * y, z * z + w * w;
    assert t == 1.0 - s;
    TwoSquares(w, x, y, z);
    assert Square(1.0 - 2.0 * s) == 1.0 - 4.0 * s + 4.0 * (s * s);
    assert s * t == s - s * s;
  }

  lemma TwoSquares(w: real, x: real, y: real, z: real)
    ensures Square(2.0 * (Product(x, z) - Product(w, y))) + Square(2.0 * (Product(y, z) + Product(w, x)))
            == 4.0 * ((x * x + y * y) * (z * z + w * w))
  {
  }

  // ---- start ---------------------------------------------------------------

  /** The half-angle quaternion of a roll and a pitch. */
  function RollPitch(m: Maths, roll: real, pitch: real): Quat {
    var cr, sr, cp, sp := m.cos(0.5 * roll), m.sin(0.5 * roll), m.cos(0.5 * pitch), m.sin(0.5 * pitch);
    [Product(cr, cp), Product(sr, cp), Product(cr, sp), -Product(sr, sp)]
  }

  lemma SquareOfProduct(x: real, y: real)
    ensures Square(Product(x, y)) == Product(Square(x), Square(y)) == Square(-Product(x, y))
  {
  }

  lemma UnitGrid(a: real, b: real, c: real, d: real)
    requires a + b == 1.0 && c + d == 1.0
    ensures Product(b, d) + Product(a, d) + Product(b, c) + Product(a, c) == 1.0
    ensures 1.0 - 2.0 * (Product(a, d) + Product(b, c)) == Product(b - a, d - c)
  {
  }

  lemma PairUp(x: real, y: real, z: real)
    ensures Product(Product(x, y), Product(x, z)) == Product(Square(x), Product(z, y))
    ensures Product(Product(x, y), -Product(x, z)) == -Product(Square(x), Product(z, y))
  {
  }

  lemma PairAcross(x: real, y: real, z: real)
    ensures Product(Product(x, z), Product(y, z)) == Product(Product(y, x), Square(z))
    ensures Product(Product(x, z), -Product(y, z)) == -Product(Product(y, x), Square(z))
  {
  }

  lemma SplitUnit(a: real, b: real, t: real, u: real, c: real, d: real)
    requires a + b == 1.0
    ensures Product(a, t) + Product(b, t) == t
    ensures 2.0 * (Product(u, d) - Product(u, c)) == Product(2.0 * u, d - c)
  {
  }

  /** Half-angle products against the full angles. */
  lemma RollPitchReals(cr: real, sr: real, cp: real, sp: real)
    requires Square(sr) + Square(cr) == 1.0 && Square(sp) + Square(cp) == 1.0
    ensures Square(Product(cr, cp)) + Square(Product(sr, cp)) + Square(Product(cr, sp)) + Square(-Product(sr, sp)) == 1.0
    ensures 2.0 * (Product(Product(sr, cp), -Product(sr, sp)) - Product(Product(cr, cp), Product(cr, sp)))
            == -2.0 * Product(sp, cp)
    ensures 2.0 * (Product(Product(cr, sp), -Product(sr, sp)) + Product(Product(cr, cp), Product(sr, cp)))
            == Product(2.0 * Product(sr, cr), Square(cp) - Square(sp))
    ensures 1.0 - 2.0 * (Square(Product(sr, cp)) + Square(Product(cr, sp)))
            == Product(Square(cr) - Square(sr), Square(cp) - Square(sp))
  {
    hide Square, Product;
    SquareOfProduct(cr, cp);
    SquareOfProduct(sr, cp);
    SquareOfProduct(cr, sp);
    SquareOfProduct(sr, sp);
    UnitGrid(Square(sr), Square(cr), Square(sp), Square(cp));
    PairUp(sr, cp, sp);
    PairUp(cr, cp, sp);
    PairAcross(cr, sr, sp);
    PairAcross(cr, sr, cp);
    SplitUnit(Square(sr), Square(cr), Product(sp, cp), Product(sr, cr), Square(sp), Square(cp));
  }

  /** The starting quaternion is unit and its up vector is (-sin pitch, sin roll cos pitch,
      cos roll cos pitch). */
  lemma RollPitchUp(m: Maths, roll: real, pitch: real)
    requires m.Valid()
    ensures QNorm2(RollPitch(m, roll, pitch)) == 1.0
    ensures Up(RollPitch(m, roll, pitch))
            == [-m.sin(pitch), Product(m.sin(roll), m.cos(pitch)), Product(m.cos(roll), m.cos(pitch))]
  {
    var cr, sr, cp, sp := m.cos(0.5 * roll), m.sin(0.5 * roll), m.cos(0.5 * pitch), m.sin(0.5 * pitch);
    assert Square(sr) + Square(cr) == 1.0 && Square(sp) + Square(cp) == 1.0;
    assert m.sin(pitch) == 2.0 * Product(sp, cp) && m.cos(pitch) == Square(cp) - Square(sp);
    assert m.sin(roll) == 2.0 * Product(sr, cr) && m.cos(roll) == Square(cr) - Square(sr);
    RollPitchReals(cr, sr, cp, sp);
    hide Square, Product, Maths.Valid;
  }

  function StartRoll(m: Maths, a: Vec3): real { m.atan2(a[1], a[2]) }
  function StartPitch(m: Maths, a: Vec3): real { m.atan2(-a[0], m.root(Square(a[1]) + Square(a[2]))) }

  function Start(m: Maths, a: Vec3): Quat { RollPitch(m, StartRoll(m, a), StartPitch(m, a)) }

  /** The start aligns the estimate with gravity: its up vector is the measured acceleration
      scaled to length one, for every acceleration that is not zero. */
  lemma StartPointsUp(m: Maths, a: Vec3, i: nat)
    requires m.Valid() && Norm2(a) > 0.0 && i < 3
    ensures Product(m.Length(a), Up(Start(m, a))[i]) == a[i]
  {
    var roll, pitch := StartRoll(m, a), StartPitch(m, a);
    var flat2 := Square(a[1]) + Square(a[2]);
    var h := m.root(flat2);
    SquareNonNegative(a[0]);
    SquareNonNegative(a[1]);
    SquareNonNegative(a[2]);
    SquareNegated(a[0]);
    assert Square(h) == flat2;
    var l := m.Length(a);
    RootCompare(m, Norm2(a), 0.0);
    assert l > 0.0;
    assert m.AtanLaw(a[1], a[2]) && m.AtanLaw(-a[0], h);
    assert Product(l, m.cos(pitch)) == h && Product(l, m.sin(pitch)) == -a[0];
    RootCompare(m, flat2, 0.0);
    RollPitchUp(m, roll, pitch);
    FlatPart(m, a, h, roll);
    hide Maths.Valid, Norm2;
    Shuffle(l, m.sin(roll), m.cos(pitch));
    Shuffle(l, m.cos(roll), m.cos(pitch));
    NegatedProduct(l, m.sin(pitch));
    hide Product, Square;
  }

  /** Where the body's forward axis points in the world. */
  function Forward(q: Quat): Vec3 {
    [1.0 - 2.0 * (Square(q[2]) + Square(q[3])), 2.0 * (Product(q[1], q[2]) + Product(q[0], q[3])),
     2.0 * (Product(q[1], q[3]) - Product(q[0], q[2]))]
  }

  /** The start has no heading: the forward axis points nowhere to the side, and forward by the part
      of the acceleration that is not along it. */
  lemma StartHasNoHeading(m: Maths, a: Vec3)
    requires m.Valid() && Norm2(a) > 0.0
    ensures Forward(Start(m, a))[1] == 0.0
    ensures Product(m.Length(a), Forward(Start(m, a))[0]) == m.root(Square(a[1]) + Square(a[2])) >= 0.0
  {
    var roll, pitch := StartRoll(m, a), StartPitch(m, a);
    var h, l := m.root(Square(a[1]) + Square(a[2])), m.Length(a);
    SquareNonNegative(a[0]);
    SquareNonNegative(a[1]);
    SquareNonNegative(a[2]);
    SquareNegated(a[0]);
    assert Square(h) == Square(a[1]) + Square(a[2]) && h >= 0.0;
    RootCompare(m, Norm2(a), 0.0);
    assert l > 0.0;
    assert m.AtanLaw(-a[0], h);
    assert Product(l, m.cos(pitch)) == h;
    var cr, sr, cp, sp := m.cos(0.5 * roll), m.sin(0.5 * roll), m.cos(0.5 * pitch), m.sin(0.5 * pitch);
    assert Square(sr) + Square(cr) == 1.0 && Square(sp) + Square(cp) == 1.0 && m.cos(pitch) == Square(cp) - Square(sp);
    hide Maths.Valid, Norm2, Square, Product;
    NoHeading(cr, sr, cp, sp);
  }

  lemma NoHeading(cr: real, sr: real, cp: real, sp: real)
    requires Square(sr) + Square(cr) == 1.0 && Square(sp) + Square(cp) == 1.0
    ensures Product(Product(sr, cp), Product(cr, sp)) + Product(Product(cr, cp), -Product(sr, sp)) == 0.0
    ensures 1.0 - 2.0 * (Square(Product(cr, sp)) + Square(-Product(sr, sp))) == Square(cp) - Square(sp)
  {
    assert (sr * cp) * (cr * sp) == (cr * cp) * (sr * sp);
    SquareOfProduct(cr, sp);
    SquareOfProduct(sr, sp);
    Distribute(Square(sp), Square(cr), Square(sr));
    OneTimes(Square(sp));
  }

  lemma SquareNegated(x: real)
    ensures Square(-x) == Square(x)
  {
  }

  lemma NegatedProduct(x: real, y: real)
    ensures Product(x, -y) == -Product(x, y)
  {
  }

  lemma Shuffle(l: real, s: real, c: real)
    ensures Product(l, Product(s, c)) == Product(Product(l, c), s)
  {
  }

  /** The roll recovers the two horizontal components, also when both vanish. */
  lemma FlatPart(m: Maths, a: Vec3, h: real, roll: real)
    requires m.Valid() && h == m.root(Square(a[1]) + Square(a[2])) && roll == StartRoll(m, a)
    ensures Product(h, m.sin(roll)) == a[1] && Product(h, m.cos(roll)) == a[2]
  {
    SquareNonNegative(a[1]);
    SquareNonNegative(a[2]);
    SumOfSquaresOrder(a[1], a[2]);
    RootCompare(m, Square(a[1]) + Square(a[2]), 0.0);
    assert m.AtanLaw(a[1], a[2]);
    hide Square;
    if h == 0.0 {
      ZeroTimes(m.sin(roll));
      ZeroTimes(m.cos(roll));
      assert Square(a[1]) + Square(a[2]) <= 0.0 by { ZeroSquare(); }
      ZeroSquares(a[1], a[2]);
    }
  }

  lemma ZeroSquare()
    ensures Square(0.0) == 0.0
  {
  }

  lemma SumOfSquaresOrder(x: real, y: real)
    ensures Square(x) + Square(y) == Square(y) + Square(x)
  {
  }

  lemma ZeroSquares(x: real, y: real)
    requires Square(x) + Square(y) <= 0.0
    ensures x == 0.0 && y == 0.0
  {
    NonzeroSquare(x);
    NonzeroSquare(y);
    hide Square;
  }

  lemma NonzeroSquare(x: real)
    ensures Square(x) >= 0.0
    ensures x != 0.0 ==> Square(x) > 0.0
  {
    ZeroSquare();
    SquareNegated(x);
    if x >= 0.0 {
      SquareOrder(0.0, x);
    } else {
      SquareOrder(0.0, -x);
    }
    hide Square;
  }

  /** What a finished bias window hands to `initialize`: the bias always passes, and the mean
      acceleration passes unless it averaged out below 0.9 g. */
  lemma WindowStarts(m: Maths, accels: seq<Vec3>, gyros: seq<Vec3>)
    requires m.Valid() && accels != [] && gyros != []
    requires NormsWithin(accels, LOW_ACCEL2, HIGH_ACCEL2) && NormsWithin(gyros, 0.0, Square(STILL_GYRO))
    ensures Still(m, MeanOf(accels), MeanOf(gyros)) <==> Norm2(MeanOf(accels)) >= LOW_ACCEL2
  {
    MeanWithin(accels, LOW_ACCEL2, HIGH_ACCEL2);
    MeanWithin(gyros, 0.0, Square(STILL_GYRO));
    var a, w := Norm2(MeanOf(accels)), Norm2(MeanOf(gyros));
    NormNonNegative(MeanOf(accels));
    NormNonNegative(MeanOf(gyros));
    hide Norm2, MeanOf, NormsWithin, SpreadOf, Product;
    RootCompare(m, a, 0.9 * GRAVITY);
    RootCompare(m, a, 1.1 * GRAVITY);
    RootCompare(m, w, STILL_GYRO);
    hide Maths.Valid, Square;
  }

  // ---- propagation ---------------------------------------------------------

  function Cross(a: Vec3, b: Vec3): Vec3 {
    [Product(a[1], b[2]) - Product(a[2], b[1]), Product(a[2], b[0]) - Product(a[0], b[2]),
     Product(a[0], b[1]) - Product(a[1], b[0])]
  }

  function CorrectedGyro(w: Vec3, bias: Vec3): Vec3 { [w[0] - bias[0], w[1] - bias[1], w[2] - bias[2]] }

  /** Weight of the accelerometer: full near 1 g, none beyond a quarter of g away. */
  function Trust(m: Maths, a: Vec3): (t: real)
    ensures 0.0 <= t <= 1.0
  {
    Clamp((0.25 - Abs(m.Length(a) / GRAVITY - 1.0)) / 0.20, 0.0, 1.0)
  }

  /** The trust in terms of how far the acceleration is from 1 g: full up to a twentieth of g, none
      from a quarter of g on, and falling evenly in between. */
  lemma TrustLaw(m: Maths, a: Vec3)
    ensures var off := Abs(m.Length(a) - 9.80665);
            && (off <= 0.05 * 9.80665 ==> Trust(m, a) == 1.0)
            && (off >= 0.25 * 9.80665 ==> Trust(m, a) == 0.0)
            && (0.05 * 9.80665 <= off <= 0.25 * 9.80665 ==> 0.2 * 9.80665 * Trust(m, a) == 0.25 * 9.80665 - off)
  {
    hide Maths.Length;
    var l := m.Length(a);
    assert l / GRAVITY - 1.0 == (l - GRAVITY) / GRAVITY;
  }

  const TINY_LENGTH: real := 0.000000001
  const TINY_SPEED: real := 0.000000000001

  predicate Corrects(m: Maths, a: Vec3) { Trust(m, a) > 0.0 && m.Length(a) > TINY_LENGTH }

  function Direction(m: Maths, a: Vec3): Vec3
    requires m.Length(a) != 0.0
  {
    var l := m.Length(a);
    [a[0] / l, a[1] / l, a[2] / l]
  }

  /** The rate that is integrated: bias removed, tilt error fed back. */
  function Rate(m: Maths, q: Quat, bias: Vec3, a: Vec3, w: Vec3): Vec3 {
    var omega := CorrectedGyro(w, bias);
    if Corrects(m, a) then
      var e := Cross(Direction(m, a), Up(q));
      var t := Trust(m, a);
      [omega[0] + Product(t, e[0]), omega[1] + Product(t, e[1]), omega[2] + Product(t, e[2])]
    else omega
  }

  function HalfAngle(speed: real, dt: real): real { Product(0.5 * speed, dt) }

  function SineScale(m: Maths, speed: real, dt: real): real {
    if speed > TINY_SPEED then m.sin(HalfAngle(speed, dt)) / speed else 0.5 * dt
  }

  /** The increment quaternion of a rate over `dt`. */
  function Turn(m: Maths, omega: Vec3, dt: real): Quat {
    var speed := m.Length(omega);
    var k := SineScale(m, speed, dt);
    [m.cos(HalfAngle(speed, dt)), Product(k, omega[0]), Product(k, omega[1]), Product(k, omega[2])]
  }

  /** The increment is unit in the ordinary branch and never shorter than one, so the
      norm test of the update cannot fire. */
  lemma TurnIsLong(m: Maths, omega: Vec3, dt: real)
    requires m.Valid()
    ensures QNorm2(Turn(m, omega, dt)) >= 1.0
    ensures m.Length(omega) > TINY_SPEED ==> QNorm2(Turn(m, omega, dt)) == 1.0
  {
    var speed := m.Length(omega);
    var half, k := HalfAngle(speed, dt), SineScale(m, speed, dt);
    NormNonNegative(omega);
    assert Square(speed) == Norm2(omega);
    assert Square(m.sin(half)) + Square(m.cos(half)) == 1.0 && Square(m.sin(half)) <= Square(half);
    hide Maths.Valid;
    ScaledSquares(k, omega[0], omega[1], omega[2]);
    assert Product(Square(k), Square(speed)) == Square(Product(k, speed)) by { SquareOfProduct(k, speed); }
    if speed > TINY_SPEED {
      DivideTimes(m.sin(half), speed);
    } else {
      assert Product(k, speed) == half by { HalfCommutes(speed, dt); }
    }
    hide Square, Product;
  }

  lemma ScaledSquares(k: real, x: real, y: real, z: real)
    ensures Square(Product(k, x)) + Square(Product(k, y)) + Square(Product(k, z))
            == Product(Square(k), Square(x) + Square(y) + Square(z))
  {
    SquareOfProduct(k, x);
    SquareOfProduct(k, y);
    SquareOfProduct(k, z);
    Distribute(Square(k), Square(x) + Square(y), Square(z));
    Distribute(Square(k), Square(x), Square(y));
    hide Square, Product;
  }

  lemma DivideTimes(x: real, y: real)
    requires y > 0.0
    ensures Product(x / y, y) == x
  {
  }

  lemma HalfCommutes(speed: real, dt: real)
    ensures Product(0.5 * dt, speed) == Product(0.5 * speed, dt)
  {
  }

  function Normalized(m: Maths, q: Quat): Quat
    requires m.root(QNorm2(q)) != 0.0
  {
    var s := m.root(QNorm2(q));
    [q[0] / s, q[1] / s, q[2] / s, q[3] / s]
  }

  lemma NormalizedIsUnit(m: Maths, q: Quat)
    requires m.Valid() && QNorm2(q) > 0.0
    ensures m.root(QNorm2(q)) > 0.0 && QNorm2(Normalized(m, q)) == 1.0
  {
    var n := QNorm2(q);
    var s := m.root(n);
    RootCompare(m, n, 0.0);
    ZeroSquare();
    assert Square(s) == n;
    hide Maths.Valid;
    QuotientSquare(q[0], s);
    QuotientSquare(q[1], s);
    QuotientSquare(q[2], s);
    QuotientSquare(q[3], s);
    Distribute(Square(s), Square(q[0] / s) + Square(q[1] / s) + Square(q[2] / s), Square(q[3] / s));
    Distribute(Square(s), Square(q[0] / s) + Square(q[1] / s), Square(q[2] / s));
    Distribute(Square(s), Square(q[0] / s), Square(q[1] / s));
    UnitOfProduct(n, QNorm2(Normalized(m, q)));
    hide Square, Product;
  }

  lemma QuotientSquare(x: real, s: real)
    requires s > 0.0
    ensures Product(Square(s), Square(x / s)) == Square(x)
  {
    var y := x / s;
    assert y * s == x;
    assert (s * s) * (y * y) == (y * s) * (y * s);
  }

  lemma ScaledProduct(a: real, b: real, s: real)
    requires s > 0.0
    ensures Product(Square(s), Product(a / s, b / s)) == Product(a, b)
  {
    var y, z := a / s, b / s;
    assert y * s == a && z * s == b;
    assert (s * s) * (y * z) == (y * s) * (z * s);
  }

  lemma UnitOfProduct(n: real, x: real)
    requires n > 0.0 && Product(n, x) == n
    ensures x == 1.0
  {
  }

  /** What one accepted update makes of the attitude. */
  function Updated(m: Maths, q: Quat, bias: Vec3, a: Vec3, w: Vec3, dt: real): Quat {
    var raw := Times(q, Turn(m, Rate(m, q, bias, a, w), dt));
    if m.root(QNorm2(raw)) == 0.0 then q else Normalized(m, raw)
  }

  /** The attitude stays unit, whatever is measured. */
  lemma UpdatedIsUnit(m: Maths, q: Quat, bias: Vec3, a: Vec3, w: Vec3, dt: real)
    requires m.Valid() && QNorm2(q) == 1.0
    ensures var raw := Times(q, Turn(m, Rate(m, q, bias, a, w), dt));
            QNorm2(raw) >= 1.0 && m.root(QNorm2(raw)) > 0.0
    ensures QNorm2(Updated(m, q, bias, a, w, dt)) == 1.0
  {
    hide Maths.Valid, Times, Turn, Rate, QNorm2;
    var omega := Rate(m, q, bias, a, w);
    TurnIsLong(m, omega, dt);
    FourSquares(q, Turn(m, omega, dt));
    OneTimes(QNorm2(Turn(m, omega, dt)));
    NormalizedIsUnit(m, Times(q, Turn(m, omega, dt)));
  }

  /** Fixed point: no corrected rate, and measured up equal to predicted up (or ignored),
      leave the attitude where it is. */
  lemma RestIsFixed(m: Maths, q: Quat, bias: Vec3, a: Vec3, w: Vec3, dt: real)
    requires m.Valid() && QNorm2(q) == 1.0 && w == bias
    requires Corrects(m, a) ==> Direction(m, a) == Up(q)
    ensures Updated(m, q, bias, a, w, dt) == q
  {
    hide Up, QNorm2, Trust;
    SelfCross(Up(q));
    RateAtRest(m, q, bias, a, w);
    var omega := Rate(m, q, bias, a, w);
    assert omega == [0.0, 0.0, 0.0];
    hide Rate, Corrects;
    TurnAtRest(m, dt);
    var one: Quat := [1.0, 0.0, 0.0, 0.0];
    TimesOne(q);
    RootOfOne(m);
    assert Normalized(m, q) == [q[0] / 1.0, q[1] / 1.0, q[2] / 1.0, q[3] / 1.0];
  }

  lemma SelfCross(v: Vec3)
    ensures Cross(v, v) == [0.0, 0.0, 0.0]
  {
    Commute(v[0], v[1]);
    Commute(v[1], v[2]);
    Commute(v[2], v[0]);
    hide Product;
  }

  lemma RateAtRest(m: Maths, q: Quat, bias: Vec3, a: Vec3, w: Vec3)
    requires w == bias && (Corrects(m, a) ==> Direction(m, a) == Up(q)) && Cross(Up(q), Up(q)) == [0.0, 0.0, 0.0]
    ensures Rate(m, q, bias, a, w) == [0.0, 0.0, 0.0]
  {
    ZeroTimes(Trust(m, a));
    hide Trust, Up, Product, Cross;
  }

  lemma TurnAtRest(m: Maths, dt: real)
    requires m.Valid()
    ensures Turn(m, [0.0, 0.0, 0.0], dt) == [1.0, 0.0, 0.0, 0.0]
  {
    ZeroSquare();
    RootCompare(m, 0.0, 0.0);
    assert m.cos(0.0) == 1.0;
    var zero: Vec3 := [0.0, 0.0, 0.0];
    assert Norm2(zero) == 0.0;
    var speed := m.Length(zero);
    assert speed == 0.0;
    assert HalfAngle(0.0, dt) == 0.0 by { ZeroTimes(dt); }
    hide Maths.Valid;
    ZeroTimes(SineScale(m, speed, dt));
    hide Product;
  }

  lemma TimesOne(q: Quat)
    ensures Times(q, [1.0, 0.0, 0.0, 0.0]) == q
  {
    OneTimes(q[0]);
    ZeroTimes(q[0]);
    OneTimes(q[1]);
    ZeroTimes(q[1]);
    OneTimes(q[2]);
    ZeroTimes(q[2]);
    OneTimes(q[3]);
    ZeroTimes(q[3]);
    hide Product;
  }

  lemma RootOfOne(m: Maths)
    requires m.Valid()
    ensures m.root(1.0) == 1.0
  {
    RootCompare(m, 1.0, 1.0);
    assert Square(1.0) == 1.0;
  }

  // ---- the filter object ---------------------------------------------------

  class SixAxis {
    const maths: Maths
    var q: Quat
    var bias: Vec3
    var last: nat

    /** The attitude is a unit quaternion in every reachable state. */
    ghost predicate Valid()
      reads this
    {
      maths.Valid() && QNorm2(q) == 1.0
    }

    constructor (maths: Maths)
      requires maths.Valid()
      ensures Valid() && last == 0 && this.maths == maths
    {
      this.maths, last := maths, 0;
      q, bias := [1.0, 0.0, 0.0, 0.0], [0.0, 0.0, 0.0];
    }

    /** `initialize`: accepted accelerations become the estimated up direction exactly. */
    method Initialize(a: Vec3, bias: Vec3, timestamp: nat) returns (r: Result<(), FilterFault>)
      requires Valid()
      modifies this
      ensures Valid()
      ensures if timestamp == 0 || !Still(maths, a, bias) then r == Err(BadStart) && unchanged(this)
              else
                && r == Ok(()) && this.bias == bias && last == timestamp && q == Start(maths, a)
                && maths.Length(a) > 0.0 && Norm2(Up(q)) == 1.0
                && forall i :: 0 <= i < 3 ==> Product(maths.Length(a), Up(q)[i]) == a[i]
    {
      if timestamp == 0 || Abs(maths.Length(a) - GRAVITY) > 0.1 * GRAVITY || maths.Length(bias) > STILL_GYRO {
        return Err(BadStart);
      }
      StillNorms(maths, a, bias);
      forall i | 0 <= i < 3 ensures Product(maths.Length(a), Up(Start(maths, a))[i]) == a[i] {
        StartPointsUp(maths, a, i);
      }
      RollPitchUp(maths, StartRoll(maths, a), StartPitch(maths, a));
      hide Maths.Valid, RollPitch, Up, QNorm2, Norm2;
      q := RollPitch(maths, maths.atan2(a[1], a[2]), maths.atan2(-a[0], maths.root(Square(a[1]) + Square(a[2]))));
      UpIsUnit(q);
      this.bias, last := bias, timestamp;
      return Ok(());
    }

    /** `update`: the trust given to the accelerometer, or a timestamp fault that changes
        nothing; the third fault of the source cannot occur. */
    method Update(a: Vec3, w: Vec3, timestamp: nat) returns (r: Result<real, FilterFault>)
      requires Valid()
      modifies this`q, this`last
      ensures Valid()
      ensures if old(last) == 0 || timestamp <= old(last) || timestamp - old(last) > 30_000_000 then
                r == Err(TimestampGap) && unchanged(this)
              else
                && r == Ok(Trust(maths, a)) && last == timestamp && Norm2(Up(q)) == 1.0
                && q == Updated(maths, old(q), bias, a, w, (timestamp - old(last)) as real * 0.000000001)
    {
      if last == 0 || timestamp <= last || timestamp - last > MAX_GAP {
        return Err(TimestampGap);
      }
      var dt := (timestamp - last) as real * 0.000000001;
      UpdatedIsUnit(maths, q, bias, a, w, dt);
      hide Maths.Valid, Rate, Turn, Times, Up, Norm2, Square;
      var next := Times(q, Turn(maths, Rate(maths, q, bias, a, w), dt));
      var norm := 0.0;
      for i := 0 to 4
        invariant norm == if i == 0 then 0.0 else if i == 1 then Square(next[0])
                          else if i == 2 then Square(next[0]) + Square(next[1])
                          else if i == 3 then Square(next[0]) + Square(next[1]) + Square(next[2])
                          else QNorm2(next)
      {
        norm := norm + Square(next[i]);
      }
      if norm < TINY_SPEED {
        return Err(InvalidAttitude);
      }
      ghost var raw := next;
      hide QNorm2;
      for i := 0 to 4
        invariant forall k :: 0 <= k < i ==> next[k] == raw[k] / maths.root(norm)
        invariant forall k :: i <= k < 4 ==> next[k] == raw[k]
      {
        next := next[i := next[i] / maths.root(norm)];
      }
      assert next == Normalized(maths, raw);
      q, last := next, timestamp;
      UpIsUnit(q);
      return Ok(Trust(maths, a));
    }
  }
}
