/** Sensor frames: the ICM readout (native/icm45686/core.hpp) and the actor's feedback map
    (native/src/policy_feedback.hpp), and what survives of a sample from the chip to the
    policy input. */
module Feedback {
  import opened Prelude
  import opened Vectors
  import opened AttitudeFilter
  import opened ImuPacket
  import opened Impedance
  import opened Synthesis
  import opened ImuRoundTrip
  import opened BiasWindow
  import opened ImuClient
  import opened Wire

  // ---- ICM readout ---------------------------------------------------------

  /** Sensor axes to body axes: the chip is mounted x down, z back. */
  function Body(s: Vec3): Vec3 { [-s[2], -s[1], -s[0]] }

  /** `icm::accel` and `icm::gyro`. */
  method ReadSensor(raw: seq<Count>) returns (accel: Vec3, gyro: Vec3)
    requires |raw| == 6
    ensures accel == Accel(raw) && gyro == Gyro(raw)
  {
    accel, gyro := [0.0, 0.0, 0.0], [0.0, 0.0, 0.0];
    for i := 0 to 3
      invariant forall k :: 0 <= k < i ==> accel[k] == Accel(raw)[k] && gyro[k] == Gyro(raw)[k]
    {
      accel := accel[i := raw[i] as real * ACCEL_SCALE];
      gyro := gyro[i := raw[3 + i] as real * GYRO_SCALE];
    }
  }

  // ---- the feedback map ----------------------------------------------------

  const JOINTS: nat := 31
  const TINY_NORM: real := 0.000000001

  datatype FeedbackFault = InvalidQuaternion

  datatype FeedbackMap = FeedbackMap(motorZero: seq<real>, motorToJoint: seq<real>) {
    predicate Valid() { |motorZero| == JOINTS && |motorToJoint| == JOINTS * JOINTS }

    /** The flat matrix, row by row. */
    function Coefficient(j: int, m: int): real { At(motorToJoint, j * JOINTS + m) }
    function PositionTerm(input: seq<real>, j: int): int -> real {
      m => Product(Coefficient(j, m), At(input, m) - At(motorZero, m))
    }
    function VelocityTerm(input: seq<real>, j: int): int -> real {
      m => Product(Coefficient(j, m), At(input, JOINTS + m))
    }
    function Position(input: seq<real>, j: int): real { Sum(JOINTS, PositionTerm(input, j)) }
    function Velocity(input: seq<real>, j: int): real { Sum(JOINTS, VelocityTerm(input, j)) }
  }

  /** Gravity seen from the body, from a world<-sensor quaternion. */
  function BodyGravity(q: Quat): Vec3 {
    [1.0 - 2.0 * (Square(q[1]) + Square(q[2])),
     2.0 * (Product(q[2], q[3]) + Product(q[1], q[0])),
     2.0 * (Product(q[1], q[3]) - Product(q[2], q[0]))]
  }

  function QuatAt(input: seq<real>): Quat
    requires |input| == 69
  {
    input[65..]
  }

  predicate QuatUsable(m: Maths, input: seq<real>)
    requires |input| == 69
  {
    m.root(QNorm2(QuatAt(input))) >= TINY_NORM
  }

  function Converted(f: FeedbackMap, m: Maths, input: seq<real>): (r: seq<real>)
    requires f.Valid() && |input| == 69 && QuatUsable(m, input)
    ensures |r| == 68
  {
    seq(JOINTS, j requires j >= 0 => f.Position(input, j)) + seq(JOINTS, j requires j >= 0 => f.Velocity(input, j))
    + Body(input[62..65]) + BodyGravity(Normalized(m, QuatAt(input)))
  }

  /** `convert`. */
  method Convert(f: FeedbackMap, m: Maths, input: seq<real>) returns (r: Result<seq<real>, FeedbackFault>)
    requires f.Valid() && |input| == 69
    ensures r == if m.root(QNorm2(input[65..])) >= 0.000000001 then Ok(Converted(f, m, input)) else Err(InvalidQuaternion)
  {
    hide Product, Square, QNorm2, Normalized, BodyGravity, Body;
    var result := ConvertJoints(f, input);
    var norm := m.root(QNorm2(QuatAt(input)));
    if norm < TINY_NORM {
      return Err(InvalidQuaternion);
    }
    var gyro := Body(input[62..65]);
    var gravity := BodyGravity(Normalized(m, QuatAt(input)));
    return Ok(result + gyro + gravity);
  }

  /** The two accumulating matrix products. */
  method ConvertJoints(f: FeedbackMap, input: seq<real>) returns (r: seq<real>)
    requires f.Valid() && |input| == 69
    ensures r == seq(JOINTS, j requires j >= 0 => f.Position(input, j)) + seq(JOINTS, j requires j >= 0 => f.Velocity(input, j))
  {
    hide FeedbackMap.Position, FeedbackMap.Velocity;
    var result := new real[62](_ => 0.0);
    for j := 0 to JOINTS
      invariant forall k :: 0 <= k < 62 && (k < j || JOINTS <= k < JOINTS + j) ==>
        result[k] == if k < JOINTS then f.Position(input, k) else f.Velocity(input, k - JOINTS)
      invariant forall k :: 0 <= k < 62 && (j <= k < JOINTS || k >= JOINTS + j) ==> result[k] == 0.0
    {
      var position, velocity := ConvertJoint(f, input, j, result[j], result[JOINTS + j]);
      result[j], result[JOINTS + j] := position, velocity;
    }
    r := result[..];
  }

  method ConvertJoint(f: FeedbackMap, input: seq<real>, j: nat, p0: real, v0: real) returns (p: real, v: real)
    requires f.Valid() && |input| == 69 && j < JOINTS && p0 == 0.0 && v0 == 0.0
    ensures p == f.Position(input, j) && v == f.Velocity(input, j)
  {
    hide Product, Sum, FeedbackMap.PositionTerm, FeedbackMap.VelocityTerm;
    EmptySum(f.PositionTerm(input, j));
    EmptySum(f.VelocityTerm(input, j));
    p, v := p0, v0;
    for m := 0 to JOINTS
      invariant p == Sum(m, f.PositionTerm(input, j)) && v == Sum(m, f.VelocityTerm(input, j))
    {
      TermStep(f, input, j, m);
      var coefficient := f.motorToJoint[j * 31 + m];
      p := p + Product(coefficient, input[m] - f.motorZero[m]);
      v := v + Product(coefficient, input[31 + m]);
    }
  }

  lemma EmptySum(f: int -> real)
    ensures Sum(0, f) == 0.0
  {
  }

  lemma TermStep(f: FeedbackMap, input: seq<real>, j: nat, m: nat)
    requires f.Valid() && |input| == 69 && j < JOINTS && m < JOINTS
    ensures 0 <= j * 31 + m < |f.motorToJoint|
    ensures Sum(m + 1, f.PositionTerm(input, j))
            == Sum(m, f.PositionTerm(input, j)) + Product(f.motorToJoint[j * 31 + m], input[m] - f.motorZero[m])
    ensures Sum(m + 1, f.VelocityTerm(input, j))
            == Sum(m, f.VelocityTerm(input, j)) + Product(f.motorToJoint[j * 31 + m], input[31 + m])
  {
    hide Product;
  }

  /** The actor and the controller see the same joint positions when they were given the same
      matrix, the one flat and the other in rows. */
  lemma ActorAndControllerAgree(f: FeedbackMap, kin: Kinematics, input: seq<real>, j: nat)
    requires f.Valid() && kin.Has(JOINTS) && |input| == 69 && j < JOINTS
    requires f.motorZero == kin.motorOffset
    requires forall i, m :: 0 <= i < JOINTS && 0 <= m < JOINTS ==> f.Coefficient(i, m) == kin.B(i, m)
    ensures f.Position(input, j) == JointPosition(kin, JOINTS, input[..31], j)
    ensures f.Velocity(input, j) == JointVelocity(kin, JOINTS, input[31..62], j)
  {
    hide Product, FeedbackMap.Coefficient, Kinematics.B;
    SumExt(JOINTS, f.PositionTerm(input, j), m => Product(kin.B(j, m), At(input[..31], m) - At(kin.motorOffset, m)));
    SumExt(JOINTS, f.VelocityTerm(input, j), m => Product(kin.B(j, m), At(input[31..62], m)));
  }

  // ---- from the chip to the policy -----------------------------------------

  function Negated(v: Vec3): Vec3 { [-v[0], -v[1], -v[2]] }

  /** The encoder's change of frame and the map's reading of gravity cancel: for a unit attitude
      what the policy gets is minus the estimator's up vector, and for any other it is off by at
      most the error of its norm. */
  lemma GravityIsNearMinusUp(h: real, q: Quat)
    requires Square(h) == 0.5
    ensures Close(BodyGravity(SensorQuat(h, q)), Negated(Up(q)), Abs(QNorm2(q) - 1.0))
  {
    var s := SensorQuat(h, q);
    var w, x, y, z := q[0], q[1], q[2], q[3];
    hide Square, Product;
    SquareOfProduct(h, w - y);
    SquareOfProduct(h, z + x);
    CrossSquares(w, x, y, z);
    PairNegated(h, z + x, w + y);
    PairPlain(h, w - y, z - x);
    CrossProducts(w, x, y, z);
    PairNegated(h, w - y, w + y);
    PairPlain(h, z + x, z - x);
    DifferenceOfSquares(w, y);
    DifferenceOfSquares(z, x);
  }

  lemma GravityIsMinusUp(h: real, q: Quat)
    requires Square(h) == 0.5 && QNorm2(q) == 1.0
    ensures BodyGravity(SensorQuat(h, q)) == Negated(Up(q))
  {
    hide BodyGravity, SensorQuat, Up, QNorm2;
    GravityIsNearMinusUp(h, q);
    CloseToNothing(BodyGravity(SensorQuat(h, q)), Negated(Up(q)));
  }

  /** The body axes: what the sensor's own frame calls up is, on the body's axes, the up vector of
      the attitude the packet was made from, for every unit attitude. */
  lemma BodyOfSensorUp(h: real, q: Quat)
    requires Square(h) == 0.5 && QNorm2(q) == 1.0
    ensures Body(Up(SensorQuat(h, q))) == Up(q)
  {
    GravityIsMinusUp(h, q);
    GravityIsUp(SensorQuat(h, q));
    var u, g := Up(q), BodyGravity(SensorQuat(h, q));
    hide Up, SensorQuat, BodyGravity, QNorm2;
    assert g[0] == -u[0] && g[1] == -u[1] && g[2] == -u[2];
  }

  /** Changing the axes is a rotation: it keeps lengths, inner products and orientation. */
  lemma BodyIsRotation(a: Vec3, b: Vec3)
    ensures Body(Cross(a, b)) == Cross(Body(a), Body(b))
    ensures Norm2(Body(a)) == Norm2(a)
  {
    BodyNorm(a);
    forall x: real, y: real ensures Product(-x, -y) == Product(x, y) == Product(y, x) {
    }
    hide Product, Square;
  }

  lemma CloseToNothing(a: seq<real>, b: seq<real>)
    requires Close(a, b, 0.0)
    ensures a == b
  {
    forall i | 0 <= i < |a| ensures a[i] == b[i] {
      assert Abs(a[i] - b[i]) <= 0.0;
    }
  }

  lemma PairPlain(h: real, a: real, b: real)
    requires Square(h) == 0.5
    ensures Product(Product(h, a), Product(h, b)) == 0.5 * Product(a, b)
  {
    assert (h * a) * (h * b) == (h * h) * (a * b);
  }

  lemma PairNegated(h: real, a: real, b: real)
    requires Square(h) == 0.5
    ensures Product(Product(h, a), -Product(h, b)) == -0.5 * Product(a, b)
  {
    assert (h * a) * (h * b) == (h * h) * (a * b);
    assert (h * a) * (-(h * b)) == -((h * a) * (h * b));
  }

  lemma CrossSquares(w: real, x: real, y: real, z: real)
    ensures Product(0.5, Square(w - y)) + Product(0.5, Square(z + x))
            == 0.5 * (Square(w) + Square(x) + Square(y) + Square(z)) + Product(x, z) - Product(w, y)
  {
  }

  lemma CrossProducts(w: real, x: real, y: real, z: real)
    ensures Product(w - y, z - x) - Product(z + x, w + y) == -2.0 * (Product(y, z) + Product(w, x))
  {
  }

  lemma DifferenceOfSquares(a: real, b: real)
    ensures Product(a - b, a + b) == Square(a) - Square(b) == Product(a + b, a - b)
  {
  }

  /** Dividing by a number near one changes little. */
  lemma DividedByNorm(y: real, x: real, n: real)
    requires Product(n, y) == x && Abs(y) <= 2.0
    ensures Abs(y - x) <= 2.0 * Abs(n - 1.0)
  {
    SmallProduct(1.0 - n, y, Abs(n - 1.0), 2.0);
    assert (1.0 - n) * y == y - n * y;
  }

  lemma TwiceProduct(a: real, b: real)
    ensures -(Square(a) + Square(b)) <= 2.0 * Product(a, b) <= Square(a) + Square(b)
  {
    SquareNonNegative(a - b);
    SquareNonNegative(a + b);
    assert (a - b) * (a - b) == a * a - 2.0 * (a * b) + b * b;
    assert (a + b) * (a + b) == a * a + 2.0 * (a * b) + b * b;
  }

  /** The up vector of a quaternion before the constant is added. */
  function UpTerms(q: Quat): Vec3 {
    [2.0 * (Product(q[1], q[3]) - Product(q[0], q[2])), 2.0 * (Product(q[2], q[3]) + Product(q[0], q[1])),
     -2.0 * (Product(q[1], q[1]) + Product(q[2], q[2]))]
  }

  lemma UpTermsOf(q: Quat)
    ensures Up(q) == [UpTerms(q)[0], UpTerms(q)[1], 1.0 + UpTerms(q)[2]]
  {
    assert Square(q[1]) == Product(q[1], q[1]) && Square(q[2]) == Product(q[2], q[2]);
    hide Product, Square;
  }

  lemma UnitTerms(u: Quat)
    requires QNorm2(u) == 1.0
    ensures forall i :: 0 <= i < 3 ==> Abs(UpTerms(u)[i]) <= 2.0
  {
    TwiceProduct(u[1], u[3]);
    TwiceProduct(u[0], u[2]);
    TwiceProduct(u[2], u[3]);
    TwiceProduct(u[0], u[1]);
    SquareNonNegative(u[0]);
    SquareNonNegative(u[1]);
    SquareNonNegative(u[2]);
    SquareNonNegative(u[3]);
    assert Square(u[1]) == Product(u[1], u[1]) && Square(u[2]) == Product(u[2], u[2]);
    assert Square(u[0]) >= 0.0 && Square(u[1]) >= 0.0 && Square(u[2]) >= 0.0 && Square(u[3]) >= 0.0;
    hide Product, Square;
  }

  /** The terms of a scaled quaternion. */
  lemma ScaledTerms(t: Quat, u: Quat, n: real)
    requires forall i, j :: 0 <= i < 4 && 0 <= j < 4 ==> Product(n, Product(u[i], u[j])) == Product(t[i], t[j])
    ensures forall i :: 0 <= i < 3 ==> Product(n, UpTerms(u)[i]) == UpTerms(t)[i]
  {
    TwiceScaled(n, Product(u[1], u[3]), -Product(u[0], u[2]));
    TwiceScaled(n, Product(u[2], u[3]), Product(u[0], u[1]));
    TwiceScaled(n, -Product(u[1], u[1]), -Product(u[2], u[2]));
    MinusScaled(n, Product(u[0], u[2]));
    MinusScaled(n, Product(u[1], u[1]));
    MinusScaled(n, Product(u[2], u[2]));
    hide Product;
    assert Product(n, Product(u[1], u[3])) == Product(t[1], t[3]) && Product(n, Product(u[0], u[2])) == Product(t[0], t[2]);
    assert Product(n, Product(u[2], u[3])) == Product(t[2], t[3]) && Product(n, Product(u[0], u[1])) == Product(t[0], t[1]);
    assert Product(n, Product(u[1], u[1])) == Product(t[1], t[1]) && Product(n, Product(u[2], u[2])) == Product(t[2], t[2]);
    assert UpTerms(u)[0] == 2.0 * (Product(u[1], u[3]) + -Product(u[0], u[2]));
    assert UpTerms(u)[2] == 2.0 * (-Product(u[1], u[1]) + -Product(u[2], u[2]));
  }

  lemma TwiceScaled(n: real, a: real, b: real)
    ensures Product(n, 2.0 * (a + b)) == 2.0 * (Product(n, a) + Product(n, b))
  {
  }

  lemma MinusScaled(n: real, a: real)
    ensures Product(n, -a) == -Product(n, a)
  {
  }

  /** Normalizing moves the up vector by at most twice the error of the norm. */
  lemma NormalizedUp(m: Maths, t: Quat)
    requires m.Valid() && QNorm2(t) > 0.0
    ensures m.root(QNorm2(t)) != 0.0
    ensures Close(Up(Normalized(m, t)), Up(t), 2.0 * Abs(QNorm2(t) - 1.0))
  {
    hide Up, QNorm2, Product, Square;
    NormalizedIsUnit(m, t);
    var n, r := QNorm2(t), m.root(QNorm2(t));
    assert Square(r) == n;
    hide Maths.Valid;
    var u := Normalized(m, t);
    forall i, j | 0 <= i < 4 && 0 <= j < 4 ensures Product(n, Product(u[i], u[j])) == Product(t[i], t[j]) {
      ScaledProduct(t[i], t[j], r);
    }
    ScaledTerms(t, u, n);
    UnitTerms(u);
    UpTermsOf(u);
    UpTermsOf(t);
    var x, y := UpTerms(u), UpTerms(t);
    hide UpTerms, Normalized;
    forall i | 0 <= i < 3 ensures Abs(x[i] - y[i]) <= 2.0 * Abs(n - 1.0) {
      DividedByNorm(x[i], y[i], n);
    }
    assert Abs(x[2] - y[2]) <= 2.0 * Abs(n - 1.0);
  }

  /** Gravity read off a quaternion is its up vector, with the axes in the other order. */
  lemma GravityIsUp(q: Quat)
    ensures BodyGravity(q) == [Up(q)[2], Up(q)[1], Up(q)[0]]
  {
    assert Product(q[1], q[0]) == Product(q[0], q[1]) && Product(q[2], q[0]) == Product(q[0], q[2]);
    hide Product, Square;
  }

  /** What the policy reads off a quaternion stored with some error. */
  lemma StoredGravity(m: Maths, h: real, q: Quat, t: Quat, epsilon: real)
    requires m.Valid() && Square(h) == 0.5 && NearUnit(q) && Close(SensorQuat(h, q), t, epsilon) && epsilon <= AGREEMENT
    ensures QNorm2(t) > 0.9
    ensures Close(BodyGravity(Normalized(m, t)), Negated(Up(q)), 3.0 * Abs(QNorm2(q) - 1.0) + 30.0 * epsilon)
  {
    hide Up, SensorQuat, QNorm2, Maths.Valid, Normalized, BodyGravity;
    var s := SensorQuat(h, q);
    SensorQuatNorm(h, q);
    NormIsNear(s, t, epsilon);
    UpIsNear(s, t, epsilon);
    NormalizedUp(m, t);
    GravityIsNearMinusUp(h, q);
    assert QNorm2(t) > 0.9;
    GravityIsUp(s);
    GravityIsUp(Normalized(m, t));
    var x, y := 9.6 * epsilon, Abs(QNorm2(q) - 1.0);
    assert Abs(QNorm2(t) - 1.0) <= x + y;
    var a, b, c := Up(s), Up(t), Up(Normalized(m, t));
    hide Close;
    ThreeErrors(a, b, c, Negated(Up(q)), x, 2.0 * Abs(QNorm2(t) - 1.0), y, 3.0 * y + 30.0 * epsilon);
  }

  /** Three errors one after the other. */
  lemma ThreeErrors(a: Vec3, b: Vec3, c: Vec3, d: Vec3, x: real, y: real, z: real, all: real)
    requires Close(a, b, x) && Close(c, b, y) && Close([a[2], a[1], a[0]], d, z) && x + y + z <= all
    ensures Close([c[2], c[1], c[0]], d, all)
  {
    forall i | 0 <= i < 3 ensures Abs(a[i] - b[i]) <= x && Abs(c[i] - b[i]) <= y && Abs(a[2 - i] - d[i]) <= z {
      assert [a[2], a[1], a[0]][i] == a[2 - i];
    }
  }

  /** Main result: for every attitude the encoder accepts, every raw sample and every bias, with
      the values of the packet stored to within `epsilon`, the policy input is the
      bias-corrected body rate up to that error, and minus the estimator's up vector up to
      thirty times that error and three times the error of the norm. */
  lemma RoundedSampleReachesPolicy(f: FeedbackMap, m: Maths, h: real, raw: seq<Count>, bias: Vec3, q: Quat,
                                   input: seq<real>, epsilon: real)
    requires f.Valid() && m.Valid() && |raw| == 6 && Square(h) == 0.5 && NearUnit(q) && |input| == 69
    requires Close(IcmValues(h, raw, Body(bias), q)[3..10], input[62..], epsilon) && epsilon <= AGREEMENT
    ensures QuatUsable(m, input)
    ensures Close(Converted(f, m, input)[62..65], CorrectedGyro(Body(Gyro(raw)), bias), epsilon)
    ensures Close(Converted(f, m, input)[65..], Negated(Up(q)), 3.0 * Abs(QNorm2(q) - 1.0) + 30.0 * epsilon)
  {
    hide Up, FeedbackMap.Position, FeedbackMap.Velocity, Accel, GravityOf, Gyro, SensorQuat, QNorm2, BodyGravity, Maths.Valid;
    hide NearUnit, Normalized;
    var v, t := IcmValues(h, raw, Body(bias), q), QuatAt(input);
    assert v[6..10] == SensorQuat(h, q) && v[3..6] == CorrectedGyro(Gyro(raw), Body(bias));
    ClosePart(v[3..10], input[62..], epsilon, 0, 3);
    ClosePart(v[3..10], input[62..], epsilon, 3, 7);
    assert v[3..10][3..7] == v[6..10] && input[62..][3..7] == t;
    assert v[3..10][0..3] == v[3..6] && input[62..][0..3] == input[62..65];
    StoredGravity(m, h, q, t, epsilon);
    RootCompare(m, QNorm2(t), TINY_NORM);
    var rates := seq(JOINTS, j requires j >= 0 => f.Position(input, j)) + seq(JOINTS, j requires j >= 0 => f.Velocity(input, j));
    assert |rates| == 62;
    assert Converted(f, m, input) == rates + Body(input[62..65]) + BodyGravity(Normalized(m, t));
    RatesOverAxes(Gyro(raw), bias, input[62..65], epsilon);
  }

  lemma ClosePart(a: seq<real>, b: seq<real>, epsilon: real, i: nat, j: nat)
    requires Close(a, b, epsilon) && i <= j <= |a|
    ensures Close(a[i..j], b[i..j], epsilon)
  {
  }

  /** Correcting and changing the axes commute. */
  lemma RatesOverAxes(w: Vec3, bias: Vec3, stored: Vec3, epsilon: real)
    requires Close(CorrectedGyro(w, Body(bias)), stored, epsilon)
    ensures Close(Body(stored), CorrectedGyro(Body(w), bias), epsilon)
  {
    var c := CorrectedGyro(w, Body(bias));
    assert Abs(c[0] - stored[0]) <= epsilon && Abs(c[1] - stored[1]) <= epsilon && Abs(c[2] - stored[2]) <= epsilon;
  }

  /** With a unit attitude and values the format holds exactly there is no error at all, and the
      rate is, in numbers, the negated counts of the sensor axes in reverse order less the bias. */
  lemma SampleReachesPolicy(f: FeedbackMap, m: Maths, h: real, raw: seq<Count>, bias: Vec3, q: Quat, input: seq<real>)
    requires f.Valid() && m.Valid() && |raw| == 6 && Square(h) == 0.5 && QNorm2(q) == 1.0 && |input| == 69
    requires input[62..65] == IcmValues(h, raw, Body(bias), q)[3..6]
    requires input[65..] == IcmValues(h, raw, Body(bias), q)[6..10]
    ensures QuatUsable(m, input)
    ensures Converted(f, m, input)[62..65] == CorrectedGyro(Body(Gyro(raw)), bias)
    ensures Converted(f, m, input)[65..] == Negated(Up(q))
    ensures var r, unit := Converted(f, m, input), 2000.0 * 3.141592653589793 / 180.0 / 32768.0;
            r[62] == -(raw[5] as real * unit) - bias[0] && r[63] == -(raw[4] as real * unit) - bias[1]
            && r[64] == -(raw[3] as real * unit) - bias[2]
  {
    RatesInNumbers(raw, bias);
    hide Up, Gyro, QNorm2, Maths.Valid, Converted, IcmValues, Body, QuatUsable;
    var v := IcmValues(h, raw, Body(bias), q);
    assert v[3..10] == v[3..6] + v[6..10] && input[62..] == input[62..65] + input[65..];
    RoundedSampleReachesPolicy(f, m, h, raw, bias, q, input, 0.0);
    CloseToNothing(Converted(f, m, input)[62..65], CorrectedGyro(Body(Gyro(raw)), bias));
    CloseToNothing(Converted(f, m, input)[65..], Negated(Up(q)));
    var r := Converted(f, m, input);
    assert r[62] == r[62..65][0] && r[63] == r[62..65][1] && r[64] == r[62..65][2];
  }

  /** The body rate in numbers: the last count first, each negated, 2000 degrees per second over
      fifteen bits. */
  lemma RatesInNumbers(raw: seq<Count>, bias: Vec3)
    requires |raw| == 6
    ensures var r, unit := CorrectedGyro(Body(Gyro(raw)), bias), 2000.0 * 3.141592653589793 / 180.0 / 32768.0;
            r[0] == -(raw[5] as real * unit) - bias[0] && r[1] == -(raw[4] as real * unit) - bias[1]
            && r[2] == -(raw[3] as real * unit) - bias[2]
  {
  }

  lemma BodyNorm(v: Vec3)
    ensures Norm2(Body(v)) == Norm2(v)
  {
    SquareNegated(v[0]);
    SquareNegated(v[1]);
    SquareNegated(v[2]);
    hide Square;
  }

  /** Composed with the estimator: a bias from the startup window and a unit attitude of the
      filter, or one that rounding has moved by less than 1e-6, always make an acceptable packet;
      only order and freshness can refuse it. */
  lemma EstimatorPacketAccepted(m: Maths, ieee: Ieee, h: real, raw: seq<Count>, bias: Vec3, q: Quat,
                                sequence: nat, start: nat, end: nat, now: nat, previous: nat)
    requires |raw| == 6 && Square(h) == 0.5 && SafelyUnit(q) && Norm2(bias) <= Square(STILL_GYRO)
    requires StampsOk(sequence, start, end) && sequence < WORD && end < WORD
    requires ieee.AllExact(Body(bias)) && ieee.AllNear(IcmValues(h, raw, Body(bias), q), AGREEMENT)
    ensures Validated(m, ieee, IcmBytes(ieee, h, raw, Body(bias), q, sequence, start, end), now, previous, Icm).Ok?
            <==> previous <= sequence && end <= now <= start + 30_000_000
  {
    BodyNorm(bias);
    assert Square(STILL_GYRO) == BIAS_LIMIT2;
    IcmPacketAccepted(m, ieee, h, raw, Body(bias), q, sequence, start, end, now, previous, AGREEMENT);
    hide Validated, Norm2, IcmBytes, Ieee.AllExact;
  }
}
