/** What the actor's client makes of packets the IMU processes really encode. */
module ImuRoundTrip {
  import opened Prelude
  import opened Wire
  import opened Vectors
  import opened AttitudeFilter
  import opened ImuPacket
  import opened ImuClient

  lemma HeaderReads(mode: Mode, sequence: nat, start: nat, end: nat, rest: seq<Byte>)
    requires sequence < WORD && start < WORD && end < WORD
    ensures var p := Header(mode, sequence, start, end) + rest;
            p[..8] == Magic(mode) && WordAt(p, 8) == sequence && WordAt(p, 16) == start && WordAt(p, 24) == end
  {
    hide WordAt, Le;
    var p := Header(mode, sequence, start, end) + rest;
    var h1 := Magic(mode) + Le(sequence, 8);
    var h2 := h1 + Le(start, 8);
    assert p == Magic(mode) + Le(sequence, 8) + (Le(start, 8) + Le(end, 8) + rest);
    assert p == h1 + Le(start, 8) + (Le(end, 8) + rest);
    assert p == h2 + Le(end, 8) + rest;
    WordAtHit(Magic(mode), sequence, Le(start, 8) + Le(end, 8) + rest);
    WordAtHit(h1, start, Le(end, 8) + rest);
    WordAtHit(h2, end, rest);
  }

  lemma ZeroTail(before: seq<Byte>)
    requires |before| == 184
    ensures WordAt(before + ZeroBytes(8), 184) == 0
  {
    var p := before + ZeroBytes(8);
    assert p[184..192] == ZeroBytes(8);
    ZeroBytesNumber(8);
  }

  lemma {:induction false} ZeroBytesNumber(n: nat)
    ensures Number(ZeroBytes(n)) == 0
  {
    if n > 0 {
      assert ZeroBytes(n)[1..] == ZeroBytes(n - 1);
      ZeroBytesNumber(n - 1);
    }
  }

  /** Everything the validator looks at in an ICM packet. */
  predicate IcmReads(ieee: Ieee, p: seq<Byte>, raw: seq<Count>, bias: Vec3, values: seq<real>)
    requires |raw| == 6 && |values| == 13
  {
    && |p| == PACKET && WordAt(p, 184) == 0 && ZeroRange(p, 44, 56)
    && (forall i :: 0 <= i < 3 ==> Signed16(RawOf(p), 2 * i) == raw[i])
    && (forall i :: 0 <= i < 3 ==> Signed16(RawOf(p), 6 + 2 * i) == raw[3 + i])
    && (forall i :: 0 <= i < 3 ==> ieee.value(WordAt(p, 56 + 8 * i)) == Some(bias[i]))
    && ieee.ReadAll(p, 80, 13) == Some(values)
  }

  lemma CountsRead(p: seq<Byte>, before: seq<Byte>, raw: seq<Count>, after: seq<Byte>)
    requires |before| == 32 && |raw| == 6 && p == before + CountBytes(raw) + after && |p| == PACKET
    ensures forall i :: 0 <= i < 3 ==> Signed16(RawOf(p), 2 * i) == raw[i]
    ensures forall i :: 0 <= i < 3 ==> Signed16(RawOf(p), 6 + 2 * i) == raw[3 + i]
  {
    hide Signed16;
    var r := RawOf(p);
    forall k | 0 <= k < 12 ensures r[k] == CountBytes(raw)[k] {
      assert p[32 + k] == CountBytes(raw)[k];
    }
    forall i | 0 <= i < 3 ensures Signed16(r, 2 * i) == raw[i] && Signed16(r, 6 + 2 * i) == raw[3 + i] {
      CountSurvives(r, 2 * i, raw[i]);
      assert 6 + 2 * i == 2 * (3 + i);
      CountSurvives(r, 2 * (3 + i), raw[3 + i]);
    }
  }

  lemma BiasRead(ieee: Ieee, before: seq<Byte>, bias: Vec3, after: seq<Byte>)
    requires |before| == 56 && ieee.AllExact(bias)
    ensures var p := before + WordsOf(ieee.Bits(bias)) + after;
            forall i :: 0 <= i < 3 ==> ieee.value(WordAt(p, 56 + 8 * i)) == Some(bias[i])
  {
    hide WordAt, WordsOf;
    var p := before + WordsOf(ieee.Bits(bias)) + after;
    forall i | 0 <= i < 3 ensures ieee.value(WordAt(p, 56 + 8 * i)) == Some(bias[i]) {
      assert ieee.Exact(bias[i]);
      WordsOfAt(before, ieee.Bits(bias), after, i);
    }
  }

  /** Element by element within a bound. */
  predicate Close(a: seq<real>, b: seq<real>, epsilon: real) {
    |a| == |b| && forall i :: 0 <= i < |a| ==> Abs(a[i] - b[i]) <= epsilon
  }

  lemma IcmPacketReads(ieee: Ieee, h: real, raw: seq<Count>, bias: Vec3, q: Quat,
                       sequence: nat, start: nat, end: nat, epsilon: real)
    requires |raw| == 6 && ieee.AllExact(bias) && ieee.AllNear(IcmValues(h, raw, bias, q), epsilon)
    ensures IcmReads(ieee, IcmBytes(ieee, h, raw, bias, q, sequence, start, end), raw, bias, ieee.Stored(IcmValues(h, raw, bias, q)))
    ensures Close(ieee.Stored(IcmValues(h, raw, bias, q)), IcmValues(h, raw, bias, q), epsilon)
  {
    hide WordAt, WordsOf, Header, CountBytes, Ieee.ReadAll, Ieee.Bits, IcmValues, Signed16;
    var values := IcmValues(h, raw, bias, q);
    var p := IcmBytes(ieee, h, raw, bias, q, sequence, start, end);
    var top := Header(Icm, sequence, start, end);
    var b, v := WordsOf(ieee.Bits(bias)), WordsOf(ieee.Bits(values));
    var first := top + CountBytes(raw) + ZeroBytes(12);
    assert p == top + CountBytes(raw) + (ZeroBytes(12) + b + v + ZeroBytes(8));
    CountsRead(p, top, raw, ZeroBytes(12) + b + v + ZeroBytes(8));
    assert p == first + b + (v + ZeroBytes(8));
    BiasRead(ieee, first, bias, v + ZeroBytes(8));
    assert p == first + b + v + ZeroBytes(8);
    ieee.ReadStored(first + b, values, ZeroBytes(8), epsilon);
    ZeroTail(first + b + v);
    assert ZeroRange(p, 44, 56) by {
      forall i | 44 <= i < 56 ensures p[i] == 0 {
        assert p[i] == ZeroBytes(12)[i - 44];
      }
    }
  }

  /** The change of frame keeps the norm, so a quaternion the encoder lets through passes the
      validator's norm test. */
  lemma SensorQuatNorm(h: real, q: Quat)
    requires Square(h) == 0.5
    ensures QNorm2(SensorQuat(h, q)) == QNorm2(q)
  {
    hide Square, Product;
    SquareOfProduct(h, q[3] - q[1]);
    SquareOfProduct(h, q[0] - q[2]);
    SquareOfProduct(h, q[3] + q[1]);
    SquareOfProduct(h, q[0] + q[2]);
    HalfSquares(q[3], q[1]);
    HalfSquares(q[0], q[2]);
  }

  lemma HalfSquares(x: real, y: real)
    ensures Product(0.5, Square(x - y)) + Product(0.5, Square(x + y)) == Square(x) + Square(y)
  {
  }

  lemma IcmBias(ieee: Ieee, p: seq<Byte>, h: real, raw: seq<Count>, bias: Vec3, q: Quat, v: seq<real>)
    requires |raw| == 6 && |v| == 13 && IcmReads(ieee, p, raw, bias, v) && Close(v, IcmValues(h, raw, bias, q), AGREEMENT)
    ensures BiasOf(ieee, p, Icm, v, 3) == Ok(bias)
  {
    hide WordAt, Signed16, SensorQuat, GravityOf, Ieee.ReadAll;
    var w := IcmValues(h, raw, bias, q);
    forall i | 0 <= i < 3 ensures AxisAgrees(RawOf(p), Icm, v, bias[i], i) {
      assert Abs(v[i] - w[i]) <= AGREEMENT && Abs(v[3 + i] - w[3 + i]) <= AGREEMENT;
      assert Signed16(RawOf(p), 2 * i) == raw[i] && Signed16(RawOf(p), 6 + 2 * i) == raw[3 + i];
      AxisFits(RawOf(p), h, raw, bias, q, v, i);
    }
    hide AxisAgrees, IcmValues;
    BiasStep(ieee, p, v, bias, 0);
    BiasStep(ieee, p, v, bias, 1);
    BiasStep(ieee, p, v, bias, 2);
    assert bias[..3] == bias;
  }

  lemma AxisFits(bytes: seq<Byte>, h: real, raw: seq<Count>, bias: Vec3, q: Quat, v: seq<real>, i: nat)
    requires |bytes| == 46 && |raw| == 6 && |v| == 13 && i < 3
    requires Signed16(bytes, 2 * i) == raw[i] && Signed16(bytes, 6 + 2 * i) == raw[3 + i]
    requires Abs(v[i] - IcmValues(h, raw, bias, q)[i]) <= AGREEMENT
    requires Abs(v[3 + i] - IcmValues(h, raw, bias, q)[3 + i]) <= AGREEMENT
    ensures AxisAgrees(bytes, Icm, v, bias[i], i)
  {
    hide Signed16, SensorQuat, GravityOf;
    var w := IcmValues(h, raw, bias, q);
    assert w[i] == Accel(raw)[i] == raw[i] as real * ACCEL_SCALE;
    assert w[3 + i] == CorrectedGyro(Gyro(raw), bias)[i] == raw[3 + i] as real * GYRO_SCALE - bias[i];
    hide IcmValues;
  }

  lemma BiasStep(ieee: Ieee, p: seq<Byte>, v: seq<real>, bias: Vec3, count: nat)
    requires |p| == PACKET && |v| == 13 && count < 3 && BiasOf(ieee, p, Icm, v, count) == Ok(bias[..count])
    requires ieee.value(WordAt(p, 56 + 8 * count)) == Some(bias[count])
    requires AxisAgrees(RawOf(p), Icm, v, bias[count], count)
    ensures BiasOf(ieee, p, Icm, v, count + 1) == Ok(bias[..count + 1])
  {
    hide WordAt, AxisAgrees;
    assert bias[..count] + [bias[count]] == bias[..count + 1];
    var n := count + 1;
    assert WordAt(p, 56 + 8 * (n - 1)) == WordAt(p, 56 + 8 * count);
  }

  /** Main result: of everything `encode_icm` can build, up to a rounding error of 1e-12 in every
      value it stores, the validator accepts exactly the packets that are in order, fresh, carry
      a bias of at most 0.1 rad/s, and whose stored quaternion is still within 1e-6 of unit
      norm, which rounding can change only within 1e-11 of that limit. The other tests never
      fire, and what it hands on is what was measured up to the same error. */
  lemma IcmPacketAccepted(m: Maths, ieee: Ieee, h: real, raw: seq<Count>, bias: Vec3, q: Quat,
                          sequence: nat, start: nat, end: nat, now: nat, previous: nat, epsilon: real)
    requires |raw| == 6 && Square(h) == 0.5 && NearUnit(q) && StampsOk(sequence, start, end)
    requires sequence < WORD && end < WORD && 0.0 <= epsilon <= AGREEMENT
    requires ieee.AllExact(bias) && ieee.AllNear(IcmValues(h, raw, bias, q), epsilon)
    ensures var v := ieee.Stored(IcmValues(h, raw, bias, q));
            Validated(m, ieee, IcmBytes(ieee, h, raw, bias, q, sequence, start, end), now, previous, Icm)
            == if sequence < previous then Err(SequenceRegression)
               else if end > now || now - start > MAX_READ then Err(StaleTimestamp)
               else if Norm2(bias) > BIAS_LIMIT2 then Err(ExcessiveBias)
               else if !NearUnit(QuatOf(v)) then Err(QuaternionNorm)
               else Ok(Snapshot(sequence, start, end, v))
    ensures Close(ieee.Stored(IcmValues(h, raw, bias, q)), IcmValues(h, raw, bias, q), epsilon)
    ensures SafelyUnit(q) ==> NearUnit(QuatOf(ieee.Stored(IcmValues(h, raw, bias, q))))
  {
    hide WordAt, WordsOf, Header, CountBytes, Ieee.ReadAll, Ieee.Bits, Signed16, BiasOf, Magic, Norm2, Ieee.Stored;
    var values := IcmValues(h, raw, bias, q);
    var v := ieee.Stored(values);
    var p := IcmBytes(ieee, h, raw, bias, q, sequence, start, end);
    IcmPacketReads(ieee, h, raw, bias, q, sequence, start, end, epsilon);
    PrefixReads(ieee, h, raw, bias, q, sequence, start, end);
    CloseEnough(v, values, epsilon);
    IcmBias(ieee, p, h, raw, bias, q, v);
    IcmAttitude(h, raw, bias, q, v);
    hide IcmValues, GravityAgrees, NearUnit, QuatOf, IcmBytes, SafelyUnit;
  }

  lemma CloseEnough(a: seq<real>, b: seq<real>, epsilon: real)
    requires Close(a, b, epsilon) && epsilon <= AGREEMENT
    ensures Close(a, b, AGREEMENT)
  {
  }

  /** Unit up to 1e-6, with room for rounding. */
  predicate SafelyUnit(q: Quat) { Abs(QNorm2(q) - 1.0) <= 0.00000099999 }

  lemma PrefixReads(ieee: Ieee, h: real, raw: seq<Count>, bias: Vec3, q: Quat, sequence: nat, start: nat, end: nat)
    requires |raw| == 6 && sequence < WORD && start < WORD && end < WORD
    ensures var p := IcmBytes(ieee, h, raw, bias, q, sequence, start, end);
            |p| == PACKET && p[..8] == Magic(Icm)
            && WordAt(p, 8) == sequence && WordAt(p, 16) == start && WordAt(p, 24) == end
  {
    hide WordAt, WordsOf, Header, CountBytes, Ieee.Bits, IcmValues, Magic;
    var rest := CountBytes(raw) + ZeroBytes(12) + WordsOf(ieee.Bits(bias))
                + WordsOf(ieee.Bits(IcmValues(h, raw, bias, q))) + ZeroBytes(8);
    HeaderReads(Icm, sequence, start, end, rest);
    assert IcmBytes(ieee, h, raw, bias, q, sequence, start, end) == Header(Icm, sequence, start, end) + rest;
  }

  /** The change of frame keeps the norm, so what is stored of it passes the norm test unless it
      was at the limit, and its gravity agrees with the stored gravity. */
  lemma IcmAttitude(h: real, raw: seq<Count>, bias: Vec3, q: Quat, v: seq<real>)
    requires |raw| == 6 && |v| == 13 && Square(h) == 0.5 && NearUnit(q) && Close(v, IcmValues(h, raw, bias, q), AGREEMENT)
    ensures SafelyUnit(q) ==> NearUnit(QuatOf(v))
    ensures GravityAgrees(v)
  {
    hide SensorQuat, GravityOf, Accel, Gyro, CorrectedGyro, QNorm2;
    SensorQuatNorm(h, q);
    var w, s, t := IcmValues(h, raw, bias, q), SensorQuat(h, q), QuatOf(v);
    assert w[6..10] == s && w[10..] == GravityOf(s);
    forall i | 0 <= i < 4 ensures Abs(s[i] - t[i]) <= AGREEMENT {
      assert s[i] == w[6 + i] && t[i] == v[6 + i];
    }
    assert Close(s, t, AGREEMENT);
    NormIsNear(s, t, AGREEMENT);
    GravityIsNear(s, t);
    forall i | 0 <= i < 3 ensures Abs(v[10 + i] - GravityOf(t)[i]) <= GRAVITY_AGREEMENT {
      assert w[10 + i] == GravityOf(s)[i];
      assert Abs(v[10 + i] - w[10 + i]) <= AGREEMENT;
    }
    hide IcmValues;
  }

  /** The components of a nearly unit quaternion. */
  lemma UnitParts(s: Quat)
    requires NearUnit(s)
    ensures forall i :: 0 <= i < 4 ==> Abs(s[i]) <= 1.1
  {
    forall i | 0 <= i < 4 ensures Abs(s[i]) <= 1.1 {
      SquareNonNegative(s[0]);
      SquareNonNegative(s[1]);
      SquareNonNegative(s[2]);
      SquareNonNegative(s[3]);
      assert Square(s[i]) <= 1.000001;
      SquareAtLeast(s[i]);
    }
  }

  lemma SquareAtLeast(x: real)
    requires Square(x) <= 1.21
    ensures Abs(x) <= 1.1
  {
    if x > 1.1 {
      PositiveProduct(x - 1.1, x + 1.1);
    } else if x < -1.1 {
      PositiveProduct(-x - 1.1, -x + 1.1);
    }
  }

  /** Products of close numbers of moderate size are close. */
  lemma CloseProducts(a: real, b: real, c: real, d: real, epsilon: real)
    requires Abs(a) <= 1.1 && Abs(b) <= 1.1 && Abs(a - c) <= epsilon && Abs(b - d) <= epsilon <= AGREEMENT
    ensures Abs(Product(a, b) - Product(c, d)) <= 2.4 * epsilon
  {
    hide Product;
    SmallTerm(a, d - b, 1.1, epsilon);
    SmallTerm(d, c - a, 1.2, epsilon);
    Telescoped(a, b, c, d);
    assert Product(1.1, epsilon) == 1.1 * epsilon && Product(1.2, epsilon) == 1.2 * epsilon by { Tenths(epsilon); }
  }

  lemma SmallTerm(x: real, y: real, p: real, q: real)
    requires Abs(x) <= p && Abs(y) <= q
    ensures Abs(Product(x, y)) <= Product(p, q)
  {
    SmallProduct(x, y, p, q);
  }

  lemma Tenths(x: real)
    ensures Product(1.1, x) == 1.1 * x && Product(1.2, x) == 1.2 * x
  {
  }

  lemma Telescoped(a: real, b: real, c: real, d: real)
    ensures Product(c, d) - Product(a, b) == Product(a, d - b) + Product(d, c - a)
  {
  }

  lemma SmallProduct(x: real, y: real, p: real, q: real)
    requires Abs(x) <= p && Abs(y) <= q
    ensures Abs(x * y) <= p * q
  {
    var u, v := Abs(x), Abs(y);
    assert Abs(x * y) == u * v;
    NonNegativeProduct(p - u, v);
    NonNegativeProduct(p, q - v);
  }

  lemma NormIsNear(s: Quat, t: Quat, epsilon: real)
    requires NearUnit(s) && Close(s, t, epsilon) && epsilon <= AGREEMENT
    ensures Abs(QNorm2(s) - QNorm2(t)) <= 9.6 * epsilon
  {
    UnitParts(s);
    forall i | 0 <= i < 4 ensures Abs(Square(s[i]) - Square(t[i])) <= 2.4 * epsilon {
      CloseProducts(s[i], s[i], t[i], t[i], epsilon);
      assert Square(s[i]) == Product(s[i], s[i]) && Square(t[i]) == Product(t[i], t[i]);
    }
    hide Square, Product;
  }

  lemma UpIsNear(s: Quat, t: Quat, epsilon: real)
    requires NearUnit(s) && Close(s, t, epsilon) && epsilon <= AGREEMENT
    ensures Close(Up(s), Up(t), 9.6 * epsilon)
  {
    UnitParts(s);
    forall i, j | 0 <= i < 4 && 0 <= j < 4 ensures Abs(Product(s[i], s[j]) - Product(t[i], t[j])) <= 2.4 * epsilon {
      CloseProducts(s[i], s[j], t[i], t[j], epsilon);
    }
    assert Square(s[1]) == Product(s[1], s[1]) && Square(t[1]) == Product(t[1], t[1]);
    assert Square(s[2]) == Product(s[2], s[2]) && Square(t[2]) == Product(t[2], t[2]);
    hide Square, Product, NearUnit;
    assert Abs(Product(s[1], s[3]) - Product(t[1], t[3])) <= 2.4 * epsilon;
    assert Abs(Product(s[0], s[2]) - Product(t[0], t[2])) <= 2.4 * epsilon;
    assert Abs(Product(s[2], s[3]) - Product(t[2], t[3])) <= 2.4 * epsilon;
    assert Abs(Product(s[0], s[1]) - Product(t[0], t[1])) <= 2.4 * epsilon;
  }

  lemma GravityIsNear(s: Quat, t: Quat)
    requires NearUnit(s) && Close(s, t, AGREEMENT)
    ensures forall i :: 0 <= i < 3 ==> Abs(GravityOf(s)[i] - GravityOf(t)[i]) <= 100.0 * AGREEMENT
  {
    UpIsNear(s, t, AGREEMENT);
    hide Up, NearUnit;
    var a, b := Up(s), Up(t);
    assert Abs(a[0] - b[0]) <= 9.6 * AGREEMENT && Abs(a[1] - b[1]) <= 9.6 * AGREEMENT && Abs(a[2] - b[2]) <= 9.6 * AGREEMENT;
  }

  /** The hypothesis on rounding is met by every sample: there is a format that stores whatever
      `encode_icm` computes to within 1e-13. */
  lemma SamplesCanBeStored(h: real, raw: seq<Count>, bias: Vec3, q: Quat)
    requires |raw| == 6 && Square(h) == 0.5 && NearUnit(q) && forall i :: 0 <= i < 3 ==> Abs(bias[i]) <= 1.0
    ensures FIXED.AllNear(IcmValues(h, raw, bias, q), 0.0000000000001)
  {
    var v, s := IcmValues(h, raw, bias, q), SensorQuat(h, q);
    SensorQuatNorm(h, q);
    UnitParts(s);
    GravityIsModerate(s);
    RatesAreModerate(raw, bias);
    forall i | 0 <= i < 13 ensures FIXED.Near(v[i], 0.0000000000001) {
      assert v[i] == if i < 3 then Accel(raw)[i] else if i < 6 then CorrectedGyro(Gyro(raw), bias)[i - 3]
                     else if i < 10 then s[i - 6] else GravityOf(s)[i - 10];
      hide IcmValues, SensorQuat, GravityOf, Accel, Gyro, CorrectedGyro, NearUnit, QNorm2, Square;
      FixedIsNear(v[i]);
    }
  }

  lemma RatesAreModerate(raw: seq<Count>, bias: Vec3)
    requires |raw| == 6 && forall i :: 0 <= i < 3 ==> Abs(bias[i]) <= 1.0
    ensures forall i :: 0 <= i < 3 ==> Abs(Accel(raw)[i]) <= 100.0 && Abs(CorrectedGyro(Gyro(raw), bias)[i]) <= 100.0
  {
  }

  lemma GravityIsModerate(s: Quat)
    requires forall i :: 0 <= i < 4 ==> Abs(s[i]) <= 1.1
    ensures forall i :: 0 <= i < 3 ==> Abs(GravityOf(s)[i]) <= 100.0
  {
    UpIsModerate(s);
    hide Up;
  }

  lemma UpIsModerate(s: Quat)
    requires forall i :: 0 <= i < 4 ==> Abs(s[i]) <= 1.1
    ensures forall i :: 0 <= i < 3 ==> Abs(Up(s)[i]) <= 7.0
  {
    ModerateProduct(s[1], s[3]);
    ModerateProduct(s[0], s[2]);
    ModerateProduct(s[2], s[3]);
    ModerateProduct(s[0], s[1]);
    ModerateProduct(s[1], s[1]);
    ModerateProduct(s[2], s[2]);
    assert Square(s[1]) == Product(s[1], s[1]) && Square(s[2]) == Product(s[2], s[2]);
    hide Product, Square;
  }

  lemma ModerateProduct(x: real, y: real)
    requires Abs(x) <= 1.1 && Abs(y) <= 1.1
    ensures -1.3 <= Product(x, y) <= 1.3
  {
    SmallProduct(x, y, 1.1, 1.1);
  }

  /** A packet of one kind is refused by a client of another kind. */
  lemma KindsDoNotMix(m: Maths, ieee: Ieee, mode: Mode, other: Mode, sequence: nat, start: nat, end: nat,
                      rest: seq<Byte>, now: nat, previous: nat)
    requires mode != other && sequence < WORD && start < WORD && end < WORD
    ensures Validated(m, ieee, Header(mode, sequence, start, end) + rest, now, previous, other) == Err(Version)
  {
    HeaderReads(mode, sequence, start, end, rest);
    assert Magic(mode)[7] != Magic(other)[7];
    hide WordAt, Header, FusedValues, ChipChecked;
  }

  /** The same for the fusion chip: accepted exactly when in order and fresh, and the values
      handed on are the decoded registers, whatever rounding did to their copies. */
  lemma ChipPacketAccepted(m: Maths, ieee: Ieee, raw: seq<Byte>, sequence: nat, start: nat, end: nat, now: nat, previous: nat)
    requires |raw| == 46 && ChipQuatOk(m, ChipValues(raw)) && StampsOk(sequence, start, end)
    requires sequence < WORD && end < WORD && ieee.AllNear(ChipValues(raw), AGREEMENT)
    ensures Validated(m, ieee, ChipBytes(ieee, raw, sequence, start, end), now, previous, Hardware)
            == if sequence < previous then Err(SequenceRegression)
               else if end > now || now - start > MAX_READ then Err(StaleTimestamp)
               else Ok(Snapshot(sequence, start, end, ChipValues(raw)))
  {
    hide WordAt, WordsOf, Header, Ieee.ReadAll, Ieee.Bits, ChipValues, ChipQuatOk, Magic, Ieee.Stored;
    var values := ChipValues(raw);
    var p := ChipBytes(ieee, raw, sequence, start, end);
    var top := Header(Hardware, sequence, start, end);
    var v := WordsOf(ieee.Bits(values));
    assert p == top + (raw + ZeroBytes(2) + v + ZeroBytes(8));
    HeaderReads(Hardware, sequence, start, end, raw + ZeroBytes(2) + v + ZeroBytes(8));
    assert p == (top + raw + ZeroBytes(2)) + v + ZeroBytes(8);
    ieee.ReadStored(top + raw + ZeroBytes(2), values, ZeroBytes(8), AGREEMENT);
    ZeroTail(top + raw + ZeroBytes(2) + v);
    assert RawOf(p) == raw;
    assert p[78] == ZeroBytes(2)[0] && p[79] == ZeroBytes(2)[1];
    assert Repeats(ieee.Stored(values), values);
    assert ChipChecked(m, ieee, p) == Ok(values);
  }
}
