/** IMU datagrams: the ICM and fusion-chip encoders (native/src/icm_packet.hpp,
    native/src/imu_packet.hpp) and the validator that reads them back
    (native/src/policy_imu_client.hpp:23-71). */
module ImuPacket {
  import opened Prelude
  import opened Wire
  import opened Vectors
  import opened BiasWindow
  import opened AttitudeFilter

  datatype PacketFault =
    | Version | Reserved | SequenceRegression | StaleTimestamp | Disagreement
    | BiasNonFinite | ExcessiveBias | QuaternionNorm | GravityMismatch | BadTimestamps

  datatype Mode = Hardware | Software | Icm

  const PACKET: nat := 192
  const MAX_READ: nat := 30_000_000
  const PI: real := 3.141592653589793
  const ACCEL_SCALE: real := 4.0 * 9.80665 / 32768.0
  const GYRO_SCALE: real := 2000.0 * PI / 180.0 / 32768.0

  // "SPIMU00" and a version digit.
  function Magic(mode: Mode): (r: seq<Byte>)
    ensures |r| == 8
  {
    [0x53, 0x50, 0x49, 0x4D, 0x55, 0x30, 0x30, match mode case Hardware => 0x31 case Software => 0x32 case Icm => 0x33]
  }

  // ---- sixteen-bit counts --------------------------------------------------

  type Count = c: int | -32768 <= c < 32768

  function Unsigned16(c: Count): nat { if c < 0 then c + 65536 else c }
  function LowOf(c: Count): Byte { Unsigned16(c) % 256 }
  function HighOf(c: Count): Byte { Unsigned16(c) / 256 }

  /** `signed16`. */
  function Signed16(raw: seq<Byte>, i: nat): (c: Count)
    requires i + 1 < |raw|
  {
    var u: int := Digit(raw[i]) + 256 * Digit(raw[i + 1]);
    if u >= 32768 then u - 65536 else u
  }

  function CountBytes(raw: seq<Count>): (r: seq<Byte>)
    ensures |r| == 2 * |raw|
    ensures forall i :: 0 <= i < |raw| ==> r[2 * i] == LowOf(raw[i]) && r[2 * i + 1] == HighOf(raw[i])
  {
    if raw == [] then [] else CountBytes(raw[..|raw| - 1]) + [LowOf(raw[|raw| - 1]), HighOf(raw[|raw| - 1])]
  }

  /** Two's complement survives the two bytes. */
  lemma CountSurvives(bytes: seq<Byte>, i: nat, c: Count)
    requires i + 1 < |bytes| && bytes[i] == LowOf(c) && bytes[i + 1] == HighOf(c)
    ensures Signed16(bytes, i) == c
  {
    var u := Unsigned16(c);
    assert Digit(bytes[i]) == u % 256 && Digit(bytes[i + 1]) == u / 256;
  }

  // ---- the ICM encoder -----------------------------------------------------

  predicate StampsOk(sequence: nat, start: nat, end: nat) {
    sequence > 0 && start > 0 && end >= start && end - start <= MAX_READ
  }

  /** World<-sensor quaternion of a world<-body one: the sensor sees body up along -x and
      body rear along z. `h` is the square root of one half. */
  function SensorQuat(h: real, q: Quat): Quat {
    [Product(h, q[3] - q[1]), Product(h, q[0] - q[2]), Product(h, q[3] + q[1]), -Product(h, q[0] + q[2])]
  }

  /** Gravity in the axes of a quaternion, as both sides compute it. */
  function GravityOf(q: Quat): Vec3 {
    var u := Up(q);
    [GRAVITY * u[0], GRAVITY * u[1], GRAVITY * u[2]]
  }

  function Accel(raw: seq<Count>): Vec3
    requires |raw| == 6
  {
    [raw[0] as real * ACCEL_SCALE, raw[1] as real * ACCEL_SCALE, raw[2] as real * ACCEL_SCALE]
  }

  function Gyro(raw: seq<Count>): Vec3
    requires |raw| == 6
  {
    [raw[3] as real * GYRO_SCALE, raw[4] as real * GYRO_SCALE, raw[5] as real * GYRO_SCALE]
  }

  function IcmValues(h: real, raw: seq<Count>, bias: Vec3, q: Quat): (v: seq<real>)
    requires |raw| == 6
    ensures |v| == 13
  {
    Accel(raw) + CorrectedGyro(Gyro(raw), bias) + SensorQuat(h, q) + GravityOf(SensorQuat(h, q))
  }

  predicate NearUnit(q: Quat) { Abs(QNorm2(q) - 1.0) <= 0.000001 }

  function ZeroBytes(n: nat): (r: seq<Byte>)
    ensures |r| == n && forall i :: 0 <= i < n ==> r[i] == 0
  {
    seq(n, _ => 0)
  }

  function Header(mode: Mode, sequence: nat, start: nat, end: nat): (r: seq<Byte>)
    ensures |r| == 32
  {
    Magic(mode) + Le(sequence, 8) + Le(start, 8) + Le(end, 8)
  }

  function IcmBytes(ieee: Ieee, h: real, raw: seq<Count>, bias: Vec3, q: Quat, sequence: nat, start: nat, end: nat): seq<Byte>
    requires |raw| == 6
  {
    Header(Icm, sequence, start, end) + CountBytes(raw) + ZeroBytes(12) + WordsOf(ieee.Bits(bias))
    + WordsOf(ieee.Bits(IcmValues(h, raw, bias, q))) + ZeroBytes(8)
  }

  /** A packet under construction: what is written so far, then zeros. */
  predicate Filled(p: seq<Byte>, done: seq<Byte>) {
    |p| == PACKET && |done| <= PACKET && p == done + ZeroBytes(PACKET - |done|)
  }

  lemma FilledSkip(p: seq<Byte>, done: seq<Byte>, k: nat)
    requires Filled(p, done) && |done| + k <= PACKET
    ensures Filled(p, done + ZeroBytes(k))
  {
    assert ZeroBytes(PACKET - |done|) == ZeroBytes(k) + ZeroBytes(PACKET - |done| - k);
  }

  /** Writing the next bytes of a packet. */
  lemma FilledNext(before: seq<Byte>, after: seq<Byte>, done: seq<Byte>, bytes: seq<Byte>)
    requires Filled(before, done) && |after| == PACKET && |done| + |bytes| <= PACKET
    requires after[..|done| + |bytes|] == before[..|done|] + bytes
    requires after[|done| + |bytes|..] == before[|done| + |bytes|..]
    ensures Filled(after, done + bytes)
  {
    var k := |done| + |bytes|;
    assert after == after[..k] + after[k..];
    assert before[k..] == ZeroBytes(PACKET - k);
  }

  method FillBytes(p: array<Byte>, offset: nat, ghost done: seq<Byte>, bytes: seq<Byte>)
    requires p.Length == PACKET && |done| == offset && Filled(p[..], done) && offset + |bytes| <= PACKET
    modifies p
    ensures Filled(p[..], done + bytes)
  {
    ghost var before := p[..];
    PutBytes(p, offset, bytes);
    FilledNext(before, p[..], done, bytes);
  }

  method FillWord(p: array<Byte>, offset: nat, ghost done: seq<Byte>, v: nat)
    requires p.Length == PACKET && |done| == offset && Filled(p[..], done) && offset + 8 <= PACKET
    modifies p
    ensures Filled(p[..], done + Le(v, 8))
  {
    hide Le;
    ghost var before := p[..];
    Append64(p, offset, v);
    FilledNext(before, p[..], done, Le(v, 8));
  }

  method FillWords(p: array<Byte>, offset: nat, ghost done: seq<Byte>, ws: seq<nat>)
    requires p.Length == PACKET && |done| == offset && Filled(p[..], done) && offset + 8 * |ws| <= PACKET
    modifies p
    ensures Filled(p[..], done + WordsOf(ws))
  {
    hide WordsOf;
    ghost var before := p[..];
    AppendWords(p, offset, ws);
    FilledNext(before, p[..], done, WordsOf(ws));
  }

  method FillCounts(p: array<Byte>, offset: nat, ghost done: seq<Byte>, raw: seq<Count>)
    requires p.Length == PACKET && |done| == offset && Filled(p[..], done) && offset + 2 * |raw| <= PACKET
    modifies p
    ensures Filled(p[..], done + CountBytes(raw))
  {
    hide CountBytes;
    ghost var before := p[..];
    PutCounts(p, offset, raw);
    FilledNext(before, p[..], done, CountBytes(raw));
  }

  method FillHeader(p: array<Byte>, mode: Mode, sequence: nat, start: nat, end: nat)
    requires p.Length == PACKET && Filled(p[..], [])
    modifies p
    ensures Filled(p[..], Header(mode, sequence, start, end))
  {
    hide Le, Filled;
    FillBytes(p, 0, [], Magic(mode));
    assert [] + Magic(mode) == Magic(mode);
    FillWord(p, 8, Magic(mode), sequence);
    FillWord(p, 16, Magic(mode) + Le(sequence, 8), start);
    FillWord(p, 24, Magic(mode) + Le(sequence, 8) + Le(start, 8), end);
  }

  lemma FilledUp(p: seq<Byte>, done: seq<Byte>)
    requires Filled(p, done) && |done| + 8 == PACKET
    ensures p == done + ZeroBytes(8)
  {
  }

  method PutCounts(p: array<Byte>, offset: nat, raw: seq<Count>)
    requires offset + 2 * |raw| <= p.Length
    modifies p
    ensures p[..offset + 2 * |raw|] == old(p[..offset]) + CountBytes(raw)
    ensures p[offset + 2 * |raw|..] == old(p[offset + 2 * |raw|..])
  {
    for i := 0 to |raw|
      invariant p[..offset + 2 * i] == old(p[..offset]) + CountBytes(raw[..i])
      invariant p[offset + 2 * |raw|..] == old(p[offset + 2 * |raw|..])
    {
      assert raw[..i + 1][..i] == raw[..i];
      p[offset + 2 * i] := LowOf(raw[i]);
      p[offset + 2 * i + 1] := HighOf(raw[i]);
    }
    assert raw[..|raw|] == raw;
  }

  /** Acceleration and corrected rate from the counts, axis by axis. */
  method FillRates(v: array<real>, raw: seq<Count>, bias: Vec3)
    requires v.Length == 13 && |raw| == 6
    modifies v
    ensures v[..6] == Accel(raw) + CorrectedGyro(Gyro(raw), bias)
  {
    ghost var want := Accel(raw) + CorrectedGyro(Gyro(raw), bias);
    for i := 0 to 3
      invariant forall k :: 0 <= k < 6 && (k < i || 3 <= k < 3 + i) ==> v[k] == want[k]
    {
      v[i] := raw[i] as real * ACCEL_SCALE;
      v[3 + i] := raw[3 + i] as real * GYRO_SCALE - bias[i];
    }
  }

  /** The thirteen values of an ICM packet, filled in place. */
  method FillValues(m: Maths, raw: seq<Count>, bias: Vec3, q: Quat) returns (v: array<real>)
    requires |raw| == 6
    ensures fresh(v) && v[..] == IcmValues(m.root(0.5), raw, bias, q)
  {
    hide SensorQuat, GravityOf, Accel, Gyro, CorrectedGyro;
    v := new real[13](_ => 0.0);
    FillRates(v, raw, bias);
    ghost var rates := v[..6];
    var s := SensorQuat(m.root(0.5), q);
    var g := GravityOf(s);
    v[6], v[7], v[8], v[9] := s[0], s[1], s[2], s[3];
    v[10], v[11], v[12] := g[0], g[1], g[2];
    assert v[..6] == rates && v[6..10] == s && v[10..] == g;
    assert v[..] == v[..6] + v[6..10] + v[10..];
  }

  /** `encode_icm`, filling the packet front to back. */
  method EncodeIcm(m: Maths, ieee: Ieee, raw: seq<Count>, bias: Vec3, q: Quat, sequence: nat, start: nat, end: nat)
    returns (r: Result<seq<Byte>, PacketFault>)
    requires |raw| == 6
    ensures r == if sequence == 0 || start == 0 || end < start || end - start > 30_000_000 then Err(BadTimestamps)
                 else if Abs(QNorm2(q) - 1.0) > 0.000001 then Err(QuaternionNorm)
                 else Ok(IcmBytes(ieee, m.root(0.5), raw, bias, q, sequence, start, end))
  {
    if sequence == 0 || start == 0 || end < start || end - start > MAX_READ {
      return Err(BadTimestamps);
    }
    hide Le, WordsOf, Ieee.Bits, Header, CountBytes, QNorm2, IcmValues, Filled;
    var p := new Byte[PACKET](_ => 0);
    StartFilled(p[..]);
    FillHeader(p, Icm, sequence, start, end);
    ghost var done := Header(Icm, sequence, start, end);
    FillCounts(p, 32, done, raw);
    done := done + CountBytes(raw);
    FilledSkip(p[..], done, 12);
    done := done + ZeroBytes(12);
    FillWords(p, 56, done, ieee.Bits(bias));
    done := done + WordsOf(ieee.Bits(bias));
    if Abs(QNorm2(q) - 1.0) > 0.000001 {
      return Err(QuaternionNorm);
    }
    var v := FillValues(m, raw, bias, q);
    FillWords(p, 80, done, ieee.Bits(v[..]));
    FilledUp(p[..], done + WordsOf(ieee.Bits(v[..])));
    return Ok(p[..]);
  }

  lemma StartFilled(p: seq<Byte>)
    requires |p| == PACKET && forall i :: 0 <= i < PACKET ==> p[i] == 0
    ensures Filled(p, [])
  {
  }

  // ---- the fusion-chip encoder ---------------------------------------------

  /** `decode`: acceleration, angular rate, attitude and gravity from the chip's registers. */
  function ChipValues(raw: seq<Byte>): (v: seq<real>)
    requires |raw| == 46
    ensures |v| == 13
  {
    seq(13, i requires 0 <= i < 13 => ChipValue(raw, i))
  }

  function ChipValue(raw: seq<Byte>, i: nat): real
    requires |raw| == 46 && i < 13
  {
    if i < 3 then Signed16(raw, 2 * i) as real / 100.0
    else if i < 6 then Signed16(raw, 12 + 2 * (i - 3)) as real / 900.0
    else if i < 10 then Signed16(raw, 24 + 2 * (i - 6)) as real / 16384.0
    else Signed16(raw, 38 + 2 * (i - 10)) as real / 100.0
  }

  /** The 46 bytes read from the chip as its register map orders them: six triples and a
      quadruple of sixteen-bit counts, the temperature and the calibration state. */
  datatype Registers = Registers(accel: seq<Count>, magnetic: seq<Count>, gyro: seq<Count>, euler: seq<Count>, attitude: seq<Count>,
                                 linear: seq<Count>, gravity: seq<Count>, temperature: Byte, calibration: Byte)
  {
    predicate Fits() {
      |accel| == |magnetic| == |gyro| == |euler| == |linear| == |gravity| == 3 && |attitude| == 4
    }

    function Counts(): seq<Count> { accel + magnetic + gyro + euler + attitude + linear + gravity }

    function Bytes(): (raw: seq<Byte>)
      requires Fits()
      ensures |raw| == 46
    {
      CountBytes(Counts()) + [temperature, calibration]
    }
  }

  /** Every value is decoded from its own register: acceleration and gravity in hundredths, the
      rate in nine-hundredths, the attitude in steps of 2^-14. */
  lemma ChipReadsRegisters(r: Registers)
    requires r.Fits()
    ensures var v := ChipValues(r.Bytes());
            forall i :: 0 <= i < 3 ==>
              100.0 * v[i] == r.accel[i] as real && 900.0 * v[3 + i] == r.gyro[i] as real && 100.0 * v[10 + i] == r.gravity[i] as real
    ensures var v := ChipValues(r.Bytes()); forall i :: 0 <= i < 4 ==> 16384.0 * v[6 + i] == r.attitude[i] as real
  {
    var raw, counts := r.Bytes(), r.Counts();
    forall k | 0 <= k < 22 ensures Signed16(raw, 2 * k) == counts[k] {
      assert raw[2 * k] == CountBytes(counts)[2 * k] && raw[2 * k + 1] == CountBytes(counts)[2 * k + 1];
      CountSurvives(raw, 2 * k, counts[k]);
    }
    hide Signed16, CountBytes, Registers.Bytes;
    var v := ChipValues(raw);
    forall i | 0 <= i < 3
      ensures 100.0 * v[i] == r.accel[i] as real && 900.0 * v[3 + i] == r.gyro[i] as real && 100.0 * v[10 + i] == r.gravity[i] as real
    {
      assert Signed16(raw, 2 * i) == counts[i] == r.accel[i];
      assert 12 + 2 * i == 2 * (6 + i) && Signed16(raw, 2 * (6 + i)) == counts[6 + i] == r.gyro[i];
      assert 38 + 2 * i == 2 * (19 + i) && Signed16(raw, 2 * (19 + i)) == counts[19 + i] == r.gravity[i];
    }
    forall i | 0 <= i < 4 ensures 16384.0 * v[6 + i] == r.attitude[i] as real {
      assert 24 + 2 * i == 2 * (12 + i) && Signed16(raw, 2 * (12 + i)) == counts[12 + i] == r.attitude[i];
    }
  }

  /** Every 46 bytes are such registers. */
  lemma EveryReadoutIsRegisters(raw: seq<Byte>) returns (r: Registers)
    requires |raw| == 46
    ensures r.Fits() && r.Bytes() == raw
  {
    var c: seq<Count> := seq(22, k requires 0 <= k < 22 => Signed16(raw, 2 * k));
    r := Registers(c[..3], c[3..6], c[6..9], c[9..12], c[12..16], c[16..19], c[19..], raw[44], raw[45]);
    assert r.Counts() == c;
    forall k | 0 <= k < 22 ensures LowOf(c[k]) == raw[2 * k] && HighOf(c[k]) == raw[2 * k + 1] {
      SignedBack(raw, 2 * k);
    }
    hide Signed16, LowOf, HighOf;
    var bytes := CountBytes(c);
    forall k | 0 <= k < 22 ensures bytes[2 * k] == raw[2 * k] && bytes[2 * k + 1] == raw[2 * k + 1] {
    }
    forall i | 0 <= i < 44 ensures bytes[i] == raw[i] {
      var k := i / 2;
      assert i == 2 * k || i == 2 * k + 1;
    }
    hide CountBytes;
    assert raw == raw[..44] + [raw[44], raw[45]] && bytes == raw[..44];
  }

  lemma SignedBack(raw: seq<Byte>, i: nat)
    requires i + 1 < |raw|
    ensures LowOf(Signed16(raw, i)) == raw[i] && HighOf(Signed16(raw, i)) == raw[i + 1]
  {
    var u := Digit(raw[i]) + 256 * Digit(raw[i + 1]);
    assert Unsigned16(Signed16(raw, i)) == u;
    assert u % 256 == Digit(raw[i]) && u / 256 == Digit(raw[i + 1]);
  }

  function QuatOf(v: seq<real>): Quat
    requires |v| == 13
  {
    [v[6], v[7], v[8], v[9]]
  }

  predicate ChipQuatOk(m: Maths, v: seq<real>)
    requires |v| == 13
  {
    Abs(m.root(QNorm2(QuatOf(v))) - 1.0) <= 0.05
  }

  /** The attitude registers, with the running sum of squares. */
  method FillQuat(v: array<real>, raw: seq<Byte>) returns (norm: real)
    requires v.Length == 13 && |raw| == 46
    modifies v
    ensures forall k :: 0 <= k < 13 ==> v[k] == if 6 <= k < 10 then ChipValue(raw, k) else old(v[k])
    ensures norm == QNorm2([v[6], v[7], v[8], v[9]])
  {
    hide Signed16, Square;
    norm := 0.0;
    for i := 0 to 4
      invariant forall k :: 0 <= k < 13 ==> v[k] == if 6 <= k < 6 + i then ChipValue(raw, k) else old(v[k])
      invariant norm == if i == 0 then 0.0 else if i == 1 then Square(v[6])
                        else if i == 2 then Square(v[6]) + Square(v[7])
                        else if i == 3 then Square(v[6]) + Square(v[7]) + Square(v[8])
                        else Square(v[6]) + Square(v[7]) + Square(v[8]) + Square(v[9])
    {
      v[6 + i] := Signed16(raw, 24 + 2 * i) as real / 16384.0;
      norm := norm + Square(v[6 + i]);
    }
  }

  method DecodeChip(m: Maths, raw: seq<Byte>) returns (r: Result<seq<real>, PacketFault>)
    requires |raw| == 46
    ensures r == if ChipQuatOk(m, ChipValues(raw)) then Ok(ChipValues(raw)) else Err(QuaternionNorm)
  {
    hide Signed16, QNorm2;
    var v := new real[13](_ => 0.0);
    for i := 0 to 3
      invariant forall k :: 0 <= k < 13 && (k < i || 3 <= k < 3 + i || 10 <= k < 10 + i) ==> v[k] == ChipValue(raw, k)
    {
      v[i] := Signed16(raw, 2 * i) as real / 100.0;
      v[3 + i] := Signed16(raw, 12 + 2 * i) as real / 900.0;
      v[10 + i] := Signed16(raw, 38 + 2 * i) as real / 100.0;
    }
    var norm := FillQuat(v, raw);
    hide ChipValue;
    assert v[..] == ChipValues(raw);
    if Abs(m.root(norm) - 1.0) > 0.05 {
      return Err(QuaternionNorm);
    }
    return Ok(v[..]);
  }

  function ChipBytes(ieee: Ieee, raw: seq<Byte>, sequence: nat, start: nat, end: nat): seq<Byte>
    requires |raw| == 46
  {
    Header(Hardware, sequence, start, end) + raw + ZeroBytes(2) + WordsOf(ieee.Bits(ChipValues(raw))) + ZeroBytes(8)
  }

  /** `encode`. */
  method EncodeChip(m: Maths, ieee: Ieee, raw: seq<Byte>, sequence: nat, start: nat, end: nat)
    returns (r: Result<seq<Byte>, PacketFault>)
    requires |raw| == 46
    ensures r == if sequence == 0 || start == 0 || end < start || end - start > 30_000_000 then Err(BadTimestamps)
                 else if !ChipQuatOk(m, ChipValues(raw)) then Err(QuaternionNorm)
                 else Ok(ChipBytes(ieee, raw, sequence, start, end))
  {
    if sequence == 0 || start == 0 || end < start || end - start > MAX_READ {
      return Err(BadTimestamps);
    }
    hide Le, WordsOf, Ieee.Bits, Header, ChipValues, ChipQuatOk;
    var values := DecodeChip(m, raw);
    if values.Err? {
      return Err(values.error);
    }
    hide Filled;
    var p := new Byte[PACKET](_ => 0);
    StartFilled(p[..]);
    FillHeader(p, Hardware, sequence, start, end);
    ghost var done := Header(Hardware, sequence, start, end);
    FillBytes(p, 32, done, raw);
    done := done + raw;
    FilledSkip(p[..], done, 2);
    done := done + ZeroBytes(2);
    FillWords(p, 80, done, ieee.Bits(values.value));
    FilledUp(p[..], done + WordsOf(ieee.Bits(values.value)));
    return Ok(p[..]);
  }
}
