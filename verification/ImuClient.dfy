/** The actor's IMU client: packet validation (native/src/policy_imu_client.hpp:23-71) and
    what it makes of packets that were really encoded. */
module ImuClient {
  import opened Prelude
  import opened Wire
  import opened Vectors
  import opened AttitudeFilter
  import opened ImuPacket

  datatype Snapshot = Snapshot(sequence: nat, start: nat, end: nat, values: seq<real>)

  const BIAS_LIMIT2: real := 0.01
  const AGREEMENT: real := 0.000000000001
  const GRAVITY_AGREEMENT: real := 0.000000001

  predicate ZeroRange(p: seq<Byte>, from: nat, to: nat)
    requires from <= to <= |p|
  {
    forall i :: from <= i < to ==> p[i] == 0
  }

  /** Frame tests shared by all packet kinds, in order. */
  function FrameFault(p: seq<Byte>, now: nat, previous: nat, mode: Mode): Option<PacketFault> {
    if |p| != PACKET || p[..8] != Magic(mode) then Some(Version)
    else if (mode.Hardware? && (p[78] != 0 || p[79] != 0)) || WordAt(p, 184) != 0 then Some(Reserved)
    else if WordAt(p, 8) == 0 || WordAt(p, 8) < previous then Some(SequenceRegression)
    else if WordAt(p, 16) == 0 || WordAt(p, 24) < WordAt(p, 16) || WordAt(p, 24) > now || now - WordAt(p, 16) > MAX_READ
      then Some(StaleTimestamp)
    else None
  }

  function RawOf(p: seq<Byte>): (raw: seq<Byte>)
    requires |p| == PACKET
    ensures |raw| == 46
  {
    p[32..78]
  }

  function RawAccel(raw: seq<Byte>, mode: Mode, i: nat): real
    requires |raw| == 46 && i < 3
  {
    if mode.Icm? then Signed16(raw, 2 * i) as real * ACCEL_SCALE else Signed16(raw, 2 * i) as real / 100.0
  }

  function RawGyro(raw: seq<Byte>, mode: Mode, i: nat): real
    requires |raw| == 46 && i < 3
  {
    if mode.Icm? then Signed16(raw, 6 + 2 * i) as real * GYRO_SCALE else Signed16(raw, 12 + 2 * i) as real / 900.0
  }

  predicate AxisAgrees(raw: seq<Byte>, mode: Mode, values: seq<real>, bias: real, i: nat)
    requires |raw| == 46 && |values| == 13 && i < 3
  {
    Abs(values[i] - RawAccel(raw, mode, i)) <= AGREEMENT && Abs(values[3 + i] - (RawGyro(raw, mode, i) - bias)) <= AGREEMENT
  }

  /** The three bias axes in order: each must be finite and explain its raw counts. */
  function BiasOf(ieee: Ieee, p: seq<Byte>, mode: Mode, values: seq<real>, count: nat): (r: Result<seq<real>, PacketFault>)
    requires |p| == PACKET && |values| == 13 && count <= 3
    ensures r.Ok? ==> |r.value| == count
  {
    if count == 0 then Ok([])
    else
      var before := BiasOf(ieee, p, mode, values, count - 1);
      if before.Err? then before
      else
        var b := ieee.value(WordAt(p, 56 + 8 * (count - 1)));
        if b.None? then Err(BiasNonFinite)
        else if !AxisAgrees(RawOf(p), mode, values, b.value, count - 1) then Err(Disagreement)
        else Ok(before.value + [b.value])
  }

  predicate GravityAgrees(values: seq<real>)
    requires |values| == 13
  {
    forall i :: 0 <= i < 3 ==> Abs(values[10 + i] - GravityOf(QuatOf(values))[i]) <= GRAVITY_AGREEMENT
  }

  function ReservedFrom(mode: Mode): nat { if mode.Icm? then 44 else 50 }

  /** Packets whose attitude was computed in software. */
  function FusedValues(ieee: Ieee, p: seq<Byte>, mode: Mode): Result<seq<real>, PacketFault>
    requires |p| == PACKET
  {
    var read := ieee.ReadAll(p, 80, 13);
    if read.None? then Err(Disagreement)
    else if !ZeroRange(p, ReservedFrom(mode), 56) then Err(Reserved)
    else
      var v := read.value;
      var bias := BiasOf(ieee, p, mode, v, 3);
      if bias.Err? then Err(bias.error)
      else if Norm2(bias.value) > BIAS_LIMIT2 then Err(ExcessiveBias)
      else if !NearUnit(QuatOf(v)) then Err(QuaternionNorm)
      else if !GravityAgrees(v) then Err(GravityMismatch)
      else Ok(v)
  }

  /** Packets from the fusion chip: the decoded registers, which the sent doubles must repeat. */
  function ChipChecked(m: Maths, ieee: Ieee, p: seq<Byte>): Result<seq<real>, PacketFault>
    requires |p| == PACKET
  {
    var decoded := ChipValues(RawOf(p));
    if !ChipQuatOk(m, decoded) then Err(QuaternionNorm)
    else
      var read := ieee.ReadAll(p, 80, 13);
      if read.None? || !Repeats(read.value, decoded) then Err(Disagreement) else Ok(decoded)
  }

  predicate Repeats(a: seq<real>, b: seq<real>)
    requires |a| <= |b|
  {
    forall i :: 0 <= i < |a| ==> Abs(a[i] - b[i]) <= AGREEMENT
  }

  /** `validate_imu_packet`. */
  function Validated(m: Maths, ieee: Ieee, p: seq<Byte>, now: nat, previous: nat, mode: Mode): Result<Snapshot, PacketFault> {
    var fault := FrameFault(p, now, previous, mode);
    if fault.Some? then Err(fault.value)
    else
      var v := if mode.Hardware? then ChipChecked(m, ieee, p) else FusedValues(ieee, p, mode);
      if v.Err? then Err(v.error) else Ok(Snapshot(WordAt(p, 8), WordAt(p, 16), WordAt(p, 24), v.value))
  }

  // ---- what acceptance means ----------------------------------------------

  /** The double stored at an offset of a packet, if it is finite. */
  predicate Finite(ieee: Ieee, p: seq<Byte>, offset: nat)
    requires offset + 8 <= |p|
  {
    ieee.value(WordAt(p, offset)).Some?
  }

  function Double(ieee: Ieee, p: seq<Byte>, offset: nat): real
    requires offset + 8 <= |p|
  {
    if Finite(ieee, p, offset) then ieee.value(WordAt(p, offset)).value else 0.0
  }

  /** The kind, the sequence number and the three time stamps are in order. */
  lemma FrameInOrder(p: seq<Byte>, now: nat, previous: nat, mode: Mode)
    requires |p| == 192
    ensures FrameFault(p, now, previous, mode).None? <==>
            && p[..7] == [0x53, 0x50, 0x49, 0x4D, 0x55, 0x30, 0x30]
            && p[7] == (match mode case Hardware => 0x31 case Software => 0x32 case Icm => 0x33)
            && (mode.Hardware? ==> p[78] == 0 && p[79] == 0) && WordAt(p, 184) == 0
            && 0 < WordAt(p, 8) && previous <= WordAt(p, 8)
            && 0 < WordAt(p, 16) <= WordAt(p, 24) <= now <= WordAt(p, 16) + 30_000_000
  {
    hide WordAt;
    var magic := Magic(mode);
    assert magic[..7] == [0x53, 0x50, 0x49, 0x4D, 0x55, 0x30, 0x30];
    assert magic == magic[..7] + [magic[7]] && p[..8] == p[..7] + [p[7]];
  }

  lemma {:induction false} ReadsAll(ieee: Ieee, p: seq<Byte>, offset: nat, count: nat)
    requires offset + 8 * count <= |p|
    ensures ieee.ReadAll(p, offset, count).Some? <==> forall k :: 0 <= k < count ==> Finite(ieee, p, offset + 8 * k)
    ensures var r := ieee.ReadAll(p, offset, count);
            r.Some? ==> forall k :: 0 <= k < count ==> r.value[k] == Double(ieee, p, offset + 8 * k)
  {
    hide WordAt;
    if count > 0 {
      ReadsAll(ieee, p, offset, count - 1);
      assert offset + 8 * (count - 1) + 8 <= |p|;
    }
  }

  /** The raw count of an axis and the scale of its kind: 4 g and 2000 degrees per second over
      fifteen bits, or the fusion chip's units. */
  lemma AxisExplained(ieee: Ieee, p: seq<Byte>, mode: Mode, v: seq<real>, bias: real, i: nat)
    requires |p| == 192 && |v| == 13 && i < 3
    ensures AxisAgrees(RawOf(p), mode, v, bias, i) <==>
            if mode.Icm? then
              && Abs(v[i] - Signed16(p, 32 + 2 * i) as real * (4.0 * 9.80665 / 32768.0)) <= 0.000000000001
              && Abs(v[3 + i] - (Signed16(p, 38 + 2 * i) as real * (2000.0 * 3.141592653589793 / 180.0 / 32768.0) - bias)) <= 0.000000000001
            else
              && Abs(v[i] - Signed16(p, 32 + 2 * i) as real / 100.0) <= 0.000000000001
              && Abs(v[3 + i] - (Signed16(p, 44 + 2 * i) as real / 900.0 - bias)) <= 0.000000000001
  {
    SameCount(p, 2 * i);
    SameCount(p, 6 + 2 * i);
    SameCount(p, 12 + 2 * i);
    ScalesOfKinds(RawOf(p), mode, i);
    hide Signed16, RawOf, RawAccel, RawGyro;
  }

  lemma ScalesOfKinds(raw: seq<Byte>, mode: Mode, i: nat)
    requires |raw| == 46 && i < 3
    ensures RawAccel(raw, mode, i)
            == Signed16(raw, 2 * i) as real * (if mode.Icm? then 4.0 * 9.80665 / 32768.0 else 1.0 / 100.0)
    ensures RawGyro(raw, mode, i)
            == if mode.Icm? then Signed16(raw, 6 + 2 * i) as real * (2000.0 * 3.141592653589793 / 180.0 / 32768.0)
               else Signed16(raw, 12 + 2 * i) as real / 900.0
  {
    hide Signed16;
  }

  lemma SameCount(p: seq<Byte>, k: nat)
    requires |p| == 192 && k < 45
    ensures Signed16(RawOf(p), k) == Signed16(p, 32 + k)
  {
  }

  /** All three axes. */
  predicate Explained(ieee: Ieee, p: seq<Byte>, mode: Mode, v: seq<real>, count: nat)
    requires |p| == 192 && |v| == 13 && count <= 3
  {
    forall i :: 0 <= i < count ==> Finite(ieee, p, 56 + 8 * i) && AxisAgrees(RawOf(p), mode, v, Double(ieee, p, 56 + 8 * i), i)
  }

  lemma {:induction false} BiasRead(ieee: Ieee, p: seq<Byte>, mode: Mode, v: seq<real>, count: nat)
    requires |p| == 192 && |v| == 13 && count <= 3
    ensures var b := BiasOf(ieee, p, mode, v, count);
            && (b.Ok? <==> Explained(ieee, p, mode, v, count))
            && (b.Ok? ==> forall i :: 0 <= i < count ==> b.value[i] == Double(ieee, p, 56 + 8 * i))
  {
    hide WordAt, AxisAgrees, RawOf;
    if count > 0 {
      BiasRead(ieee, p, mode, v, count - 1);
      var last := 56 + 8 * (count - 1);
      if Explained(ieee, p, mode, v, count - 1) && Finite(ieee, p, last) && AxisAgrees(RawOf(p), mode, v, Double(ieee, p, last), count - 1) {
        assert Explained(ieee, p, mode, v, count);
      }
    }
  }

  /** A unit attitude up to 1e-6, and gravity along its up vector up to 1e-9. */
  predicate Upright(w: real, x: real, y: real, z: real, a: real, b: real, c: real) {
    && Abs(Square(w) + Square(x) + Square(y) + Square(z) - 1.0) <= 0.000001
    && Abs(a - 9.80665 * (2.0 * (Product(x, z) - Product(w, y)))) <= 0.000000001
    && Abs(b - 9.80665 * (2.0 * (Product(y, z) + Product(w, x)))) <= 0.000000001
    && Abs(c - 9.80665 * (1.0 - 2.0 * (Square(x) + Square(y)))) <= 0.000000001
  }

  /** The thirteen doubles of a packet. */
  function Doubles(ieee: Ieee, p: seq<Byte>): (v: seq<real>)
    requires |p| == 192
    ensures |v| == 13
  {
    seq(13, k requires 0 <= k < 13 => Double(ieee, p, 80 + 8 * k))
  }

  /** Main result: which packets of the software kinds are accepted, in terms of their bytes.
      Thirteen finite doubles from byte 80 on must be explained by the counts from byte 32 on and
      the three finite biases from byte 56 on; the bias is at most 0.1 rad/s, and gravity belongs
      to the attitude. What is handed on are those doubles. */
  lemma SoftwareAcceptedIff(m: Maths, ieee: Ieee, p: seq<Byte>, now: nat, previous: nat, mode: Mode)
    requires |p| == 192 && !mode.Hardware?
    ensures var v := Doubles(ieee, p);
            Validated(m, ieee, p, now, previous, mode).Ok? <==>
            && FrameFault(p, now, previous, mode).None?
            && (forall k :: 0 <= k < 13 ==> Finite(ieee, p, 80 + 8 * k))
            && (forall i :: (if mode.Icm? then 44 else 50) <= i < 56 ==> p[i] == 0)
            && Explained(ieee, p, mode, v, 3)
            && Square(Double(ieee, p, 56)) + Square(Double(ieee, p, 64)) + Square(Double(ieee, p, 72)) <= 0.01
            && Upright(v[6], v[7], v[8], v[9], v[10], v[11], v[12])
    ensures var r := Validated(m, ieee, p, now, previous, mode);
            r.Ok? ==> r.value == Snapshot(WordAt(p, 8), WordAt(p, 16), WordAt(p, 24), Doubles(ieee, p))
  {
    FusedWhen(ieee, p, mode, Doubles(ieee, p));
    UprightRead(Doubles(ieee, p));
    hide WordAt, Square, FrameFault, GravityAgrees, NearUnit, Upright, Explained, Finite, FusedValues, Double, Doubles;
  }

  lemma FusedWhen(ieee: Ieee, p: seq<Byte>, mode: Mode, v: seq<real>)
    requires |p| == 192 && v == Doubles(ieee, p)
    ensures FusedValues(ieee, p, mode).Ok? <==>
            && (forall k :: 0 <= k < 13 ==> Finite(ieee, p, 80 + 8 * k)) && ZeroRange(p, ReservedFrom(mode), 56)
            && Explained(ieee, p, mode, v, 3)
            && Square(Double(ieee, p, 56)) + Square(Double(ieee, p, 64)) + Square(Double(ieee, p, 72)) <= BIAS_LIMIT2
            && NearUnit(QuatOf(v)) && GravityAgrees(v)
    ensures FusedValues(ieee, p, mode).Ok? ==> FusedValues(ieee, p, mode).value == v
  {
    hide WordAt, Square, AxisAgrees, Ieee.ReadAll, BiasOf, RawOf, NearUnit, GravityAgrees, QuatOf, ZeroRange;
    ReadsAll(ieee, p, 80, 13);
    var read := ieee.ReadAll(p, 80, 13);
    if read.Some? {
      assert read.value == v;
      BiasRead(ieee, p, mode, v, 3);
      var b := BiasOf(ieee, p, mode, v, 3);
      if b.Ok? {
        assert b.value[0] == Double(ieee, p, 56 + 8 * 0) && b.value[1] == Double(ieee, p, 56 + 8 * 1)
               && b.value[2] == Double(ieee, p, 56 + 8 * 2);
      }
      hide Double, Explained, Finite;
    }
  }

  lemma UprightRead(v: seq<real>)
    requires |v| == 13
    ensures NearUnit(QuatOf(v)) && GravityAgrees(v) <==> Upright(v[6], v[7], v[8], v[9], v[10], v[11], v[12])
  {
    hide Product, Square;
    var g := GravityOf(QuatOf(v));
    assert GravityAgrees(v) <==> Abs(v[10] - g[0]) <= GRAVITY_AGREEMENT && Abs(v[11] - g[1]) <= GRAVITY_AGREEMENT
                                 && Abs(v[12] - g[2]) <= GRAVITY_AGREEMENT by {
      hide GravityOf, QuatOf;
      assert v[10 + 0] == v[10];
      assert v[10 + 1] == v[11];
      assert v[10 + 2] == v[12];
      if GravityAgrees(v) {
        assert Abs(v[10 + 0] - g[0]) <= GRAVITY_AGREEMENT && Abs(v[10 + 1] - g[1]) <= GRAVITY_AGREEMENT
               && Abs(v[10 + 2] - g[2]) <= GRAVITY_AGREEMENT;
      }
    }
  }

  /** The same for packets of the fusion chip: in order, an attitude register within 5% of unit
      length, and thirteen finite doubles that repeat the registers. */
  lemma ChipAcceptedIff(m: Maths, ieee: Ieee, p: seq<Byte>, now: nat, previous: nat)
    requires |p| == 192
    ensures var v := ChipValues(p[32..78]);
            Validated(m, ieee, p, now, previous, Hardware).Ok? <==>
            && FrameFault(p, now, previous, Hardware).None?
            && Abs(m.root(Square(v[6]) + Square(v[7]) + Square(v[8]) + Square(v[9])) - 1.0) <= 0.05
            && forall k :: 0 <= k < 13 ==> Finite(ieee, p, 80 + 8 * k) && Abs(Double(ieee, p, 80 + 8 * k) - v[k]) <= 0.000000000001
    ensures var r := Validated(m, ieee, p, now, previous, Hardware);
            r.Ok? ==> r.value == Snapshot(WordAt(p, 8), WordAt(p, 16), WordAt(p, 24), ChipValues(p[32..78]))
  {
    hide WordAt, Square, FrameFault, Ieee.ReadAll, ChipValues;
    ReadsAll(ieee, p, 80, 13);
  }

  // ---- the validator's loops -----------------------------------------------

  method ReadDoubles(ieee: Ieee, p: seq<Byte>) returns (r: Option<seq<real>>)
    requires |p| == PACKET
    ensures r == ieee.ReadAll(p, 80, 13)
  {
    hide WordAt;
    var v := [];
    for i := 0 to 13
      invariant ieee.ReadAll(p, 80, i) == Some(v) && |v| == i
    {
      var bits := Read64(p, 80 + 8 * i);
      var value := ieee.value(bits);
      if value.None? {
        NonFiniteStays(ieee, p, i + 1);
        return None;
      }
      v := v + [value.value];
    }
    return Some(v);
  }

  lemma {:induction false} NonFiniteStays(ieee: Ieee, p: seq<Byte>, i: nat)
    requires |p| == PACKET && i <= 13 && ieee.ReadAll(p, 80, i).None?
    ensures ieee.ReadAll(p, 80, 13).None?
    decreases 13 - i
  {
    hide WordAt;
    if i < 13 {
      NonFiniteStays(ieee, p, i + 1);
    }
  }

  method CheckReserved(p: seq<Byte>, from: nat) returns (ok: bool)
    requires |p| == PACKET && from <= 56
    ensures ok <==> ZeroRange(p, from, 56)
  {
    for i := from to 56
      invariant ZeroRange(p, from, i)
    {
      if p[i] != 0 {
        return false;
      }
    }
    return true;
  }

  method CheckBias(ieee: Ieee, p: seq<Byte>, mode: Mode, values: seq<real>) returns (r: Result<seq<real>, PacketFault>)
    requires |p| == PACKET && |values| == 13
    ensures r == BiasOf(ieee, p, mode, values, 3)
  {
    hide WordAt, AxisAgrees;
    var bias := [];
    for i := 0 to 3
      invariant BiasOf(ieee, p, mode, values, i) == Ok(bias) && |bias| == i
    {
      var bits := Read64(p, 56 + 8 * i);
      var b := ieee.value(bits);
      if b.None? {
        BiasFaultStays(ieee, p, mode, values, i + 1);
        return Err(BiasNonFinite);
      }
      if !AxisAgrees(RawOf(p), mode, values, b.value, i) {
        BiasFaultStays(ieee, p, mode, values, i + 1);
        return Err(Disagreement);
      }
      bias := bias + [b.value];
    }
    return Ok(bias);
  }

  lemma {:induction false} BiasFaultStays(ieee: Ieee, p: seq<Byte>, mode: Mode, values: seq<real>, i: nat)
    requires |p| == PACKET && |values| == 13 && i <= 3 && BiasOf(ieee, p, mode, values, i).Err?
    ensures BiasOf(ieee, p, mode, values, 3) == BiasOf(ieee, p, mode, values, i)
    decreases 3 - i
  {
    hide WordAt, AxisAgrees;
    if i < 3 {
      BiasFaultStays(ieee, p, mode, values, i + 1);
    }
  }

  method CheckGravity(values: seq<real>) returns (ok: bool)
    requires |values| == 13
    ensures ok <==> GravityAgrees(values)
  {
    hide GravityOf;
    var up := GravityOf(QuatOf(values));
    for i := 0 to 3
      invariant forall k :: 0 <= k < i ==> Abs(values[10 + k] - up[k]) <= GRAVITY_AGREEMENT
    {
      if Abs(values[10 + i] - up[i]) > GRAVITY_AGREEMENT {
        return false;
      }
    }
    return true;
  }

  method ValidateFused(ieee: Ieee, p: seq<Byte>, mode: Mode) returns (r: Result<seq<real>, PacketFault>)
    requires |p| == PACKET
    ensures r == FusedValues(ieee, p, mode)
  {
    hide Ieee.ReadAll, BiasOf, GravityAgrees, NearUnit, Norm2, ZeroRange;
    var read := ReadDoubles(ieee, p);
    if read.None? {
      return Err(Disagreement);
    }
    var reserved := CheckReserved(p, ReservedFrom(mode));
    if !reserved {
      return Err(Reserved);
    }
    var bias := CheckBias(ieee, p, mode, read.value);
    if bias.Err? {
      return Err(bias.error);
    }
    if Norm2(bias.value) > BIAS_LIMIT2 {
      return Err(ExcessiveBias);
    }
    if !NearUnit(QuatOf(read.value)) {
      return Err(QuaternionNorm);
    }
    var gravity := CheckGravity(read.value);
    if !gravity {
      return Err(GravityMismatch);
    }
    return Ok(read.value);
  }

  method ValidateChip(m: Maths, ieee: Ieee, p: seq<Byte>) returns (r: Result<seq<real>, PacketFault>)
    requires |p| == PACKET
    ensures r == ChipChecked(m, ieee, p)
  {
    hide Ieee.ReadAll, ChipValues, ChipQuatOk;
    var decoded := DecodeChip(m, RawOf(p));
    if decoded.Err? {
      return decoded;
    }
    var read := ReadDoubles(ieee, p);
    if read.None? {
      return Err(Disagreement);
    }
    for i := 0 to 13
      invariant forall k :: 0 <= k < i ==> Abs(read.value[k] - decoded.value[k]) <= AGREEMENT
    {
      if Abs(read.value[i] - decoded.value[i]) > AGREEMENT {
        return Err(Disagreement);
      }
    }
    return decoded;
  }

  method ValidateImuPacket(m: Maths, ieee: Ieee, p: seq<Byte>, now: nat, previous: nat, mode: Mode)
    returns (r: Result<Snapshot, PacketFault>)
    ensures r == Validated(m, ieee, p, now, previous, mode)
  {
    hide WordAt, FusedValues, ChipChecked;
    if |p| != PACKET || p[..8] != Magic(mode) {
      return Err(Version);
    }
    var tail := Read64(p, 184);
    if (mode.Hardware? && (p[78] != 0 || p[79] != 0)) || tail != 0 {
      return Err(Reserved);
    }
    var sequence := Read64(p, 8);
    var start := Read64(p, 16);
    var end := Read64(p, 24);
    if sequence == 0 || sequence < previous {
      return Err(SequenceRegression);
    }
    if start == 0 || end < start || end > now || now - start > MAX_READ {
      return Err(StaleTimestamp);
    }
    var values;
    if mode.Hardware? {
      values := ValidateChip(m, ieee, p);
    } else {
      values := ValidateFused(ieee, p, mode);
    }
    if values.Err? {
      return Err(values.error);
    }
    return Ok(Snapshot(sequence, start, end, values.value));
  }
}
