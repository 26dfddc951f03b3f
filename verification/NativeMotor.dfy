/** The native controller's per-motor state and the three operations that change it:
    finishing a preview, producing a policy frame, and accepting a feedback frame. */
module NativeMotor {
  import opened Prelude
  import opened MitCodec
  import opened MotorCommand

  /** Why a feedback frame aborts the run. */
  datatype FeedbackFault = BadFrame | Identity | OverTemperature | FilteredTemperature | DynamicGuard

  /** What the drive reports in an eight-byte feedback frame. */
  datatype Reply = Reply(id: int, status: int, position: real, velocity: real, torque: real, mos: int, rotor: int)

  function DecodeReply(data: seq<Byte>, ranges: Ranges): Reply
    requires |data| == 8
  {
    var d: seq<int> := data;
    Reply(d[0] % 16, d[0] / 16,
          Decode(WideField(d[1], d[2]), ranges.position, LEVELS16),
          Decode(FirstField(d[3], d[4]), ranges.velocity, LEVELS12),
          Decode(SecondField(d[4], d[5]), ranges.torque, LEVELS12),
          d[6], d[7])
  }

  /** A drive's feedback frame as the drive lays it out: identifier and status, a 16-bit position,
      a 12-bit velocity and a 12-bit torque sharing a byte, and the two temperatures. */
  datatype Reported = Reported(id: nat, status: nat, position: nat, velocity: nat, torque: nat, mos: Byte, rotor: Byte) {
    predicate Fits() { id < 16 && status < 16 && position <= LEVELS16 && velocity <= LEVELS12 && torque <= LEVELS12 }

    function Bytes(): (data: seq<Byte>)
      requires Fits()
      ensures |data| == 8
    {
      [16 * status + id, TopByte(position), LowByte(position), HighByte(velocity), SplitByte(velocity, torque),
       LowByte(torque), mos, rotor]
    }
  }

  /** The controller reads every field where the drive put it. */
  lemma ReplyOfReported(w: Reported, ranges: Ranges)
    requires w.Fits()
    ensures DecodeReply(w.Bytes(), ranges)
            == Reply(w.id, w.status, Decode(w.position, ranges.position, LEVELS16), Decode(w.velocity, ranges.velocity, LEVELS12),
                     Decode(w.torque, ranges.torque, LEVELS12), w.mos, w.rotor)
  {
    hide TopByte, HighByte, SplitByte, LowByte, WideField, FirstField, SecondField, Decode;
    TwoBytes(w.position);
    ThreeBytes(w.velocity, w.torque);
    var head := 16 * w.status + w.id;
    assert head % 16 == w.id && head / 16 == w.status;
  }

  /** Every eight bytes are such a frame. */
  lemma EveryFrameIsReported(data: seq<Byte>) returns (w: Reported)
    requires |data| == 8
    ensures w.Fits() && w.Bytes() == data
  {
    hide TopByte, HighByte, SplitByte, LowByte, WideField, FirstField, SecondField;
    TwoBytesBack(data[1], data[2]);
    ThreeBytesBack(data[3], data[4], data[5]);
    var d: seq<int> := data;
    w := Reported(d[0] % 16, d[0] / 16, WideField(d[1], d[2]), FirstField(d[3], d[4]), SecondField(d[4], d[5]), data[6], data[7]);
  }

  /** Every feedback frame decodes into the configured ranges, whatever its bytes. */
  lemma ReplyInRange(data: seq<Byte>, ranges: Ranges)
    requires |data| == 8 && ranges.Ordered()
    ensures var r := DecodeReply(data, ranges);
            && 0 <= r.id < 16 && 0 <= r.status < 16
            && ranges.position.Contains(r.position) && ranges.velocity.Contains(r.velocity)
            && ranges.torque.Contains(r.torque)
  {
    var d: seq<int> := data;
    TwoBytesBack(data[1], data[2]);
    ThreeBytesBack(data[3], data[4], data[5]);
    EncodeOfDecode(WideField(d[1], d[2]), ranges.position, LEVELS16);
    EncodeOfDecode(FirstField(d[3], d[4]), ranges.velocity, LEVELS12);
    EncodeOfDecode(SecondField(d[4], d[5]), ranges.torque, LEVELS12);
    hide Encode, Decode, WideField, FirstField, SecondField;
  }

  /** A position echo carries the very position word the drive reported, so polling never asks
      a drive to move; and with ranges that straddle zero the Python echo of a reported position
      is never refused. */
  lemma EchoReturnsReportedWord(data: seq<Byte>, ranges: Ranges)
    requires |data| == 8 && ranges.Ordered()
    ensures var p := DecodeReply(data, ranges).position;
            && (ZeroGainPayload(ranges, p).Ok? ==>
                  Unpack(ZeroGainPayload(ranges, p).value).position == WideField(Plain(data[1]), Plain(data[2])))
            && (PythonZeroGain(ranges, p).Ok? ==>
                  |PythonZeroGain(ranges, p).value| == 8
                  && Unpack(PythonZeroGain(ranges, p).value).position == WideField(Plain(data[1]), Plain(data[2])))
            && (PythonZeroGain(ranges, p).Ok? <==>
                  ranges.velocity.low < 0.0 < ranges.velocity.high && ranges.torque.low < 0.0 < ranges.torque.high)
  {
    var d: seq<int> := data;
    var p := DecodeReply(data, ranges).position;
    ReplyInRange(data, ranges);
    TwoBytesBack(data[1], data[2]);
    EncodeOfDecode(WideField(d[1], d[2]), ranges.position, LEVELS16);
    assert Encode(p, ranges.position, LEVELS16) == Ok(WideField(d[1], d[2]));
    hide DecodeReply, Encode, Decode, Pack, Unpack, WideField;
    ZeroGainAcceptance(ranges, p);
    ZeroGainWritersAgree(ranges, p);
    if PythonZeroGain(ranges, p).Ok? {
      PythonEchoPosition(ranges, p);
    }
    hide ZeroGainPayload, PythonZeroGain;
  }

  function Plain(b: Byte): int { b }

  lemma PythonEchoPosition(ranges: Ranges, p: real)
    requires ranges.Ordered() && PythonZeroGain(ranges, p).Ok?
    ensures |PythonZeroGain(ranges, p).value| == 8
    ensures Encode(p, ranges.position, LEVELS16) == Ok(Unpack(PythonZeroGain(ranges, p).value).position)
  {
    hide Encode, Pack, PythonPack, Unpack, Torque, EnvelopeRefusal;
    var c, s := Command(p, 0.0, 0.0, 0.0, 0.0), State(p, 0.0);
    var e := Envelope(ranges.position, ranges.velocity.Nearest(), ranges.torque.Nearest(), ranges.torque.Nearest());
    PythonAgreesWithNative(ranges, c, s, e);
    UnpackOfPack(EncodeCommand(c, ranges).value);
  }

  /** What the caller expects of a reply: a status, or (while shutting down) any of
      disabled and enabled, with everything else ignored. */
  datatype Expected = Status(code: int) | Tolerant

  predicate ReplyMatches(cfg: MotorConfig, r: Reply, expected: Expected) {
    r.id == cfg.canId && (if expected.Status? then r.status == expected.code else r.status == 0 || r.status == 1)
  }

  /** First-order low-pass; `gain` stands for 1 - exp(-period / time constant). */
  function Filter(previous: Option<real>, sample: real, gain: real): real {
    match previous
    case None => sample
    case Some(x) => x + gain * (sample - x)
  }

  predicate FilterLimitsHold(cfg: MotorConfig, mos: real, rotor: real) {
    mos < cfg.filteredMosLimit && rotor < cfg.filteredRotorLimit
  }

  predicate DynamicsOk(cfg: MotorConfig, r: Reply) {
    && cfg.hard.Contains(r.position) && Abs(r.velocity) <= cfg.maxVelocity && Abs(r.torque) <= cfg.feedbackCap
  }

  /** The guard verdict on a matching reply, in the source's order. */
  function ReplyFault(cfg: MotorConfig, r: Reply, mos: real, rotor: real, dynamic: bool): Option<FeedbackFault> {
    if r.mos as real >= cfg.mosLimit || r.rotor as real >= cfg.rotorLimit then Some(OverTemperature)
    else if dynamic && !FilterLimitsHold(cfg, mos, rotor) then Some(FilteredTemperature)
    else if dynamic && !DynamicsOk(cfg, r) then Some(DynamicGuard)
    else None
  }

  /** Which frames are taken for this motor's: those that carry its identifier and the expected
      status, or, while shutting down, either of disabled and enabled. */
  lemma MatchesWhen(cfg: MotorConfig, w: Reported, expected: Expected)
    requires w.Fits()
    ensures ReplyMatches(cfg, DecodeReply(w.Bytes(), cfg.ranges), expected) <==>
            w.id == cfg.canId && (w.status == 0 || w.status == 1 || expected.Status?)
            && (expected.Status? ==> w.status == expected.code)
  {
    ReplyOfReported(w, cfg.ranges);
    hide DecodeReply, Decode;
  }

  /** When a matching frame aborts the run: a temperature at its limit, always; and while driving, a
      filtered temperature at its limit, a position outside the hard limits, or a velocity or torque
      beyond its guard. The temperatures come first. */
  lemma FaultWhen(cfg: MotorConfig, r: Reply, mos: real, rotor: real, dynamic: bool)
    ensures var fault := ReplyFault(cfg, r, mos, rotor, dynamic);
            var hot := r.mos as real >= cfg.mosLimit || r.rotor as real >= cfg.rotorLimit;
            var warm := dynamic && (mos >= cfg.filteredMosLimit || rotor >= cfg.filteredRotorLimit);
            var wild := dynamic && (r.position < cfg.hard.low || r.position > cfg.hard.high
                                    || r.velocity > cfg.maxVelocity || -r.velocity > cfg.maxVelocity
                                    || r.torque > cfg.feedbackCap || -r.torque > cfg.feedbackCap);
            && (fault == None <==> !hot && !warm && !wild) && (fault == Some(OverTemperature) <==> hot)
            && (fault == Some(FilteredTemperature) <==> !hot && warm)
            && (fault == Some(DynamicGuard) <==> !hot && !warm && wild)
  {
  }

  /** The low-pass starts at its first sample and then leaves the same share of the distance to every
      sample. */
  lemma FilterApproaches(x: real, sample: real, gain: real)
    requires 0.0 <= gain <= 1.0
    ensures Filter(None, sample, gain) == sample
    ensures Abs(sample - Filter(Some(x), sample, gain)) == (1.0 - gain) * Abs(sample - x)
    ensures Min(x, sample) <= Filter(Some(x), sample, gain) <= Max(x, sample)
  {
    var d := sample - x;
    assert sample - Filter(Some(x), sample, gain) == (1.0 - gain) * d;
    if d >= 0.0 {
      NonNegativeProduct(gain, d);
      NonNegativeProduct(1.0 - gain, d);
    } else {
      NonNegativeProduct(gain, -d);
      NonNegativeProduct(1.0 - gain, -d);
    }
  }

  class Motor {
    const cfg: MotorConfig
    const filterGain: real
    const pollPhase: nat
    var lastPosition: real
    var lastVelocity: real
    var lastStatus: int
    var preview: Command
    var previewInitialized: bool
    var saturationCount: nat
    var maxUnsaturatedTorque: real
    var maxEstimatedTorque: real
    var maxCommandedTorque: real
    var filteredMos: Option<real>
    var filteredRotor: Option<real>
    var txCount: nat
    var rxCount: nat
    var seen: bool
    var finalDisabled: bool

    function Feedback(): State
      reads this
    {
      State(lastPosition, lastVelocity)
    }

    /** The tail of the preview loop: saturate, account, and test the final invariant. */
    method FinishPreview(saturating: bool) returns (r: Result<(), CommandFault>)
      requires cfg.cap > 0.0
      modifies this`preview, this`saturationCount, this`maxUnsaturatedTorque, this`maxEstimatedTorque
      ensures preview == if saturating then Saturate(cfg, old(preview), Feedback()) else old(preview)
      ensures saturationCount
              == old(saturationCount) + if saturating && OverGuard(cfg, old(preview), Feedback()) then 1 else 0
      ensures maxUnsaturatedTorque == Max(old(maxUnsaturatedTorque), Abs(Torque(old(preview), Feedback())))
      ensures r == if PreviewOk(cfg, preview, Feedback()) then Ok(()) else Err(PreviewInvariant)
      ensures maxEstimatedTorque
              == if r.Ok? then Max(old(maxEstimatedTorque), Abs(Torque(preview, Feedback()))) else old(maxEstimatedTorque)
    {
      hide Torque, Product, Ratio, ShiftedPosition;
      var s := State(lastPosition, lastVelocity);
      var estimated := Torque(preview, s);
      maxUnsaturatedTorque := Max(maxUnsaturatedTorque, Abs(estimated));
      if saturating && Abs(estimated) > 0.98 * cfg.cap {
        var limited := CopySign(0.98 * cfg.cap, estimated);
        if preview.kp > TOLERANCE {
          var shifted := ShiftedPosition(preview, limited - estimated);
          if cfg.Lower() <= shifted <= cfg.Upper() {
            preview := preview.(position := shifted);
          } else {
            var scale := Ratio(limited, estimated);
            preview := preview.(kp := Product(preview.kp, scale), kd := Product(preview.kd, scale),
                                feedforward := Product(preview.feedforward, scale));
          }
        } else {
          preview := preview.(feedforward := preview.feedforward + (limited - estimated));
        }
        saturationCount := saturationCount + 1;
      }
      if !PreviewOk(cfg, preview, s) {
        return Err(PreviewInvariant);
      }
      maxEstimatedTorque := Max(maxEstimatedTorque, Abs(Torque(preview, s)));
      return Ok(());
    }

    /** `protected_policy_payload`: encode, and in bounded mode shrink the words until the
        torque the drive will see fits the commissioning cap; otherwise refuse. */
    method ProtectedPolicyPayload(bounded: bool) returns (r: Result<seq<Byte>, CommandFault>)
      requires cfg.cap > 0.0 && cfg.ranges.Proper()
      modifies this`saturationCount, this`maxCommandedTorque
      ensures var o := PolicyWords(cfg, previewInitialized, preview, Feedback(), bounded);
              && r == (if o.words.Ok? then Ok(Pack(o.words.value)) else Err(o.words.error))
              && saturationCount == old(saturationCount) + (if o.saturated then 1 else 0)
              && maxCommandedTorque == if o.words.Ok? then Max(old(maxCommandedTorque), Abs(WireTorque(cfg, o.words.value, Feedback())))
                                       else old(maxCommandedTorque)
    {
      var s := State(lastPosition, lastVelocity);
      hide EncodeCommand, WireTorque, Reduced, Pack;
      if !previewInitialized || !PolicyEnvelope(cfg, preview) {
        return Err(CommandEnvelope);
      }
      var first := EncodeCommand(preview, cfg.ranges);
      if first.Err? {
        return Err(Unencodable(first.error));
      }
      var words := first.value;
      if bounded && OverCap(cfg, words, s) {
        var scale := 1.0;
        var attempt := 0;
        ScaledByOne(preview);
        while attempt < MAX_ATTEMPTS && OverCap(cfg, words, s)
          invariant 0 <= attempt <= MAX_ATTEMPTS
          invariant EncodeCommand(Scaled(preview, scale), cfg.ranges) == Ok(words)
          invariant Shrink(cfg, preview, s, 1.0, MAX_ATTEMPTS) == Shrink(cfg, preview, s, scale, MAX_ATTEMPTS - attempt)
        {
          scale := Reduced(cfg, words, s, scale);
          var next := EncodeCommand(Scaled(preview, scale), cfg.ranges);
          if next.Err? {
            return Err(Unencodable(next.error));
          }
          words := next.value;
          attempt := attempt + 1;
        }
        saturationCount := saturationCount + 1;
      }
      if OverCap(cfg, words, s) {
        return Err(TorqueCap);
      }
      maxCommandedTorque := Max(maxCommandedTorque, Abs(WireTorque(cfg, words, s)));
      return Ok(Pack(words));
    }

    /** One matching or mismatching feedback frame of this motor
        (native/src/sprite_can_shadow.cpp:1248-1314). Returns whether it was accepted. */
    method AcceptReply(data: seq<Byte>, expected: Expected, dynamic: bool) returns (r: Result<bool, FeedbackFault>)
      requires |data| == 8
      modifies this`lastPosition, this`lastVelocity, this`lastStatus, this`filteredMos, this`filteredRotor,
               this`rxCount, this`seen, this`finalDisabled
      ensures var reply := DecodeReply(data, cfg.ranges);
              if !ReplyMatches(cfg, reply, expected) then
                r == (if expected.Tolerant? then Ok(false) else Err(Identity)) && unchanged(this)
              else
                && lastPosition == reply.position && lastVelocity == reply.velocity && lastStatus == reply.status
                && filteredMos == Some(Filter(old(filteredMos), reply.mos as real, filterGain))
                && filteredRotor == Some(Filter(old(filteredRotor), reply.rotor as real, filterGain))
                && var fault := ReplyFault(cfg, reply, filteredMos.value, filteredRotor.value, dynamic);
                  if fault.Some? then
                    r == Err(fault.value) && seen == old(seen) && finalDisabled == old(finalDisabled) && rxCount == old(rxCount)
                  else
                    && r == Ok(true) && seen && rxCount == old(rxCount) + 1
                    && finalDisabled == if expected.Tolerant? || expected.code == 0 then reply.status == 0 else old(finalDisabled)
    {
      hide Decode;
      var reply := DecodeReply(data, cfg.ranges);
      if !ReplyMatches(cfg, reply, expected) {
        return if expected.Tolerant? then Ok(false) else Err(Identity);
      }
      lastPosition, lastVelocity, lastStatus := reply.position, reply.velocity, reply.status;
      filteredMos := Some(Filter(filteredMos, reply.mos as real, filterGain));
      filteredRotor := Some(Filter(filteredRotor, reply.rotor as real, filterGain));
      if reply.mos as real >= cfg.mosLimit || reply.rotor as real >= cfg.rotorLimit {
        return Err(OverTemperature);
      }
      if dynamic && (filteredMos.value >= cfg.filteredMosLimit || filteredRotor.value >= cfg.filteredRotorLimit) {
        return Err(FilteredTemperature);
      }
      if dynamic && (lastPosition < cfg.hard.low || lastPosition > cfg.hard.high
                     || Abs(lastVelocity) > cfg.maxVelocity || Abs(reply.torque) > cfg.feedbackCap) {
        return Err(DynamicGuard);
      }
      rxCount := rxCount + 1;
      seen := true;
      if expected.Tolerant? {
        finalDisabled := reply.status == 0;
      } else if expected.code == 0 {
        finalDisabled := true;
      }
      return Ok(true);
    }
  }
}
