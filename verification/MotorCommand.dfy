/** One motor of the native controller: its configuration, its last feedback, the
    previewed impedance command, and the two torque limiters that stand between a
    synthesized command and the wire. The first limiter works on real values, the
    second iterates on the quantized words
    (native/src/sprite_can_shadow.cpp:890-943 and 1004-1073). */
module MotorCommand {
  import opened Prelude
  import opened MitCodec

  /** Why a motor command is refused. */
  datatype CommandFault =
    | CommandEnvelope            // the protected command envelope failed
    | Unencodable(fault: CodecFault)
    | TorqueCap                  // the wire torque stays above the commissioning cap
    | PreviewInvariant           // the final preview invariant failed

  const TOLERANCE: real := 0.000000001

  datatype MotorConfig = MotorConfig(
    name: string, bus: string, canId: int, masterId: int,
    ranges: Ranges, soft: Range, hard: Range,
    maxVelocity: real, ratedTorque: real, peakTorque: real, cap: real, feedbackCap: real,
    mosLimit: real, rotorLimit: real, filteredMosLimit: real, filteredRotorLimit: real,
    filterTimeConstant: real, pollRate: int)
  {
    /** The row test of `load_motors`. */
    predicate Accepted() {
      && 1 <= canId <= 8 && masterId == canId + 0x10
      && ranges.position.low < soft.low < soft.high < ranges.position.high
      && hard.low < soft.low && soft.high < hard.high
      && 0.0 < maxVelocity <= ranges.velocity.high
      && 0.0 < ratedTorque <= peakTorque
      && 0.0 < cap <= peakTorque
      && 0.0 < feedbackCap <= peakTorque
      && 0.0 < filteredMosLimit < mosLimit && 0.0 < filteredRotorLimit < rotorLimit
      && 0.0 < filterTimeConstant
      && (pollRate == 50 || pollRate == 500)
    }

    /** The intersection of soft, hard and protocol positions. */
    function Lower(): real { Max(Max(soft.low, hard.low), ranges.position.low) }
    function Upper(): real { Min(Min(soft.high, hard.high), ranges.position.high) }

    predicate PositionOk(p: real) {
      && soft.low - TOLERANCE <= p <= soft.high + TOLERANCE
      && hard.low - TOLERANCE <= p <= hard.high + TOLERANCE
      && ranges.position.low - TOLERANCE <= p <= ranges.position.high + TOLERANCE
    }

    function ProtocolTorque(): real { Min(Abs(ranges.torque.low), ranges.torque.high) }
  }

  // ---- limiting the previewed command --------------------------------------

  /** 98% of the commissioning cap: the limit of the real-valued saturator. */
  function Guard(cfg: MotorConfig): real { 0.98 * cfg.cap }

  function CopySign(magnitude: real, sign: real): real {
    if sign < 0.0 then -magnitude else magnitude
  }

  predicate OverGuard(cfg: MotorConfig, c: Command, s: State) { Abs(Torque(c, s)) > Guard(cfg) }

  /** The three ways of bringing an excessive torque back: shift the position setpoint,
      scale the whole impedance, or adjust the feedforward of a stiffness-free command. */
  function Limit(cfg: MotorConfig, c: Command, s: State): Command
    requires OverGuard(cfg, c, s) && cfg.cap > 0.0
  {
    var estimated := Torque(c, s);
    var limited := CopySign(Guard(cfg), estimated);
    if c.kp > TOLERANCE then
      var shifted := ShiftedPosition(c, limited - estimated);
      if cfg.Lower() <= shifted <= cfg.Upper() then c.(position := shifted)
      else Scaled(c, Ratio(limited, estimated))
    else c.(feedforward := c.feedforward + (limited - estimated))
  }

  function Ratio(x: real, y: real): real
    requires y != 0.0
  {
    x / y
  }

  function ShiftedPosition(c: Command, d: real): real
    requires c.kp > TOLERANCE
  {
    c.position + d / c.kp
  }

  function Saturate(cfg: MotorConfig, c: Command, s: State): Command
    requires cfg.cap > 0.0
  {
    if OverGuard(cfg, c, s) then Limit(cfg, c, s) else c
  }

  /** The saturator does its job: torque at most 98% of the cap at this feedback (exactly
      98%, with the same sign, when it acted); velocity kept; gains never raised, never
      made negative; a position inside the envelope stays inside. */
  lemma SaturateIsSafe(cfg: MotorConfig, c: Command, s: State)
    requires cfg.cap > 0.0 && c.kp >= 0.0 && c.kd >= 0.0
    ensures var l := Saturate(cfg, c, s);
            && Abs(Torque(l, s)) <= 0.98 * cfg.cap
            && (Torque(c, s) > 0.98 * cfg.cap ==> Torque(l, s) == 0.98 * cfg.cap)
            && (Torque(c, s) < -0.98 * cfg.cap ==> Torque(l, s) == -0.98 * cfg.cap)
            && (Abs(Torque(c, s)) <= 0.98 * cfg.cap ==> l == c)
            && l.velocity == c.velocity
            && 0.0 <= l.kp <= c.kp && 0.0 <= l.kd <= c.kd
            && (cfg.Lower() <= c.position <= cfg.Upper() ==> cfg.Lower() <= l.position <= cfg.Upper())
  {
    hide Torque, Product, Ratio, ShiftedPosition;
    if OverGuard(cfg, c, s) {
      var estimated := Torque(c, s);
      var limited := CopySign(Guard(cfg), estimated);
      RescaleTorque(c, s, limited, estimated);
      ShiftTorque(c, s, limited - estimated);
      AdjustTorque(c, s, limited - estimated);
    }
  }

  /** How it acts, in order of preference: by moving the setpoint of a command with stiffness and
      nothing else, whenever some setpoint inside the envelope gives the limited torque; by one
      common factor on stiffness, damping and feedforward when none does; and by the feedforward
      alone for a command without stiffness. */
  lemma SaturateActsLeast(cfg: MotorConfig, c: Command, s: State) returns (k: real)
    requires cfg.cap > 0.0 && c.kp >= 0.0 && c.kd >= 0.0 && Abs(Torque(c, s)) > 0.98 * cfg.cap
    ensures var l := Saturate(cfg, c, s);
            if c.kp <= TOLERANCE then l == c.(feedforward := l.feedforward)
            else
              || (l == c.(position := l.position) && cfg.Lower() <= l.position <= cfg.Upper())
              || (l == Scaled(c, k) && 0.0 <= k <= 1.0
                  && forall p :: cfg.Lower() <= p <= cfg.Upper() ==> Torque(c.(position := p), s) != Torque(l, s))
  {
    hide Torque, Product, ShiftedPosition;
    var estimated := Torque(c, s);
    var limited := CopySign(Guard(cfg), estimated);
    k := Ratio(limited, estimated);
    hide Ratio;
    RescaleTorque(c, s, limited, estimated);
    UnitQuotient(limited, estimated);
    if c.kp > TOLERANCE && Saturate(cfg, c, s) == Scaled(c, k) {
      forall p | cfg.Lower() <= p <= cfg.Upper() && Torque(c.(position := p), s) == limited
        ensures p == ShiftedPosition(c, limited - estimated)
      {
        OnlySetpoint(c, s, p, limited - estimated);
      }
    }
  }

  /** With stiffness only one setpoint gives a torque. */
  lemma OnlySetpoint(c: Command, s: State, p: real, d: real)
    requires c.kp > TOLERANCE && Torque(c.(position := p), s) == Torque(c, s) + d
    ensures p == ShiftedPosition(c, d)
  {
    var m := d / c.kp;
    assert c.kp * m == d;
    assert c.kp * (p - s.position) - c.kp * (c.position - s.position) == c.kp * (p - c.position);
    if p - c.position > m {
      MulPositive(c.kp, p - c.position - m);
    } else if p - c.position < m {
      MulPositive(c.kp, m - (p - c.position));
    }
  }

  /** Scaling the whole impedance by `limited / estimated` gives the limited torque. */
  lemma RescaleTorque(c: Command, s: State, limited: real, estimated: real)
    requires Abs(limited) < Abs(estimated) && (limited < 0.0 <==> estimated < 0.0)
    requires estimated == Torque(c, s) && c.kp >= 0.0 && c.kd >= 0.0
    ensures var l := Scaled(c, Ratio(limited, estimated));
            Torque(l, s) == limited && 0.0 <= l.kp <= c.kp && 0.0 <= l.kd <= c.kd
  {
    hide Torque, Product, Ratio;
    var k := Ratio(limited, estimated);
    ScaleTorque(c, s, k);
    UnitQuotient(limited, estimated);
    ScaleDown(c.kp, k);
    ScaleDown(c.kd, k);
  }

  /** Moving the setpoint by `d / kp` changes the torque by `d`. */
  lemma ShiftTorque(c: Command, s: State, d: real)
    ensures c.kp > TOLERANCE ==> Torque(c.(position := ShiftedPosition(c, d)), s) == Torque(c, s) + d
  {
    if c.kp > TOLERANCE {
      var m := d / c.kp;
      assert c.kp * m == d;
      assert c.kp * (c.position + m - s.position) == c.kp * (c.position - s.position) + c.kp * m;
    }
  }

  lemma AdjustTorque(c: Command, s: State, d: real)
    ensures Torque(c.(feedforward := c.feedforward + d), s) == Torque(c, s) + d
  {
  }

  lemma ScaleTorque(c: Command, s: State, k: real)
    ensures Torque(Scaled(c, k), s) == Product(k, Torque(c, s))
  {
    ScaleTorqueAt(c, k, c.position - s.position, c.velocity - s.velocity);
  }

  lemma UnitQuotient(x: real, y: real)
    requires Abs(x) < Abs(y) && (x < 0.0 <==> y < 0.0)
    ensures 0.0 <= Ratio(x, y) <= 1.0 && Product(Ratio(x, y), y) == x
  {
    var q := x / y;
    assert q * y == x;
    if y > 0.0 {
      CancelLe(0.0, q, y);
      CancelLe(q, 1.0, y);
    } else {
      assert q * (-y) == -x;
      CancelLe(0.0, q, -y);
      CancelLe(q, 1.0, -y);
    }
  }

  lemma ScaleDown(x: real, k: real)
    requires x >= 0.0 && 0.0 <= k <= 1.0
    ensures 0.0 <= Product(x, k) <= x
  {
    NonNegativeProduct(x, k);
    NonNegativeProduct(x, 1.0 - k);
  }

  /** The command after each of a run of previews that carry new feedback but no new
      50 Hz target: what a 50 Hz motor goes through between two refreshes. */
  function HeldRun(cfg: MotorConfig, c: Command, feedback: seq<State>): Command
    requires cfg.cap > 0.0
  {
    if feedback == [] then c
    else Saturate(cfg, HeldRun(cfg, c, feedback[..|feedback| - 1]), feedback[|feedback| - 1])
  }

  /** Over any such run the gains only fall, the setpoint never leaves the envelope, and
      the torque at the newest feedback is within 98% of the cap. */
  lemma {:induction false} HeldRunIsSafe(cfg: MotorConfig, c: Command, feedback: seq<State>)
    requires cfg.cap > 0.0 && c.kp >= 0.0 && c.kd >= 0.0
    ensures var h := HeldRun(cfg, c, feedback);
            && 0.0 <= h.kp <= c.kp && 0.0 <= h.kd <= c.kd && h.velocity == c.velocity
            && (cfg.Lower() <= c.position <= cfg.Upper() ==> cfg.Lower() <= h.position <= cfg.Upper())
            && (feedback != [] ==> Abs(Torque(h, feedback[|feedback| - 1])) <= 0.98 * cfg.cap)
  {
    if feedback != [] {
      HeldRunIsSafe(cfg, c, feedback[..|feedback| - 1]);
      SaturateIsSafe(cfg, HeldRun(cfg, c, feedback[..|feedback| - 1]), feedback[|feedback| - 1]);
    }
  }

  /** The preview's final invariant without its mechanical-peak clause. */
  predicate PreviewOkButPeak(cfg: MotorConfig, c: Command, s: State) {
    && cfg.PositionOk(c.position)
    && Abs(c.velocity) <= cfg.maxVelocity + TOLERANCE
    && 0.0 <= c.kp <= KP_MAX + TOLERANCE && 0.0 <= c.kd <= KD_MAX + TOLERANCE
    && Abs(c.feedforward) <= cfg.ProtocolTorque() + TOLERANCE
    && Abs(Torque(c, s)) <= cfg.ProtocolTorque() + TOLERANCE
  }

  /** The invariant every previewed command must satisfy, or the run is aborted. */
  predicate PreviewOk(cfg: MotorConfig, c: Command, s: State) {
    PreviewOkButPeak(cfg, c, s) && Abs(Torque(c, s)) <= cfg.peakTorque + TOLERANCE
  }

  /** Which previewed commands go on, clause by clause: position within the soft, the hard and the
      protocol range, velocity, gains of at most 500 and 5, and feedforward and torque within the
      protocol's nearer end and the mechanical peak, all up to 1e-9. */
  lemma PreviewGoesOnWhen(cfg: MotorConfig, c: Command, s: State)
    ensures PreviewOk(cfg, c, s) <==>
              && cfg.soft.low - 0.000000001 <= c.position <= cfg.soft.high + 0.000000001
              && cfg.hard.low - 0.000000001 <= c.position <= cfg.hard.high + 0.000000001
              && cfg.ranges.position.low - 0.000000001 <= c.position <= cfg.ranges.position.high + 0.000000001
              && -(cfg.maxVelocity + 0.000000001) <= c.velocity <= cfg.maxVelocity + 0.000000001
              && 0.0 <= c.kp <= 500.0 + 0.000000001 && 0.0 <= c.kd <= 5.0 + 0.000000001
              && Abs(c.feedforward) <= Abs(cfg.ranges.torque.low) + 0.000000001
              && Abs(c.feedforward) <= cfg.ranges.torque.high + 0.000000001
              && Abs(Torque(c, s)) <= Abs(cfg.ranges.torque.low) + 0.000000001
              && Abs(Torque(c, s)) <= cfg.ranges.torque.high + 0.000000001
              && Abs(Torque(c, s)) <= cfg.peakTorque + 0.000000001
  {
    hide Torque;
  }

  /** With saturation on, the mechanical-peak test can never be the reason for an abort. */
  lemma PeakTestNeverFires(cfg: MotorConfig, c: Command, s: State)
    requires cfg.Accepted() && c.kp >= 0.0 && c.kd >= 0.0
    ensures PreviewOk(cfg, Saturate(cfg, c, s), s) <==> PreviewOkButPeak(cfg, Saturate(cfg, c, s), s)
  {
    SaturateIsSafe(cfg, c, s);
  }

  // ---- limiting the words on the wire --------------------------------------

  /** Stiffness, damping and feedforward reduced together; the setpoint is kept. */
  function Scaled(c: Command, k: real): Command {
    c.(kp := Product(c.kp, k), kd := Product(c.kd, k), feedforward := Product(c.feedforward, k))
  }

  /** The torque the drive will produce from the words it receives. */
  function WireTorque(cfg: MotorConfig, w: Words, s: State): real {
    Torque(DecodeWords(w, cfg.ranges), s)
  }

  predicate OverCap(cfg: MotorConfig, w: Words, s: State) {
    Abs(WireTorque(cfg, w, s)) > cfg.cap + TOLERANCE
  }

  datatype Shrunk = Shrunk(words: Words, scale: real)

  function Shrinkage(cfg: MotorConfig, w: Words, s: State): real
    requires cfg.cap > 0.0 && OverCap(cfg, w, s)
  {
    Min(0.9, 0.95 * cfg.cap / Abs(WireTorque(cfg, w, s)))
  }

  function Reduced(cfg: MotorConfig, w: Words, s: State, scale: real): real
    requires cfg.cap > 0.0 && OverCap(cfg, w, s)
  {
    scale * Shrinkage(cfg, w, s)
  }

  /** Re-encode at ever smaller scales until the wire torque fits or the attempts run out. */
  function Shrink(cfg: MotorConfig, c: Command, s: State, scale: real, attempts: nat): Result<Shrunk, CommandFault>
    requires cfg.cap > 0.0 && cfg.ranges.Proper()
    decreases attempts
  {
    var w := EncodeCommand(Scaled(c, scale), cfg.ranges);
    if w.Err? then Err(Unencodable(w.error))
    else if attempts == 0 || !OverCap(cfg, w.value, s) then Ok(Shrunk(w.value, scale))
    else Shrink(cfg, c, s, Reduced(cfg, w.value, s, scale), attempts - 1)
  }

  const MAX_ATTEMPTS: nat := 32

  datatype WireOutcome = WireOutcome(words: Result<Words, CommandFault>, saturated: bool)

  predicate PolicyEnvelope(cfg: MotorConfig, c: Command) {
    && cfg.PositionOk(c.position)
    && Abs(c.velocity) <= cfg.maxVelocity + TOLERANCE
    && KP_RANGE.Contains(c.kp) && KD_RANGE.Contains(c.kd)
  }

  /** `protected_policy_payload` as a function of the command, the feedback and the mode. */
  function PolicyWords(cfg: MotorConfig, initialized: bool, c: Command, s: State, bounded: bool): WireOutcome
    requires cfg.cap > 0.0 && cfg.ranges.Proper()
  {
    if !initialized || !PolicyEnvelope(cfg, c) then
      WireOutcome(Err(CommandEnvelope), false)
    else
      var w := EncodeCommand(c, cfg.ranges);
      if w.Err? then WireOutcome(Err(Unencodable(w.error)), false)
      else if bounded && OverCap(cfg, w.value, s) then
        match Shrink(cfg, c, s, 1.0, MAX_ATTEMPTS)
        case Err(error) => WireOutcome(Err(error), false)
        case Ok(shrunk) => WireOutcome(CapChecked(cfg, shrunk.words, s), true)
      else WireOutcome(CapChecked(cfg, w.value, s), false)
  }

  function CapChecked(cfg: MotorConfig, w: Words, s: State): Result<Words, CommandFault> {
    if OverCap(cfg, w, s) then Err(TorqueCap) else Ok(w)
  }

  /** Every accepted frame is the encoding of the previewed command with stiffness, damping
      and feedforward reduced by one common factor, so the setpoint words are untouched. */
  lemma {:induction false} ShrinkIsUniform(cfg: MotorConfig, c: Command, s: State, scale: real, attempts: nat)
    requires cfg.cap > 0.0 && cfg.ranges.Proper() && 0.0 < scale <= 1.0
    requires Shrink(cfg, c, s, scale, attempts).Ok?
    ensures var r := Shrink(cfg, c, s, scale, attempts).value;
            && 0.0 < r.scale <= scale
            && EncodeCommand(Scaled(c, r.scale), cfg.ranges) == Ok(r.words)
    decreases attempts
  {
    hide EncodeCommand, WireTorque, Reduced;
    var w := EncodeCommand(Scaled(c, scale), cfg.ranges);
    if attempts > 0 && OverCap(cfg, w.value, s) {
      ReducedByTenth(cfg, w.value, s, scale);
      ShrinkIsUniform(cfg, c, s, Reduced(cfg, w.value, s, scale), attempts - 1);
    }
  }

  lemma ReducedByTenth(cfg: MotorConfig, w: Words, s: State, scale: real)
    requires cfg.cap > 0.0 && OverCap(cfg, w, s) && 0.0 < scale <= 1.0
    ensures 0.0 < Reduced(cfg, w, s, scale) <= 0.9 * scale
  {
    hide WireTorque;
    ShrinkagePositive(cfg, w, s);
    MulLe(Shrinkage(cfg, w, s), 0.9, scale);
    MulPositive(scale, Shrinkage(cfg, w, s));
  }

  lemma MulPositive(x: real, y: real)
    requires x > 0.0 && y > 0.0
    ensures x * y > 0.0
  {
  }

  lemma ShrinkagePositive(cfg: MotorConfig, w: Words, s: State)
    requires cfg.cap > 0.0 && OverCap(cfg, w, s)
    ensures 0.0 < Shrinkage(cfg, w, s) <= 0.9
  {
    var t := Abs(WireTorque(cfg, w, s));
    var q := 0.95 * cfg.cap / t;
    assert q * t == 0.95 * cfg.cap;
    CancelLe(0.0, q, t);
  }

  /** What an accepted policy frame guarantees: the torque decoded from the wire is within
      the commissioning cap at the latest feedback, and the frame is a uniform reduction of
      the validated command. Without the bounded mode it is the command itself. */
  lemma PolicyWordsAreSafe(cfg: MotorConfig, initialized: bool, c: Command, s: State, bounded: bool)
    requires cfg.cap > 0.0 && cfg.ranges.Proper()
    requires PolicyWords(cfg, initialized, c, s, bounded).words.Ok?
    ensures var o := PolicyWords(cfg, initialized, c, s, bounded);
            && Abs(WireTorque(cfg, o.words.value, s)) <= cfg.cap + TOLERANCE
            && initialized && PolicyEnvelope(cfg, c)
            && (!o.saturated ==> EncodeCommand(c, cfg.ranges) == Ok(o.words.value))
            && exists k :: 0.0 < k <= 1.0 && EncodeCommand(Scaled(c, k), cfg.ranges) == Ok(o.words.value)
    ensures var w := PolicyWords(cfg, initialized, c, s, bounded).words.value;
            && Encode(c.position, cfg.ranges.position, LEVELS16) == Ok(w.position)
            && Encode(c.velocity, cfg.ranges.velocity, LEVELS12) == Ok(w.velocity)
  {
    ScaledByOne(c);
    var w := EncodeCommand(c, cfg.ranges).value;
    if bounded && OverCap(cfg, w, s) {
      ShrinkIsUniform(cfg, c, s, 1.0, MAX_ATTEMPTS);
    }
  }

  /** Exactly which commands are sent as they are: those some preview set, inside every limit of the
      motor and of the drive, whose words ask for a torque within the cap at this feedback. */
  lemma SentAsItIs(cfg: MotorConfig, initialized: bool, c: Command, s: State)
    requires cfg.cap > 0.0 && cfg.ranges.Ordered()
    ensures PolicyWords(cfg, initialized, c, s, false).words.Ok? <==>
              && initialized
              && cfg.soft.low - 0.000000001 <= c.position <= cfg.soft.high + 0.000000001
              && cfg.hard.low - 0.000000001 <= c.position <= cfg.hard.high + 0.000000001
              && -(cfg.maxVelocity + 0.000000001) <= c.velocity <= cfg.maxVelocity + 0.000000001
              && 0.0 <= c.kp <= 500.0 && 0.0 <= c.kd <= 5.0
              && cfg.ranges.position.Contains(c.position) && cfg.ranges.velocity.Contains(c.velocity)
              && cfg.ranges.torque.Contains(c.feedforward)
              && Abs(WireTorque(cfg, EncodeCommand(c, cfg.ranges).value, s)) <= cfg.cap + 0.000000001
  {
    EncodeAccepts(c, cfg.ranges);
    hide EncodeCommand, WireTorque;
  }

  /** A policy frame is never taken for an enable or a disable, although those are frames of the
      same format: with a soft limit inside the protocol's range its position word is too low. */
  lemma PolicyFrameIsNoSpecial(cfg: MotorConfig, initialized: bool, c: Command, s: State, bounded: bool, enable: bool)
    requires cfg.cap > 0.0 && cfg.ranges.Ordered() && cfg.soft.high + 0.000000001 < cfg.ranges.position.high
    requires PolicyWords(cfg, initialized, c, s, bounded).words.Ok?
    ensures Pack(PolicyWords(cfg, initialized, c, s, bounded).words.value) != SpecialBytes(enable)
  {
    PolicyWordsAreSafe(cfg, initialized, c, s, bounded);
    var w := PolicyWords(cfg, initialized, c, s, bounded).words.value;
    SpecialAsksForAll(enable);
    UnpackOfPack(w);
    TopWord(cfg.ranges.position, LEVELS16);
    EncodeIsLargestBelow(c.position, cfg.ranges.position, LEVELS16, LEVELS16);
    hide Encode, Decode, Pack, Unpack, SpecialBytes, WireTorque;
  }

  lemma ScaledByOne(c: Command)
    ensures Scaled(c, 1.0) == c
  {
  }

  // ---- convergence of the wire saturator -----------------------------------

  /** The wire position and velocity errors and the unquantized torque about them. */
  function PositionError(cfg: MotorConfig, c: Command, s: State): real
    requires cfg.ranges.Ordered() && cfg.ranges.position.Contains(c.position)
  {
    Decode(Encode(c.position, cfg.ranges.position, LEVELS16).value, cfg.ranges.position, LEVELS16) - s.position
  }

  function VelocityError(cfg: MotorConfig, c: Command, s: State): real
    requires cfg.ranges.Ordered() && cfg.ranges.velocity.Contains(c.velocity)
  {
    Decode(Encode(c.velocity, cfg.ranges.velocity, LEVELS12).value, cfg.ranges.velocity, LEVELS12) - s.velocity
  }

  predicate SetpointInRange(cfg: MotorConfig, c: Command) {
    && cfg.ranges.Ordered()
    && cfg.ranges.position.Contains(c.position) && cfg.ranges.velocity.Contains(c.velocity)
  }

  function Unquantized(cfg: MotorConfig, c: Command, s: State): real
    requires SetpointInRange(cfg, c)
  {
    TorqueAt(c, PositionError(cfg, c, s), VelocityError(cfg, c, s))
  }

  /** The torque that quantization alone can add, whatever the scale. */
  function QuantizationFloor(cfg: MotorConfig, c: Command, s: State): real
    requires SetpointInRange(cfg, c)
  {
    Product(Step(KP_RANGE, LEVELS12), Abs(PositionError(cfg, c, s)))
    + Product(Step(KD_RANGE, LEVELS12), Abs(VelocityError(cfg, c, s)))
    + Step(cfg.ranges.torque, LEVELS12)
  }

  function Pow(x: real, n: nat): real {
    if n == 0 then 1.0 else x * Pow(x, n - 1)
  }

  lemma RoundingTerm(decoded: real, exact: real, step: real, e: real)
    requires Below(decoded, exact, step)
    ensures Abs(Product(decoded, e) - Product(exact, e)) <= Product(step, Abs(e))
  {
    var d := exact - decoded;
    assert decoded * e - exact * e == -(d * e);
    MulLe(d, step, Abs(e));
    assert Abs(d * e) == d * Abs(e);
  }

  lemma RoundedTorque(d: Command, c: Command, k: real, ep: real, ev: real, sk: real, sd: real, st: real)
    requires var l := Scaled(c, k);
             Below(d.kp, l.kp, sk) && Below(d.kd, l.kd, sd) && Below(d.feedforward, l.feedforward, st)
    ensures Abs(TorqueAt(d, ep, ev) - Product(k, TorqueAt(c, ep, ev))) <= Product(sk, Abs(ep)) + Product(sd, Abs(ev)) + st
  {
    hide Product;
    var l := Scaled(c, k);
    RoundingTerm(d.kp, l.kp, sk, ep);
    RoundingTerm(d.kd, l.kd, sd, ev);
    ScaleTorqueAt(c, k, ep, ev);
  }

  lemma ScaleTorqueAt(c: Command, k: real, ep: real, ev: real)
    ensures TorqueAt(Scaled(c, k), ep, ev) == Product(k, TorqueAt(c, ep, ev))
  {
    assert c.kp * k * ep == k * (c.kp * ep);
    assert c.kd * k * ev == k * (c.kd * ev);
  }

  /** The wire torque at a scale differs from the scaled torque by at most the floor. */
  lemma WireTorqueNearScaled(cfg: MotorConfig, c: Command, s: State, k: real)
    requires SetpointInRange(cfg, c)
    requires EncodeCommand(Scaled(c, k), cfg.ranges).Ok?
    ensures var w := EncodeCommand(Scaled(c, k), cfg.ranges).value;
            Abs(WireTorque(cfg, w, s) - Product(k, Unquantized(cfg, c, s))) <= QuantizationFloor(cfg, c, s)
  {
    hide Encode, Decode, Step, Product, TorqueAt;
    var w := EncodeCommand(Scaled(c, k), cfg.ranges).value;
    WordsRoundedDown(Scaled(c, k), cfg.ranges);
    var d, ep, ev := DecodeWords(w, cfg.ranges), PositionError(cfg, c, s), VelocityError(cfg, c, s);
    assert d.position - s.position == ep && d.velocity - s.velocity == ev;
    RoundedTorque(d, c, k, ep, ev, Step(KP_RANGE, LEVELS12), Step(KD_RANGE, LEVELS12),
                  Step(cfg.ranges.torque, LEVELS12));
  }

  /** A command whose fields are in range stays encodable at every smaller scale when the
      torque range contains zero. */
  lemma ScaledStaysEncodable(cfg: MotorConfig, c: Command, k: real)
    requires cfg.ranges.Ordered() && EncodeCommand(c, cfg.ranges).Ok?
    requires cfg.ranges.torque.Contains(0.0) && 0.0 <= k <= 1.0
    ensures EncodeCommand(Scaled(c, k), cfg.ranges).Ok?
  {
    hide EncodeCommand, InRanges;
    EncodeAccepts(c, cfg.ranges);
    EncodeAccepts(Scaled(c, k), cfg.ranges);
    ScaledInRanges(c, k, cfg.ranges);
  }

  lemma ScaledInRanges(c: Command, k: real, ranges: Ranges)
    requires InRanges(c, ranges) && ranges.torque.Contains(0.0) && 0.0 <= k <= 1.0
    ensures InRanges(Scaled(c, k), ranges)
  {
    hide Product;
    TowardsZero(c.kp, k);
    TowardsZero(c.kd, k);
    TowardsZero(c.feedforward, k);
  }

  lemma TowardsZero(x: real, k: real)
    requires 0.0 <= k <= 1.0
    ensures x >= 0.0 ==> 0.0 <= Product(x, k) <= x
    ensures x <= 0.0 ==> x <= Product(x, k) <= 0.0
  {
    var y := Abs(x);
    MulLe(0.0, k, y);
    MulLe(k, 1.0, y);
    assert x >= 0.0 ==> x * k == k * y;
    assert x <= 0.0 ==> x * k == -(k * y);
  }

  lemma {:induction false} ShrinkConverges(cfg: MotorConfig, c: Command, s: State, scale: real, attempts: nat)
    requires cfg.cap > 0.0 && SetpointInRange(cfg, c) && EncodeCommand(c, cfg.ranges).Ok?
    requires cfg.ranges.torque.Contains(0.0) && 0.0 < scale <= 1.0
    requires scale * Pow(0.9, attempts) * Abs(Unquantized(cfg, c, s)) + QuantizationFloor(cfg, c, s) <= cfg.cap
    ensures Shrink(cfg, c, s, scale, attempts).Ok?
    ensures !OverCap(cfg, Shrink(cfg, c, s, scale, attempts).value.words, s)
    decreases attempts
  {
    hide EncodeCommand, WireTorque, Unquantized, QuantizationFloor, Reduced, Abs;
    ScaledStaysEncodable(cfg, c, scale);
    var w := EncodeCommand(Scaled(c, scale), cfg.ranges).value;
    if attempts == 0 {
      FitsAtScale(cfg, c, s, scale);
    } else if OverCap(cfg, w, s) {
      var next := Reduced(cfg, w, s, scale);
      ReducedByTenth(cfg, w, s, scale);
      PowPositive(0.9, attempts - 1);
      BudgetFalls(scale, next, Pow(0.9, attempts - 1), Unquantized(cfg, c, s));
      ShrinkConverges(cfg, c, s, next, attempts - 1);
    }
  }

  /** A scale that leaves room for the floor gives words within the cap. */
  lemma FitsAtScale(cfg: MotorConfig, c: Command, s: State, scale: real)
    requires SetpointInRange(cfg, c) && EncodeCommand(Scaled(c, scale), cfg.ranges).Ok? && scale > 0.0
    requires scale * Abs(Unquantized(cfg, c, s)) + QuantizationFloor(cfg, c, s) <= cfg.cap
    ensures !OverCap(cfg, EncodeCommand(Scaled(c, scale), cfg.ranges).value, s)
  {
    hide EncodeCommand, WireTorque, Unquantized, QuantizationFloor;
    WireTorqueNearScaled(cfg, c, s, scale);
    AbsOfScaled(scale, Unquantized(cfg, c, s));
  }

  lemma AbsOfScaled(k: real, x: real)
    requires k > 0.0
    ensures Abs(k * x) == k * Abs(x)
  {
  }

  lemma BudgetFalls(scale: real, next: real, p: real, r: real)
    requires 0.0 < next <= 0.9 * scale && p > 0.0
    ensures next * p * Abs(r) <= scale * (0.9 * p) * Abs(r)
  {
    MulLe(next, 0.9 * scale, p * Abs(r));
    assert next * (p * Abs(r)) == next * p * Abs(r);
    assert 0.9 * scale * (p * Abs(r)) == scale * (0.9 * p) * Abs(r);
  }

  lemma {:induction false} PowPositive(x: real, n: nat)
    requires x > 0.0
    ensures Pow(x, n) > 0.0
  {
    if n > 0 {
      PowPositive(x, n - 1);
    }
  }

  /** Bounded mode never ends in the torque-cap error when the cap leaves room for the
      quantization floor and for what 32 reductions of at least 10% leave of the torque. */
  lemma BoundedModeConverges(cfg: MotorConfig, c: Command, s: State)
    requires cfg.cap > 0.0 && SetpointInRange(cfg, c) && EncodeCommand(c, cfg.ranges).Ok?
    requires PolicyEnvelope(cfg, c) && cfg.ranges.torque.Contains(0.0)
    requires Pow(0.9, 32) * Abs(Unquantized(cfg, c, s)) + QuantizationFloor(cfg, c, s) <= cfg.cap
    ensures PolicyWords(cfg, true, c, s, true).words.Ok?
  {
    hide EncodeCommand, WireTorque, Unquantized, QuantizationFloor, Pow;
    var w := EncodeCommand(c, cfg.ranges).value;
    if OverCap(cfg, w, s) {
      assert 1.0 * Pow(0.9, MAX_ATTEMPTS) == Pow(0.9, MAX_ATTEMPTS);
      ShrinkConverges(cfg, c, s, 1.0, MAX_ATTEMPTS);
    }
  }

  /** When quantization can add at most 2.5% of the cap, one reduction is enough, and it takes no
      more than it has to: the frame asks for 95% of the cap, or for 90% of what it asked before
      if that is less, to within twice what quantization can add. */
  lemma FirstReduction(cfg: MotorConfig, c: Command, s: State)
    requires cfg.cap > 0.0 && SetpointInRange(cfg, c) && EncodeCommand(c, cfg.ranges).Ok?
    requires PolicyEnvelope(cfg, c) && cfg.ranges.torque.Contains(0.0)
    requires OverCap(cfg, EncodeCommand(c, cfg.ranges).value, s) && QuantizationFloor(cfg, c, s) <= 0.025 * cfg.cap
    ensures var o := PolicyWords(cfg, true, c, s, true);
            var before := Abs(WireTorque(cfg, EncodeCommand(c, cfg.ranges).value, s));
            && o.words.Ok? && o.saturated
            && Abs(Abs(WireTorque(cfg, o.words.value, s)) - Min(0.9 * before, 0.95 * cfg.cap)) <= 2.0 * QuantizationFloor(cfg, c, s)
  {
    hide EncodeCommand, WireTorque, Unquantized, QuantizationFloor;
    var w, u, f := EncodeCommand(c, cfg.ranges).value, Unquantized(cfg, c, s), QuantizationFloor(cfg, c, s);
    ScaledByOne(c);
    OneTimes(u);
    WireTorqueNearScaled(cfg, c, s, 1.0);
    ReducedByTenth(cfg, w, s, 1.0);
    ShrinkagePositive(cfg, w, s);
    AimsBelowCap(cfg, w, s);
    var k := Shrinkage(cfg, w, s);
    assert Reduced(cfg, w, s, 1.0) == k;
    hide Shrinkage, Reduced;
    ScaledStaysEncodable(cfg, c, k);
    WireTorqueNearScaled(cfg, c, s, k);
    var v := EncodeCommand(Scaled(c, k), cfg.ranges).value;
    NearAim(WireTorque(cfg, w, s), u, f, k, WireTorque(cfg, v, s));
  }

  /** What a reduction aims at. */
  lemma AimsBelowCap(cfg: MotorConfig, w: Words, s: State)
    requires cfg.cap > 0.0 && OverCap(cfg, w, s)
    ensures Product(Shrinkage(cfg, w, s), Abs(WireTorque(cfg, w, s))) == Min(0.9 * Abs(WireTorque(cfg, w, s)), 0.95 * cfg.cap)
  {
    hide WireTorque;
    MinTimes(0.95 * cfg.cap, Abs(WireTorque(cfg, w, s)));
    hide Product;
  }

  lemma MinTimes(x: real, t: real)
    requires t > 0.0
    ensures Product(Min(0.9, x / t), t) == Min(0.9 * t, x)
  {
    var q := x / t;
    assert q * t == x;
    if q <= 0.9 {
      MulLe(q, 0.9, t);
    } else {
      MulLe(0.9, q, t);
    }
  }

  lemma NearAim(before: real, exact: real, floor: real, k: real, after: real)
    requires Abs(before - exact) <= floor && 0.0 < k <= 0.9 && Abs(after - Product(k, exact)) <= floor
    ensures Abs(Abs(after) - Product(k, Abs(before))) <= 2.0 * floor
  {
    ShrinksDistance(k, before, exact);
    AbsOfScaled(k, before);
    assert Product(k, Abs(before)) == Abs(Product(k, before));
    hide Product;
  }

  lemma ShrinksDistance(k: real, x: real, y: real)
    requires 0.0 < k <= 0.9
    ensures Abs(Product(k, x) - Product(k, y)) <= Abs(x - y)
  {
    ScaledDifference(k, x, y);
    ShrinksSize(k, x - y);
    hide Product;
  }

  lemma ScaledDifference(k: real, x: real, y: real)
    ensures Product(k, x - y) == Product(k, x) - Product(k, y)
  {
  }

  lemma ShrinksSize(k: real, x: real)
    requires 0.0 < k <= 0.9
    ensures Abs(Product(k, x)) <= Abs(x)
  {
    if x < 0.0 {
      NonNegativeProduct(k, -x);
      NonNegativeProduct(1.0 - k, -x);
    } else {
      NonNegativeProduct(k, x);
      NonNegativeProduct(1.0 - k, x);
    }
  }

  /** Without room for the floor the loop need not converge: a pure feedforward below one
      torque step of a +-4095 Nm drive truncates to -1 Nm at every scale, over a 0.5 Nm cap.
      The writer then fails closed. */
  lemma BoundedModeCanFail(cfg: MotorConfig, c: Command, s: State)
    requires cfg.cap == 0.5 && cfg.ranges.Ordered() && cfg.ranges.torque == Range(-4095.0, 4095.0)
    requires SetpointInRange(cfg, c) && PolicyEnvelope(cfg, c)
    requires c.kp == 0.0 && c.kd == 0.0 && c.feedforward == 0.25
    ensures PolicyWords(cfg, true, c, s, true) == WireOutcome(Err(TorqueCap), true)
  {
    hide EncodeCommand, WireTorque;
    ScaledByOne(c);
    TruncatesToMinusOne(cfg, c, s, 1.0);
    StuckAtMinusOne(cfg, c, s, 1.0, MAX_ATTEMPTS);
  }

  lemma TruncatesToMinusOne(cfg: MotorConfig, c: Command, s: State, k: real)
    requires cfg.ranges.Ordered() && cfg.ranges.torque == Range(-4095.0, 4095.0)
    requires SetpointInRange(cfg, c) && 0.0 < k <= 1.0
    requires c.kp == 0.0 && c.kd == 0.0 && c.feedforward == 0.25
    ensures EncodeCommand(Scaled(c, k), cfg.ranges).Ok?
    ensures WireTorque(cfg, EncodeCommand(Scaled(c, k), cfg.ranges).value, s) == -1.0
  {
    EncodeAccepts(Scaled(c, k), cfg.ranges);
    var t := 0.25 * k;
    EncodeIsLargestBelow(t, cfg.ranges.torque, LEVELS12, 2047);
    EncodeIsLargestBelow(t, cfg.ranges.torque, LEVELS12, 2048);
    assert Decode(2047, cfg.ranges.torque, LEVELS12) == -1.0 && Decode(2048, cfg.ranges.torque, LEVELS12) == 1.0;
    ZeroWord(KP_RANGE);
    ZeroWord(KD_RANGE);
    assert Decode(0, KP_RANGE, LEVELS12) == 0.0 && Decode(0, KD_RANGE, LEVELS12) == 0.0;
    hide Encode, Decode;
    assert Scaled(c, k).kp == 0.0 && Scaled(c, k).kd == 0.0 && Scaled(c, k).feedforward == t;
  }

  lemma {:induction false} StuckAtMinusOne(cfg: MotorConfig, c: Command, s: State, scale: real, attempts: nat)
    requires cfg.cap == 0.5 && cfg.ranges.Ordered() && cfg.ranges.torque == Range(-4095.0, 4095.0)
    requires SetpointInRange(cfg, c) && 0.0 < scale <= 1.0
    requires c.kp == 0.0 && c.kd == 0.0 && c.feedforward == 0.25
    ensures Shrink(cfg, c, s, scale, attempts).Ok?
    ensures WireTorque(cfg, Shrink(cfg, c, s, scale, attempts).value.words, s) == -1.0
    decreases attempts
  {
    hide EncodeCommand, WireTorque, Reduced;
    TruncatesToMinusOne(cfg, c, s, scale);
    if attempts > 0 {
      var w := EncodeCommand(Scaled(c, scale), cfg.ranges).value;
      ReducedByTenth(cfg, w, s, scale);
      StuckAtMinusOne(cfg, c, s, Reduced(cfg, w, s, scale), attempts - 1);
    }
  }
}
