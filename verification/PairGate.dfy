/** The fail-closed commissioning gates for a differential motor pair, against a writer that
    may raise at any call
    (src/open_sprite_runtime/ankle_pair_commissioning.py:188-342, 345-554, 589-873). The three
    gates share everything but what one cycle sends. Clocks decide only how often loops turn,
    so the numbers of turns are arbitrary. */
module PairGate {
  import opened Prelude
  import opened MitCodec
  import opened PairTrace
  import opened NativeMotor

  const PAIR: nat := 2

  /** A decoded reply. */
  datatype Feedback = Feedback(status: int, position: real, velocity: real, torque: real) {
    function Said(): PairTrace.Said { PairTrace.Said(position, velocity, torque) }
  }

  datatype Mode = ZeroTorque | JointPd | PitchDirection

  datatype Limits = Limits(
    kp: real, kd: real, jointTorque: real, motorTorque: real, motorVelocity: real, drift: real,
    jointError: real, margin: real, duration: real, rate: real)

  /** What the trace is judged by; the direction gate watches the pose instead of the drift. */
  function GuardsOf(limits: Limits, mode: Mode): Guards {
    Guards(limits.margin, limits.motorTorque, limits.motorVelocity, if mode.PitchDirection? then None else Some(limits.drift))
  }

  /** The differential mechanism; its formulas are not part of this model. */
  datatype PairMap = PairMap(
    toJoint: (real, real) -> (real, real), toJointVelocity: (real, real) -> (real, real),
    toDrive: (real, real) -> (real, real), toDriveTorque: (real, real) -> (real, real))

  predicate Endpoints(eps: seq<Endpoint>) {
    |eps| == PAIR && forall i :: 0 <= i < PAIR ==> eps[i].ranges.Ordered()
  }

  // ---- single calls --------------------------------------------------------

  /** An echo written with `send_command`; encoding or writing may raise. */
  method SendEcho(eps: seq<Endpoint>, i: nat, position: real) returns (raised: bool, ghost sent: seq<Event>)
    requires Endpoints(eps) && i < PAIR
    ensures |sent| <= 1
    ensures sent != [] ==> EchoOk(eps, sent[0]) && sent[0].motor == i && Carries(eps[i].ranges, sent[0].data, position)
    ensures !raised <==> sent != [] && sent[0].written
    ensures !raised ==> EchoAccepted(eps[i].ranges, position)
                        && sent == [Echo(i, true, EchoBytes(eps[i], position))]
  {
    hide PureTorque, Carries, ZeroGainPayload;
    var data := PythonZeroGain(eps[i].ranges, position);
    if data.Err? {
      return true, [];
    }
    ZeroGainWritersAgree(eps[i].ranges, position);
    EchoIsPure(eps, i, position);
    var written: bool := *;
    sent := [Echo(i, written, data.value)];
    raised := !written;
  }

  /** One torque command of the pair. */
  method SendTorque(eps: seq<Endpoint>, limits: Limits, i: nat, request: real, latest: Feedback)
    returns (raised: bool, ghost sent: seq<Event>)
    requires Endpoints(eps) && i < PAIR
    ensures |sent| <= 1
    ensures sent != [] ==> TorqueOk(eps, limits.motorTorque, sent[0]) && sent[0].motor == i && sent[0].request == request
                           && Carries(eps[i].ranges, sent[0].data, latest.position) && eps[i].soft.Contains(latest.position)
    ensures !raised <==> sent != [] && sent[0].written
  {
    sent := [];
    var envelope := MakeEnvelope(eps[i].soft, limits.motorVelocity, limits.motorTorque, limits.motorTorque);
    if envelope.Err? {
      return true, sent;
    }
    var s := State(latest.position, latest.velocity);
    var data := PythonEncode(eps[i].ranges, Command(latest.position, 0.0, 0.0, 0.0, request), s, envelope.value);
    if data.Err? {
      return true, sent;
    }
    EncodedIsPure(eps[i].ranges, latest.position, request, s, envelope.value);
    hide PureTorque, PythonEncode, Carries;
    var written: bool := *;
    sent := [TorqueFrame(i, written, data.value, request)];
    raised := !written;
  }

  /** `_receive`: a decoded reply of this motor, or a raise (watchdog, socket, decoder). */
  method Receive(eps: seq<Endpoint>, i: nat) returns (reply: Option<Feedback>, ghost heard: seq<Event>)
    requires Endpoints(eps) && i < PAIR
    ensures heard == if reply.Some? then [Heard(i, reply.value.status, reply.value.Said())] else []
    ensures reply.Some? ==> Reportable(eps[i], reply.value.position)
    ensures reply.Some? ==> eps[i].ranges.velocity.Contains(reply.value.velocity)
                            && eps[i].ranges.torque.Contains(reply.value.torque)
  {
    var data: seq<Byte> := *;
    var timedOut: bool := *;
    if timedOut || |data| != 8 {
      return None, [];
    }
    hide DecodeReply;
    var r := DecodeReply(data, eps[i].ranges);
    ReplyInRange(data, eps[i].ranges);
    DecodedIsReportable(eps[i], data);
    reply := Some(Feedback(r.status, r.position, r.velocity, r.torque));
    heard := [Heard(i, r.status, reply.value.Said())];
  }

  lemma DecodedIsReportable(ep: Endpoint, data: seq<Byte>)
    requires |data| == 8
    ensures Reportable(ep, DecodeReply(data, ep.ranges).position)
  {
    TwoBytesBack(data[1], data[2]);
    var d: seq<int> := data;
    var raw := WideField(d[1], d[2]);
    assert DecodeReply(data, ep.ranges).position == Decode(raw, ep.ranges.position, LEVELS16);
    hide Decode, WideField;
  }

  // ---- probing -------------------------------------------------------------

  lemma ProbesNext(eps: seq<Endpoint>, events: seq<Event>, more: seq<Event>)
    requires Probes(eps, events) && forall k :: 0 <= k < |more| ==> ProbeEvent(eps, more[k])
    ensures Probes(eps, events + more)
  {
  }

  /** One echo and its reply, which must say disabled and, in the first round, lie within the
      soft limits with margin. */
  method ProbeMotor(eps: seq<Endpoint>, i: nat, position: real, margin: real, first: bool, ghost before: seq<Event>)
    returns (reply: Option<Feedback>, ghost events: seq<Event>)
    requires Endpoints(eps) && i < PAIR && Probes(eps, before)
    ensures Probes(eps, events)
    ensures reply.Some? ==>
              && EchoAccepted(eps[i].ranges, position) && Reportable(eps[i], reply.value.position)
              && events == before + [Echo(i, true, EchoBytes(eps[i], position)), Heard(i, DISABLED, reply.value.Said())]
              && (first ==> Inside(eps[i], margin, reply.value.position))
  {
    hide EchoOk, Reportable, Probes, EchoBytes, PythonZeroGain;
    ghost var sent, heard;
    var raised;
    raised, sent := SendEcho(eps, i, position);
    events := before + sent;
    ProbesNext(eps, before, sent);
    if raised {
      return None, events;
    }
    reply, heard := Receive(eps, i);
    if reply.None? {
      return;
    }
    ProbesNext(eps, events, heard);
    events := events + heard;
    if reply.value.status != DISABLED {
      return None, events;
    }
    if first && !(eps[i].soft.low + margin <= reply.value.position <= eps[i].soft.high - margin) {
      return None, events;
    }
    assert events == before + (sent + heard);
  }

  /** The answers of a probing round so far. */
  ghost predicate Answered(eps: seq<Endpoint>, echoed: seq<real>, heard: seq<Said>, upTo: nat) {
    && AllOrdered(eps) && upTo <= |eps| && |heard| == upTo <= |echoed|
    && forall m :: 0 <= m < upTo ==> EchoAccepted(eps[m].ranges, echoed[m]) && Reportable(eps[m], heard[m].position)
  }

  /** First round: every motor must answer disabled and with margin. `initial` keeps what was
      measured even when a later call raises. */
  method ProbeOnce(eps: seq<Endpoint>, margin: real)
    returns (raised: bool, initial: map<nat, real>, latest: map<nat, Feedback>, ghost first: seq<Said>, ghost events: seq<Event>)
    requires Endpoints(eps)
    ensures Probes(eps, events)
    ensures !raised ==> 0 in initial && 1 in initial && 0 in latest && 1 in latest
    ensures !raised ==>
              && |first| == PAIR && initial[0] == first[0].position && initial[1] == first[1].position
              && Answered(eps, Zeros(PAIR), first, PAIR) && events == Round(eps, Zeros(PAIR), first, PAIR)
              && Inside(eps[0], margin, initial[0]) && Inside(eps[1], margin, initial[1])
  {
    hide Probes, Reportable, PythonZeroGain, EchoBytes, Inside;
    raised, initial, latest, events := false, map[], map[], [];
    assert Probes(eps, events) by { ProbesNothing(eps); }
    first := [];
    for i := 0 to PAIR
      invariant Probes(eps, events) && Answered(eps, Zeros(PAIR), first, i) && events == Round(eps, Zeros(PAIR), first, i)
      invariant forall m :: 0 <= m < i ==> m in initial && m in latest && initial[m] == first[m].position && Inside(eps[m], margin, initial[m])
    {
      var reply;
      reply, events := ProbeMotor(eps, i, 0.0, margin, true, events);
      if reply.None? {
        raised := true;
        return;
      }
      initial := initial[i := reply.value.position];
      latest := latest[i := reply.value];
      RoundMore(eps, Zeros(PAIR), first, reply.value.Said(), i);
      first := first + [reply.value.Said()];
    }
  }

  /** Second round: every motor is asked again where it said it was, and must answer disabled. */
  method ProbeAgain(eps: seq<Endpoint>, margin: real, initial: map<nat, real>, ghost before: seq<Event>)
    returns (raised: bool, latest: map<nat, Feedback>, ghost events: seq<Event>)
    requires Endpoints(eps) && Probes(eps, before) && 0 in initial && 1 in initial
    ensures Probes(eps, events)
    ensures !raised ==> 0 in latest && 1 in latest
    ensures !raised ==>
              var first, second := [initial[0], initial[1]], [latest[0].Said(), latest[1].Said()];
              Answered(eps, first, second, PAIR) && events == before + Round(eps, first, second, PAIR)
  {
    hide Probes, Reportable, PythonZeroGain, EchoBytes;
    raised, latest, events := false, map[], before;
    ghost var first: seq<real>, second: seq<Said> := [initial[0], initial[1]], [];
    assert before + Round(eps, first, second, 0) == before;
    for i := 0 to PAIR
      invariant Probes(eps, events) && Answered(eps, first, second, i) && events == before + Round(eps, first, second, i)
      invariant forall m :: 0 <= m < i ==> m in latest && latest[m].Said() == second[m]
    {
      var reply;
      reply, events := ProbeMotor(eps, i, initial[i], margin, false, events);
      if reply.None? {
        raised := true;
        return;
      }
      latest := latest[i := reply.value];
      RoundStep(eps, first, second, reply.value.Said(), i, before);
      second := second + [reply.value.Said()];
    }
    assert second == [latest[0].Said(), latest[1].Said()];
  }

  /** Both probing rounds. On success `initial` holds the first answers and `latest` the second
      ones. */
  method Probe(eps: seq<Endpoint>, margin: real, mode: Mode, pair: PairMap)
    returns (raised: bool, initial: map<nat, real>, latest: map<nat, Feedback>, ghost first: seq<Said>, ghost events: seq<Event>)
    requires Endpoints(eps)
    ensures Probes(eps, events)
    ensures !raised ==> 0 in initial && 1 in initial && 0 in latest && 1 in latest
    ensures !raised ==> |first| == PAIR && initial[0] == first[0].position && initial[1] == first[1].position
                        && ProbedAs(eps, events, margin, first, [latest[0].Said(), latest[1].Said()])
    ensures !raised && mode.PitchDirection? ==>
              TargetFits(eps, pair, initial[0], initial[1], -1.0) && TargetFits(eps, pair, initial[0], initial[1], 1.0)
  {
    hide Probes, Answered, Inside, TargetFits, ProbedAs;
    raised, initial, latest, first, events := ProbeOnce(eps, margin);
    if raised {
      return;
    }
    if mode.PitchDirection? {
      var fits := TargetsFit(eps, pair, initial[0], initial[1]);
      if !fits {
        raised := true;
        return;
      }
    }
    ghost var one := events;
    raised, latest, events := ProbeAgain(eps, margin, initial, events);
    if !raised {
      assert Positions(first) == [initial[0], initial[1]];
      BothAreRounds(eps, margin, one, events, first, [latest[0].Said(), latest[1].Said()]);
    }
  }

  lemma RoundStep(eps: seq<Endpoint>, echoed: seq<real>, heard: seq<Said>, x: Said, i: nat, one: seq<Event>)
    requires Endpoints(eps) && i < PAIR && |heard| == i && i < |echoed|
    ensures one + Round(eps, echoed, heard, i) + [Echo(i, true, EchoBytes(eps[i], echoed[i])), Heard(i, DISABLED, x)]
            == one + Round(eps, echoed, heard + [x], i + 1)
  {
    RoundMore(eps, echoed, heard, x, i);
    hide EchoBytes;
  }

  lemma BothAreRounds(eps: seq<Endpoint>, margin: real, one: seq<Event>, events: seq<Event>, first: seq<Said>, second: seq<Said>)
    requires Endpoints(eps) && Answered(eps, Zeros(PAIR), first, PAIR) && Answered(eps, Positions(first), second, PAIR)
    requires one == Round(eps, Zeros(PAIR), first, PAIR) && events == one + Round(eps, Positions(first), second, PAIR)
    requires Inside(eps[0], margin, first[0].position) && Inside(eps[1], margin, first[1].position)
    ensures ProbedAs(eps, events, margin, first, second)
  {
    hide Round, PythonZeroGain, Reportable, Inside;
  }

  lemma ProbesNothing(eps: seq<Endpoint>)
    ensures Probes(eps, [])
  {
  }

  const EXCURSION: real := 0.03

  /** The direction gate's extra test: both pitch extremes keep soft-limit margin. */
  method TargetsFit(eps: seq<Endpoint>, pair: PairMap, a: real, b: real) returns (ok: bool)
    requires Endpoints(eps)
    ensures ok <==> forall sign :: sign == -1.0 || sign == 1.0 ==> TargetFits(eps, pair, a, b, sign)
  {
    var low := TargetFits(eps, pair, a, b, -1.0);
    var high := TargetFits(eps, pair, a, b, 1.0);
    return low && high;
  }

  predicate TargetFits(eps: seq<Endpoint>, pair: PairMap, a: real, b: real, sign: real)
    requires |eps| == PAIR
  {
    var joint := pair.toJoint(a, b);
    var drive := pair.toDrive(joint.0 + sign * EXCURSION, joint.1);
    && eps[0].soft.low + 0.05 <= drive.0 <= eps[0].soft.high - 0.05
    && eps[1].soft.low + 0.05 <= drive.1 <= eps[1].soft.high - 0.05
  }

  // ---- enabling ------------------------------------------------------------

  /** `send_enable` for both motors; the writer counts the calls it did not raise on. */
  method EnablePair() returns (raised: bool, attempts: seq<nat>, ghost events: seq<Event>)
    ensures Enables(events, PAIR) && (!raised ==> Enabled(events, PAIR))
    ensures |attempts| == PAIR && forall m :: 0 <= m < PAIR ==> attempts[m] == if Enable(m, true) in events then 1 else 0
  {
    events, attempts := [], [0, 0];
    for i := 0 to PAIR
      invariant |events| == i && forall k :: 0 <= k < i ==> events[k] == Enable(k, true)
      invariant |attempts| == PAIR && forall m :: 0 <= m < PAIR ==> attempts[m] == if m < i then 1 else 0
    {
      var written: bool := *;
      events := events + [Enable(i, written)];
      if !written {
        return true, attempts, events;
      }
      attempts := attempts[i := attempts[i] + 1];
    }
    raised := false;
  }

  // ---- what one cycle wants to send ----------------------------------------

  /** The joint law with its torque clamp. */
  function JointTorque(limits: Limits, target: real, q: real, v: real): real {
    var raw := Product(limits.kp, target - q) - Product(limits.kd, v);
    Max(-limits.jointTorque, Min(limits.jointTorque, raw))
  }

  /** The joint torque is the point of its limits nearest to stiffness times the way to the target
      less damping times the velocity. */
  lemma JointTorqueIsNearest(limits: Limits, target: real, q: real, v: real, y: real)
    requires limits.jointTorque >= 0.0 && Abs(y) <= limits.jointTorque
    ensures var wanted := Product(limits.kp, target - q) - Product(limits.kd, v);
            var t := JointTorque(limits, target, q, v);
            Abs(t) <= limits.jointTorque && Abs(wanted - t) <= Abs(wanted - y)
  {
    hide Product;
  }

  /** At the target it only brakes, and at rest it only pulls towards the target. */
  lemma JointTorqueBrakesAndPulls(limits: Limits, target: real, q: real, v: real)
    requires limits.jointTorque >= 0.0 && limits.kp >= 0.0 && limits.kd >= 0.0
    ensures Product(JointTorque(limits, target, target, v), v) <= 0.0
    ensures Product(JointTorque(limits, target, q, 0.0), target - q) >= 0.0
  {
    var a, b := JointTorque(limits, target, target, v), JointTorque(limits, target, q, 0.0);
    if v >= 0.0 {
      NonNegativeProduct(limits.kd, v);
      assert a <= 0.0;
      NonNegativeProduct(-a, v);
    } else {
      NonNegativeProduct(limits.kd, -v);
      assert a >= 0.0;
      NonNegativeProduct(a, -v);
    }
    if target >= q {
      NonNegativeProduct(limits.kp, target - q);
      assert b >= 0.0;
      NonNegativeProduct(b, target - q);
    } else {
      NonNegativeProduct(limits.kp, q - target);
      assert b <= 0.0;
      NonNegativeProduct(-b, q - target);
    }
  }

  /** The clamp bounds the joint torque whatever the pose. */
  lemma JointTorqueBound(limits: Limits, target: real, q: real, v: real)
    ensures limits.jointTorque > 0.0 ==> Abs(JointTorque(limits, target, q, v)) <= limits.jointTorque
  {
  }

  /** Motor torques of a pair of joint targets, unless the mapped torque exceeds the cap. */
  method PairTorques(limits: Limits, pair: PairMap, target: (real, real), q: (real, real), v: (real, real))
    returns (torque: Option<(real, real)>)
    ensures var mapped := pair.toDriveTorque(JointTorque(limits, target.0, q.0, v.0), JointTorque(limits, target.1, q.1, v.1));
            torque == if Abs(mapped.0) <= limits.motorTorque && Abs(mapped.1) <= limits.motorTorque then Some(mapped) else None
  {
    var mapped := pair.toDriveTorque(JointTorque(limits, target.0, q.0, v.0), JointTorque(limits, target.1, q.1, v.1));
    if Abs(mapped.0) > limits.motorTorque || Abs(mapped.1) > limits.motorTorque {
      return None;
    }
    return Some(mapped);
  }

  const DISPLACEMENT: real := 0.08

  /** The trapezoid of the direction gate: out, hold, back, to both sides or to one. */
  function PitchScale(elapsed: real, slow: bool): real {
    if slow then
      if elapsed < 0.5 then 0.0
      else if elapsed < 2.0 then -(elapsed - 0.5) / 1.5
      else if elapsed < 3.0 then -1.0
      else if elapsed < 4.5 then -1.0 + (elapsed - 3.0) / 1.5
      else 0.0
    else
      if elapsed < 0.5 then 0.0
      else if elapsed < 1.0 then (elapsed - 0.5) / 0.5
      else if elapsed < 1.5 then 1.0
      else if elapsed < 2.0 then 1.0 - (elapsed - 1.5) / 0.5
      else if elapsed < 2.5 then 0.0
      else if elapsed < 3.0 then -(elapsed - 2.5) / 0.5
      else if elapsed < 3.5 then -1.0
      else if elapsed < 4.0 then -1.0 + (elapsed - 3.5) / 0.5
      else 0.0
  }

  /** The requested excursion never leaves the range whose ends were checked, moves at most
      two scales per second, and the one-sided profile never goes positive. */
  lemma PitchScaleLaw(a: real, b: real, slow: bool)
    requires a <= b
    ensures -1.0 <= PitchScale(a, slow) <= 1.0
    ensures slow ==> PitchScale(a, slow) <= 0.0
    ensures Abs(PitchScale(b, slow) - PitchScale(a, slow)) <= if slow then (b - a) / 1.5 else 2.0 * (b - a)
  {
  }

  /** What the gate measured at its start, and the pitch response so far. */
  datatype Reference = Reference(joint: (real, real), peak: real, trough: real)

  /** The joint target of a cycle: the pose measured at the start, moved in pitch by the profile. */
  function CycleTarget(mode: Mode, reference: Reference, elapsed: real, slow: bool): (real, real) {
    if mode.PitchDirection? then (reference.joint.0 + PitchScale(elapsed, slow) * EXCURSION, reference.joint.1)
    else reference.joint
  }

  /** Where the target rests: the two-sided tier holds it 0.03 rad up from 1 to 1.5 s and 0.03 rad
      down from 3 to 3.5 s, the one-sided tier 0.03 rad down from 2 to 3 s, and each at the start
      before, after and, in the first, in between. With the greatest slopes of the profile that
      leaves it no other way from one to the next than straight. */
  lemma TargetRests(reference: Reference, t: real)
    ensures var up := CycleTarget(PitchDirection, reference, t, false).0 - reference.joint.0;
            && (t <= 0.5 || 2.0 <= t <= 2.5 || 4.0 <= t ==> up == 0.0)
            && (1.0 <= t <= 1.5 ==> up == 0.03) && (3.0 <= t <= 3.5 ==> up == -0.03)
    ensures var up := CycleTarget(PitchDirection, reference, t, true).0 - reference.joint.0;
            (t <= 0.5 || 4.5 <= t ==> up == 0.0) && (2.0 <= t <= 3.0 ==> up == -0.03)
    ensures CycleTarget(JointPd, reference, t, false) == CycleTarget(JointPd, reference, t, true) == reference.joint
  {
  }

  /** The guards on the measured pose before a cycle sends anything. */
  predicate PoseInLimits(mode: Mode, limits: Limits, reference: Reference, q: (real, real), v: (real, real)) {
    if mode.JointPd? then Abs(reference.joint.0 - q.0) <= limits.jointError && Abs(reference.joint.1 - q.1) <= limits.jointError
    else
      && Abs(q.0 - reference.joint.0) <= DISPLACEMENT && Abs(q.1 - reference.joint.1) <= DISPLACEMENT
      && Abs(v.0) <= limits.motorVelocity && Abs(v.1) <= limits.motorVelocity
  }

  /** The torque requests of one cycle; None raises. They are the mapped joint torques towards a
      target that stays within the checked excursion of the starting pose, on one side of it in
      the one-sided tier; each joint torque is within its limit, and each request within the
      motor's. */
  method CycleTorques(mode: Mode, limits: Limits, pair: PairMap, slow: bool, reference: Reference,
                      latest: (Feedback, Feedback), elapsed: real)
    returns (torque: Option<(real, real)>, next: Reference)
    requires !mode.ZeroTorque?
    ensures var q := pair.toJoint(latest.0.position, latest.1.position);
            var v := pair.toJointVelocity(latest.0.velocity, latest.1.velocity);
            var target := CycleTarget(mode, reference, elapsed, slow);
            var a, b := JointTorque(limits, target.0, q.0, v.0), JointTorque(limits, target.1, q.1, v.1);
            var mapped := pair.toDriveTorque(a, b);
            && (torque.Some? <==> PoseInLimits(mode, limits, reference, q, v)
                                  && Abs(mapped.0) <= limits.motorTorque && Abs(mapped.1) <= limits.motorTorque)
            && (torque.Some? ==> torque.value == mapped)
            && (limits.jointTorque > 0.0 ==> Abs(a) <= limits.jointTorque && Abs(b) <= limits.jointTorque)
            && Abs(target.0 - reference.joint.0) <= 0.03 && target.1 == reference.joint.1
            && (slow ==> target.0 <= reference.joint.0)
            && next == if mode.PitchDirection?
                       then Reference(reference.joint, Max(reference.peak, q.0 - reference.joint.0),
                                      Min(reference.trough, q.0 - reference.joint.0))
                       else reference
  {
    hide PitchScale, Product;
    next := reference;
    var q := pair.toJoint(latest.0.position, latest.1.position);
    var v := pair.toJointVelocity(latest.0.velocity, latest.1.velocity);
    var target := reference.joint;
    PitchScaleLaw(elapsed, elapsed, slow);
    if mode.JointPd? {
      JointTorqueBound(limits, target.0, q.0, v.0);
      JointTorqueBound(limits, target.1, q.1, v.1);
      if Abs(target.0 - q.0) > limits.jointError || Abs(target.1 - q.1) > limits.jointError {
        return None, next;
      }
    } else {
      var response := q.0 - reference.joint.0;
      next := Reference(reference.joint, Max(reference.peak, response), Min(reference.trough, response));
      target := (reference.joint.0 + PitchScale(elapsed, slow) * EXCURSION, reference.joint.1);
      JointTorqueBound(limits, target.0, q.0, v.0);
      JointTorqueBound(limits, target.1, q.1, v.1);
      if Abs(response) > DISPLACEMENT || Abs(q.1 - reference.joint.1) > DISPLACEMENT
         || Abs(v.0) > limits.motorVelocity || Abs(v.1) > limits.motorVelocity {
        return None, next;
      }
    }
    torque := PairTorques(limits, pair, target, q, v);
  }

  /** The target never jumps: it moves by at most two excursions per second. */
  lemma TargetIsSlow(mode: Mode, reference: Reference, slow: bool, a: real, b: real)
    requires a <= b
    ensures Abs(CycleTarget(mode, reference, b, slow).0 - CycleTarget(mode, reference, a, slow).0) <= 0.06 * (b - a)
  {
    PitchScaleLaw(a, b, slow);
    hide PitchScale;
  }

  // ---- the powered cycle ---------------------------------------------------

  datatype Counts = Counts(commands: seq<nat>, answers: seq<nat>)

  predicate Tallies(c: Counts, events: seq<Event>) {
    && |c.commands| == |c.answers| == PAIR
    && forall m :: 0 <= m < PAIR ==> c.commands[m] == Commands(events, m) && c.answers[m] == Answers(events, m)
  }

  lemma TalliesNext(c: Counts, events: seq<Event>, e: Event)
    requires Tallies(c, events) && e.motor < PAIR
    ensures e.Heard? ==> Tallies(Counted(c, e.motor, false), events + [e])
    ensures (e.Echo? || e.TorqueFrame?) && e.written ==> Tallies(Counted(c, e.motor, true), events + [e])
    ensures (e.Echo? || e.TorqueFrame?) && !e.written ==> Tallies(c, events + [e])
  {
    hide Commands, Answers;
    forall m | 0 <= m < PAIR
      ensures Answers(events + [e], m) == Answers(events, m) + if e.Heard? && e.motor == m then 1 else 0
      ensures Commands(events + [e], m)
              == Commands(events, m) + if (e.Echo? || e.TorqueFrame?) && e.motor == m && e.written then 1 else 0
    {
      OneMore(events, e, m);
    }
  }

  /** What is remembered of a motor is the last thing it said. */
  predicate Knows(history: seq<Event>, i: nat, f: Feedback) {
    var l := LastSaid(history, i); l.Some? && l.value.said == f.Said()
  }

  // ---- what the frames of the powered interval ask for ---------------------

  function SaidBy(history: seq<Event>, m: nat): Said {
    var l := LastSaid(history, m);
    if l.Some? then l.value.said else Said(0.0, 0.0, 0.0)
  }

  /** The joint pose the motors last reported. */
  function Pose(pair: PairMap, history: seq<Event>): (real, real) {
    pair.toJoint(SaidBy(history, 0).position, SaidBy(history, 1).position)
  }

  /** The joint pose at which the probing found the motors. */
  function StartPose(pair: PairMap, probe: seq<Event>): (real, real) {
    pair.toJoint(FirstPosition(probe, 0), FirstPosition(probe, 1))
  }

  /** The motor torques of the joint law at what the motors last reported. */
  function LawTorques(mode: Mode, limits: Limits, pair: PairMap, slow: bool, start: (real, real), history: seq<Event>, elapsed: real)
    : (real, real)
  {
    var q := Pose(pair, history);
    var v := pair.toJointVelocity(SaidBy(history, 0).velocity, SaidBy(history, 1).velocity);
    var target := CycleTarget(mode, Reference(start, 0.0, 0.0), elapsed, slow);
    pair.toDriveTorque(JointTorque(limits, target.0, q.0, v.0), JointTorque(limits, target.1, q.1, v.1))
  }

  /** The pose of a cycle that may go on: near where the gate started, and slow in the direction
      gate. */
  predicate WithinReach(mode: Mode, limits: Limits, pair: PairMap, start: (real, real), history: seq<Event>) {
    var q := Pose(pair, history);
    var v := pair.toJointVelocity(SaidBy(history, 0).velocity, SaidBy(history, 1).velocity);
    && (mode.JointPd? ==> Abs(q.0 - start.0) <= limits.jointError && Abs(q.1 - start.1) <= limits.jointError)
    && (mode.PitchDirection? ==>
          && Abs(q.0 - start.0) <= 0.08 && Abs(q.1 - start.1) <= 0.08
          && Abs(v.0) <= limits.motorVelocity && Abs(v.1) <= limits.motorVelocity)
  }

  ghost predicate Lawful(mode: Mode, limits: Limits, pair: PairMap, slow: bool, start: (real, real), history: seq<Event>, e: Event)
    requires e.TorqueFrame?
  {
    WithinReach(mode, limits, pair, start, history) &&
    exists elapsed ::
      var t := LawTorques(mode, limits, pair, slow, start, history, elapsed);
      e.request == if e.motor == 0 then t.0 else t.1
  }

  /** A frame of the powered interval is an echo in the zero-torque gate; otherwise it asks for its
      motor's share of the joint law at what both motors reported when the cycle began, which is
      one frame and one reply earlier for the second motor, and that was a pose within reach. */
  ghost predicate AsksByLaw(mode: Mode, limits: Limits, pair: PairMap, slow: bool, probe: seq<Event>, events: seq<Event>, k: nat)
    requires k < |events|
  {
    var e := events[k];
    && (e.Echo? ==> mode.ZeroTorque?)
    && (e.TorqueFrame? ==>
          && !mode.ZeroTorque? && e.motor < PAIR && 2 * e.motor <= k
          && Lawful(mode, limits, pair, slow, StartPose(pair, probe), probe + events[..k - 2 * e.motor], e))
  }

  ghost predicate AllByLaw(mode: Mode, limits: Limits, pair: PairMap, slow: bool, probe: seq<Event>, events: seq<Event>) {
    forall k {:trigger AsksByLaw(mode, limits, pair, slow, probe, events, k)} ::
      0 <= k < |events| ==> AsksByLaw(mode, limits, pair, slow, probe, events, k)
  }

  /** What one motor's part of a cycle adds: a frame, and its reply if all went well. */
  predicate Appends(before: seq<Event>, events: seq<Event>, i: nat, request: Option<real>) {
    && |before| <= |events| <= |before| + 2 && events[..|before|] == before
    && (|events| > |before| ==>
          var e := events[|before|];
          && e.motor == i && (if request.None? then e.Echo? else e.TorqueFrame? && e.request == request.value))
    && (|events| == |before| + 2 ==> events[|before| + 1].Heard?)
  }

  /** Adding such a part keeps to the law. */
  lemma ByLawNext(mode: Mode, limits: Limits, pair: PairMap, slow: bool, probe: seq<Event>, before: seq<Event>, events: seq<Event>,
                  i: nat, request: Option<real>, elapsed: real)
    requires AllByLaw(mode, limits, pair, slow, probe, before) && Appends(before, events, i, request)
    requires i < PAIR && 2 * i <= |before| && (request.None? <==> mode.ZeroTorque?)
    requires request.Some? ==>
               WithinReach(mode, limits, pair, StartPose(pair, probe), probe + before[..|before| - 2 * i])
               && var t := LawTorques(mode, limits, pair, slow, StartPose(pair, probe), probe + before[..|before| - 2 * i], elapsed);
                  request.value == if i == 0 then t.0 else t.1
    ensures AllByLaw(mode, limits, pair, slow, probe, events)
  {
    hide LawTorques, WithinReach;
    forall k | 0 <= k < |events| ensures AsksByLaw(mode, limits, pair, slow, probe, events, k) {
      if k < |before| {
        assert AsksByLaw(mode, limits, pair, slow, probe, before, k);
        assert events[k] == before[k];
        if events[k].TorqueFrame? {
          assert events[..k - 2 * events[k].motor] == before[..k - 2 * events[k].motor];
        }
      } else if k == |before| && events[k].TorqueFrame? {
        assert events[..k - 2 * i] == before[..k - 2 * i];
      }
    }
  }

  /** The frame of one motor in one cycle. */
  method SendCycle(eps: seq<Endpoint>, limits: Limits, i: nat, request: Option<real>, latest: Feedback, ghost history: seq<Event>)
    returns (raised: bool, ghost sent: seq<Event>)
    requires Endpoints(eps) && i < PAIR && Knows(history, i, latest)
    ensures |sent| <= 1
    ensures sent != [] ==> sent[0].motor == i && FrameOk(eps, limits.motorTorque, history, sent[0])
                           && if request.None? then sent[0].Echo? else sent[0].TorqueFrame? && sent[0].request == request.value
    ensures !raised <==> sent != [] && sent[0].written
  {
    hide PureTorque, Carries, LastSaid;
    if request.None? {
      raised, sent := SendEcho(eps, i, latest.position);
    } else {
      raised, sent := SendTorque(eps, limits, i, request.value, latest);
    }
  }

  /** Send, receive, check: one motor of one cycle. */
  method CycleMotor(eps: seq<Endpoint>, limits: Limits, mode: Mode, i: nat, request: Option<real>, initial: real,
                    latest: Feedback, counts: Counts, ghost probe: seq<Event>, ghost before: seq<Event>)
    returns (raised: bool, reply: Feedback, tally: Counts, ghost events: seq<Event>)
    requires Endpoints(eps) && i < PAIR && Active(eps, GuardsOf(limits, mode), probe, before) && AllCalm(GuardsOf(limits, mode), probe, before)
    requires initial == FirstPosition(probe, i)
    requires Tallies(counts, before) && Knows(probe + before, i, latest)
    ensures Active(eps, GuardsOf(limits, mode), probe, events) && Tallies(tally, events)
    ensures !raised ==> AllCalm(GuardsOf(limits, mode), probe, events) && Knows(probe + events, i, reply)
    ensures !raised ==> forall m: nat, f :: m != i && Knows(probe + before, m, f) ==> Knows(probe + events, m, f)
    ensures Appends(before, events, i, request) && (!raised ==> |events| == |before| + 2)
  {
    hide FrameOk, Active, AllCalm, FirstPosition, Tallies, Counted, Reportable, Knows;
    reply, tally, events := latest, counts, before;
    ghost var sent, heard;
    raised, sent := SendCycle(eps, limits, i, request, latest, probe + before);
    if sent != [] {
      ActiveNext(eps, GuardsOf(limits, mode), probe, before, sent[0]);
      TalliesNext(counts, before, sent[0]);
      events := before + [sent[0]];
    }
    if raised {
      return;
    }
    tally := Counted(tally, i, true);
    var answer;
    answer, heard := Receive(eps, i);
    if answer.None? {
      raised := true;
      return;
    }
    ActiveNext(eps, GuardsOf(limits, mode), probe, events, heard[0]);
    TalliesNext(tally, events, heard[0]);
    KnowsAfter(probe, before, sent[0], heard[0], answer.value);
    events := events + [heard[0]];
    tally := Counted(tally, i, false);
    raised := !ReplyInLimits(limits, mode, answer.value, initial);
    reply := answer.value;
  }

  /** A frame and its reply change what the one motor last said. */
  lemma KnowsAfter(probe: seq<Event>, before: seq<Event>, sent: Event, heard: Event, f: Feedback)
    requires !sent.Heard? && heard.Heard? && heard.said == f.Said()
    ensures var events := before + [sent] + [heard];
            && Knows(probe + events, heard.motor, f)
            && forall m: nat, g :: m != heard.motor && Knows(probe + before, m, g) ==> Knows(probe + events, m, g)
  {
    hide LastSaid;
    assert probe + (before + [sent] + [heard]) == probe + before + [sent] + [heard];
    forall m: nat
      ensures LastSaid(probe + before + [sent] + [heard], m)
              == if m == heard.motor then Some(heard) else LastSaid(probe + before, m)
    {
      OneMore(probe + before, sent, m);
      OneMore(probe + before + [sent], heard, m);
    }
  }

  function Counted(c: Counts, i: nat, command: bool): Counts {
    if i >= |c.commands| || i >= |c.answers| then c
    else if command then c.(commands := c.commands[i := c.commands[i] + 1])
    else c.(answers := c.answers[i := c.answers[i] + 1])
  }

  /** The guards on a reply of the powered interval. */
  predicate ReplyInLimits(limits: Limits, mode: Mode, f: Feedback, initial: real) {
    && f.status == ENABLED
    && (!mode.PitchDirection? ==> Abs(f.position - initial) <= limits.drift)
    && Abs(f.velocity) <= limits.motorVelocity && Abs(f.torque) <= limits.motorTorque
  }

  /** The torques of a cycle are those of the law at what the trace says. */
  lemma CycleIsLawful(mode: Mode, limits: Limits, pair: PairMap, slow: bool, probe: seq<Event>, events: seq<Event>,
                      reference: Reference, latest: (Feedback, Feedback), elapsed: real)
    requires Knows(probe + events, 0, latest.0) && Knows(probe + events, 1, latest.1) && reference.joint == StartPose(pair, probe)
    ensures var q := pair.toJoint(latest.0.position, latest.1.position);
            var v := pair.toJointVelocity(latest.0.velocity, latest.1.velocity);
            var target := CycleTarget(mode, reference, elapsed, slow);
            LawTorques(mode, limits, pair, slow, StartPose(pair, probe), probe + events, elapsed)
            == pair.toDriveTorque(JointTorque(limits, target.0, q.0, v.0), JointTorque(limits, target.1, q.1, v.1))
    ensures Pose(pair, probe + events) == pair.toJoint(latest.0.position, latest.1.position)
    ensures var q := pair.toJoint(latest.0.position, latest.1.position);
            var v := pair.toJointVelocity(latest.0.velocity, latest.1.velocity);
            (!mode.ZeroTorque? && PoseInLimits(mode, limits, reference, q, v))
            ==> WithinReach(mode, limits, pair, StartPose(pair, probe), probe + events)
  {
    hide JointTorque, PitchScale, FirstPosition, LastSaid;
  }

  /** Some time in the powered interval the pitch was this far from where it started. */
  ghost predicate Responded(pair: PairMap, probe: seq<Event>, events: seq<Event>, x: real) {
    exists c :: 0 <= c <= |events| && Pose(pair, probe + events[..c]).0 - StartPose(pair, probe).0 == x
  }

  /** The extremes remembered of the pitch are extremes that were reported. */
  ghost predicate Witnessed(pair: PairMap, probe: seq<Event>, events: seq<Event>, reference: Reference) {
    && (reference.peak > 0.0 ==> Responded(pair, probe, events, reference.peak))
    && (reference.trough < 0.0 ==> Responded(pair, probe, events, reference.trough))
  }

  lemma WitnessedLater(pair: PairMap, probe: seq<Event>, before: seq<Event>, events: seq<Event>, reference: Reference)
    requires Witnessed(pair, probe, before, reference) && |before| <= |events| && events[..|before|] == before
    ensures Witnessed(pair, probe, events, reference)
  {
    hide Pose, StartPose;
    forall x | Responded(pair, probe, before, x) ensures Responded(pair, probe, events, x) {
      var c :| 0 <= c <= |before| && Pose(pair, probe + before[..c]).0 - StartPose(pair, probe).0 == x;
      assert events[..c] == before[..c];
    }
  }

  lemma WitnessedNow(pair: PairMap, probe: seq<Event>, events: seq<Event>, reference: Reference, next: Reference, x: real)
    requires Witnessed(pair, probe, events, reference) && x == Pose(pair, probe + events).0 - StartPose(pair, probe).0
    requires next == reference || next == Reference(reference.joint, Max(reference.peak, x), Min(reference.trough, x))
    ensures Witnessed(pair, probe, events, next)
  {
    hide Pose, StartPose;
    assert events[..|events|] == events;
    assert Responded(pair, probe, events, x);
    hide Responded;
  }

  /** The powered interval. */
  method Hold(eps: seq<Endpoint>, limits: Limits, mode: Mode, pair: PairMap, slow: bool,
              initial: (real, real), first: (Feedback, Feedback), ghost probe: seq<Event>)
    returns (raised: bool, counts: Counts, reference: Reference, ghost events: seq<Event>)
    requires Endpoints(eps) && Knows(probe, 0, first.0) && Knows(probe, 1, first.1)
    requires initial.0 == FirstPosition(probe, 0) && initial.1 == FirstPosition(probe, 1)
    ensures Active(eps, GuardsOf(limits, mode), probe, events) && Tallies(counts, events)
    ensures AllByLaw(mode, limits, pair, slow, probe, events) && Witnessed(pair, probe, events, reference)
  {
    hide Active, AllCalm, FirstPosition, Tallies, Commands, Answers, Knows, AllByLaw, Witnessed, LawTorques, Pose, JointTorque, CycleTarget;
    hide WithinReach, PoseInLimits;
    counts, events := Counts([0, 0], [0, 0]), [];
    HoldStart(eps, GuardsOf(limits, mode), probe);
    assert probe + [] == probe;
    reference := Reference(pair.toJoint(initial.0, initial.1), 0.0, 0.0);
    LawStart(mode, limits, pair, slow, probe, reference);
    raised := false;
    var latest := first;
    var cycles: int := *;
    while cycles > 0
      invariant !raised && Active(eps, GuardsOf(limits, mode), probe, events) && AllCalm(GuardsOf(limits, mode), probe, events)
      invariant Tallies(counts, events) && Knows(probe + events, 0, latest.0) && Knows(probe + events, 1, latest.1)
      invariant AllByLaw(mode, limits, pair, slow, probe, events)
      invariant reference.joint == StartPose(pair, probe) && Witnessed(pair, probe, events, reference)
    {
      cycles := cycles - 1;
      var request := (None, None);
      var elapsed: real := *;
      CycleIsLawful(mode, limits, pair, slow, probe, events, reference, latest, elapsed);
      if !mode.ZeroTorque? {
        var torque, next;
        torque, next := CycleTorques(mode, limits, pair, slow, reference, latest, elapsed);
        WitnessedNow(pair, probe, events, reference, next, Pose(pair, probe + events).0 - reference.joint.0);
        reference := next;
        if torque.None? {
          raised := true;
          return;
        }
        request := (Some(torque.value.0), Some(torque.value.1));
      }
      ghost var start := events;
      var a, b;
      raised, a, counts, events := CycleMotor(eps, limits, mode, 0, request.0, initial.0, latest.0, counts, probe, events);
      assert start[..|start|] == start;
      ByLawNext(mode, limits, pair, slow, probe, start, events, 0, request.0, elapsed);
      WitnessedLater(pair, probe, start, events, reference);
      if raised {
        return;
      }
      ghost var middle := events;
      raised, b, counts, events := CycleMotor(eps, limits, mode, 1, request.1, initial.1, latest.1, counts, probe, events);
      assert middle[..|middle| - 2] == start;
      ByLawNext(mode, limits, pair, slow, probe, middle, events, 1, request.1, elapsed);
      WitnessedLater(pair, probe, middle, events, reference);
      if raised {
        return;
      }
      latest := (a, b);
    }
  }

  lemma LawStart(mode: Mode, limits: Limits, pair: PairMap, slow: bool, probe: seq<Event>, reference: Reference)
    requires reference.peak == 0.0 && reference.trough == 0.0
    ensures AllByLaw(mode, limits, pair, slow, probe, []) && Witnessed(pair, probe, [], reference)
  {
  }

  lemma HoldStart(eps: seq<Endpoint>, g: Guards, probe: seq<Event>)
    ensures Active(eps, g, probe, []) && AllCalm(g, probe, []) && Tallies(Counts([0, 0], [0, 0]), []) && Enables([], PAIR)
  {
  }

  // ---- closing -------------------------------------------------------------

  /** Three rounds of `send_disable`, every raise swallowed. */
  method DisableRounds(eps: seq<Endpoint>) returns (failures: nat, attempts: seq<nat>, ghost events: seq<Event>)
    requires Endpoints(eps)
    ensures Closes(eps, events) && TriedThrice(events, PAIR)
    ensures Disabling(attempts, events) && forall m :: 0 <= m < PAIR ==> LastStatus(events, m).None?
  {
    hide DisableTries, Disables, LastStatus, Disabling, EchoOk;
    failures, attempts, events := 0, [0, 0], [];
    assert Disabling(attempts, events) by { DisablingStart(); }
    TriesStart();
    for round := 0 to 3
      invariant Closes(eps, events) && Disabling(attempts, events)
      invariant forall m: nat :: m < PAIR ==> DisableTries(events, m) == round && LastStatus(events, m).None?
    {
      for i := 0 to PAIR
        invariant Closes(eps, events) && Disabling(attempts, events)
        invariant forall m: nat :: m < PAIR ==>
          DisableTries(events, m) == round + (if m < i then 1 else 0) && LastStatus(events, m).None?
      {
        ghost var was := events;
        var written;
        written, attempts, events := TryDisable(eps, i, attempts, events);
        if !written {
          failures := failures + 1;
        }
      }
    }
  }

  lemma TriesStart()
    ensures forall m: nat :: DisableTries([], m) == 0 && LastStatus([], m).None?
  {
  }

  /** The writer's own count of disables that did not raise. */
  predicate Disabling(attempts: seq<nat>, events: seq<Event>) {
    |attempts| == PAIR && forall m :: 0 <= m < PAIR ==> attempts[m] == Disables(events, m)
  }

  lemma DisablingStart()
    ensures Disabling([0, 0], [])
  {
  }

  lemma DisablingNext(attempts: seq<nat>, events: seq<Event>, e: Event)
    requires Disabling(attempts, events) && e.motor < PAIR
    ensures Disabling(if e.Disable? && e.written then attempts[e.motor := attempts[e.motor] + 1] else attempts, events + [e])
  {
    hide Disables;
    forall m | 0 <= m < PAIR ensures Disables(events + [e], m) == Disables(events, m) + if e == Disable(m, true) then 1 else 0 {
      OneMore(events, e, m);
    }
  }

  method TryDisable(eps: seq<Endpoint>, i: nat, before: seq<nat>, ghost events: seq<Event>)
    returns (written: bool, attempts: seq<nat>, ghost after: seq<Event>)
    requires Endpoints(eps) && i < PAIR && Closes(eps, events) && Disabling(before, events)
    ensures after == events + [Disable(i, written)] && Closes(eps, after) && Disabling(attempts, after)
    ensures forall m: nat :: DisableTries(after, m) == DisableTries(events, m) + (if m == i then 1 else 0)
    ensures forall m: nat :: LastStatus(after, m) == LastStatus(events, m)
  {
    hide DisableTries, LastStatus, Disables, EchoOk;
    written := *;
    ghost var e := Disable(i, written);
    after := events + [e];
    DisablingNext(before, events, e);
    attempts := if written then before[i := before[i] + 1] else before;
    forall m: nat ensures DisableTries(after, m) == DisableTries(events, m) + (if m == i then 1 else 0)
                  ensures LastStatus(after, m) == LastStatus(events, m)
    {
      OneMore(events, e, m);
    }
  }

  /** What the verification loops keep. */
  ghost predicate Verifying(eps: seq<Endpoint>, attempts: seq<nat>, status: seq<Option<int>>, events: seq<Event>) {
    && Closes(eps, events) && TriedThrice(events, PAIR) && Disabling(attempts, events) && |status| == PAIR
    && forall m :: 0 <= m < PAIR ==> status[m] == LastStatus(events, m)
  }

  /** One turn of the verification loop of one motor: disable, echo, listen. */
  method VerifyOnce(eps: seq<Endpoint>, i: nat, position: real, attempts0: seq<nat>, status0: seq<Option<int>>, ghost before: seq<Event>)
    returns (attempts: seq<nat>, status: seq<Option<int>>, ghost events: seq<Event>)
    requires Endpoints(eps) && i < PAIR && Verifying(eps, attempts0, status0, before)
    ensures Verifying(eps, attempts, status, events) && |status| == |status0| == PAIR
    ensures forall m :: 0 <= m < PAIR && m != i ==> status[m] == status0[m]
  {
    hide DisableTries, LastStatus, EchoOk, Disables;
    status := status0;
    var written;
    written, attempts, events := TryDisable(eps, i, attempts0, before);
    if !written {
      return;
    }
    ghost var sent;
    var raised;
    raised, sent := SendEcho(eps, i, position);
    if sent != [] {
      VerifyingEcho(eps, attempts, status, events, sent[0]);
      events := events + [sent[0]];
    }
    if raised {
      return;
    }
    var reply;
    ghost var heard;
    reply, heard := Receive(eps, i);
    if reply.Some? {
      VerifyingReply(eps, attempts, status, events, heard[0]);
      events := events + [heard[0]];
      status := status[i := Some(reply.value.status)];
    }
  }

  lemma VerifyingEcho(eps: seq<Endpoint>, attempts: seq<nat>, status: seq<Option<int>>, events: seq<Event>, e: Event)
    requires Verifying(eps, attempts, status, events) && EchoOk(eps, e) && |eps| == PAIR
    ensures Verifying(eps, attempts, status, events + [e])
  {
    hide PureTorque, DisableTries, LastStatus, Disabling;
    DisablingNext(attempts, events, e);
    forall m: nat ensures DisableTries(events + [e], m) == DisableTries(events, m)
                  ensures LastStatus(events + [e], m) == LastStatus(events, m)
    {
      OneMore(events, e, m);
    }
  }

  lemma VerifyingReply(eps: seq<Endpoint>, attempts: seq<nat>, status: seq<Option<int>>, events: seq<Event>, e: Event)
    requires Verifying(eps, attempts, status, events) && HeardOk(eps, e) && |eps| == PAIR
    ensures Verifying(eps, attempts, status[e.motor := Some(e.status)], events + [e])
  {
    hide EchoOk, DisableTries, LastStatus, Disabling;
    DisablingNext(attempts, events, e);
    forall m: nat ensures DisableTries(events + [e], m) == DisableTries(events, m)
                  ensures LastStatus(events + [e], m) == if m == e.motor then Some(e.status) else LastStatus(events, m)
    {
      OneMore(events, e, m);
    }
  }

  /** The `finally` block: it cannot be left by a raising writer. */
  method Close(eps: seq<Endpoint>, initial: map<nat, real>)
    returns (failures: nat, attempts: seq<nat>, status: seq<Option<int>>, ghost events: seq<Event>)
    requires Endpoints(eps)
    ensures Verifying(eps, attempts, status, events)
    ensures failures == 0 ==> forall m :: 0 <= m < PAIR ==> status[m] == Some(DISABLED)
  {
    failures, attempts, events := DisableRounds(eps);
    status := [None, None];
    hide Verifying;
    assert Verifying(eps, attempts, status, events) by { VerifyingStart(eps, attempts, events); }
    for i := 0 to PAIR
      invariant Verifying(eps, attempts, status, events) && |status| == PAIR
      invariant failures == 0 ==> forall m :: 0 <= m < i ==> status[m] == Some(DISABLED)
    {
      ghost var settled := status[..i];
      var turns: int := *;
      while turns > 0 && status[i] != Some(DISABLED)
        invariant Verifying(eps, attempts, status, events) && |status| == PAIR && status[..i] == settled
      {
        turns := turns - 1;
        var position := if i in initial then initial[i] else 0.0;
        attempts, status, events := VerifyOnce(eps, i, position, attempts, status, events);
      }
      if status[i] != Some(DISABLED) {
        failures := failures + 1;
      }
      assert forall m :: 0 <= m < i ==> status[m] == settled[m];
    }
  }

  lemma VerifyingStart(eps: seq<Endpoint>, attempts: seq<nat>, events: seq<Event>)
    requires Closes(eps, events) && TriedThrice(events, PAIR) && Disabling(attempts, events)
    requires forall m :: 0 <= m < PAIR ==> LastStatus(events, m).None?
    ensures Verifying(eps, attempts, [None, None], events)
  {
    hide DisableTries, LastStatus, Disables, ClosingEvent;
  }

  // ---- the whole gate ------------------------------------------------------

  datatype Report = Report(
    mode: Mode, duration: real, rate: real, counts: Counts, enableAttempts: seq<nat>, disableAttempts: seq<nat>,
    finalStatus: seq<Option<int>>, errors: nat)
  {
    function MinimumCount(): int { (duration * rate * 0.95).Floor }

    /** `passed`; the response tests of the direction gate are among its errors. */
    predicate Passed() {
      && errors == 0
      && (forall m :: 0 <= m < |counts.commands| ==> counts.commands[m] >= MinimumCount())
      && (forall m :: 0 <= m < |counts.answers| ==> counts.answers[m] >= MinimumCount())
      && (forall m :: 0 <= m < |enableAttempts| ==> enableAttempts[m] == 1)
      && (forall m :: 0 <= m < |disableAttempts| ==> disableAttempts[m] >= 3)
      && (forall m :: 0 <= m < |finalStatus| ==> finalStatus[m] == Some(DISABLED))
    }
  }

  /** The report says what the events say. */
  predicate Reports(r: Report, run: GateRun) {
    && Tallies(r.counts, run.active) && Disabling(r.disableAttempts, run.closing)
    && |r.enableAttempts| == |r.finalStatus| == PAIR
    && (forall m :: 0 <= m < PAIR ==> r.enableAttempts[m] == if Enable(m, true) in run.enables then 1 else 0)
    && (forall m :: 0 <= m < PAIR ==> r.finalStatus[m] == LastStatus(run.closing, m))
  }

  const MINIMUM_RESPONSE: real := 0.002

  /** A pitch response that the direction gate asks for and did not see. */
  function MissingResponses(mode: Mode, slow: bool, reference: Reference): nat {
    if !mode.PitchDirection? then 0
    else (if !slow && reference.peak < MINIMUM_RESPONSE then 1 else 0)
         + (if reference.trough > -MINIMUM_RESPONSE then 1 else 0)
  }

  /** What the second probing round brought is what each motor last said. */
  lemma KnownFromProbe(eps: seq<Endpoint>, probe: seq<Event>, margin: real, first: seq<Said>, a: Feedback, b: Feedback)
    requires |eps| == PAIR && ProbedAs(eps, probe, margin, first, [a.Said(), b.Said()])
    ensures Knows(probe, 0, a) && Knows(probe, 1, b)
    ensures |first| == PAIR && FirstPosition(probe, 0) == first[0].position && FirstPosition(probe, 1) == first[1].position
  {
    var second := [a.Said(), b.Said()];
    assert |first| == PAIR;
    hide ProbedAs, RepliesOf, LastSaid;
    ProbedReplies(eps, probe, margin, first, second, 0);
    ProbedReplies(eps, probe, margin, first, second, 1);
    LastOfReplies(probe, 0);
    LastOfReplies(probe, 1);
  }

  /** The pitch went at least 2 mrad down, and in the two-sided tier as far up. */
  ghost predicate HasResponded(pair: PairMap, slow: bool, probe: seq<Event>, active: seq<Event>) {
    && (exists x :: x <= -0.002 && Responded(pair, probe, active, x))
    && (!slow ==> exists x :: x >= 0.002 && Responded(pair, probe, active, x))
  }

  /** The guarded part: probe, enable, hold. */
  method Power(eps: seq<Endpoint>, limits: Limits, mode: Mode, pair: PairMap, slow: bool)
    returns (errors: nat, initial: map<nat, real>, counts: Counts, enabled: seq<nat>, ghost run: GateRun)
    requires Endpoints(eps)
    ensures Probes(eps, run.probe) && Enables(run.enables, PAIR) && Active(eps, GuardsOf(limits, mode), run.probe, run.active)
    ensures run.enables != [] ==> Probed(eps, run.probe, limits.margin)
    ensures run.active != [] ==> Enabled(run.enables, PAIR)
    ensures Tallies(counts, run.active) && AllByLaw(mode, limits, pair, slow, run.probe, run.active)
    ensures errors == 0 && mode.PitchDirection? ==> HasResponded(pair, slow, run.probe, run.active)
    ensures |enabled| == PAIR && forall m :: 0 <= m < PAIR ==> enabled[m] == if Enable(m, true) in run.enables then 1 else 0
  {
    hide Probes, Active, AllCalm, Tallies, ProbedAs, TargetFits, Enables, Enabled, Knows, FirstPosition, AllByLaw, Witnessed, HasResponded;
    var raised, latest;
    ghost var probe, enables, active, answers;
    errors, counts, enabled := 1, Counts([0, 0], [0, 0]), [0, 0];
    raised, initial, latest, answers, probe := Probe(eps, limits.margin, mode, pair);
    HoldStart(eps, GuardsOf(limits, mode), probe);
    LawStart(mode, limits, pair, slow, probe, Reference((0.0, 0.0), 0.0, 0.0));
    run := GateRun(probe, [], [], []);
    if raised {
      return;
    }
    raised, enabled, enables := EnablePair();
    run := GateRun(probe, enables, [], []);
    if raised {
      return;
    }
    KnownFromProbe(eps, probe, limits.margin, answers, latest[0], latest[1]);
    var reference;
    raised, counts, reference, active :=
      Hold(eps, limits, mode, pair, slow, (initial[0], initial[1]), (latest[0], latest[1]), probe);
    run := GateRun(probe, enables, active, []);
    errors := if raised then 1 else MissingResponses(mode, slow, reference);
    if errors == 0 && mode.PitchDirection? {
      NothingMissing(pair, slow, probe, active, reference);
    }
  }

  lemma NothingMissing(pair: PairMap, slow: bool, probe: seq<Event>, active: seq<Event>, reference: Reference)
    requires Witnessed(pair, probe, active, reference) && MissingResponses(PitchDirection, slow, reference) == 0
    ensures HasResponded(pair, slow, probe, active)
  {
    hide Responded;
    assert Responded(pair, probe, active, reference.trough);
    if !slow {
      assert Responded(pair, probe, active, reference.peak);
    }
  }

  /** A gate run. Whatever raises and wherever, the trace is safe and keeps to the joint law, and the
      report tells the truth. */
  method RunGate(eps: seq<Endpoint>, limits: Limits, mode: Mode, pair: PairMap, slow: bool)
    returns (report: Report, ghost run: GateRun)
    requires Endpoints(eps)
    ensures run.Safe(eps, Guards(limits.margin, limits.motorTorque, limits.motorVelocity,
                                 if mode.PitchDirection? then None else Some(limits.drift)))
    ensures Reports(report, run) && AllByLaw(mode, limits, pair, slow, run.probe, run.active)
    ensures report.errors == 0 && mode.PitchDirection? ==> HasResponded(pair, slow, run.probe, run.active)
  {
    hide Probes, Probed, Active, AllCalm, Tallies, Closes, TriedThrice, Disabling, LastStatus, AllByLaw, HasResponded;
    var errors, initial, counts, enabled;
    errors, initial, counts, enabled, run := Power(eps, limits, mode, pair, slow);
    var failures, attempts, status;
    ghost var closing;
    failures, attempts, status, closing := Close(eps, initial);
    run := run.(closing := closing);
    report := Report(mode, limits.duration, limits.rate, counts, enabled, attempts, status, errors + failures);
  }

  /** A passed gate enabled both motors exactly once after probing them, exchanged at least 95%
      of the expected commands and replies with each, and left both disabled: that is the last
      thing either of them said. */
  lemma PassedMeansDisabled(eps: seq<Endpoint>, limits: Limits, mode: Mode, report: Report, run: GateRun, m: nat)
    requires Endpoints(eps) && m < PAIR
    requires run.Safe(eps, GuardsOf(limits, mode)) && Reports(report, run) && report.Passed()
    ensures LastStatus(run.Events(), m) == Some(DISABLED)
    ensures Enabled(run.enables, PAIR) && Probed(eps, run.probe, limits.margin)
    ensures Disables(run.closing, m) >= 3
    ensures Commands(run.active, m) as real > report.duration * report.rate * 0.95 - 1.0
    ensures Answers(run.active, m) as real > report.duration * report.rate * 0.95 - 1.0
  {
    assert report.MinimumCount() as real > report.duration * report.rate * 0.95 - 1.0;
    hide Probes, Probed, Active, Closes, TriedThrice, LastSaid, Disables, Commands, Answers, Report.MinimumCount;
    assert report.enableAttempts[0] == 1 && report.enableAttempts[1] == 1;
    assert Enable(0, true) in run.enables && Enable(1, true) in run.enables;
    assert report.finalStatus[m] == LastStatus(run.closing, m);
    var front := run.probe + run.enables + run.active;
    LastConcat(front, run.closing, m);
  }
}
