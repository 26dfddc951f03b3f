/** The powered run of the native controller: prepare, enable, drive, shut down
    (native/src/sprite_can_shadow.cpp:1551-1822). Clocks, CAN traffic, IPC traffic and the
    outcome of every write are arbitrary. */
module ProtectedRun {
  import opened Prelude
  import opened Impedance
  import opened MitCodec
  import opened MotorCommand
  import opened NativeMotor
  import opened Synthesis
  import opened MotorPreview
  import opened Schedule
  import opened Wire
  import opened PolicyIpc
  import opened PolicyProtocol
  import opened RunTrace
  import opened SlotFrames

  datatype RunFault =
    | Stopped | WriteFailed | Refused(codec: CodecFault) | CommandRefused(command: CommandFault)
    | InvalidFrame | FeedbackRefused(feedback: FeedbackFault)
    | IpcRefused(ipc: IpcFault) | PublishFailed
    | StartGateFailed | TargetNotReady | WatchdogExpired | NotEnabled | Coverage | Deadline | NotDisabled

  /** A CAN frame as read from a socket: its bus, its identifier and its eight bytes, or
      something that is not a valid feedback frame. */
  datatype CanFrame = Malformed | Frame(bus: string, id: int, data: seq<Byte>)

  datatype Plant = Plant(
    kin: Kinematics, feedback: map<(string, int), nat>, limits: seq<JointLimit>,
    ieee: Ieee, jointHash: nat, motorHash: nat, saturating: bool)

  function TrackOf(m: Motor): Track
    reads m`lastPosition, m`lastVelocity, m`lastStatus, m`seen, m`finalDisabled, m`rxCount
  {
    Track(State(m.lastPosition, m.lastVelocity), m.lastStatus, m.seen, m.finalDisabled, m.rxCount)
  }

  predicate Usable(motors: seq<Motor>) {
    Distinct(motors) && forall i :: 0 <= i < |motors| ==> motors[i].cfg.cap > 0.0 && motors[i].cfg.ranges.Proper()
  }

  /** The rows the schedule was made from. */
  function RowsOf(motors: seq<Motor>): (r: seq<Row>)
    ensures |r| == |motors|
    ensures forall i :: 0 <= i < |motors| ==> r[i] == Row(motors[i].cfg.bus, motors[i].cfg.pollRate)
  {
    seq(|motors|, i requires 0 <= i < |motors| => Row(motors[i].cfg.bus, motors[i].cfg.pollRate))
  }

  /** Rates and phases are those the loader accepts and assigns. */
  predicate Loaded(motors: seq<Motor>) {
    && RatesAccepted(RowsOf(motors)) && Schedule.Accepted(RowsOf(motors))
    && forall i :: 0 <= i < |motors| ==> motors[i].pollPhase == Phase(RowsOf(motors), i)
  }

  function Configs(motors: seq<Motor>): (c: seq<MotorConfig>)
    ensures |c| == |motors| && forall i :: 0 <= i < |motors| ==> c[i] == motors[i].cfg
  {
    seq(|motors|, i requires 0 <= i < |motors| => motors[i].cfg)
  }

  function Phases(motors: seq<Motor>): (p: seq<nat>)
    ensures |p| == |motors| && forall i :: 0 <= i < |motors| ==> p[i] == motors[i].pollPhase
  {
    seq(|motors|, i requires 0 <= i < |motors| => motors[i].pollPhase)
  }

  // ---- single frames -------------------------------------------------------

  /** `send_poll`. */
  method SendPoll(motor: Motor, i: nat) returns (fault: Option<RunFault>, ghost sent: seq<Event>)
    requires motor.cfg.ranges.Proper()
    modifies motor`txCount
    ensures sent == [] || (|sent| == 1 && sent[0].ZeroGain? && sent[0].motor == i && ZeroGainBytes(sent[0].data))
    ensures fault.None? ==> |sent| == 1 && sent[0].written
  {
    sent := [];
    var data := ZeroGainPayload(motor.cfg.ranges, motor.lastPosition);
    if data.Err? {
      return Some(Refused(data.error)), sent;
    }
    ZeroGainChecked(motor.cfg.ranges, motor.lastPosition);
    var written: bool := *;
    sent := [ZeroGain(i, written, data.value)];
    if !written {
      return Some(WriteFailed), sent;
    }
    motor.txCount := motor.txCount + 1;
    return None, sent;
  }

  lemma ZeroGainChecked(ranges: Ranges, position: real)
    requires ranges.Proper() && ZeroGainPayload(ranges, position).Ok?
    ensures ZeroGainBytes(ZeroGainPayload(ranges, position).value)
  {
    hide Encode, Pack, Unpack;
  }

  /** `send_special`, whose write succeeds or fails as given. */
  method SendSpecial(motor: Motor, i: nat, enable: bool, written: bool) returns (fault: Option<RunFault>, ghost sent: Event)
    modifies motor`txCount
    ensures sent == if enable then Enable(i, written) else Disable(i, written)
    ensures fault.None? <==> written
  {
    sent := if enable then Enable(i, written) else Disable(i, written);
    if !written {
      return Some(WriteFailed), sent;
    }
    motor.txCount := motor.txCount + 1;
    return None, sent;
  }

  /** One policy frame: encode, refuse, or write. */
  method SendPolicy(motor: Motor, i: nat, saturating: bool) returns (fault: Option<RunFault>, ghost sent: seq<Event>)
    requires motor.cfg.cap > 0.0 && motor.cfg.ranges.Proper()
    modifies motor`txCount, motor`saturationCount, motor`maxCommandedTorque
    ensures sent == [] || (|sent| == 1 && sent[0].Policy? && sent[0].motor == i
                           && var words := PolicyWords(motor.cfg, motor.previewInitialized, motor.preview,
                                                    motor.Feedback(), saturating).words;
                             words.Ok? && sent[0].data == Pack(words.value))
    ensures fault.None? ==> |sent| == 1 && sent[0].written && motor.txCount == old(motor.txCount) + 1
    ensures fault.Some? ==> sent == [] || !sent[0].written
  {
    hide PolicyWords, Pack;
    sent := [];
    var payload := motor.ProtectedPolicyPayload(saturating);
    if payload.Err? {
      return Some(CommandRefused(payload.error)), sent;
    }
    var written: bool := *;
    sent := [Policy(i, written, payload.value)];
    if !written {
      return Some(WriteFailed), sent;
    }
    motor.txCount := motor.txCount + 1;
    return None, sent;
  }

  // ---- feedback ------------------------------------------------------------

  predicate StatusAllowed(status: int, expected: Expected) {
    if expected.Tolerant? then status == 0 || status == 1 else status == expected.code
  }

  predicate Hears(heard: seq<Event>, expected: Expected, cfgs: seq<MotorConfig>, dynamic: bool) {
    forall k :: 0 <= k < |heard| ==>
      && heard[k].Reply? && heard[k].motor < |cfgs| && StatusAllowed(heard[k].status, expected)
      && (dynamic ==> Tolerable(cfgs[heard[k].motor], heard[k].feedback, heard[k].load))
  }

  /** One frame of `drain_policy_feedback`. */
  method HearFrame(motors: seq<Motor>, feedback: map<(string, int), nat>, frame: CanFrame, expected: Expected, dynamic: bool)
    returns (fault: Option<RunFault>, ghost heard: seq<Event>)
    requires Usable(motors) && (forall key :: key in feedback ==> feedback[key] < |motors|)
    modifies motors`lastPosition, motors`lastVelocity, motors`lastStatus, motors`filteredMos, motors`filteredRotor,
             motors`rxCount, motors`seen, motors`finalDisabled
    ensures Hears(heard, expected, Configs(motors), dynamic) && |heard| <= 1
    ensures fault.None? ==> forall m :: 0 <= m < |motors| ==>
              TrackOf(motors[m]) == Follow(old(TrackOf(motors[m])), m, heard, expected)
  {
    heard := [];
    if frame.Malformed? || |frame.data| != 8 {
      return if expected.Tolerant? then None else Some(InvalidFrame), heard;
    }
    if (frame.bus, frame.id) !in feedback {
      return None, heard;
    }
    var i := feedback[(frame.bus, frame.id)];
    var motor := motors[i];
    hide DecodeReply;
    var r := motor.AcceptReply(frame.data, expected, dynamic);
    if r.Err? {
      return Some(FeedbackRefused(r.error)), heard;
    }
    if r.value {
      ghost var reply := DecodeReply(frame.data, motor.cfg.ranges);
      heard := [Event.Reply(i, motor.lastStatus, motor.Feedback(), Load(reply.torque, reply.mos, reply.rotor))];
      assert TrackOf(motor) == Hear(old(TrackOf(motor)), motor.lastStatus, motor.Feedback(), expected);
    }
    forall m | 0 <= m < |motors| ensures TrackOf(motors[m]) == Follow(old(TrackOf(motors[m])), m, heard, expected) {
      assert m != i ==> motors[m] != motor;
      FollowOne(old(TrackOf(motors[m])), m, heard, expected);
    }
    return None, heard;
  }

  lemma FollowOne(t: Track, m: nat, events: seq<Event>, expected: Expected)
    requires |events| <= 1
    ensures Follow(t, m, events, expected)
            == if events != [] && events[0].Reply? && events[0].motor == m
               then Hear(t, events[0].status, events[0].feedback, expected) else t
  {
    if events != [] {
      assert events[..0] == [];
    }
  }

  /** `drain_policy_feedback`. */
  method DrainFeedback(motors: seq<Motor>, feedback: map<(string, int), nat>, expected: Expected, dynamic: bool)
    returns (fault: Option<RunFault>, ghost heard: seq<Event>)
    requires Usable(motors) && (forall key :: key in feedback ==> feedback[key] < |motors|)
    modifies motors`lastPosition, motors`lastVelocity, motors`lastStatus, motors`filteredMos, motors`filteredRotor,
             motors`rxCount, motors`seen, motors`finalDisabled
    ensures Hears(heard, expected, Configs(motors), dynamic)
    ensures fault.None? ==> forall m :: 0 <= m < |motors| ==>
              TrackOf(motors[m]) == Follow(old(TrackOf(motors[m])), m, heard, expected)
  {
    hide Follow;
    heard := [];
    var frames: seq<CanFrame> := *;
    FollowNothing(expected);
    for k := 0 to |frames|
      invariant Hears(heard, expected, Configs(motors), dynamic)
      invariant forall m :: 0 <= m < |motors| ==>
        TrackOf(motors[m]) == Follow(old(TrackOf(motors[m])), m, heard, expected)
    {
      ghost var more;
      fault, more := HearFrame(motors, feedback, frames[k], expected, dynamic);
      forall m | 0 <= m < |motors|
        ensures Follow(old(TrackOf(motors[m])), m, heard + more, expected)
                == Follow(Follow(old(TrackOf(motors[m])), m, heard, expected), m, more, expected)
      {
        FollowConcat(old(TrackOf(motors[m])), m, heard, more, expected);
      }
      heard := heard + more;
      if fault.Some? {
        return;
      }
    }
    return None, heard;
  }

  lemma FollowNothing(expected: Expected)
    ensures forall t: Track, m: nat :: Follow(t, m, [], expected) == t
  {
  }

  // ---- preparation ---------------------------------------------------------

  predicate Feeds(feedback: map<(string, int), nat>, n: nat) { forall key :: key in feedback ==> feedback[key] < n }

  /** The motors whose turn it is, in order. */
  function DueList(motors: seq<Motor>, slot: nat, upTo: nat): seq<nat>
    requires upTo <= |motors|
  {
    if upTo == 0 then []
    else DueList(motors, slot, upTo - 1)
         + if Due(motors[upTo - 1].cfg.pollRate, motors[upTo - 1].pollPhase, slot) then [upTo - 1] else []
  }

  /** One zero-gain poll to every motor due in a slot. */
  method PollDue(motors: seq<Motor>, slot: nat) returns (fault: Option<RunFault>, ghost sent: seq<Event>)
    requires Usable(motors)
    modifies motors`txCount
    ensures forall k :: 0 <= k < |sent| ==> sent[k].ZeroGain? && ZeroGainBytes(sent[k].data)
    ensures fault.None? ==> var due := DueList(motors, slot, |motors|);
              |sent| == |due| && forall k :: 0 <= k < |due| ==> sent[k].motor == due[k] && sent[k].written
  {
    hide ZeroGainBytes;
    sent := [];
    for i := 0 to |motors|
      invariant forall k :: 0 <= k < |sent| ==> sent[k].ZeroGain? && ZeroGainBytes(sent[k].data)
      invariant var due := DueList(motors, slot, i);
                |sent| == |due| && forall k :: 0 <= k < |due| ==> sent[k].motor == due[k] && sent[k].written
    {
      if Due(motors[i].cfg.pollRate, motors[i].pollPhase, slot) {
        ghost var one;
        fault, one := SendPoll(motors[i], i);
        sent := sent + one;
        if fault.Some? {
          return;
        }
      }
    }
    return None, sent;
  }

  method AllSeen(motors: seq<Motor>) returns (all: bool)
    ensures all <==> forall m :: 0 <= m < |motors| ==> motors[m].seen
  {
    for i := 0 to |motors|
      invariant forall m :: 0 <= m < i ==> motors[m].seen
    {
      if !motors[i].seen {
        return false;
      }
    }
    return true;
  }

  /** The inbox holds the target the events say was last taken over, and it was admitted. */
  predicate Kept(ipc: IpcSocket, n: nat, limits: seq<JointLimit>, history: seq<Event>)
    requires limits == [] || |limits| == n
    reads ipc
  {
    Keeps(ipc.inbox, LastTaken(history)) && (LastTaken(history).Some? ==> Admitted(n, limits, LastTaken(history).value))
  }

  predicate Arrived(events: seq<Event>, n: nat, limits: seq<JointLimit>, now: int)
    requires limits == [] || |limits| == n
  {
    forall k :: 0 <= k < |events| ==>
      events[k].Accepted? && Admitted(n, limits, events[k].taken) && events[k].taken.now == now
  }

  ghost function Arrivals(taken: seq<Taken>): (events: seq<Event>)
    ensures |events| == |taken| && forall k :: 0 <= k < |taken| ==> events[k] == Event.Accepted(taken[k])
    ensures LastTaken(events) == if taken == [] then None else Some(taken[|taken| - 1])
  {
    seq(|taken|, k requires 0 <= k < |taken| => Event.Accepted(taken[k]))
  }

  /** `send_state_packet`: what is remembered of every motor, in order. */
  method PublishState(motors: seq<Motor>, plant: Plant, ipc: IpcSocket, ghost history: seq<Event>)
    returns (fault: Option<RunFault>, ghost told: Event)
    requires (plant.limits == [] || |plant.limits| == |motors|) && Kept(ipc, |motors|, plant.limits, history)
    modifies ipc
    ensures ipc.inbox == old(ipc.inbox).(stateSequence := old(ipc.inbox).stateSequence + 1)
    ensures Kept(ipc, |motors|, plant.limits, history)
    ensures told.Publish? && (fault.None? <==> told.written) && |told.position| == |told.velocity| == |motors|
    ensures forall m :: 0 <= m < |motors| ==> told.position[m] == motors[m].lastPosition && told.velocity[m] == motors[m].lastVelocity
  {
    hide Admitted, LastTaken;
    var position, velocity := Snapshot(motors);
    var now: nat := *;
    var delivered: bool := *;
    var packet, ok := ipc.SendState(plant.ieee, position, velocity, plant.motorHash, now, delivered);
    return if ok then None else Some(PublishFailed), Event.Publish(ok, position, velocity);
  }

  /** What every motor is remembered to have said is what the message says. */
  lemma ToldIsReported(tracks: seq<Track>, history: seq<Event>, told: Event)
    requires told.Publish? && |told.position| == |told.velocity| == |tracks| && Reported(tracks, history)
    requires forall m :: 0 <= m < |tracks| ==>
      told.position[m] == tracks[m].feedback.position && told.velocity[m] == tracks[m].feedback.velocity
    ensures Tells(|tracks|, history, told)
  {
    hide LastReply, StateOf;
    forall m | 0 <= m < |tracks|
      ensures told.position[m] == StateOf(history, m).position && told.velocity[m] == StateOf(history, m).velocity
    {
      assert tracks[m].feedback == StateOf(history, m);
    }
    assert told.position == ReportedPositions(history, |tracks|) && told.velocity == ReportedVelocities(history, |tracks|);
  }

  method ReceiveTargets(plant: Plant, ipc: IpcSocket, n: nat, now: int, ghost history: seq<Event>)
    returns (fault: Option<RunFault>, ghost arrived: seq<Event>)
    requires (plant.limits == [] || |plant.limits| == n) && Kept(ipc, n, plant.limits, history)
    modifies ipc
    ensures Arrived(arrived, n, plant.limits, now) && Kept(ipc, n, plant.limits, history + arrived)
  {
    hide Admitted, LastTaken;
    var queue: seq<Datagram> := *;
    var refused;
    ghost var taken;
    refused, taken := ipc.DrainTargetPackets(plant.ieee, n, queue, plant.jointHash, plant.limits, now);
    arrived := Arrivals(taken);
    Concat(history, arrived);
    fault := if refused.Some? then Some(IpcRefused(refused.value)) else None;
  }

  /** The start gate, joint by joint. */
  method CheckStart(kin: Kinematics, n: nat, t: Target, position: seq<real>, velocity: seq<real>) returns (ok: bool)
    requires kin.Has(n) && t.Has(n) && |position| == n && |velocity| == n
    ensures ok <==> StartGate(t, JointPositions(kin, n, position))
  {
    hide JointPosition, JointVelocity;
    ghost var measured := JointPositions(kin, n, position);
    for j := 0 to n
      invariant forall k :: 0 <= k < j ==> StartGateAt(t, measured, k)
    {
      var q, qd := JointRow(kin, n, position, velocity, j);
      if Abs(t.position[j] - q) > START_POSITION_GATE || Abs(t.velocity[j]) > ENVELOPE_TOLERANCE
         || Abs(t.kp[j]) > ENVELOPE_TOLERANCE || Abs(t.kd[j]) > ENVELOPE_TOLERANCE
         || Abs(t.feedforward[j]) > ENVELOPE_TOLERANCE {
        assert !StartGateAt(t, measured, j);
        return false;
      }
    }
    return true;
  }

  predicate Follows(motors: seq<Motor>, from: seq<Track>, events: seq<Event>, expected: Expected)
    requires |from| == |motors|
    reads motors`lastPosition, motors`lastVelocity, motors`lastStatus, motors`seen, motors`finalDisabled, motors`rxCount
  {
    forall m :: 0 <= m < |motors| ==> TrackOf(motors[m]) == Follow(from[m], m, events, expected)
  }

  ghost function Tracks(motors: seq<Motor>): (t: seq<Track>)
    reads motors`lastPosition, motors`lastVelocity, motors`lastStatus, motors`seen, motors`finalDisabled, motors`rxCount
    ensures |t| == |motors| && forall m :: 0 <= m < |motors| ==> t[m] == TrackOf(motors[m])
  {
    if motors == [] then [] else Tracks(motors[..|motors| - 1]) + [TrackOf(motors[|motors| - 1])]
  }

  /** The state message at the end of a slot of preparation. */
  method TellWhilePreparing(motors: seq<Motor>, plant: Plant, ipc: IpcSocket, slot: nat, ghost from: seq<Track>, ghost before: seq<Event>)
    returns (fault: Option<RunFault>, ghost events: seq<Event>)
    requires (plant.limits == [] || |plant.limits| == |motors|) && |from| == |motors| && Follows(motors, from, before, Status(0))
    requires Prepares(|motors|, plant.limits, before) && Kept(ipc, |motors|, plant.limits, before)
    requires forall m :: 0 <= m < |motors| ==> !from[m].seen
    modifies ipc
    ensures Prepares(|motors|, plant.limits, events)
    ensures Follows(motors, from, events, Status(0)) && Kept(ipc, |motors|, plant.limits, events)
  {
    hide Follow, Admitted, LastTaken, Keeps, Prepares, Tells, Reported, Tracks;
    events := before;
    var all := AllSeen(motors);
    if slot % 40 != 39 || !all {
      return None, events;
    }
    ghost var told;
    fault, told := PublishState(motors, plant, ipc, events);
    AllSaid(from, Tracks(motors), events, Status(0));
    ToldIsReported(Tracks(motors), events, told);
    SilentExtends(from, events, [told], Status(0));
    NoTargets(events, [told]);
    PreparesMore(|motors|, plant.limits, events, [told]);
    events := events + [told];
  }

  /** One slot of preparation up to the gate. */
  method PrepareSlot(motors: seq<Motor>, plant: Plant, ipc: IpcSocket, slot: nat, ghost from: seq<Track>, ghost before: seq<Event>)
    returns (fault: Option<RunFault>, ghost events: seq<Event>)
    requires Usable(motors) && Feeds(plant.feedback, |motors|) && (plant.limits == [] || |plant.limits| == |motors|)
    requires |from| == |motors| && Follows(motors, from, before, Status(0)) && Prepares(|motors|, plant.limits, before)
    requires Kept(ipc, |motors|, plant.limits, before) && forall m :: 0 <= m < |motors| ==> !from[m].seen
    modifies ipc, motors`txCount, motors`lastPosition, motors`lastVelocity, motors`lastStatus, motors`filteredMos,
             motors`filteredRotor, motors`rxCount, motors`seen, motors`finalDisabled
    ensures Prepares(|motors|, plant.limits, events)
    ensures fault.None? ==> Follows(motors, from, events, Status(0)) && Kept(ipc, |motors|, plant.limits, events)
  {
    hide Follow, ZeroGainBytes, Admitted, LastTaken, Keeps, Prepares, Tells, Reported, Tracks, Tolerable, DueList;
    events := before;
    var stop: bool := *;
    if stop {
      return Some(Stopped), events;
    }
    ghost var sent, heard, arrived;
    fault, sent := PollDue(motors, slot);
    SilentExtends(from, before, sent, Status(0));
    NoTargets(before, sent);
    PreparesMore(|motors|, plant.limits, before, sent);
    events := events + sent;
    if fault.Some? {
      return;
    }
    fault, heard := DrainFeedback(motors, plant.feedback, Status(0), false);
    ReplyExtends(from, events, heard, Status(0));
    NoTargets(events, heard);
    PreparesMore(|motors|, plant.limits, events, heard);
    events := events + heard;
    if fault.Some? {
      return;
    }
    var now: int := *;
    fault, arrived := ReceiveTargets(plant, ipc, |motors|, now, events);
    SilentExtends(from, events, arrived, Status(0));
    PreparesMore(|motors|, plant.limits, events, arrived);
    events := events + arrived;
    if fault.Some? {
      return;
    }
    fault, events := TellWhilePreparing(motors, plant, ipc, slot, from, events);
  }

  lemma NoTargets(a: seq<Event>, b: seq<Event>)
    requires forall k :: 0 <= k < |b| ==> !b[k].Accepted?
    ensures LastTaken(a + b) == LastTaken(a)
  {
    Concat(a, b);
    NoTarget(b);
  }

  lemma SilentExtends(from: seq<Track>, a: seq<Event>, b: seq<Event>, expected: Expected)
    requires Silent(b)
    ensures forall m :: 0 <= m < |from| ==> Follow(from[m], m, a + b, expected) == Follow(from[m], m, a, expected)
  {
    forall m | 0 <= m < |from| ensures Follow(from[m], m, a + b, expected) == Follow(from[m], m, a, expected) {
      FollowConcat(from[m], m, a, b, expected);
      FollowSilent(Follow(from[m], m, a, expected), m, b, expected);
    }
  }

  lemma ReplyExtends(from: seq<Track>, a: seq<Event>, b: seq<Event>, expected: Expected)
    ensures forall m :: 0 <= m < |from| ==>
              Follow(from[m], m, a + b, expected) == Follow(Follow(from[m], m, a, expected), m, b, expected)
  {
    forall m | 0 <= m < |from|
      ensures Follow(from[m], m, a + b, expected) == Follow(Follow(from[m], m, a, expected), m, b, expected)
    {
      FollowConcat(from[m], m, a, b, expected);
    }
  }

  const PREPARATION_SLOTS: nat := 4000

  predicate NoneSeen(motors: seq<Motor>)
    reads motors`seen
  {
    forall m :: 0 <= m < |motors| ==> !motors[m].seen
  }

  lemma PreparesNothing(n: nat, limits: seq<JointLimit>)
    requires limits == [] || |limits| == n
    ensures Prepares(n, limits, []) && LastTaken([]).None?
  {
  }

  /** What each motor is remembered to have said is what the events say. */
  predicate Reported(tracks: seq<Track>, events: seq<Event>) {
    forall m :: 0 <= m < |tracks| ==> LastReply(events, m).Some? && tracks[m].feedback == StateOf(events, m)
  }

  /** Motors not seen before but seen now have spoken, and are remembered as they spoke. */
  lemma AllSaid(from: seq<Track>, tracks: seq<Track>, events: seq<Event>, expected: Expected)
    requires |from| == |tracks|
    requires forall m :: 0 <= m < |from| ==> !from[m].seen && tracks[m].seen
    requires forall m :: 0 <= m < |from| ==> tracks[m] == Follow(from[m], m, events, expected)
    ensures Reported(tracks, events)
  {
    forall m | 0 <= m < |from| ensures LastReply(events, m).Some? && tracks[m].feedback == StateOf(events, m) {
      FollowIsLast(from[m], m, events, expected);
    }
  }

  lemma GateStands(kin: Kinematics, n: nat, limits: seq<JointLimit>, events: seq<Event>, position: seq<real>, tracks: seq<Track>)
    requires (limits == [] || |limits| == n) && |position| == n == |tracks| && Reported(tracks, events)
    requires forall m :: 0 <= m < n ==> position[m] == tracks[m].feedback.position
    requires LastTaken(events).Some? && Admitted(n, limits, LastTaken(events).value)
    requires StartGate(LastTaken(events).value.target, JointPositions(kin, n, position))
    ensures Ready(kin, n, events)
  {
    hide StartGate, LastReply, JointPositions, LastTaken, GainsAcceptable, EnvelopeAcceptable, StateOf;
    forall m | 0 <= m < n ensures position[m] == StateOf(events, m).position {
      assert tracks[m].feedback == StateOf(events, m);
    }
    assert position == ReportedPositions(events, n);
  }

  /** Preparation. Success means every drive answered disabled and the target last taken over,
      which is the one in the inbox, passed the start gate on the positions last reported. */
  method Prepare(motors: seq<Motor>, plant: Plant, ipc: IpcSocket)
    returns (fault: Option<RunFault>, ghost events: seq<Event>)
    requires Usable(motors) && Feeds(plant.feedback, |motors|) && NoneSeen(motors)
    requires (plant.limits == [] || |plant.limits| == |motors|) && plant.kin.Has(|motors|) && ipc.inbox.latest.None?
    modifies ipc, motors`txCount, motors`lastPosition, motors`lastVelocity, motors`lastStatus, motors`filteredMos,
             motors`filteredRotor, motors`rxCount, motors`seen, motors`finalDisabled
    ensures Prepares(|motors|, plant.limits, events)
    ensures fault.None? ==> Ready(plant.kin, |motors|, events) && Kept(ipc, |motors|, plant.limits, events)
    ensures fault.None? ==> Reported(Tracks(motors), events)
  {
    hide Follow, Prepares, LastReply, Ready, StartGate, JointPositions, Positions, Velocities, Tracks, Admitted, Reported;
    events := [];
    PreparesNothing(|motors|, plant.limits);
    ghost var from := Tracks(motors);
    FollowNothing(Status(0));
    for slot := 0 to PREPARATION_SLOTS
      invariant Prepares(|motors|, plant.limits, events) && Kept(ipc, |motors|, plant.limits, events)
      invariant Follows(motors, from, events, Status(0))
    {
      fault, events := PrepareSlot(motors, plant, ipc, slot, from, events);
      if fault.Some? {
        return;
      }
      var all := AllSeen(motors);
      if ipc.inbox.latest.None? || !all {
        continue;
      }
      var position, velocity := Snapshot(motors);
      AdmittedHas(|motors|, plant.limits, LastTaken(events).value);
      var ok := CheckStart(plant.kin, |motors|, ipc.inbox.latest.value, position, velocity);
      if !ok {
        fault := Some(StartGateFailed);
        return;
      }
      AllSaid(from, Tracks(motors), events, Status(0));
      GateStands(plant.kin, |motors|, plant.limits, events, position, Tracks(motors));
      return None, events;
    }
    return Some(TargetNotReady), events;
  }

  lemma AdmittedHas(n: nat, limits: seq<JointLimit>, t: Taken)
    requires (limits == [] || |limits| == n) && Admitted(n, limits, t)
    ensures t.target.Has(n)
  {
  }

  // ---- enabling ------------------------------------------------------------

  /** The reset between preparation and enabling. */
  method ResetMotors(motors: seq<Motor>)
    requires Usable(motors)
    modifies motors`txCount, motors`rxCount, motors`seen, motors`previewInitialized, motors`maxCommandedTorque,
             motors`finalDisabled, motors`lastStatus
    ensures forall m :: 0 <= m < |motors| ==>
              motors[m].lastStatus == 0 && motors[m].rxCount == 0 && !motors[m].previewInitialized
  {
    for i := 0 to |motors|
      invariant forall m :: 0 <= m < i ==>
        motors[m].lastStatus == 0 && motors[m].rxCount == 0 && !motors[m].previewInitialized
    {
      motors[i].txCount, motors[i].rxCount, motors[i].seen := 0, 0, false;
      motors[i].previewInitialized, motors[i].maxCommandedTorque := false, 0.0;
      motors[i].finalDisabled, motors[i].lastStatus := false, 0;
    }
  }

  method EnableAll(motors: seq<Motor>) returns (fault: Option<RunFault>, ghost events: seq<Event>)
    requires Usable(motors)
    modifies motors`txCount
    ensures Enables(events, |motors|)
    ensures fault.None? ==> Enabled(events, |motors|) && forall m :: 0 <= m < |motors| ==> motors[m].txCount == 0
  {
    events := [];
    for i := 0 to |motors|
      invariant |events| == i && forall k :: 0 <= k < i ==> events[k] == Enable(k, true)
    {
      ghost var one;
      var written: bool := *;
      fault, one := SendSpecial(motors[i], i, true, written);
      events := events + [one];
      if fault.Some? {
        return;
      }
    }
    for i := 0 to |motors|
      invariant forall m :: 0 <= m < i ==> motors[m].txCount == 0
    {
      motors[i].txCount := 0;
    }
    return None, events;
  }

  // ---- driving -------------------------------------------------------------

  predicate Sent(motors: seq<Motor>, events: seq<Event>)
    reads motors`txCount
  {
    forall m :: 0 <= m < |motors| ==> motors[m].txCount == Commands(events, m)
  }

  /** The trace setup describes these motors. */
  predicate Describes(u: Setup, motors: seq<Motor>, plant: Plant) {
    && u.Valid() && u.kin == plant.kin && u.saturating == plant.saturating && u.limits == plant.limits
    && u.cfgs == Configs(motors) && u.phases == Phases(motors)
    && plant.kin.Has(|motors|) && (plant.limits == [] || |plant.limits| == |motors|)
  }

  /** What is remembered of a motor is what the events say it said. */
  predicate RemembersOne(t: Track, prepared: seq<Event>, events: seq<Event>, m: nat) {
    && LastReply(prepared + events, m).Some? && t.feedback == StateOf(prepared + events, m)
    && t.status == (if LastReply(events, m).Some? then LastReply(events, m).value.status else 0)
    && t.rx == Replies(events, m)
  }

  ghost predicate Remembers(motors: seq<Motor>, prepared: seq<Event>, events: seq<Event>)
    reads motors`lastPosition, motors`lastVelocity, motors`lastStatus, motors`seen, motors`finalDisabled, motors`rxCount
  {
    forall m :: 0 <= m < |motors| ==> RemembersOne(TrackOf(motors[m]), prepared, events, m)
  }

  /** The motors hold exactly what the previews so far made of them. */
  ghost predicate Holding(motors: seq<Motor>, u: Setup, events: seq<Event>)
    requires u.Valid() && |u.cfgs| == |motors|
    reads motors`preview, motors`previewInitialized
  {
    forall m :: 0 <= m < |motors| ==> HeldBy(motors[m]) == u.Holds(m, events)
  }

  /** The state the driving loop keeps. */
  ghost predicate Driving(motors: seq<Motor>, ipc: IpcSocket, u: Setup, prepared: seq<Event>, events: seq<Event>)
    requires u.Valid() && |motors| == |u.cfgs|
    reads motors`lastPosition, motors`lastVelocity, motors`lastStatus, motors`seen, motors`finalDisabled,
          motors`rxCount, motors`txCount, motors`preview, motors`previewInitialized, ipc
  {
    && Driven(u, prepared, events) && !Failed(events) && Sent(motors, events) && Remembers(motors, prepared, events)
    && Holding(motors, u, events) && Kept(ipc, |motors|, u.limits, prepared + events)
  }

  /** Two sequences in which every motor said the same. */
  ghost predicate SameReplies(prepared: seq<Event>, a: seq<Event>, b: seq<Event>) {
    forall m: nat ::
      LastReply(prepared + b, m) == LastReply(prepared + a, m) && LastReply(b, m) == LastReply(a, m) && Replies(b, m) == Replies(a, m)
  }

  ghost predicate SameCommands(a: seq<Event>, b: seq<Event>) { forall m: nat :: Commands(b, m) == Commands(a, m) }

  ghost predicate NoneSent(events: seq<Event>) { forall m: nat :: SentInSlot(events, m) == 0 }

  lemma RemembersKept(motors: seq<Motor>, prepared: seq<Event>, a: seq<Event>, b: seq<Event>)
    requires Remembers(motors, prepared, a) && SameReplies(prepared, a, b)
    ensures Remembers(motors, prepared, b)
  {
    hide LastReply, Replies;
    forall m | 0 <= m < |motors| ensures RemembersOne(TrackOf(motors[m]), prepared, b, m) {
      assert RemembersOne(TrackOf(motors[m]), prepared, a, m);
      assert LastReply(prepared + b, m) == LastReply(prepared + a, m);
    }
  }

  lemma SentKept(motors: seq<Motor>, a: seq<Event>, b: seq<Event>)
    requires Sent(motors, a) && SameCommands(a, b)
    ensures Sent(motors, b)
  {
    hide Commands;
  }

  lemma HoldingKept(motors: seq<Motor>, u: Setup, a: seq<Event>, b: seq<Event>)
    requires u.Valid() && |u.cfgs| == |motors| && Holding(motors, u, a) && Passes(a) == Passes(b)
    ensures Holding(motors, u, b)
  {
    hide HeldAfter, Setup.Valid;
  }

  lemma EnabledSame(prepared: seq<Event>, a: seq<Event>, b: seq<Event>, n: nat)
    requires SameReplies(prepared, a, b) && AllSayEnabled(a, n)
    ensures AllSayEnabled(b, n)
  {
    hide LastReply, Replies;
    forall m | 0 <= m < n ensures SaysEnabled(b, m) {
      assert SaysEnabled(a, m);
      assert LastReply(b, m) == LastReply(a, m);
    }
  }

  /** An event that is not a reply changes nothing anybody said. */
  lemma QuietNext(prepared: seq<Event>, a: seq<Event>, e: Event)
    requires !e.Reply?
    ensures SameReplies(prepared, a, a + [e])
    ensures !e.Policy? ==> SameCommands(a, a + [e])
    ensures NoneSent(a) && !e.Policy? ==> NoneSent(a + [e])
    ensures e.Wake? ==> NoneSent(a + [e])
    ensures LastTaken(prepared + (a + [e])) == if e.Accepted? then Some(e.taken) else LastTaken(prepared + a)
    ensures WakeTimes(prepared + (a + [e])) == WakeTimes(prepared + a) + if e.Wake? then [e.ns] else []
  {
    assert prepared + (a + [e]) == prepared + a + [e];
    Next(prepared + a, e);
    forall m: nat
      ensures LastReply(prepared + (a + [e]), m) == LastReply(prepared + a, m)
      ensures LastReply(a + [e], m) == LastReply(a, m) && Replies(a + [e], m) == Replies(a, m)
      ensures !e.Policy? ==> Commands(a + [e], m) == Commands(a, m)
      ensures SentInSlot(a + [e], m) == if e.Wake? then 0 else SentInSlot(a, m) + if e.Policy? && e.motor == m then 1 else 0
    {
      MotorNext(a, e, m);
      MotorNext(prepared + a, e, m);
    }
  }

  lemma TargetIsJust(u: Setup, prepared: seq<Event>, a: seq<Event>, e: Event)
    requires u.Valid() && Opening(a) && e.Accepted? && Admitted(|u.cfgs|, u.limits, e.taken) && LastWake(a) == Some(e.taken.now)
    ensures Just(u, prepared, a, e)
  {
    hide Admitted, LastWake, Setup.Valid;
  }

  /** Targets that arrive say nothing about any motor either. */
  lemma ArrivalsKeep(u: Setup, prepared: seq<Event>, a: seq<Event>, b: seq<Event>, woke: int)
    requires u.Valid() && Driven(u, prepared, a) && Opening(a)
    requires Arrived(b, |u.cfgs|, u.limits, woke) && LastWake(a) == Some(woke)
    ensures Driven(u, prepared, a + b) && Opening(a + b) && SameReplies(prepared, a, a + b) && SameCommands(a, a + b)
    ensures WakeTimes(a + b) == WakeTimes(a) && Passes(a + b) == Passes(a)
    ensures NoneSent(a) ==> NoneSent(a + b)
  {
    hide Admitted, Driven, Just, Setup.Valid;
    forall k | 0 <= k < |b| ensures b[k].Accepted? && Just(u, prepared, a, b[k]) {
      TargetIsJust(u, prepared, a, b[k]);
    }
    DrivenByTargets(u, prepared, a, b);
    Concat(a, b);
    InputsOnly(b, 0);
    assert prepared + (a + b) == prepared + a + b;
    forall m: nat
      ensures LastReply(prepared + (a + b), m) == LastReply(prepared + a, m)
      ensures LastReply(a + b, m) == LastReply(a, m) && Replies(a + b, m) == Replies(a, m)
      ensures Commands(a + b, m) == Commands(a, m) && SentInSlot(a + b, m) == SentInSlot(a, m)
    {
      MotorConcat(a, b, m);
      MotorConcat(prepared + a, b, m);
      InputsOnly(b, m);
      SilentSaysNothing(b, m);
    }
  }

  /** The slot in progress. */
  predicate InSlot(u: Setup, events: seq<Event>, slot: nat, times: seq<int>)
    requires u.Valid()
  {
    && WakeTimes(events) == times && |times| == slot + 1
    && (slot > ENABLE_SLOTS ==> AllSayEnabled(events, |u.cfgs|))
  }

  /** Targets, watchdog and preview of an active slot. Success means the target last taken over
      is at most 100 ms old, and every fourth slot has brought every held command up to date
      with it. */
  method WatchAndPreview(motors: seq<Motor>, plant: Plant, ipc: IpcSocket, slot: nat, woke: int, count: nat,
                         ghost history: seq<Event>)
    returns (fault: Option<RunFault>, next: nat, ghost arrived: seq<Event>)
    requires Usable(motors) && plant.kin.Has(|motors|) && (plant.limits == [] || |plant.limits| == |motors|)
    requires Kept(ipc, |motors|, plant.limits, history)
    modifies ipc, motors`preview, motors`previewInitialized, motors`saturationCount, motors`maxUnsaturatedTorque,
             motors`maxEstimatedTorque
    ensures Arrived(arrived, |motors|, plant.limits, woke) && Kept(ipc, |motors|, plant.limits, history + arrived)
    ensures fault.None? ==> next == count + (if slot % 4 == 0 then 1 else 0)
    ensures fault.None? ==> LastTaken(history + arrived).Some?
                            && woke - LastTaken(history + arrived).value.stamp <= TARGET_TIMEOUT
    ensures fault.None? ==> forall i :: 0 <= i < |motors| ==>
              HeldBy(motors[i])
              == if slot % 4 == 0
                 then PassAt(motors, plant.kin, LastTaken(history + arrived).value.target, count, plant.saturating).Result(
                   motors[i].cfg, i, old(HeldBy(motors[i])))
                 else old(HeldBy(motors[i]))
  {
    hide PassSucceeds, Pass.Result, Positions, Velocities, LastTaken, Arrived, EnvelopeAcceptable, GainsAcceptable;
    next := count;
    fault, arrived := ReceiveTargets(plant, ipc, |motors|, woke, history);
    if fault.Some? {
      return;
    }
    if ipc.inbox.latest.None? || woke - ipc.inbox.lastNs > TARGET_TIMEOUT {
      fault := Some(WatchdogExpired);
      return;
    }
    if slot % 4 == 0 {
      var previewed := PreviewAll(motors, plant.kin, ipc.inbox.latest, count, plant.saturating);
      if previewed.Err? {
        fault := Some(CommandRefused(previewed.error));
        return;
      }
      next := previewed.value;
    }
  }

  /** Watchdog and preview seen from the events. */
  method DrivePreview(motors: seq<Motor>, plant: Plant, ipc: IpcSocket, slot: nat, woke: int, count: nat,
                      ghost times: seq<int>, ghost u: Setup, ghost prepared: seq<Event>, ghost before: seq<Event>)
    returns (fault: Option<RunFault>, next: nat, ghost events: seq<Event>)
    requires Usable(motors) && Describes(u, motors, plant) && Driving(motors, ipc, u, prepared, before)
    requires InSlot(u, before, slot, times) && times[slot] == woke && NoneSent(before) && Opening(before)
    requires count == |Passes(before)| == PreviewsBefore(slot)
    modifies ipc, motors`preview, motors`previewInitialized, motors`saturationCount, motors`maxUnsaturatedTorque,
             motors`maxEstimatedTorque
    ensures Driven(u, prepared, events)
    ensures fault.None? ==> Driving(motors, ipc, u, prepared, events) && InSlot(u, events, slot, times)
    ensures fault.None? ==> next == |Passes(events)| == PreviewsBefore(slot + 1)
    ensures fault.None? ==> NoneSent(events) && Backed(prepared + events)
  {
    hide Driven, Remembers, Sent, AllSayEnabled, Pass.Result, PassAt, HeldByAll, NoneSent, SameReplies, SameCommands;
    hide LastTaken, Passes, WakeTimes, Setup.Valid, Admitted, Keeps, Backed, Arrived, HeldAfter, PreviewsBefore;
    hide LastReply;
    ghost var held := HeldByAll(motors);
    ghost var arrived;
    fault, next, arrived := WatchAndPreview(motors, plant, ipc, slot, woke, count, prepared + before);
    events := before + arrived;
    ArrivalsKeep(u, prepared, before, arrived, woke);
    assert prepared + events == prepared + before + arrived;
    if fault.Some? {
      return;
    }
    RemembersKept(motors, prepared, before, events);
    SentKept(motors, before, events);
    NowBacked(prepared, events, woke);
    InSlotKept(u, prepared, before, events, slot, times);
    PreviewsNext(slot);
    if slot % 4 != 0 {
      HoldsStill(motors, u, before, events, held);
      return;
    }
    ghost var pass := PassAt(motors, plant.kin, LastTaken(prepared + events).value.target, count, plant.saturating);
    ghost var taken := events;
    PassIsFit(motors, plant, u, prepared, events, count);
    PreviewKeeps(u, prepared, taken, pass, slot);
    events := taken + [Preview(pass)];
    RemembersKept(motors, prepared, taken, events);
    SentKept(motors, taken, events);
    InSlotKept(u, prepared, taken, events, slot, times);
    HoldsAfterPass(motors, u, before, events, held, pass);
  }

  lemma PreviewsNext(slot: nat)
    ensures PreviewsBefore(slot + 1) == PreviewsBefore(slot) + if slot % 4 == 0 then 1 else 0
  {
  }

  lemma NowBacked(prepared: seq<Event>, events: seq<Event>, woke: int)
    requires LastWake(events) == Some(woke) && LastTaken(prepared + events).Some?
    requires woke - LastTaken(prepared + events).value.stamp <= TARGET_TIMEOUT
    ensures Backed(prepared + events)
  {
    Concat(prepared, events);
  }

  lemma InSlotKept(u: Setup, prepared: seq<Event>, a: seq<Event>, b: seq<Event>, slot: nat, times: seq<int>)
    requires u.Valid() && InSlot(u, a, slot, times) && SameReplies(prepared, a, b)
    requires WakeTimes(b) == WakeTimes(a)
    ensures InSlot(u, b, slot, times)
  {
    hide WakeTimes, SameReplies, AllSayEnabled, Setup.Valid;
    if slot > ENABLE_SLOTS {
      EnabledSame(prepared, a, b, |u.cfgs|);
    }
  }

  lemma HoldsStill(motors: seq<Motor>, u: Setup, a: seq<Event>, b: seq<Event>, held: seq<Held>)
    requires u.Valid() && |u.cfgs| == |motors| == |held| && Passes(b) == Passes(a)
    requires forall m :: 0 <= m < |motors| ==> HeldBy(motors[m]) == held[m] == u.Holds(m, a)
    ensures Holding(motors, u, b)
  {
    hide HeldAfter, Setup.Valid;
  }

  lemma HoldsAfterPass(motors: seq<Motor>, u: Setup, a: seq<Event>, b: seq<Event>, held: seq<Held>, pass: Pass)
    requires u.Valid() && |u.cfgs| == |motors| == |held| && Passes(b) == Passes(a) + [pass]
    requires forall m :: 0 <= m < |motors| ==> held[m] == u.Holds(m, a)
    requires forall m :: 0 <= m < |motors| ==> HeldBy(motors[m]) == pass.Result(u.cfgs[m], m, held[m])
    ensures Holding(motors, u, b)
  {
    hide Setup.Valid, Pass.Result;
    var passes := Passes(b);
    assert passes[..|passes| - 1] == Passes(a);
    forall m | 0 <= m < |motors| ensures HeldBy(motors[m]) == u.Holds(m, b) {
      assert held[m] == u.Holds(m, a);
    }
  }

  /** The pass made from the motors and the inbox is the one the events call for. */
  lemma PassIsFit(motors: seq<Motor>, plant: Plant, u: Setup, prepared: seq<Event>, events: seq<Event>, count: nat)
    requires Describes(u, motors, plant) && count == |Passes(events)| && Remembers(motors, prepared, events)
    requires LastTaken(prepared + events).Some?
    ensures var history := prepared + events;
            && AllHeard(history, |u.cfgs|)
            && PassAt(motors, plant.kin, LastTaken(history).value.target, count, plant.saturating)
               == Pass(u.kin, |u.cfgs|, LastTaken(history).value.target, ReportedPositions(history, |u.cfgs|),
                       ReportedVelocities(history, |u.cfgs|), |Passes(events)| % 10 == 0, u.saturating)
  {
    hide LastTaken, Passes, LastReply, Replies, Setup.Valid, StateOf;
    var history, n := prepared + events, |u.cfgs|;
    forall m | 0 <= m < n
      ensures LastReply(history, m).Some? && Positions(motors)[m] == StateOf(history, m).position
              && Velocities(motors)[m] == StateOf(history, m).velocity
    {
      assert RemembersOne(TrackOf(motors[m]), prepared, events, m);
    }
    assert Positions(motors) == ReportedPositions(history, n);
    assert Velocities(motors) == ReportedVelocities(history, n);
  }

  /** A preview changes what is held and nothing else. */
  lemma PreviewKeeps(u: Setup, prepared: seq<Event>, a: seq<Event>, pass: Pass, slot: nat)
    requires u.Valid() && Driven(u, prepared, a) && Opening(a) && Backed(prepared + a) && AllHeard(prepared + a, |u.cfgs|)
    requires |WakeTimes(a)| == slot + 1 && slot % 4 == 0 && |Passes(a)| == PreviewsBefore(slot)
    requires var history := prepared + a;
             pass == Pass(u.kin, |u.cfgs|, LastTaken(history).value.target, ReportedPositions(history, |u.cfgs|),
                          ReportedVelocities(history, |u.cfgs|), |Passes(a)| % 10 == 0, u.saturating)
    ensures var b := a + [Preview(pass)];
            && Driven(u, prepared, b) && Passes(b) == Passes(a) + [pass] && SameReplies(prepared, a, b)
            && SameCommands(a, b) && (NoneSent(a) ==> NoneSent(b))
            && WakeTimes(b) == WakeTimes(a)
            && LastTaken(prepared + b) == LastTaken(prepared + a) && Backed(prepared + b)
  {
    hide Driven, NoneSent, SameReplies, SameCommands, PreviewsBefore, AllHeard, ReportedPositions, ReportedVelocities;
    var e := Preview(pass);
    DrivenNext(u, prepared, a, e);
    Next(a, e);
    QuietNext(prepared, a, e);
    hide LastTaken, WakeTimes;
  }

  /** What has to hold for the policy frames of a slot to go out. */
  predicate MayDrive(u: Setup, prepared: seq<Event>, events: seq<Event>, slot: nat, times: seq<int>)
    requires u.Valid()
  {
    InSlot(u, events, slot, times) && Backed(prepared + events) && |Passes(events)| == PreviewsBefore(slot + 1)
  }

  lemma FrameIsJust(u: Setup, prepared: seq<Event>, events: seq<Event>, slot: nat, times: seq<int>, t: Track, h: Held, e: Event)
    requires u.Valid() && MayDrive(u, prepared, events, slot, times) && e.Policy? && e.motor < |u.cfgs| && !Failed(events)
    requires Due(u.cfgs[e.motor].pollRate, u.phases[e.motor], slot)
    requires Wakes(events) > 0 && ServedUpTo(u, events, e.motor)
    requires RemembersOne(t, prepared, events, e.motor) && h == u.Holds(e.motor, events)
    requires var words := PolicyWords(u.cfgs[e.motor], h.initialized, h.command, t.feedback, u.saturating).words;
             words.Ok? && e.data == Pack(words.value)
    ensures Just(u, prepared, events, e)
  {
    hide PolicyWords, Pack, LastReply, LastTaken, WakeTimes, HeldAfter, PreviewsBefore, AllSayEnabled, Backed, ServedUpTo;
    hide Setup.Valid, Due, Passes, Replies;
  }

  /** A policy frame changes the counts of its motor and nothing else. */
  lemma FrameKeeps(u: Setup, prepared: seq<Event>, a: seq<Event>, e: Event, slot: nat, times: seq<int>)
    requires u.Valid() && Driven(u, prepared, a) && Just(u, prepared, a, e) && e.Policy?
    requires MayDrive(u, prepared, a, slot, times)
    ensures var b := a + [e];
            && Driven(u, prepared, b) && MayDrive(u, prepared, b, slot, times) && Passes(b) == Passes(a)
            && SameReplies(prepared, a, b) && LastTaken(prepared + b) == LastTaken(prepared + a)
            && (Failed(b) <==> !e.written) && Wakes(b) == Wakes(a)
            && (forall m: nat :: Commands(b, m) == Commands(a, m) + if e.motor == m && e.written then 1 else 0)
            && (forall m: nat :: SentInSlot(b, m) == SentInSlot(a, m) + if e.motor == m then 1 else 0)
  {
    hide Driven, SameReplies, SameCommands, PreviewsBefore, AllSayEnabled, Just;
    var b := a + [e];
    DrivenNext(u, prepared, a, e);
    Next(a, e);
    QuietNext(prepared, a, e);
    InSlotKept(u, prepared, a, b, slot, times);
    forall m: nat
      ensures Commands(b, m) == Commands(a, m) + if e.motor == m && e.written then 1 else 0
      ensures SentInSlot(b, m) == SentInSlot(a, m) + if e.motor == m then 1 else 0
    {
      MotorNext(a, e, m);
    }
    hide LastTaken, WakeTimes, InSlot, Commands, SentInSlot;
  }

  lemma ServedStart(u: Setup, events: seq<Event>)
    requires u.Valid() && NoneSent(events) && Wakes(events) > 0
    ensures ServedUpTo(u, events, 0)
  {
    hide SentInSlot, WakeTimes, Setup.Valid, Setup.Turn;
  }

  /** Motor `i` had its turn, if any. */
  lemma ServedNext(u: Setup, a: seq<Event>, b: seq<Event>, i: nat)
    requires u.Valid() && i < |u.cfgs| && Wakes(a) == Wakes(b) > 0 && ServedUpTo(u, a, i)
    requires forall m: nat :: SentInSlot(b, m) == SentInSlot(a, m) + if m == i then u.Turn(i, Wakes(a) - 1) else 0
    ensures ServedUpTo(u, b, i + 1)
  {
    hide SentInSlot, WakeTimes, Setup.Valid, Setup.Turn;
  }

  /** The policy frames of one slot: one for every motor whose turn it is, and no others. */
  method DriveSlot(motors: seq<Motor>, plant: Plant, ghost ipc: IpcSocket, slot: nat, ghost times: seq<int>,
                   ghost u: Setup, ghost prepared: seq<Event>, ghost before: seq<Event>)
    returns (fault: Option<RunFault>, ghost events: seq<Event>)
    requires Usable(motors) && Describes(u, motors, plant) && Driving(motors, ipc, u, prepared, before)
    requires MayDrive(u, prepared, before, slot, times) && NoneSent(before)
    modifies motors`txCount, motors`saturationCount, motors`maxCommandedTorque
    ensures Driven(u, prepared, events)
    ensures fault.None? ==> Driving(motors, ipc, u, prepared, events) && InSlot(u, events, slot, times)
    ensures fault.None? ==> Passes(events) == Passes(before) && SlotDone(u, prepared, events)
  {
    hide Driven, Remembers, Holding, Kept, MayDrive, ServedUpTo, PolicyWords, Pack, Passes, Commands, Setup.Valid, Due;
    hide NoneSent, LastTaken, Failed, WakeTimes, SlotDone, SentInSlot;
    events := before;
    InSlotMeans(u, prepared, before, slot, times);
    ServedStart(u, before);
    for i := 0 to |motors|
      invariant Driven(u, prepared, events) && MayDrive(u, prepared, events, slot, times) && Passes(events) == Passes(before)
      invariant Sent(motors, events) && Remembers(motors, prepared, events) && Holding(motors, u, events)
      invariant LastTaken(prepared + events) == LastTaken(prepared + before)
      invariant !Failed(events) && Wakes(events) == slot + 1 && ServedUpTo(u, events, i)
    {
      TurnOf(u, motors, plant, i, slot);
      if Due(motors[i].cfg.pollRate, motors[i].pollPhase, slot) {
        ghost var one;
        fault, one := SendPolicy(motors[i], i, plant.saturating);
        if one == [] {
          assert events + one == events;
        } else {
          assert one == [one[0]];
          FrameGoesOut(motors, u, prepared, events, slot, times, i, one[0]);
        }
        if fault.Some? {
          events := events + one;
          return;
        }
        RemembersKept(motors, prepared, events, events + one);
        HoldingKept(motors, u, events, events + one);
        ServedNext(u, events, events + one, i);
        events := events + one;
      } else {
        ServedNext(u, events, events, i);
      }
    }
    fault := None;
    InSlotMeans(u, prepared, events, slot, times);
    KeptSame(ipc, |motors|, u.limits, prepared + before, prepared + events);
  }

  lemma InSlotMeans(u: Setup, prepared: seq<Event>, events: seq<Event>, slot: nat, times: seq<int>)
    requires u.Valid() && MayDrive(u, prepared, events, slot, times)
    ensures InSlot(u, events, slot, times) && Wakes(events) == slot + 1
    ensures ServedUpTo(u, events, |u.cfgs|) ==> SlotDone(u, prepared, events)
  {
    hide WakeTimes, Backed, Passes, PreviewsBefore, AllSayEnabled, ServedUpTo, Setup.Valid;
  }

  lemma KeptSame(ipc: IpcSocket, n: nat, limits: seq<JointLimit>, a: seq<Event>, b: seq<Event>)
    requires (limits == [] || |limits| == n) && Kept(ipc, n, limits, a) && LastTaken(a) == LastTaken(b)
    ensures Kept(ipc, n, limits, b)
  {
    hide Admitted, Keeps, LastTaken;
  }

  lemma TurnOf(u: Setup, motors: seq<Motor>, plant: Plant, i: nat, slot: nat)
    requires Describes(u, motors, plant) && i < |motors|
    ensures u.Turn(i, slot) == if Due(motors[i].cfg.pollRate, motors[i].pollPhase, slot) then 1 else 0
  {
    hide Setup.Valid, Due;
  }

  /** The frame a motor was just sent is the one the events call for. */
  lemma FrameGoesOut(motors: seq<Motor>, u: Setup, prepared: seq<Event>, events: seq<Event>,
                     slot: nat, times: seq<int>, i: nat, e: Event)
    requires u.Valid() && |u.cfgs| == |motors| && i < |motors| && u.cfgs[i] == motors[i].cfg && u.phases[i] == motors[i].pollPhase
    requires Driven(u, prepared, events) && MayDrive(u, prepared, events, slot, times)
    requires !Failed(events) && Wakes(events) == slot + 1 && ServedUpTo(u, events, i)
    requires Due(motors[i].cfg.pollRate, motors[i].pollPhase, slot)
    requires Remembers(motors, prepared, events) && Holding(motors, u, events) && e.Policy? && e.motor == i
    requires var words := PolicyWords(motors[i].cfg, motors[i].previewInitialized, motors[i].preview,
                                      motors[i].Feedback(), u.saturating).words;
             words.Ok? && e.data == Pack(words.value)
    ensures var b := events + [e];
            && Driven(u, prepared, b) && MayDrive(u, prepared, b, slot, times) && Passes(b) == Passes(events)
            && SameReplies(prepared, events, b) && LastTaken(prepared + b) == LastTaken(prepared + events)
            && (Failed(b) <==> !e.written) && Wakes(b) == Wakes(events)
            && (forall m: nat :: Commands(b, m) == Commands(events, m) + if i == m && e.written then 1 else 0)
            && (forall m: nat :: SentInSlot(b, m) == SentInSlot(events, m) + if i == m then 1 else 0)
  {
    hide Driven, MayDrive, Passes, Commands, SentInSlot, Setup.Valid, Due, PolicyWords, Pack, SameReplies, LastTaken, RemembersOne;
    hide ServedUpTo, WakeTimes;
    assert RemembersOne(TrackOf(motors[i]), prepared, events, i);
    assert HeldBy(motors[i]) == u.Holds(i, events);
    FrameIsJust(u, prepared, events, slot, times, TrackOf(motors[i]), HeldBy(motors[i]), e);
    FrameKeeps(u, prepared, events, e, slot, times);
  }

  /** First half of an active slot: targets, watchdog, preview, policy frames. */
  method DriveCommands(motors: seq<Motor>, plant: Plant, ipc: IpcSocket, slot: nat, woke: int, count: nat,
                       ghost times: seq<int>, ghost u: Setup, ghost prepared: seq<Event>, ghost before: seq<Event>)
    returns (fault: Option<RunFault>, next: nat, ghost events: seq<Event>)
    requires Usable(motors) && Describes(u, motors, plant) && Driving(motors, ipc, u, prepared, before)
    requires InSlot(u, before, slot, times) && times[slot] == woke && NoneSent(before) && Opening(before)
    requires count == |Passes(before)| == PreviewsBefore(slot)
    modifies ipc, motors`preview, motors`previewInitialized, motors`saturationCount, motors`maxUnsaturatedTorque,
             motors`maxEstimatedTorque, motors`txCount, motors`maxCommandedTorque
    ensures Driven(u, prepared, events)
    ensures fault.None? ==> Driving(motors, ipc, u, prepared, events) && InSlot(u, events, slot, times)
    ensures fault.None? ==> next == |Passes(events)| == PreviewsBefore(slot + 1)
    ensures fault.None? ==> SlotDone(u, prepared, events)
  {
    hide Driving, Driven, InSlot, Passes, NoneSent, PreviewsBefore, SlotDone, Setup.Valid, Opening;
    fault, next, events := DrivePreview(motors, plant, ipc, slot, woke, count, times, u, prepared, before);
    if fault.Some? {
      return;
    }
    assert MayDrive(u, prepared, events, slot, times);
    fault, events := DriveSlot(motors, plant, ipc, slot, times, u, prepared, events);
  }

  /** Second half: feedback, the enable check, the state message. */
  method DriveReplies(motors: seq<Motor>, plant: Plant, ipc: IpcSocket, slot: nat, ghost times: seq<int>,
                      ghost u: Setup, ghost prepared: seq<Event>, ghost before: seq<Event>)
    returns (fault: Option<RunFault>, ghost events: seq<Event>)
    requires Usable(motors) && Feeds(plant.feedback, |motors|) && Describes(u, motors, plant)
    requires Driving(motors, ipc, u, prepared, before) && InSlot(u, before, slot, times) && SlotDone(u, prepared, before)
    modifies ipc, motors`lastPosition, motors`lastVelocity, motors`lastStatus, motors`filteredMos, motors`filteredRotor,
             motors`rxCount, motors`seen, motors`finalDisabled
    ensures Driven(u, prepared, events) && WakeTimes(events) == times
    ensures fault.None? ==> Driving(motors, ipc, u, prepared, events) && Passes(events) == Passes(before)
    ensures fault.None? ==> SlotDone(u, prepared, events)
    ensures fault.None? && slot >= ENABLE_SLOTS ==> AllSayEnabled(events, |motors|)
  {
    hide Driven, Sent, AllSayEnabled, Holding, Passes, WakeTimes, Remembers, Setup.Valid, Keeps, Admitted, LastTaken, SlotDone;
    hide Failed, Tells, Reported, Tracks, Just;
    fault, events := DriveListen(motors, plant, ipc, slot < ENABLE_SLOTS, u, prepared, before);
    if fault.Some? {
      return;
    }
    if slot == ENABLE_SLOTS {
      for i := 0 to |motors|
        invariant forall m :: 0 <= m < i ==> motors[m].lastStatus == 1
      {
        if motors[i].lastStatus != 1 {
          return Some(NotEnabled), events;
        }
      }
      StatusIsSaid(motors, prepared, events);
    }
    var all := AllSeen(motors);
    if slot % 40 == 39 && all {
      ghost var told;
      fault, told := PublishState(motors, plant, ipc, prepared + events);
      RememberedIsReported(motors, prepared, events);
      ToldIsReported(Tracks(motors), prepared + events, told);
      PublishIsJust(u, prepared, events, told, slot);
      PublishKeeps(motors, ipc, u, prepared, events, told);
      events := events + [told];
    }
  }

  lemma RememberedIsReported(motors: seq<Motor>, prepared: seq<Event>, events: seq<Event>)
    requires Remembers(motors, prepared, events)
    ensures Reported(Tracks(motors), prepared + events)
  {
    hide LastReply, Replies, StateOf;
    forall m | 0 <= m < |motors|
      ensures LastReply(prepared + events, m).Some? && TrackOf(motors[m]).feedback == StateOf(prepared + events, m)
    {
      assert RemembersOne(TrackOf(motors[m]), prepared, events, m);
    }
  }

  lemma PublishIsJust(u: Setup, prepared: seq<Event>, a: seq<Event>, e: Event, slot: nat)
    requires u.Valid() && e.Publish? && SlotDone(u, prepared, a) && !Failed(a) && |WakeTimes(a)| == slot + 1 && slot % 40 == 39
    requires Tells(|u.cfgs|, prepared + a, e)
    ensures Just(u, prepared, a, e)
  {
    hide SlotDone, Failed, Tells, WakeTimes, Setup.Valid;
    assert Wakes(a) % 40 == 0;
  }

  /** A state message leaves everything as it is, and lets the run go on if it was delivered. */
  lemma PublishKeeps(motors: seq<Motor>, ipc: IpcSocket, u: Setup, prepared: seq<Event>, a: seq<Event>, e: Event)
    requires u.Valid() && |u.cfgs| == |motors| && (u.limits == [] || |u.limits| == |motors|)
    requires Driving(motors, ipc, u, prepared, a) && SlotDone(u, prepared, a) && e.Publish? && Just(u, prepared, a, e)
    ensures var b := a + [e];
            && Driven(u, prepared, b) && SlotDone(u, prepared, b) && Passes(b) == Passes(a) && WakeTimes(b) == WakeTimes(a)
            && (e.written ==> Driving(motors, ipc, u, prepared, b))
            && (AllSayEnabled(a, |motors|) ==> AllSayEnabled(b, |motors|))
  {
    hide Driven, Remembers, Sent, Holding, AllSayEnabled, SameReplies, SameCommands, NoneSent, Kept, Setup.Valid, PreviewsBefore;
    hide SlotDone, Just;
    var b := a + [e];
    Next(a, e);
    QuietNext(prepared, a, e);
    DrivenNext(u, prepared, a, e);
    StaysDone(u, prepared, a, e);
    RemembersKept(motors, prepared, a, b);
    SentKept(motors, a, b);
    HoldingKept(motors, u, a, b);
    KeptSame(ipc, |motors|, u.limits, prepared + a, prepared + b);
    if AllSayEnabled(a, |motors|) {
      EnabledSame(prepared, a, b, |motors|);
    }
    hide WakeTimes, Passes, LastTaken;
  }

  lemma StatusIsSaid(motors: seq<Motor>, prepared: seq<Event>, events: seq<Event>)
    requires Remembers(motors, prepared, events) && forall m :: 0 <= m < |motors| ==> motors[m].lastStatus == 1
    ensures AllSayEnabled(events, |motors|)
  {
    hide LastReply, Replies;
    forall m | 0 <= m < |motors| ensures SaysEnabled(events, m) {
      assert RemembersOne(TrackOf(motors[m]), prepared, events, m);
    }
  }

  /** Draining feedback while driving: both statuses pass early on, later only enabled. */
  method DriveListen(motors: seq<Motor>, plant: Plant, ghost ipc: IpcSocket, early: bool,
                     ghost u: Setup, ghost prepared: seq<Event>, ghost before: seq<Event>)
    returns (fault: Option<RunFault>, ghost events: seq<Event>)
    requires Usable(motors) && Feeds(plant.feedback, |motors|) && Describes(u, motors, plant)
    requires Driving(motors, ipc, u, prepared, before) && SlotDone(u, prepared, before)
    requires early ==> |WakeTimes(before)| <= ENABLE_SLOTS
    modifies motors`lastPosition, motors`lastVelocity, motors`lastStatus, motors`filteredMos, motors`filteredRotor,
             motors`rxCount, motors`seen, motors`finalDisabled
    ensures Driven(u, prepared, events) && SlotDone(u, prepared, events) && !Failed(events)
    ensures WakeTimes(events) == WakeTimes(before) && Passes(events) == Passes(before)
    ensures fault.None? ==> Driving(motors, ipc, u, prepared, events)
    ensures !early && AllSayEnabled(before, |motors|) ==> AllSayEnabled(events, |motors|)
  {
    hide Follow, Driven, AllSayEnabled, Sent, Holding, Passes, Remembers, Kept, SameCommands, WakeTimes, Setup.Valid, Tracks;
    hide Hears, RemembersOne, LastTaken, LastReply, SlotDone, Failed;
    ghost var was := Tracks(motors);
    var expected := if early then Tolerant else Status(1);
    ghost var heard;
    RememberedBy(motors, prepared, before, was);
    fault, heard := DrainFeedback(motors, plant.feedback, expected, true);
    RepliesKeep(u, prepared, before, heard, expected);
    events := before + heard;
    if fault.None? {
      RememberedAfter(motors, prepared, before, heard, was, expected);
    }
    SentKept(motors, before, events);
    HoldingKept(motors, u, before, events);
    KeptSame(ipc, |motors|, u.limits, prepared + before, prepared + events);
  }

  lemma RememberedBy(motors: seq<Motor>, prepared: seq<Event>, events: seq<Event>, tracks: seq<Track>)
    requires Remembers(motors, prepared, events) && |tracks| == |motors|
    requires forall m :: 0 <= m < |motors| ==> tracks[m] == TrackOf(motors[m])
    ensures forall m :: 0 <= m < |motors| ==> RemembersOne(tracks[m], prepared, events, m)
  {
    hide RemembersOne;
  }

  lemma RememberedAfter(motors: seq<Motor>, prepared: seq<Event>, a: seq<Event>, heard: seq<Event>,
                        was: seq<Track>, expected: Expected)
    requires |was| == |motors| && forall m :: 0 <= m < |motors| ==> RemembersOne(was[m], prepared, a, m)
    requires forall m :: 0 <= m < |motors| ==> TrackOf(motors[m]) == Follow(was[m], m, heard, expected)
    ensures Remembers(motors, prepared, a + heard)
  {
    hide RemembersOne, Follow;
    forall m | 0 <= m < |motors| ensures RemembersOne(TrackOf(motors[m]), prepared, a + heard, m) {
      RemembersMore(was[m], prepared, a, heard, m, expected);
    }
  }

  lemma RemembersMore(t: Track, prepared: seq<Event>, a: seq<Event>, heard: seq<Event>, m: nat, expected: Expected)
    requires RemembersOne(t, prepared, a, m)
    ensures RemembersOne(Follow(t, m, heard, expected), prepared, a + heard, m)
  {
    hide *;
    assert prepared + (a + heard) == prepared + a + heard;
    FollowIsLast(t, m, heard, expected);
    MotorConcat(prepared + a, heard, m);
    MotorConcat(a, heard, m);
    StillRemembered(t, Follow(t, m, heard, expected), prepared, a, a + heard, LastReply(heard, m), m);
  }

  lemma StillRemembered(t: Track, f: Track, prepared: seq<Event>, a: seq<Event>, b: seq<Event>, last: Option<Event>, m: nat)
    requires RemembersOne(t, prepared, a, m)
    requires LastReply(prepared + b, m) == if last.Some? then last else LastReply(prepared + a, m)
    requires LastReply(b, m) == if last.Some? then last else LastReply(a, m)
    requires if last.Some? then last.value.Reply? && f.feedback == last.value.feedback && f.status == last.value.status
             else f.feedback == t.feedback && f.status == t.status
    requires f.rx == t.rx + Replies(b, m) - Replies(a, m)
    ensures RemembersOne(f, prepared, b, m)
  {
    hide LastReply, Replies;
  }

  lemma RepliesKeep(u: Setup, prepared: seq<Event>, a: seq<Event>, b: seq<Event>, expected: Expected)
    requires u.Valid() && Driven(u, prepared, a) && SlotDone(u, prepared, a) && !Failed(a) && Hears(b, expected, u.cfgs, true)
    requires expected == Status(1) || (expected == Tolerant && |WakeTimes(a)| <= ENABLE_SLOTS)
    ensures Driven(u, prepared, a + b) && SlotDone(u, prepared, a + b) && !Failed(a + b) && SameCommands(a, a + b)
    ensures Passes(a + b) == Passes(a) && WakeTimes(a + b) == WakeTimes(a)
    ensures LastTaken(prepared + (a + b)) == LastTaken(prepared + a)
    ensures expected == Status(1) && AllSayEnabled(a, |u.cfgs|) ==> AllSayEnabled(a + b, |u.cfgs|)
  {
    hide Driven, SlotDone, Failed;
    forall k | 0 <= k < |b| ensures b[k].Reply? && Just(u, prepared, a, b[k]) {
    }
    DrivenByReplies(u, prepared, a, b);
    Concat(a, b);
    InputsOnly(b, 0);
    assert prepared + (a + b) == prepared + a + b;
    NoTargets(prepared + a, b);
    forall m: nat ensures Commands(a + b, m) == Commands(a, m) {
      MotorConcat(a, b, m);
      InputsOnly(b, m);
    }
    if expected == Status(1) && AllSayEnabled(a, |u.cfgs|) {
      forall m | 0 <= m < |u.cfgs| ensures SaysEnabled(a + b, m) {
        assert SaysEnabled(a, m);
        MotorConcat(a, b, m);
      }
    }
  }

  // ---- the active interval -------------------------------------------------

  method CoverageHolds(motors: seq<Motor>) returns (ok: bool)
    ensures ok <==> forall m :: 0 <= m < |motors| ==>
                      motors[m].txCount > 0 && 100 * motors[m].rxCount >= 95 * motors[m].txCount
  {
    for i := 0 to |motors|
      invariant forall m :: 0 <= m < i ==> motors[m].txCount > 0 && 100 * motors[m].rxCount >= 95 * motors[m].txCount
    {
      var coverage := if motors[i].txCount > 0 then motors[i].rxCount as real / motors[i].txCount as real else 0.0;
      if motors[i].txCount > 0 {
        RatioAtLeast(motors[i].rxCount, motors[i].txCount);
      }
      if coverage < 0.95 {
        return false;
      }
    }
    return true;
  }

  lemma RatioAtLeast(rx: nat, tx: nat)
    requires tx > 0
    ensures rx as real / tx as real < 0.95 <==> 100 * rx < 95 * tx
  {
    QuotientAtLeast(rx as real, tx as real, 0.95);
  }

  /** Nothing heard, nothing sent. */
  predicate AtRest(t: Track) { t.status == 0 && t.rx == 0 }

  /** One active slot. `sleep_until` returns no earlier than the deadline and the clock never
      goes back, so the reading is no earlier than either; how much later is arbitrary. */
  method DriveOnce(motors: seq<Motor>, plant: Plant, ipc: IpcSocket, start: int, slot: nat, count: nat, last: int,
                   ghost u: Setup, ghost prepared: seq<Event>, ghost before: seq<Event>)
    returns (fault: Option<RunFault>, next: nat, late: bool, woke: int, ghost events: seq<Event>)
    requires Usable(motors) && Feeds(plant.feedback, |motors|) && Describes(u, motors, plant) && u.start == start
    requires Driving(motors, ipc, u, prepared, before) && SlotDone(u, prepared, before) && |WakeTimes(before)| == slot
    requires LastWake(before).Some? ==> LastWake(before).value == last
    requires count == |Passes(before)| == PreviewsBefore(slot)
    requires slot > ENABLE_SLOTS ==> AllSayEnabled(before, |motors|)
    modifies ipc, motors
    ensures Driven(u, prepared, events)
    ensures fault.None? ==> Driving(motors, ipc, u, prepared, events)
    ensures fault.None? ==> WakeTimes(events) == WakeTimes(before) + [woke]
    ensures fault.None? && !late && slot % 4 == 0 ==> woke < u.Deadline(slot) + LATE_NS
    ensures fault.None? ==> next == |Passes(events)| == PreviewsBefore(slot + 1)
    ensures fault.None? && slot >= ENABLE_SLOTS ==> AllSayEnabled(events, |motors|)
    ensures fault.None? ==> SlotDone(u, prepared, events)
  {
    hide Driving, Driven, AllSayEnabled, Passes, WakeTimes, NoneSent, PreviewsBefore, Setup.Valid, InSlot, SlotDone, LastWake;
    next, late, woke, events := count, false, last, before;
    DrivingIsDriven(motors, ipc, u, prepared, before);
    var stop: bool := *;
    if stop {
      fault := Some(Stopped);
      return;
    }
    var deadline := start + slot * PERIOD_NS;
    var earliest := if last < deadline then deadline else last;
    woke :| woke >= earliest;
    late := slot % 4 == 0 && woke - deadline >= LATE_NS;
    SlotBegins(motors, ipc, u, prepared, before, slot, woke);
    ghost var begun := before + [Wake(woke)];
    ghost var times := WakeTimes(before) + [woke];
    fault, next, events := DriveCommands(motors, plant, ipc, slot, woke, count, times, u, prepared, begun);
    if fault.Some? {
      return;
    }
    fault, events := DriveReplies(motors, plant, ipc, slot, times, u, prepared, events);
  }

  lemma SlotBegins(motors: seq<Motor>, ipc: IpcSocket, u: Setup, prepared: seq<Event>, before: seq<Event>, slot: nat, woke: int)
    requires u.Valid() && |u.cfgs| == |motors| && (u.limits == [] || |u.limits| == |motors|)
    requires Driving(motors, ipc, u, prepared, before) && SlotDone(u, prepared, before) && |WakeTimes(before)| == slot
    requires |Passes(before)| == PreviewsBefore(slot) && (slot > ENABLE_SLOTS ==> AllSayEnabled(before, |motors|))
    requires woke >= u.Deadline(slot) && (LastWake(before).Some? ==> woke >= LastWake(before).value)
    ensures var b := before + [Wake(woke)];
            && Driving(motors, ipc, u, prepared, b) && InSlot(u, b, slot, WakeTimes(before) + [woke]) && NoneSent(b)
            && Passes(b) == Passes(before) && Opening(b)
  {
    hide Driven, Remembers, Sent, Holding, AllSayEnabled, SameReplies, SameCommands, NoneSent, Kept, Setup.Valid, PreviewsBefore;
    hide SlotDone;
    var e := Wake(woke);
    var b := before + [e];
    Next(before, e);
    QuietNext(prepared, before, e);
    DrivenNext(u, prepared, before, e);
    RemembersKept(motors, prepared, before, b);
    SentKept(motors, before, b);
    HoldingKept(motors, u, before, b);
    KeptSame(ipc, |motors|, u.limits, prepared + before, prepared + b);
    if slot > ENABLE_SLOTS {
      EnabledSame(prepared, before, b, |motors|);
    }
    hide WakeTimes, Passes, LastTaken;
  }

  /** The active interval. */
  method Drive(motors: seq<Motor>, plant: Plant, ipc: IpcSocket, slots: nat, start: int, ghost u: Setup, ghost prepared: seq<Event>)
    returns (fault: Option<RunFault>, previews: nat, ghost events: seq<Event>)
    requires Usable(motors) && Feeds(plant.feedback, |motors|) && Describes(u, motors, plant) && u.start == start
    requires Driving(motors, ipc, u, prepared, [])
    modifies ipc, motors
    ensures Driven(u, prepared, events)
    ensures fault.None? ==> Covered(events, |motors|) && OnTime(u, events, slots)
    ensures fault.None? ==> |WakeTimes(events)| == slots && Punctual(u, WakeTimes(events))
    ensures fault.None? ==> previews == |Passes(events)| == PreviewsBefore(slots)
  {
    hide AllSayEnabled, Driven, Driving, Covered, Passes, OnTime, WakeTimes, Punctual, Setup.Valid, SlotDone, Failed;
    events := [];
    NothingYet(u, prepared);
    DrivingIsDriven(motors, ipc, u, prepared, events);
    previews := 0;
    var missed, last := false, start;
    for slot := 0 to slots
      invariant Driving(motors, ipc, u, prepared, events) && SlotDone(u, prepared, events) && |WakeTimes(events)| == slot
      invariant LastWake(events).Some? ==> LastWake(events).value == last
      invariant !missed ==> Punctual(u, WakeTimes(events))
      invariant previews == |Passes(events)| == PreviewsBefore(slot)
      invariant slot > ENABLE_SLOTS ==> AllSayEnabled(events, |motors|)
    {
      var late;
      ghost var before := events;
      fault, previews, late, last, events := DriveOnce(motors, plant, ipc, start, slot, previews, last, u, prepared, events);
      missed := missed || late;
      if fault.Some? {
        return;
      }
      PunctualNext(u, WakeTimes(before), last, missed);
    }
    fault, events := DriveListen(motors, plant, ipc, false, u, prepared, events);
    DoneIsOnTime(u, prepared, events);
    if fault.Some? {
      return;
    }
    var covered := CoverageHolds(motors);
    if !covered {
      fault := Some(Coverage);
      return;
    }
    CoveredByCounts(motors, ipc, u, prepared, events);
    if missed {
      fault := Some(Deadline);
    }
  }

  lemma NothingYet(u: Setup, prepared: seq<Event>)
    requires u.Valid()
    ensures SlotDone(u, prepared, []) && WakeTimes([]) == [] && Passes([]) == [] && PreviewsBefore(0) == 0 && Punctual(u, [])
  {
  }

  lemma PunctualNext(u: Setup, times: seq<int>, ns: int, missed: bool)
    requires !missed ==> Punctual(u, times) && (|times| % 4 == 0 ==> ns < u.Deadline(|times|) + LATE_NS)
    ensures !missed ==> Punctual(u, times + [ns])
  {
  }

  lemma DrivingIsDriven(motors: seq<Motor>, ipc: IpcSocket, u: Setup, prepared: seq<Event>, events: seq<Event>)
    requires u.Valid() && |motors| == |u.cfgs| && Driving(motors, ipc, u, prepared, events)
    ensures Driven(u, prepared, events)
  {
  }

  lemma CoveredByCounts(motors: seq<Motor>, ipc: IpcSocket, u: Setup, prepared: seq<Event>, events: seq<Event>)
    requires u.Valid() && |motors| == |u.cfgs| && Driving(motors, ipc, u, prepared, events)
    requires forall m :: 0 <= m < |motors| ==> motors[m].txCount > 0 && 100 * motors[m].rxCount >= 95 * motors[m].txCount
    ensures Covered(events, |motors|)
  {
    hide Commands, Replies, Driven, LastReply, Kept, Holding, Setup.Valid;
    forall m | 0 <= m < |motors| ensures motors[m].rxCount == Replies(events, m) {
      assert RemembersOne(TrackOf(motors[m]), prepared, events, m);
    }
  }

  // ---- shutdown ------------------------------------------------------------

  /** Three rounds of disables, stopping at the first write that fails. */
  method DisableAll(motors: seq<Motor>, writes: (nat, nat) -> bool) returns (fault: Option<RunFault>, ghost events: seq<Event>)
    requires Usable(motors)
    modifies motors`txCount
    ensures events == DisableRounds(|motors|, writes, 3, 0)
    ensures fault.Some? <==> Failed(events)
  {
    events := [];
    for round := 0 to 3
      invariant events == DisableRounds(|motors|, writes, round, 0) && !Failed(events)
    {
      for i := 0 to |motors|
        invariant events == DisableRounds(|motors|, writes, round, i) && !Failed(events)
      {
        ghost var one;
        fault, one := SendSpecial(motors[i], i, false, writes(round, i));
        events := events + [one];
        if fault.Some? {
          assert events == DisableRounds(|motors|, writes, round, i + 1);
          FailureIsLast(|motors|, writes, round, i + 1, 3, 0);
          return;
        }
      }
    }
    return None, events;
  }

  /** Nothing follows a failed write. */
  lemma {:induction false} FailureIsLast(n: nat, writes: (nat, nat) -> bool, round: nat, i: nat, later: nat, j: nat)
    requires i <= n && j <= n && (round < later || (round == later && i <= j))
    requires Failed(DisableRounds(n, writes, round, i))
    ensures DisableRounds(n, writes, later, j) == DisableRounds(n, writes, round, i)
    decreases later, j
  {
    if later == round && i == j {
    } else if j > 0 {
      FailureIsLast(n, writes, round, i, later, j - 1);
    } else {
      FailureIsLast(n, writes, round, i, later - 1, n);
    }
  }

  method ClearFinal(motors: seq<Motor>)
    requires Usable(motors)
    modifies motors`seen, motors`finalDisabled
    ensures forall m :: 0 <= m < |motors| ==> !motors[m].seen && !motors[m].finalDisabled
  {
    for i := 0 to |motors|
      invariant forall m :: 0 <= m < i ==> !motors[m].seen && !motors[m].finalDisabled
    {
      motors[i].seen, motors[i].finalDisabled := false, false;
    }
  }

  method AllDisabled(motors: seq<Motor>) returns (all: bool)
    ensures all <==> forall m :: 0 <= m < |motors| ==> motors[m].finalDisabled
  {
    for i := 0 to |motors|
      invariant forall m :: 0 <= m < i ==> motors[m].finalDisabled
    {
      if !motors[i].finalDisabled {
        return false;
      }
    }
    return true;
  }

  /** After the disables: poll, listen, and insist that every drive was last heard disabled. */
  method VerifyDisabled(motors: seq<Motor>, plant: Plant) returns (fault: Option<RunFault>, ghost events: seq<Event>)
    requires Usable(motors) && Feeds(plant.feedback, |motors|)
    modifies motors
    ensures Verifies(events)
    ensures fault.None? ==> AllSayDisabled(events, |motors|)
  {
    hide Follow, Verifies, Tracks, AllSayDisabled, LastReply;
    events := [];
    assert Verifies(events) by { VerifiesNothing(); }
    ClearFinal(motors);
    ghost var from := Tracks(motors);
    FollowNothing(Tolerant);
    for slot := 0 to 400
      invariant Follows(motors, from, events, Tolerant) && Verifies(events)
    {
      fault, events := VerifySlot(motors, plant, slot, from, events);
      if fault.Some? {
        return;
      }
    }
    fault, events := ListenTolerant(motors, plant, from, events);
    if fault.Some? {
      return;
    }
    var all := AllDisabled(motors);
    if !all {
      return Some(NotDisabled), events;
    }
    SaidDisabled(from, Tracks(motors), events);
  }

  lemma VerifiesNothing()
    ensures Verifies([])
  {
  }

  /** The flag set by the last tolerated reply is what that reply said. */
  lemma SaidDisabled(from: seq<Track>, tracks: seq<Track>, events: seq<Event>)
    requires |from| == |tracks|
    requires forall m :: 0 <= m < |from| ==> !from[m].finalDisabled && tracks[m].finalDisabled
    requires forall m :: 0 <= m < |from| ==> tracks[m] == Follow(from[m], m, events, Tolerant)
    ensures AllSayDisabled(events, |from|)
  {
    forall m | 0 <= m < |from| ensures LastReply(events, m).Some? && LastReply(events, m).value.status == 0 {
      FollowIsLast(from[m], m, events, Tolerant);
    }
  }

  method VerifySlot(motors: seq<Motor>, plant: Plant, slot: nat, ghost from: seq<Track>, ghost before: seq<Event>)
    returns (fault: Option<RunFault>, ghost events: seq<Event>)
    requires Usable(motors) && Feeds(plant.feedback, |motors|) && |from| == |motors|
    requires Follows(motors, from, before, Tolerant) && Verifies(before)
    modifies motors`txCount, motors`lastPosition, motors`lastVelocity, motors`lastStatus, motors`filteredMos,
             motors`filteredRotor, motors`rxCount, motors`seen, motors`finalDisabled
    ensures Verifies(events)
    ensures fault.None? ==> Follows(motors, from, events, Tolerant)
  {
    hide Follow, ZeroGainBytes;
    ghost var sent;
    fault, sent := PollDue(motors, slot);
    SilentExtends(from, before, sent, Tolerant);
    events := before + sent;
    if fault.Some? {
      return;
    }
    fault, events := ListenTolerant(motors, plant, from, events);
  }

  method ListenTolerant(motors: seq<Motor>, plant: Plant, ghost from: seq<Track>, ghost before: seq<Event>)
    returns (fault: Option<RunFault>, ghost events: seq<Event>)
    requires Usable(motors) && Feeds(plant.feedback, |motors|) && |from| == |motors|
    requires Follows(motors, from, before, Tolerant)
    requires Verifies(before)
    modifies motors`lastPosition, motors`lastVelocity, motors`lastStatus, motors`filteredMos, motors`filteredRotor,
             motors`rxCount, motors`seen, motors`finalDisabled
    ensures Verifies(events)
    ensures fault.None? ==> Follows(motors, from, events, Tolerant)
  {
    hide Follow, ZeroGainBytes;
    ghost var heard;
    fault, heard := DrainFeedback(motors, plant.feedback, Tolerant, false);
    ReplyExtends(from, before, heard, Tolerant);
    events := before + heard;
  }

  /** The shutdown, whatever happened before. */
  method Shutdown(motors: seq<Motor>, plant: Plant)
    returns (fault: Option<RunFault>, ghost writes: (nat, nat) -> bool, ghost disables: seq<Event>, ghost verified: seq<Event>)
    requires Usable(motors) && Feeds(plant.feedback, |motors|)
    modifies motors
    ensures disables == DisableRounds(|motors|, writes, 3, 0)
    ensures Verifies(verified) && (Failed(disables) ==> fault.Some? && verified == [])
    ensures fault.None? ==> AllSayDisabled(verified, |motors|)
  {
    hide DisableRounds, LastReply, ZeroGainBytes;
    var outcome: (nat, nat) -> bool := *;
    writes, verified := outcome, [];
    fault, disables := DisableAll(motors, outcome);
    if fault.Some? {
      return;
    }
    fault, verified := VerifyDisabled(motors, plant);
  }

  // ---- the whole run -------------------------------------------------------

  /** The setup of the trace: what the motors hold when driving begins. */
  function SetupOf(motors: seq<Motor>, plant: Plant, held: seq<Held>, start: int): Setup {
    Setup(plant.kin, Configs(motors), Phases(motors), plant.limits, plant.saturating, held, start)
  }

  lemma SetupDescribes(motors: seq<Motor>, plant: Plant, held: seq<Held>, start: int)
    requires Usable(motors) && Loaded(motors) && plant.kin.Has(|motors|) && |held| == |motors|
    requires plant.limits == [] || |plant.limits| == |motors|
    ensures var u := SetupOf(motors, plant, held, start);
            Describes(u, motors, plant) && u.Valid() && u.Scheduled() && u.kin == plant.kin
  {
    var u := SetupOf(motors, plant, held, start);
    assert u.Rows() == RowsOf(motors);
    hide Phase;
  }

  predicate Unset(held: seq<Held>) { forall m :: 0 <= m < |held| ==> !held[m].initialized }

  function NoneHeld(n: nat): (h: seq<Held>)
    ensures |h| == n && Unset(h)
  {
    seq(n, _ => Held(Command(0.0, 0.0, 0.0, 0.0, 0.0), false))
  }

  /** A run that has got no further than its preparation. */
  function Undriven(prepared: seq<Event>, enables: seq<Event>): Run {
    Run(prepared, enables, [], (_, _) => true, [], [])
  }

  /** Reset, enable and drive, once prepared. */
  method PowerUp(motors: seq<Motor>, plant: Plant, ipc: IpcSocket, slots: nat, ghost prepared: seq<Event>)
    returns (fault: Option<RunFault>, ghost u: Setup, ghost run: Run)
    requires Usable(motors) && Loaded(motors) && Feeds(plant.feedback, |motors|) && plant.kin.Has(|motors|)
    requires plant.limits == [] || |plant.limits| == |motors|
    requires Prepares(|motors|, plant.limits, prepared) && Ready(plant.kin, |motors|, prepared)
    requires Kept(ipc, |motors|, plant.limits, prepared) && Reported(Tracks(motors), prepared)
    modifies ipc, motors
    ensures Describes(u, motors, plant) && u.Scheduled() && Unset(u.held) && run.PoweredSafely(u)
    ensures fault.None? ==> run.DroveWell(u, slots)
  {
    hide Ready, Tracks, Enabled, Enables, Prepares, HeldByAll, Driven, Loaded, Kept, Reported, Covered, OnTime;
    hide Setup.Valid, Setup.Scheduled, Describes;
    hide Unset, WakeTimes, Passes, PreviewsBefore;
    ghost var tracks := Tracks(motors);
    ghost var enables, active;
    u := SetupOf(motors, plant, NoneHeld(|motors|), 0);
    SetupDescribes(motors, plant, u.held, 0);
    ResetMotors(motors);
    fault, enables := EnableAll(motors);
    run := Undriven(prepared, enables);
    NothingDriven(u, run);
    if fault.Some? {
      return;
    }
    var start: int := *;
    u := SetupOf(motors, plant, HeldByAll(motors), start);
    SetupDescribes(motors, plant, u.held, start);
    NoneInitialized(motors, u.held);
    DriveStart(motors, ipc, plant, u, prepared, tracks);
    var previews;
    fault, previews, active := Drive(motors, plant, ipc, slots, start, u, prepared);
    run := Run(prepared, enables, active, (_, _) => true, [], []);
  }

  lemma NoneInitialized(motors: seq<Motor>, held: seq<Held>)
    requires |held| == |motors| && forall m :: 0 <= m < |motors| ==> held[m] == HeldBy(motors[m]) && !motors[m].previewInitialized
    ensures Unset(held)
  {
  }

  /** Enabled motors, as they were reset, before the first slot. */
  lemma DriveStart(motors: seq<Motor>, ipc: IpcSocket, plant: Plant, u: Setup, prepared: seq<Event>, tracks: seq<Track>)
    requires Describes(u, motors, plant) && |tracks| == |motors| && Reported(tracks, prepared)
    requires forall m :: 0 <= m < |motors| ==>
               AtRest(TrackOf(motors[m])) && motors[m].txCount == 0 && TrackOf(motors[m]).feedback == tracks[m].feedback
    requires forall m :: 0 <= m < |motors| ==> HeldBy(motors[m]) == u.held[m]
    requires Kept(ipc, |motors|, u.limits, prepared)
    ensures Driving(motors, ipc, u, prepared, [])
  {
    hide Kept, Setup.Valid;
    assert prepared + [] == prepared;
    forall m | 0 <= m < |motors| ensures RemembersOne(TrackOf(motors[m]), prepared, [], m) {
      assert tracks[m].feedback == StateOf(prepared, m);
    }
  }

  /** The guarded part of a run: prepare, enable, drive. */
  method Attempt(motors: seq<Motor>, plant: Plant, ipc: IpcSocket, slots: nat)
    returns (fault: Option<RunFault>, ghost u: Setup, ghost run: Run)
    requires Usable(motors) && Loaded(motors) && Feeds(plant.feedback, |motors|) && plant.kin.Has(|motors|)
    requires (plant.limits == [] || |plant.limits| == |motors|) && ipc.inbox.latest.None? && NoneSeen(motors)
    modifies ipc, motors
    ensures Describes(u, motors, plant) && u.Scheduled() && Unset(u.held) && run.PoweredSafely(u)
    ensures fault.None? ==> run.DroveWell(u, slots)
  {
    hide Ready, Prepares, Loaded, Kept, Reported, Run.DroveWell, Setup.Valid, Setup.Scheduled, Describes, Tracks;
    ghost var prepared;
    fault, prepared := Prepare(motors, plant, ipc);
    u, run := SetupOf(motors, plant, NoneHeld(|motors|), 0), Undriven(prepared, []);
    SetupDescribes(motors, plant, u.held, 0);
    NothingDriven(u, run);
    if fault.Some? {
      return;
    }
    fault, u, run := PowerUp(motors, plant, ipc, slots, prepared);
  }

  lemma NothingDriven(u: Setup, run: Run)
    requires u.Valid() && run.active == [] && Prepares(|u.cfgs|, u.limits, run.prepared)
    requires Enables(run.enables, |u.cfgs|) || run.enables == []
    requires run.enables != [] ==> Ready(u.kin, |u.cfgs|, run.prepared)
    ensures run.PoweredSafely(u)
  {
  }

  /** `run_native_protected_policy`: the guarded part, then the shutdown, whatever happened. */
  method RunNativeProtectedPolicy(motors: seq<Motor>, plant: Plant, ipc: IpcSocket, slots: nat)
    returns (passed: bool, ghost u: Setup, ghost run: Run)
    requires Usable(motors) && Loaded(motors) && Feeds(plant.feedback, |motors|) && plant.kin.Has(|motors|)
    requires (plant.limits == [] || |plant.limits| == |motors|) && ipc.inbox.latest.None? && NoneSeen(motors)
    modifies ipc, motors
    ensures Describes(u, motors, plant) && u.Scheduled() && Unset(u.held)
    ensures run.Safe(u)
    ensures passed ==> run.Succeeded(u, slots)
  {
    hide Run.PoweredSafely, Run.DroveWell, Loaded, Setup.Valid, Setup.Scheduled, DisableRounds, Verifies, AllSayDisabled;
    var failure;
    failure, u, run := Attempt(motors, plant, ipc, slots);
    var late;
    ghost var writes, disables, verified;
    late, writes, disables, verified := Shutdown(motors, plant);
    ghost var attempted := run;
    run := run.(writes := writes, disables := disables, verified := verified);
    SameBeforeShutdown(u, attempted, run, slots);
    return failure.None? && late.None?, u, run;
  }

  lemma SameBeforeShutdown(u: Setup, a: Run, b: Run, slots: nat)
    requires u.Valid() && b == a.(writes := b.writes, disables := b.disables, verified := b.verified)
    ensures a.PoweredSafely(u) ==> b.PoweredSafely(u)
    ensures a.DroveWell(u, slots) ==> b.DroveWell(u, slots)
  {
  }
}
