/** What one run of the protected controller puts on and takes off the CAN buses and the actor's
    socket, as a sequence of events, and when an event may follow the ones before it
    (native/src/sprite_can_shadow.cpp:1551-1822). */
module RunTrace {
  import opened Prelude
  import opened Impedance
  import opened MitCodec
  import opened MotorCommand
  import opened NativeMotor
  import opened Synthesis
  import opened MotorPreview
  import opened Schedule
  import opened PolicyIpc

  /** What a feedback frame says besides status, position and velocity. */
  datatype Load = Load(torque: real, mos: int, rotor: int)

  /** Every write attempt, written or not, every feedback frame a motor accepted, every target
      taken over from the actor, every state sent to it, every completed preview, and the clock
      reading that begins an active slot. */
  datatype Event =
    | ZeroGain(motor: nat, written: bool, data: seq<Byte>)
    | Enable(motor: nat, written: bool)
    | Disable(motor: nat, written: bool)
    | Policy(motor: nat, written: bool, data: seq<Byte>)
    | Reply(motor: nat, status: int, feedback: State, load: Load)
    | Wake(ns: int)
    | Accepted(taken: Taken)
    | Publish(written: bool, position: seq<real>, velocity: seq<real>)
    | Preview(pass: Pass)

  /** Gains and torque of the frame are zero, as the drive decodes it. */
  predicate ZeroGainBytes(data: seq<Byte>) {
    |data| == 8 && var w := Unpack(data);
      w.kp == 0 && w.kd == 0 && (w.velocity == 2047 || w.velocity == 2048) && (w.torque == 2047 || w.torque == 2048)
  }

  /** The torque the drive computes from the frame at the given feedback fits the cap. */
  predicate WithinCap(cfg: MotorConfig, data: seq<Byte>, s: State) {
    |data| == 8 && Abs(WireTorque(cfg, Unpack(data), s)) <= cfg.cap + TOLERANCE
  }

  /** What a drive may report while it is driven: a position inside its hard limits, a velocity and
      a torque inside its guards, and both temperatures below theirs. */
  predicate Tolerable(cfg: MotorConfig, s: State, l: Load) {
    && cfg.hard.low <= s.position <= cfg.hard.high && Abs(s.velocity) <= cfg.maxVelocity && Abs(l.torque) <= cfg.feedbackCap
    && l.mos as real < cfg.mosLimit && l.rotor as real < cfg.rotorLimit
  }

  // ---- what a sequence of events says --------------------------------------

  /** The last thing done was a policy frame, a disable or a state message whose write failed. */
  predicate Failed(events: seq<Event>) { events != [] && WriteFails(events[|events| - 1]) }

  predicate WriteFails(e: Event) { (e.Policy? || e.Disable? || e.Publish?) && !e.written }

  /** The last thing motor `m` said. */
  function LastReply(events: seq<Event>, m: nat): (r: Option<Event>)
    ensures r.Some? ==> r.value.Reply? && r.value.motor == m && r.value in events
  {
    if events == [] then None
    else
      var e := events[|events| - 1];
      if e.Reply? && e.motor == m then Some(e) else LastReply(events[..|events| - 1], m)
  }

  /** The target last taken over. */
  function LastTaken(events: seq<Event>): Option<Taken> {
    if events == [] then None
    else if events[|events| - 1].Accepted? then Some(events[|events| - 1].taken)
    else LastTaken(events[..|events| - 1])
  }

  /** The clock readings that began the slots so far; the slot in progress is the last. */
  function WakeTimes(events: seq<Event>): seq<int> {
    if events == [] then []
    else WakeTimes(events[..|events| - 1]) + if events[|events| - 1].Wake? then [events[|events| - 1].ns] else []
  }

  function Wakes(events: seq<Event>): nat { |WakeTimes(events)| }

  function LastWake(events: seq<Event>): Option<int> {
    var times := WakeTimes(events);
    if times == [] then None else Some(times[|times| - 1])
  }

  /** How many policy frames motor `m` was sent since the slot began. */
  function SentInSlot(events: seq<Event>, m: nat): nat {
    if events == [] || events[|events| - 1].Wake? then 0
    else
      var e := events[|events| - 1];
      SentInSlot(events[..|events| - 1], m) + if e.Policy? && e.motor == m then 1 else 0
  }

  function Passes(events: seq<Event>): seq<Pass> {
    if events == [] then []
    else Passes(events[..|events| - 1]) + if events[|events| - 1].Preview? then [events[|events| - 1].pass] else []
  }

  /** How many replies of a motor, written policy frames to it, and written disables. */
  function Replies(events: seq<Event>, m: nat): nat {
    if events == [] then 0
    else Replies(events[..|events| - 1], m)
         + if events[|events| - 1].Reply? && events[|events| - 1].motor == m then 1 else 0
  }

  function Commands(events: seq<Event>, m: nat): nat {
    if events == [] then 0
    else Commands(events[..|events| - 1], m)
         + if events[|events| - 1].Policy? && events[|events| - 1].motor == m && events[|events| - 1].written then 1 else 0
  }

  function Disables(events: seq<Event>, m: nat): nat {
    if events == [] then 0
    else Disables(events[..|events| - 1], m)
         + if events[|events| - 1] == Disable(m, true) then 1 else 0
  }

  /** Reading a longer sequence, for the functions that look at one motor. */
  lemma {:induction false} MotorConcat(a: seq<Event>, b: seq<Event>, m: nat)
    ensures LastReply(a + b, m) == if LastReply(b, m).Some? then LastReply(b, m) else LastReply(a, m)
    ensures Commands(a + b, m) == Commands(a, m) + Commands(b, m)
    ensures Disables(a + b, m) == Disables(a, m) + Disables(b, m)
    ensures Replies(a + b, m) == Replies(a, m) + Replies(b, m)
    ensures SentInSlot(a + b, m) == SentInSlot(b, m) + if Wakes(b) > 0 then 0 else SentInSlot(a, m)
    decreases |b|
  {
    if b == [] {
      assert a + b == a;
    } else {
      assert (a + b)[..|a + b| - 1] == a + b[..|b| - 1];
      MotorConcat(a, b[..|b| - 1], m);
    }
  }

  /** The same for the others. */
  lemma {:induction false} Concat(a: seq<Event>, b: seq<Event>)
    ensures LastTaken(a + b) == if LastTaken(b).Some? then LastTaken(b) else LastTaken(a)
    ensures WakeTimes(a + b) == WakeTimes(a) + WakeTimes(b)
    ensures Passes(a + b) == Passes(a) + Passes(b)
    decreases |b|
  {
    if b == [] {
      assert a + b == a;
    } else {
      assert (a + b)[..|a + b| - 1] == a + b[..|b| - 1];
      Concat(a, b[..|b| - 1]);
    }
  }

  /** One event further. */
  lemma MotorNext(a: seq<Event>, e: Event, m: nat)
    ensures LastReply(a + [e], m) == if e.Reply? && e.motor == m then Some(e) else LastReply(a, m)
    ensures Commands(a + [e], m) == Commands(a, m) + if e.Policy? && e.motor == m && e.written then 1 else 0
    ensures Disables(a + [e], m) == Disables(a, m) + if e == Disable(m, true) then 1 else 0
    ensures Replies(a + [e], m) == Replies(a, m) + if e.Reply? && e.motor == m then 1 else 0
    ensures SentInSlot(a + [e], m)
            == if e.Wake? then 0 else SentInSlot(a, m) + if e.Policy? && e.motor == m then 1 else 0
  {
    assert (a + [e])[..|a|] == a;
  }

  lemma Next(a: seq<Event>, e: Event)
    ensures LastTaken(a + [e]) == if e.Accepted? then Some(e.taken) else LastTaken(a)
    ensures WakeTimes(a + [e]) == WakeTimes(a) + if e.Wake? then [e.ns] else []
    ensures Passes(a + [e]) == Passes(a) + if e.Preview? then [e.pass] else []
  {
    assert (a + [e])[..|a|] == a;
  }

  /** Nothing of a kind among the events. */
  predicate Silent(events: seq<Event>) { forall k :: 0 <= k < |events| ==> !events[k].Reply? }

  lemma {:induction false} SilentSaysNothing(events: seq<Event>, m: nat)
    requires Silent(events)
    ensures LastReply(events, m).None? && Replies(events, m) == 0
  {
    if events != [] {
      SilentSaysNothing(events[..|events| - 1], m);
    }
  }

  lemma {:induction false} NoTarget(events: seq<Event>)
    requires forall k :: 0 <= k < |events| ==> !events[k].Accepted?
    ensures LastTaken(events).None?
  {
    if events != [] {
      NoTarget(events[..|events| - 1]);
    }
  }

  /** Replies and accepted targets: what comes in. */
  predicate Input(e: Event) { e.Reply? || e.Accepted? }

  lemma {:induction false} InputsOnly(events: seq<Event>, m: nat)
    requires forall k :: 0 <= k < |events| ==> Input(events[k])
    ensures WakeTimes(events) == [] && Passes(events) == []
    ensures Commands(events, m) == 0 && SentInSlot(events, m) == 0 && Disables(events, m) == 0
  {
    if events != [] {
      InputsOnly(events[..|events| - 1], m);
    }
  }

  /** Preparation and enabling begin no slot, preview nothing and send no policy frame. */
  lemma {:induction false} NotDriving(events: seq<Event>, m: nat)
    requires forall k :: 0 <= k < |events| ==>
      !events[k].Wake? && !events[k].Preview? && !events[k].Policy? && !events[k].Disable?
    ensures WakeTimes(events) == [] && Passes(events) == []
    ensures Commands(events, m) == 0 && SentInSlot(events, m) == 0 && Disables(events, m) == 0
  {
    if events != [] {
      NotDriving(events[..|events| - 1], m);
    }
  }

  // ---- what the controller remembers of a motor ----------------------------

  datatype Track = Track(feedback: State, status: int, seen: bool, finalDisabled: bool, rx: nat)

  predicate MarksDisabled(expected: Expected) { expected.Tolerant? || expected.code == 0 }

  function Hear(t: Track, status: int, s: State, expected: Expected): Track {
    Track(s, status, true, if MarksDisabled(expected) then status == 0 else t.finalDisabled, t.rx + 1)
  }

  /** The state of motor `m` after the replies in a sequence of events. */
  function Follow(t: Track, m: nat, events: seq<Event>, expected: Expected): Track {
    if events == [] then t
    else
      var before, e := Follow(t, m, events[..|events| - 1], expected), events[|events| - 1];
      if e.Reply? && e.motor == m then Hear(before, e.status, e.feedback, expected) else before
  }

  lemma {:induction false} FollowConcat(t: Track, m: nat, a: seq<Event>, b: seq<Event>, expected: Expected)
    ensures Follow(t, m, a + b, expected) == Follow(Follow(t, m, a, expected), m, b, expected)
    decreases |b|
  {
    if b == [] {
      assert a + b == a;
    } else {
      assert (a + b)[..|a + b| - 1] == a + b[..|b| - 1];
      FollowConcat(t, m, a, b[..|b| - 1], expected);
    }
  }

  lemma {:induction false} FollowSilent(t: Track, m: nat, events: seq<Event>, expected: Expected)
    requires Silent(events)
    ensures Follow(t, m, events, expected) == t
  {
    if events != [] {
      FollowSilent(t, m, events[..|events| - 1], expected);
    }
  }

  /** What is remembered is what was last said, and how often. */
  lemma {:induction false} FollowIsLast(t: Track, m: nat, events: seq<Event>, expected: Expected)
    ensures var f, l := Follow(t, m, events, expected), LastReply(events, m);
            if l.Some? then
              && f.feedback == l.value.feedback && f.status == l.value.status && f.seen
              && (MarksDisabled(expected) ==> f.finalDisabled == (l.value.status == 0))
            else f == t
    ensures Follow(t, m, events, expected).rx == t.rx + Replies(events, m)
  {
    if events != [] {
      FollowIsLast(t, m, events[..|events| - 1], expected);
    }
  }

  // ---- preparation and enabling --------------------------------------------

  predicate AllHeard(events: seq<Event>, n: nat) { forall m :: 0 <= m < n ==> LastReply(events, m).Some? }

  /** Position and velocity a motor last reported. */
  function StateOf(events: seq<Event>, m: nat): State {
    var l := LastReply(events, m);
    if l.Some? then l.value.feedback else State(0.0, 0.0)
  }

  function ReportedPositions(events: seq<Event>, n: nat): (p: seq<real>)
    ensures |p| == n && forall m :: 0 <= m < n ==> p[m] == StateOf(events, m).position
  {
    seq(n, m requires 0 <= m < n => StateOf(events, m).position)
  }

  function ReportedVelocities(events: seq<Event>, n: nat): (v: seq<real>)
    ensures |v| == n && forall m :: 0 <= m < n ==> v[m] == StateOf(events, m).velocity
  {
    seq(n, m requires 0 <= m < n => StateOf(events, m).velocity)
  }

  /** A state message says what every motor last reported. */
  predicate Tells(n: nat, history: seq<Event>, e: Event)
    requires e.Publish?
  {
    AllHeard(history, n) && e.position == ReportedPositions(history, n) && e.velocity == ReportedVelocities(history, n)
  }

  /** Preparation: zero-gain frames out, replies of disabled drives and admitted targets in. */
  predicate PrepareEvent(n: nat, limits: seq<JointLimit>, e: Event)
    requires limits == [] || |limits| == n
  {
    || (e.ZeroGain? && ZeroGainBytes(e.data))
    || (e.Reply? && e.status == 0)
    || (e.Accepted? && Admitted(n, limits, e.taken)) || e.Publish?
  }

  predicate Prepares(n: nat, limits: seq<JointLimit>, events: seq<Event>)
    requires limits == [] || |limits| == n
  {
    && (forall k {:trigger PrepareEvent(n, limits, events[k])} :: 0 <= k < |events| ==> PrepareEvent(n, limits, events[k]))
    && (forall k {:trigger Tells(n, events[..k], events[k])} ::
          0 <= k < |events| && events[k].Publish? ==> Tells(n, events[..k], events[k]))
  }

  /** Anything but a state message goes on preparing, whatever came before. */
  lemma PreparesMore(n: nat, limits: seq<JointLimit>, a: seq<Event>, b: seq<Event>)
    requires (limits == [] || |limits| == n) && Prepares(n, limits, a)
    requires forall k :: 0 <= k < |b| ==> PrepareEvent(n, limits, b[k]) && (b[k].Publish? ==> k == 0 && Tells(n, a, b[k]))
    ensures Prepares(n, limits, a + b)
  {
    hide PrepareEvent, Tells;
    var all := a + b;
    forall k | 0 <= k < |all|
      ensures PrepareEvent(n, limits, all[k]) && (all[k].Publish? ==> Tells(n, all[..k], all[k]))
    {
      if k < |a| {
        assert all[k] == a[k] && all[..k] == a[..k];
        assert PrepareEvent(n, limits, a[k]);
        if a[k].Publish? {
          assert Tells(n, a[..k], a[k]);
        }
      } else {
        assert all[k] == b[k - |a|];
        assert k == |a| ==> all[..k] == a;
      }
    }
  }

  /** Enabling: one attempt per motor in order, stopping at the first write that fails. */
  predicate Enables(events: seq<Event>, n: nat) {
    && |events| <= n
    && (forall k :: 0 <= k < |events| ==> events[k].Enable? && events[k].motor == k)
    && (forall k :: 0 <= k < |events| - 1 ==> events[k].written)
  }

  predicate Enabled(events: seq<Event>, n: nat) {
    |events| == n && forall k :: 0 <= k < n ==> events[k] == Enable(k, true)
  }

  function JointPositions(kin: Kinematics, n: nat, position: seq<real>): (r: seq<real>)
    ensures |r| == n
  {
    seq(n, j => JointPosition(kin, n, position, j))
  }

  /** The start gate: every drive has reported, and the target last taken over is near the
      reported pose, with nothing else in it. */
  predicate Ready(kin: Kinematics, n: nat, events: seq<Event>) {
    var t := LastTaken(events);
    && AllHeard(events, n) && t.Some? && t.value.target.Has(n)
    && StartGate(t.value.target, JointPositions(kin, n, ReportedPositions(events, n)))
  }

  // ---- driving -------------------------------------------------------------

  const ENABLE_SLOTS: nat := 200

  const PERIOD_NS: int := 500_000
  const LATE_NS: int := 2_000_000

  /** How the driving motors are set up, what their targets are checked against, what they held
      when driving began, and when that was. */
  datatype Setup = Setup(
    kin: Kinematics, cfgs: seq<MotorConfig>, phases: seq<nat>, limits: seq<JointLimit>, saturating: bool,
    held: seq<Held>, start: int)
  {
    function Rows(): (r: seq<Row>)
      ensures |r| == |cfgs| && forall i :: 0 <= i < |cfgs| ==> r[i] == Row(cfgs[i].bus, cfgs[i].pollRate)
    {
      seq(|cfgs|, i requires 0 <= i < |cfgs| => Row(cfgs[i].bus, cfgs[i].pollRate))
    }

    /** Rates and phases are those the loader accepts and assigns. */
    predicate Scheduled() {
      && |phases| == |cfgs| && RatesAccepted(Rows()) && Schedule.Accepted(Rows())
      && forall i :: 0 <= i < |cfgs| ==> phases[i] == Phase(Rows(), i)
    }

    predicate Valid() {
      && |phases| == |cfgs| == |held| && kin.Has(|cfgs|) && (limits == [] || |limits| == |cfgs|)
      && forall m :: 0 <= m < |cfgs| ==> cfgs[m].cap > 0.0 && cfgs[m].ranges.Proper()
    }

    /** What motor `m` holds after the previews so far. */
    function Holds(m: nat, events: seq<Event>): Held
      requires Valid() && m < |cfgs|
    {
      HeldAfter(cfgs[m], m, Passes(events), held[m])
    }

    /** The words motor `m` is sent, computed from a feedback. */
    function WordsFor(m: nat, events: seq<Event>, s: State): Prelude.Result<Words, CommandFault>
      requires Valid() && m < |cfgs|
    {
      var h := Holds(m, events);
      PolicyWords(cfgs[m], h.initialized, h.command, s, saturating).words
    }

    function Deadline(slot: nat): int { start + slot * PERIOD_NS }

    function Turn(m: nat, slot: nat): nat
      requires Valid() && m < |cfgs|
    {
      if Due(cfgs[m].pollRate, phases[m], slot) then 1 else 0
    }
  }

  predicate SaysEnabled(events: seq<Event>, m: nat) {
    var l := LastReply(events, m);
    l.Some? && l.value.status == 1
  }

  predicate AllSayEnabled(events: seq<Event>, n: nat) { forall m :: 0 <= m < n ==> SaysEnabled(events, m) }

  /** The watchdog of the slot in progress found the target last taken over at most 100 ms old. */
  predicate Backed(history: seq<Event>) {
    var t, w := LastTaken(history), LastWake(history);
    t.Some? && w.Some? && w.value - t.value.stamp <= TARGET_TIMEOUT
  }

  /** Of the slot in progress only targets have been dealt with. */
  predicate Opening(before: seq<Event>) {
    before != [] && (before[|before| - 1].Wake? || before[|before| - 1].Accepted?)
  }

  /** Where the loop over the motors of the slot in progress stands: the motors before `i` were
      sent one frame each if it was their turn, and no motor was sent any other. */
  predicate ServedUpTo(u: Setup, before: seq<Event>, i: nat)
    requires u.Valid() && Wakes(before) > 0
  {
    forall m: nat :: m < |u.cfgs| ==> SentInSlot(before, m) == if m < i then u.Turn(m, Wakes(before) - 1) else 0
  }

  /** The slot in progress, if there is one, is complete but for the replies it brings. */
  predicate SlotDone(u: Setup, prepared: seq<Event>, before: seq<Event>)
    requires u.Valid()
  {
    Wakes(before) > 0 ==>
      && Backed(prepared + before) && |Passes(before)| == PreviewsBefore(Wakes(before))
      && ServedUpTo(u, before, |u.cfgs|)
  }

  /** A preview: in every fourth slot, of the target last taken over, from what every motor last
      reported, refreshing every tenth time. */
  predicate PreviewDue(u: Setup, prepared: seq<Event>, before: seq<Event>, pass: Pass)
    requires u.Valid()
  {
    var n, history := |u.cfgs|, prepared + before;
    && Backed(history) && AllHeard(history, n) && Wakes(before) > 0
    && (Wakes(before) - 1) % 4 == 0 && |Passes(before)| == PreviewsBefore(Wakes(before) - 1)
    && pass == Pass(u.kin, n, LastTaken(history).value.target, ReportedPositions(history, n),
                    ReportedVelocities(history, n), |Passes(before)| % 10 == 0, u.saturating)
  }

  /** A policy frame: to a motor whose turn it is, after the frames of the motors before it and
      the preview of the slot, encoding the command the motor holds at what it last reported;
      after the enable window only while every drive says enabled. */
  predicate FrameDue(u: Setup, prepared: seq<Event>, before: seq<Event>, m: nat, data: seq<Byte>)
    requires u.Valid()
  {
    var n, history := |u.cfgs|, prepared + before;
    && m < n && Backed(history) && LastReply(history, m).Some? && Wakes(before) > 0
    && Due(u.cfgs[m].pollRate, u.phases[m], Wakes(before) - 1) && ServedUpTo(u, before, m)
    && |Passes(before)| == PreviewsBefore(Wakes(before))
    && u.WordsFor(m, before, StateOf(history, m)).Ok? && data == Pack(u.WordsFor(m, before, StateOf(history, m)).value)
    && (Wakes(before) - 1 > ENABLE_SLOTS ==> AllSayEnabled(before, n))
  }

  /** When an event may follow the ones before it. `before` is what happened since driving
      began; what was reported and taken over during the preparation still counts. A slot is
      its targets, its preview, its frames and its replies, in this order; a failed write ends
      the driving. */
  predicate Just(u: Setup, prepared: seq<Event>, before: seq<Event>, e: Event)
    requires u.Valid()
  {
    !Failed(before) &&
    match e
    case Wake(ns) =>
      && SlotDone(u, prepared, before) && ns >= u.Deadline(Wakes(before))
      && (LastWake(before).Some? ==> ns >= LastWake(before).value)
      && (Wakes(before) > ENABLE_SLOTS ==> AllSayEnabled(before, |u.cfgs|))
    case Accepted(t) => Opening(before) && Admitted(|u.cfgs|, u.limits, t) && LastWake(before) == Some(t.now)
    case Preview(pass) => Opening(before) && PreviewDue(u, prepared, before, pass)
    case Policy(m, _, data) => FrameDue(u, prepared, before, m, data)
    case Publish(_, _, _) =>
      SlotDone(u, prepared, before) && Wakes(before) > 0 && Wakes(before) % 40 == 0 && Tells(|u.cfgs|, prepared + before, e)
    case Reply(m, status, s, load) =>
      && SlotDone(u, prepared, before) && m < |u.cfgs| && Tolerable(u.cfgs[m], s, load)
      && (status == 1 || (status == 0 && Wakes(before) <= ENABLE_SLOTS))
    case _ => false
  }

  predicate Driven(u: Setup, prepared: seq<Event>, events: seq<Event>)
    requires u.Valid()
  {
    forall k {:trigger Just(u, prepared, events[..k], events[k])} ::
      0 <= k < |events| ==> Just(u, prepared, events[..k], events[k])
  }

  lemma PreviewIsDue(u: Setup, prepared: seq<Event>, events: seq<Event>, k: nat)
    requires u.Valid() && Driven(u, prepared, events) && k < |events| && events[k].Preview?
    ensures PreviewDue(u, prepared, events[..k], events[k].pass)
  {
    hide PreviewDue, Opening, Failed, Setup.Valid;
    assert Just(u, prepared, events[..k], events[k]);
  }

  lemma FrameIsDue(u: Setup, prepared: seq<Event>, events: seq<Event>, k: nat)
    requires u.Valid() && Driven(u, prepared, events) && k < |events| && events[k].Policy?
    ensures FrameDue(u, prepared, events[..k], events[k].motor, events[k].data)
  {
    hide FrameDue, Failed, Setup.Valid;
    assert Just(u, prepared, events[..k], events[k]);
  }

  lemma DrivenNext(u: Setup, prepared: seq<Event>, a: seq<Event>, e: Event)
    requires u.Valid() && Driven(u, prepared, a) && Just(u, prepared, a, e)
    ensures Driven(u, prepared, a + [e])
  {
    hide Just;
    var all := a + [e];
    forall k | 0 <= k < |all| ensures Just(u, prepared, all[..k], all[k]) {
      if k < |a| {
        assert all[..k] == a[..k] && all[k] == a[k];
      } else {
        assert all[..k] == a;
      }
    }
  }

  lemma DrivenPrefix(u: Setup, prepared: seq<Event>, events: seq<Event>, k: nat)
    requires u.Valid() && Driven(u, prepared, events) && k <= |events|
    ensures Driven(u, prepared, events[..k])
  {
    hide Just;
    forall j | 0 <= j < k ensures Just(u, prepared, events[..k][..j], events[..k][j]) {
      assert events[..k][..j] == events[..j];
    }
  }

  /** Targets taken over one after the other. */
  lemma {:induction false} DrivenByTargets(u: Setup, prepared: seq<Event>, a: seq<Event>, b: seq<Event>)
    requires u.Valid() && Driven(u, prepared, a) && Opening(a)
    requires forall k :: 0 <= k < |b| ==> b[k].Accepted? && Just(u, prepared, a, b[k])
    ensures Driven(u, prepared, a + b) && Opening(a + b)
    decreases |b|
  {
    hide Driven, Just;
    if b == [] {
      assert a + b == a;
    } else {
      var front, last := b[..|b| - 1], b[|b| - 1];
      DrivenByTargets(u, prepared, a, front);
      JustLater(u, prepared, a, front, last);
      DrivenNext(u, prepared, a + front, last);
      assert a + b == a + front + [last];
    }
  }

  lemma JustLater(u: Setup, prepared: seq<Event>, a: seq<Event>, front: seq<Event>, e: Event)
    requires u.Valid() && Opening(a + front) && e.Accepted? && Just(u, prepared, a, e)
    requires forall k :: 0 <= k < |front| ==> front[k].Accepted?
    ensures Just(u, prepared, a + front, e)
  {
    hide Admitted, Setup.Valid;
    Concat(a, front);
    InputsOnly(front, 0);
    hide WakeTimes;
  }

  /** Replies one after the other. */
  lemma {:induction false} DrivenByReplies(u: Setup, prepared: seq<Event>, a: seq<Event>, b: seq<Event>)
    requires u.Valid() && Driven(u, prepared, a) && SlotDone(u, prepared, a) && !Failed(a)
    requires forall k :: 0 <= k < |b| ==> b[k].Reply? && Just(u, prepared, a, b[k])
    ensures Driven(u, prepared, a + b) && SlotDone(u, prepared, a + b) && !Failed(a + b)
    decreases |b|
  {
    hide Driven, SlotDone;
    if b == [] {
      assert a + b == a;
    } else {
      var front, last := b[..|b| - 1], b[|b| - 1];
      DrivenByReplies(u, prepared, a, front);
      Concat(a, front);
      InputsOnly(front, 0);
      assert Just(u, prepared, a, last);
      DrivenNext(u, prepared, a + front, last);
      assert a + b == a + front + [last];
      StaysDone(u, prepared, a + front, last);
    }
  }

  /** A reply or a state message changes nothing about the slot it comes in. */
  lemma StaysDone(u: Setup, prepared: seq<Event>, a: seq<Event>, e: Event)
    requires u.Valid() && SlotDone(u, prepared, a) && (e.Reply? || e.Publish?)
    ensures SlotDone(u, prepared, a + [e])
  {
    assert prepared + (a + [e]) == prepared + a + [e];
    Next(a, e);
    Next(prepared + a, e);
    forall m: nat ensures SentInSlot(a + [e], m) == SentInSlot(a, m) {
      MotorNext(a, e, m);
    }
    hide WakeTimes, LastTaken, Passes, SentInSlot, PreviewsBefore, Setup.Valid;
  }

  /** Every motor answered at least 95% of its policy frames. */
  predicate Covered(events: seq<Event>, n: nat) {
    forall m :: 0 <= m < n ==> Commands(events, m) > 0 && 100 * Replies(events, m) >= 95 * Commands(events, m)
  }

  /** Every motor was sent exactly the frames its schedule has in that many slots. */
  predicate OnTime(u: Setup, events: seq<Event>, slots: nat)
    requires u.Valid()
  {
    forall m: nat :: m < |u.cfgs| ==> Commands(events, m) == Turns(u.cfgs[m].pollRate, u.phases[m], 0, slots)
  }

  /** Every fourth slot began less than 2 ms after its deadline. */
  predicate Punctual(u: Setup, times: seq<int>) {
    forall slot :: 0 <= slot < |times| && slot % 4 == 0 ==> times[slot] < u.Deadline(slot) + LATE_NS
  }

  // ---- shutdown ------------------------------------------------------------

  /** The disable loop under given outcomes of its writes: round by round, motor by motor, up to
      motor `i` of a round, ending with the first write that fails. */
  function DisableRounds(n: nat, writes: (nat, nat) -> bool, round: nat, i: nat): seq<Event>
    requires i <= n
    decreases round, i
  {
    if i > 0 then
      var before := DisableRounds(n, writes, round, i - 1);
      if Failed(before) then before else before + [Disable(i - 1, writes(round, i - 1))]
    else if round > 0 then DisableRounds(n, writes, round - 1, n)
    else []
  }

  /** Verification: zero-gain polls out, replies of disabled or enabled drives in. */
  predicate VerifyEvent(e: Event) {
    (e.ZeroGain? && ZeroGainBytes(e.data)) || (e.Reply? && (e.status == 0 || e.status == 1))
  }

  predicate Verifies(events: seq<Event>) {
    forall k {:trigger VerifyEvent(events[k])} :: 0 <= k < |events| ==> VerifyEvent(events[k])
  }

  predicate AllSayDisabled(events: seq<Event>, n: nat) {
    forall m :: 0 <= m < n ==> LastReply(events, m).Some? && LastReply(events, m).value.status == 0
  }

  // ---- the whole run -------------------------------------------------------

  /** The parts of a run in order, and the outcome of the disable write of each round to each
      motor. */
  datatype Run = Run(
    prepared: seq<Event>, enables: seq<Event>, active: seq<Event>,
    writes: (nat, nat) -> bool, disables: seq<Event>, verified: seq<Event>)
  {
    function Events(): seq<Event> { prepared + enables + active + disables + verified }

    /** Everything that holds of the part before the shutdown, however it ended. */
    predicate PoweredSafely(u: Setup)
      requires u.Valid()
    {
      && Prepares(|u.cfgs|, u.limits, prepared)
      && Enables(enables, |u.cfgs|) && (enables != [] ==> Ready(u.kin, |u.cfgs|, prepared))
      && Driven(u, prepared, active)
      && (active != [] ==> Enabled(enables, |u.cfgs|) && Ready(u.kin, |u.cfgs|, prepared))
    }

    /** The shutdown does what its loops do under the given outcomes; a failed write leaves them
        and skips the verification. */
    predicate ShutSafely(n: nat) {
      && disables == DisableRounds(n, writes, 3, 0)
      && Verifies(verified) && (Failed(disables) ==> verified == [])
    }

    /** Everything that holds of every run. */
    predicate Safe(u: Setup)
      requires u.Valid()
    {
      PoweredSafely(u) && ShutSafely(|u.cfgs|)
    }

    /** What a report of success adds to the powered part. */
    predicate DroveWell(u: Setup, slots: nat)
      requires u.Valid()
    {
      && Enabled(enables, |u.cfgs|) && Covered(active, |u.cfgs|) && OnTime(u, active, slots)
      && Wakes(active) == slots && |Passes(active)| == PreviewsBefore(slots)
      && Punctual(u, WakeTimes(active))
    }

    /** What a report of success adds. */
    predicate Succeeded(u: Setup, slots: nat)
      requires u.Valid()
    {
      DroveWell(u, slots) && !Failed(disables) && AllSayDisabled(verified, |u.cfgs|)
    }
  }
}
