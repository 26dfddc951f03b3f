/** A safe run in which a 50 Hz frame does not carry what was synthesized in the first slot of its
    forty-slot frame: the third 50 Hz motor of a bus, named an ankle motor. The loader accepts
    such a motor (native/src/sprite_can_shadow.cpp:341-385), and the preview recomputes it in
    every fourth slot (846-860). */
module SlowAnkle {
  import opened Prelude
  import opened Impedance
  import opened MitCodec
  import opened MotorCommand
  import opened Synthesis
  import opened MotorPreview
  import opened Schedule
  import opened PolicyIpc
  import opened RunTrace
  import opened RunSafety
  import opened FrameStart

  const ZERO: seq<real> := [0.0, 0.0, 0.0]
  const REST: State := State(0.0, 0.0)
  const IDLE: Load := Load(0.0, 20, 20)

  function Config(name: string, id: int): MotorConfig {
    MotorConfig(name, "can0", id, id + 16,
                Ranges(Range(-10.0, 10.0), Range(-10.0, 10.0), Range(-10.0, 10.0)), Range(-1.0, 1.0), Range(-2.0, 2.0),
                5.0, 5.0, 10.0, 5.0, 5.0, 80.0, 80.0, 70.0, 70.0, 1.0, 50)
  }

  const PLANT: Kinematics := Kinematics(
    ["ankle_joint", "knee_joint", "hip_joint"], ZERO, [2.0, 2.0, 2.0],
    [[0.0, 0.0, 1.0], [0.0, 1.0, 0.0], [1.0, 0.0, 0.0]], [[0.0, 0.0, 1.0], [0.0, 1.0, 0.0], [1.0, 0.0, 0.0]])

  const UNSET: Held := Held(Command(0.0, 0.0, 0.0, 0.0, 0.0), false)

  const LIMIT: JointLimit := JointLimit(-1.0, 1.0, 1.0, 100.0, 5.0, 2.0)

  const SETUP: Setup := Setup(
    PLANT, [Config("hip_motor", 1), Config("knee_motor", 2), Config("ankle_motor", 3)], [1, 3, 5],
    [LIMIT, LIMIT, LIMIT], false, [UNSET, UNSET, UNSET], 0)

  /** Motors, schedule, joint limits and kinematics are what the loaders accept. */
  ghost predicate Loaded(u: Setup) {
    && u.Valid() && u.Scheduled() && |u.limits| == |u.cfgs| && u.kin.InverseWithin(|u.cfgs|, LOADER_TOLERANCE)
    && forall m :: 0 <= m < |u.cfgs| ==> u.cfgs[m].Accepted() && u.limits[m].Accepted()
  }

  lemma SetupIsLoaded()
    ensures SETUP.Valid() && SETUP.Scheduled() && Loaded(SETUP)
    ensures |SETUP.cfgs| == 3 && IsAnkle(SETUP.cfgs[2]) && !IsAnkle(SETUP.cfgs[0]) && !IsAnkle(SETUP.cfgs[1])
  {
    var rows := SETUP.Rows();
    assert rows == [Row("can0", 50), Row("can0", 50), Row("can0", 50)];
    assert Earlier(rows, 0, "can0", false) == 0;
    assert Earlier(rows, 1, "can0", false) == 1;
    assert Earlier(rows, 2, "can0", false) == 2;
    assert "ankle_motor" <= "ankle_motor"[0..];
    NamedSo("hip_motor");
    NamedSo("knee_motor");
    OwnInverse();
    hide Kinematics.Residual;
  }

  /** The matrix swaps the outer motors, and so does its inverse. */
  lemma OwnInverse()
    ensures PLANT.InverseWithin(3, LOADER_TOLERANCE)
  {
    forall i, j | 0 <= i < 3 && 0 <= j < 3 ensures Abs(PLANT.Residual(3, i, j)) <= LOADER_TOLERANCE {
      forall k | 0 <= k < 3 ensures Product(PLANT.B(i, k), PLANT.A(k, j)) == if k == 2 - i && i == j then 1.0 else 0.0 {
        SwapEntry(i, k);
        SwapEntry(k, j);
        OneTimes(PLANT.A(k, j));
        ZeroTimes(PLANT.A(k, j));
        hide Product, Kinematics.A, Kinematics.B;
      }
      hide Product, Kinematics.A, Kinematics.B;
      SumSingle(3, 2 - i, k => Product(PLANT.B(i, k), PLANT.A(k, j)));
    }
  }

  lemma SwapEntry(i: nat, j: nat)
    requires i < 3 && j < 3
    ensures PLANT.A(i, j) == PLANT.B(i, j) == if i + j == 2 then 1.0 else 0.0
  {
  }

  /** An ankle's name has the letter l in it. */
  lemma NamedSo(name: string)
    ensures Mentions(name, "ankle_motor") ==> 'l' in name
  {
    if i :| 0 <= i <= |name| && "ankle_motor" <= name[i..] {
      assert name[i + 3] == "ankle_motor"[3];
    }
  }

  /** Each motor has its turn in one slot of the first six. */
  lemma TurnIn(m: nat, slot: nat)
    requires m < 3 && slot < 6
    ensures SETUP.Valid() && SETUP.Turn(m, slot) == if slot == 2 * m + 1 then 1 else 0
  {
    SetupIsLoaded();
  }

  /** A target that asks the ankle joint for a torque and nothing else. */
  function Asking(x: real): Target { Target(ZERO, ZERO, ZERO, ZERO, [x, 0.0, 0.0]) }

  /** Taken over at the beginning of a slot, as soon as it was sent. */
  function TakenAt(x: real, slot: nat): Taken { Taken(Asking(x), slot * PERIOD_NS, slot * PERIOD_NS) }

  const PREPARED: seq<Event> :=
    [Reply(0, 0, REST, IDLE), Reply(1, 0, REST, IDLE), Reply(2, 0, REST, IDLE), Event.Accepted(TakenAt(0.0, 0))]

  const ENABLES: seq<Event> := [Enable(0, true), Enable(1, true), Enable(2, true)]

  function PassOf(x: real, refresh: bool): Pass { Pass(PLANT, 3, Asking(x), ZERO, ZERO, refresh, false) }

  lemma AtRestReported(events: seq<Event>)
    requires forall m :: 0 <= m < 3 ==> LastReply(events, m) == Some(Reply(m, 0, REST, IDLE))
    ensures ReportedPositions(events, 3) == ZERO && ReportedVelocities(events, 3) == ZERO && AllHeard(events, 3)
  {
    hide LastReply;
  }

  lemma PreparedSays()
    ensures LastTaken(PREPARED) == Some(TakenAt(0.0, 0))
    ensures forall m :: 0 <= m < 3 ==> LastReply(PREPARED, m) == Some(Reply(m, 0, REST, IDLE))
  {
    var a, b, c := Reply(0, 0, REST, IDLE), Reply(1, 0, REST, IDLE), Reply(2, 0, REST, IDLE);
    assert PREPARED == [] + [a] + [b] + [c] + [Event.Accepted(TakenAt(0.0, 0))];
    Next([] + [a] + [b] + [c], Event.Accepted(TakenAt(0.0, 0)));
    forall m: nat | m < 3 ensures LastReply(PREPARED, m) == Some(Reply(m, 0, REST, IDLE)) {
      MotorNext([], a, m);
      MotorNext([] + [a], b, m);
      MotorNext([] + [a] + [b], c, m);
      MotorNext([] + [a] + [b] + [c], Event.Accepted(TakenAt(0.0, 0)), m);
    }
  }

  lemma JointsAtRest(j: nat)
    requires j < 3
    ensures JointPosition(PLANT, 3, ZERO, j) == 0.0 && JointVelocity(PLANT, 3, ZERO, j) == 0.0
  {
    SumZero(3, m => Product(PLANT.B(j, m), At(ZERO, m) - At(PLANT.motorOffset, m)));
    SumZero(3, m => Product(PLANT.B(j, m), At(ZERO, m)));
  }

  lemma IsReady()
    ensures Ready(SETUP.kin, |SETUP.cfgs|, PREPARED)
  {
    PreparedSays();
    AtRestReported(PREPARED);
    var joints := JointPositions(PLANT, 3, ZERO);
    forall j | 0 <= j < 3 ensures StartGateAt(Asking(0.0), joints, j) {
      JointsAtRest(j);
      assert joints[j] == 0.0;
    }
    hide LastTaken, LastReply;
  }

  /** Every slot begins on time. */
  function OnTheDot(slots: nat): seq<int> { seq(slots, slot => slot * PERIOD_NS) }

  /** What the sequence says so far: the slots begun, the previews made, the target held, and
      whether the frame of the slot in progress has gone out. */
  ghost predicate Reached(events: seq<Event>, slots: nat, passes: seq<Pass>, taken: Taken, sent: bool) {
    && SETUP.Valid() && Driven(SETUP, PREPARED, events) && !Failed(events)
    && WakeTimes(events) == OnTheDot(slots) && Passes(events) == passes
    && LastTaken(PREPARED + events) == Some(taken)
    && (forall m: nat :: m < 3 ==> LastReply(PREPARED + events, m) == Some(Reply(m, 0, REST, IDLE)))
    && (forall m: nat :: m < 3 ==> SentInSlot(events, m) == if sent && slots == 2 * m + 2 then 1 else 0)
  }

  lemma StartReached()
    ensures Reached([], 0, [], TakenAt(0.0, 0), false)
  {
    SetupIsLoaded();
    PreparedSays();
    assert PREPARED + [] == PREPARED;
    assert OnTheDot(0) == [];
  }

  /** One event that is neither a reply nor a state message. */
  lemma Extend(events: seq<Event>, slots: nat, passes: seq<Pass>, taken: Taken, sent: bool, e: Event)
    requires Reached(events, slots, passes, taken, sent) && Just(SETUP, PREPARED, events, e) && !e.Reply? && !e.Publish?
    requires e.Wake? ==> e.ns == slots * PERIOD_NS
    requires e.Policy? ==> e.written && slots == 2 * e.motor + 2 && !sent
    ensures Reached(events + [e], if e.Wake? then slots + 1 else slots, if e.Preview? then passes + [e.pass] else passes,
                    if e.Accepted? then e.taken else taken, e.Policy? || (sent && !e.Wake?))
  {
    hide Just, Driven, Setup.Valid, LastReply, LastTaken, SentInSlot, WakeTimes, Passes, OnTheDot;
    DrivenNext(SETUP, PREPARED, events, e);
    DrivesOn(SETUP, PREPARED, events, e);
    SaysNothing(PREPARED, events, e);
    Next(events, e);
    OneMoreSlot(slots);
  }

  lemma OneMoreSlot(slots: nat)
    ensures OnTheDot(slots + 1) == OnTheDot(slots) + [slots * PERIOD_NS]
  {
  }

  lemma SaysNothing(prepared: seq<Event>, a: seq<Event>, e: Event)
    requires !e.Reply?
    ensures LastTaken(prepared + (a + [e])) == if e.Accepted? then Some(e.taken) else LastTaken(prepared + a)
    ensures forall m: nat :: LastReply(prepared + (a + [e]), m) == LastReply(prepared + a, m)
    ensures forall m: nat :: SentInSlot(a + [e], m)
                             == if e.Wake? then 0 else SentInSlot(a, m) + if e.Policy? && e.motor == m then 1 else 0
  {
    hide *;
    assert prepared + (a + [e]) == prepared + a + [e];
    Next(prepared + a, e);
    forall m: nat ensures LastReply(prepared + (a + [e]), m) == LastReply(prepared + a, m)
                  ensures SentInSlot(a + [e], m)
                          == if e.Wake? then 0 else SentInSlot(a, m) + if e.Policy? && e.motor == m then 1 else 0
    {
      MotorNext(prepared + a, e, m);
      MotorNext(a, e, m);
    }
  }

  /** Driving brings no events of preparation or shutdown. */
  lemma DrivesOn(u: Setup, prepared: seq<Event>, before: seq<Event>, e: Event)
    requires u.Valid() && Just(u, prepared, before, e)
    ensures e.Wake? || e.Accepted? || e.Preview? || e.Policy? || e.Reply? || e.Publish?
  {
    hide Setup.Valid, SlotDone, Opening, PreviewDue, FrameDue, Admitted;
  }

  /** What `Reached` says, over the general predicates. */
  lemma ReachedMeans(events: seq<Event>, slots: nat, passes: seq<Pass>, taken: Taken, sent: bool)
    requires Reached(events, slots, passes, taken, sent) && 0 < slots <= 6 && taken.stamp >= 0
    ensures SETUP.Valid() && Wakes(events) == slots && LastWake(events) == Some((slots - 1) * PERIOD_NS)
    ensures Backed(PREPARED + events) && !Failed(events)
    ensures sent || slots % 2 == 1 ==> ServedUpTo(SETUP, events, 3)
    ensures !sent && slots % 2 == 0 ==> ServedUpTo(SETUP, events, slots / 2 - 1)
  {
    hide Driven, LastReply, LastTaken, SentInSlot, Passes, WakeTimes, Setup.Valid, Setup.Turn;
    Concat(PREPARED, events);
    NoSlotYet();
    forall m: nat | m < 3 ensures SETUP.Turn(m, slots - 1) == if slots == 2 * m + 2 then 1 else 0 {
      TurnIn(m, slots - 1);
    }
    SetupIsLoaded();
  }

  lemma NoSlotYet()
    ensures WakeTimes(PREPARED) == []
  {
    NotDriving(PREPARED, 0);
  }

  /** The next slot begins. */
  lemma WakeUp(events: seq<Event>, slots: nat, passes: seq<Pass>, taken: Taken, sent: bool) returns (next: seq<Event>)
    requires Reached(events, slots, passes, taken, sent) && |passes| == (slots + 3) / 4 && slots <= 6
    requires taken.stamp >= 0 && (sent || slots % 2 == 1 || slots == 0)
    ensures Reached(next, slots + 1, passes, taken, false) && Opening(next)
  {
    hide *;
    PreviewsClosedForm(slots);
    SetupIsLoaded();
    if slots > 0 {
      ReachedMeans(events, slots, passes, taken, sent);
    }
    WakeIsJust(events, slots, passes, taken, sent);
    Extend(events, slots, passes, taken, sent, Wake(slots * PERIOD_NS));
    next := events + [Wake(slots * PERIOD_NS)];
    StillOpening(events, Wake(slots * PERIOD_NS));
  }

  lemma WakeIsJust(events: seq<Event>, slots: nat, passes: seq<Pass>, taken: Taken, sent: bool)
    requires Reached(events, slots, passes, taken, sent) && |passes| == PreviewsBefore(slots) && slots <= 6 && |SETUP.cfgs| == 3
    requires slots > 0 ==>
      && Wakes(events) == slots && LastWake(events) == Some((slots - 1) * PERIOD_NS)
      && Backed(PREPARED + events) && ServedUpTo(SETUP, events, 3)
    ensures Just(SETUP, PREPARED, events, Wake(slots * PERIOD_NS))
  {
    hide Driven, Setup.Valid, LastReply, LastTaken, SentInSlot, WakeTimes, Passes, PreviewsBefore, Backed, ServedUpTo;
    assert SETUP.start == 0;
  }

  /** A target arrives in a slot that has just begun. */
  lemma TakeOver(events: seq<Event>, slots: nat, passes: seq<Pass>, taken: Taken, sent: bool, x: real) returns (next: seq<Event>)
    requires Reached(events, slots, passes, taken, sent) && 0 < slots <= 6 && Opening(events) && taken.stamp >= 0
    requires -2.0 <= x <= 2.0
    ensures Reached(next, slots, passes, TakenAt(x, slots - 1), sent) && Opening(next)
  {
    hide *;
    ReachedMeans(events, slots, passes, taken, sent);
    SetupIsLoaded();
    var e := Event.Accepted(TakenAt(x, slots - 1));
    TargetIsJust(events, x, slots - 1);
    Extend(events, slots, passes, taken, sent, e);
    next := events + [e];
    StillOpening(events, e);
  }

  lemma TargetIsJust(events: seq<Event>, x: real, slot: nat)
    requires SETUP.Valid() && LastWake(events) == Some(slot * PERIOD_NS) && Opening(events) && -2.0 <= x <= 2.0
    ensures Just(SETUP, PREPARED, events, Event.Accepted(TakenAt(x, slot)))
  {
    hide LastWake, Setup.Valid;
  }

  lemma StillOpening(events: seq<Event>, e: Event)
    requires e.Wake? || e.Accepted?
    ensures Opening(events + [e])
  {
  }

  /** The preview of a slot. */
  lemma PreviewNow(events: seq<Event>, slots: nat, passes: seq<Pass>, taken: Taken, sent: bool, pass: Pass) returns (next: seq<Event>)
    requires Reached(events, slots, passes, taken, sent) && 0 < slots <= 6 && Opening(events) && taken.stamp >= 0
    requires (slots - 1) % 4 == 0 && |passes| == (slots + 2) / 4
    requires pass == Pass(PLANT, 3, taken.target, ZERO, ZERO, |passes| % 10 == 0, false)
    ensures Reached(next, slots, passes + [pass], taken, sent)
  {
    hide *;
    PreviewsClosedForm(slots - 1);
    ReachedMeans(events, slots, passes, taken, sent);
    SetupIsLoaded();
    PreviewIsJust(events, slots, passes, taken, sent, pass);
    Extend(events, slots, passes, taken, sent, Preview(pass));
    next := events + [Preview(pass)];
  }

  lemma PreviewIsJust(events: seq<Event>, slots: nat, passes: seq<Pass>, taken: Taken, sent: bool, pass: Pass)
    requires Reached(events, slots, passes, taken, sent) && Opening(events) && |SETUP.cfgs| == 3
    requires slots > 0 && (slots - 1) % 4 == 0 && |passes| == PreviewsBefore(slots - 1)
    requires Wakes(events) == slots && Backed(PREPARED + events) && !Failed(events)
    requires pass == Pass(PLANT, 3, taken.target, ZERO, ZERO, |passes| % 10 == 0, false)
    ensures Just(SETUP, PREPARED, events, Preview(pass))
  {
    hide Driven, LastReply, LastTaken, SentInSlot, Passes, PreviewsBefore, WakeTimes, Backed, Setup.Valid;
    AtRestReported(PREPARED + events);
  }

  /** The frame of a slot. */
  lemma SendFrame(events: seq<Event>, m: nat, passes: seq<Pass>, taken: Taken) returns (next: seq<Event>)
    requires Reached(events, 2 * m + 2, passes, taken, false) && m < 3 && taken.stamp >= 0
    requires |passes| == (2 * m + 5) / 4 && SETUP.WordsFor(m, events, REST).Ok?
    ensures next == events + [Policy(m, true, Pack(SETUP.WordsFor(m, events, REST).value))]
    ensures Reached(next, 2 * m + 2, passes, taken, true)
  {
    hide *;
    PreviewsClosedForm(2 * m + 2);
    ReachedMeans(events, 2 * m + 2, passes, taken, false);
    SetupIsLoaded();
    TurnIn(m, 2 * m + 1);
    var e := Policy(m, true, Pack(SETUP.WordsFor(m, events, REST).value));
    FrameIsJust(events, m, passes, taken);
    Extend(events, 2 * m + 2, passes, taken, false, e);
    next := events + [e];
  }

  lemma FrameIsJust(events: seq<Event>, m: nat, passes: seq<Pass>, taken: Taken)
    requires Reached(events, 2 * m + 2, passes, taken, false) && m < 3 == |SETUP.cfgs| && SETUP.Turn(m, 2 * m + 1) == 1
    requires |passes| == PreviewsBefore(2 * m + 2) && SETUP.WordsFor(m, events, REST).Ok?
    requires Backed(PREPARED + events) && Wakes(events) == 2 * m + 2 && ServedUpTo(SETUP, events, m)
    ensures Just(SETUP, PREPARED, events, Policy(m, true, Pack(SETUP.WordsFor(m, events, REST).value)))
  {
    hide Driven, WakeTimes, Passes, LastReply, LastTaken, SentInSlot, Setup.WordsFor, Pack, Backed, PreviewsBefore, Due;
    hide ServedUpTo, Setup.Valid;
    assert LastReply(PREPARED + events, m) == Some(Reply(m, 0, REST, IDLE));
  }

  /** The ankle motor's command is whatever the target asks of its joint. */
  lemma AnkleAsks(x: real)
    requires -2.0 <= x <= 2.0
    ensures SynthesizeAnkle(PLANT, 3, Asking(x), ZERO, ZERO, 2) == Command(0.0, 0.0, 0.0, 0.0, x)
  {
    JointsAtRest(0);
    assert JointTorque(PLANT, 3, Asking(x), ZERO, ZERO, 0) == x by {
      ZeroTimes(0.0);
      hide JointPosition, JointVelocity, Product;
    }
    assert "ankle_" <= "ankle_joint"[0..];
    var f := j => if AnkleJoint(PLANT, j) then Product(PLANT.B(j, 2), JointTorque(PLANT, 3, Asking(x), ZERO, ZERO, j)) else 0.0;
    assert f(0) == x by {
      OneTimes(x);
      hide JointTorque, Product;
    }
    ZeroTimes(JointTorque(PLANT, 3, Asking(x), ZERO, ZERO, 1));
    ZeroTimes(JointTorque(PLANT, 3, Asking(x), ZERO, ZERO, 2));
    hide JointTorque, Product, AnkleJoint;
    SumSingle(3, 0, f);
    SumExt(3, f, j => if AnkleJoint(PLANT, j) then Product(PLANT.B(j, 2), JointTorque(PLANT, 3, Asking(x), ZERO, ZERO, j)) else 0.0);
  }

  /** After two previews an ankle motor holds what the second made, whatever the first did. */
  lemma LatterCounts(cfg: MotorConfig, p: Pass, q: Pass, held: Held)
    requires cfg.cap > 0.0 && IsAnkle(cfg) && !p.saturating && !q.saturating
    ensures HeldAfter(cfg, 2, [p, q], held) == Held(SynthesizeAnkle(q.kin, q.n, q.target, q.position, q.velocity, 2), true)
  {
    assert [p, q][..1] == [p];
    var h := HeldAfter(cfg, 2, [p], held);
    hide HeldAfter;
    assert HeldAfter(cfg, 2, [p, q], held) == q.Result(cfg, 2, h) by { LastResult(cfg, [p], q, held); }
    hide SynthesizeAnkle, IsAnkle, Synthesize;
  }

  lemma LastResult(cfg: MotorConfig, front: seq<Pass>, last: Pass, held: Held)
    requires cfg.cap > 0.0
    ensures HeldAfter(cfg, 2, front + [last], held) == last.Result(cfg, 2, HeldAfter(cfg, 2, front, held))
  {
    assert (front + [last])[..|front|] == front;
    hide Pass.Result;
  }

  /** A small torque request without gains can always be sent. */
  lemma TorqueCanBeSent(cfg: MotorConfig, x: real)
    requires cfg.Accepted() && cfg.ranges.Ordered() && cfg.PositionOk(0.0) && cfg.ranges.position.Contains(0.0)
    requires cfg.ranges.velocity.Contains(0.0) && cfg.ranges.torque.Contains(x)
    requires Step(cfg.ranges.torque, LEVELS12) - cfg.cap <= x <= cfg.cap
    ensures PolicyWords(cfg, true, Command(0.0, 0.0, 0.0, 0.0, x), REST, false).words.Ok?
  {
    var c := Command(0.0, 0.0, 0.0, 0.0, x);
    ZeroWord(KP_RANGE);
    ZeroWord(KD_RANGE);
    EncodeAccepts(c, cfg.ranges);
    DecodeWithinStep(x, cfg.ranges.torque, LEVELS12);
    TorqueWord(c, cfg.ranges);
    ZeroDecodes(KP_RANGE);
    ZeroDecodes(KD_RANGE);
    var d := DecodeWords(EncodeCommand(c, cfg.ranges).value, cfg.ranges);
    ZeroTimes(d.position - 0.0);
    ZeroTimes(d.velocity - 0.0);
    hide Encode, Decode, Product, EncodeCommand;
  }

  lemma TorqueWord(c: Command, ranges: Ranges)
    requires ranges.Proper() && EncodeCommand(c, ranges).Ok?
    ensures var w := EncodeCommand(c, ranges).value;
            && Encode(c.kp, KP_RANGE, LEVELS12) == Ok(w.kp) && Encode(c.kd, KD_RANGE, LEVELS12) == Ok(w.kd)
            && Encode(c.feedforward, ranges.torque, LEVELS12) == Ok(w.torque)
  {
    hide Encode;
  }

  lemma ZeroDecodes(range: Range)
    requires range.low == 0.0
    ensures Decode(0, range, LEVELS12) == 0.0
  {
  }

  predicate NothingAt(v: seq<real>) { forall j :: 0 <= j < |v| ==> v[j] == 0.0 }

  /** A preview that asks for nothing, of a robot at rest at zero. */
  predicate AsksNothing(p: Pass) {
    && NothingAt(p.target.position) && NothingAt(p.target.velocity) && NothingAt(p.target.kp) && NothingAt(p.target.kd)
    && NothingAt(p.target.feedforward) && NothingAt(p.kin.motorOffset) && NothingAt(p.position) && NothingAt(p.velocity)
  }

  /** Then the command of a motor that is not an ankle's asks for nothing either. */
  lemma NothingIsAsked(p: Pass, i: nat)
    requires AsksNothing(p)
    ensures Synthesize(p.kin, p.n, p.target, p.position, p.velocity, i) == Command(0.0, 0.0, 0.0, 0.0, 0.0)
  {
    NothingCoupled(p, p.target.kp, i);
    NothingCoupled(p, p.target.kd, i);
    NothingDesired(p);
    forall x: real ensures Product(x, 0.0) == 0.0 && Product(0.0, x) == 0.0 {
      ZeroTimes(x);
    }
    hide Coupling, DesiredPosition, DesiredVelocity, Product;
    SumZero(p.n, j => Product(p.kin.B(j, i), At(p.target.feedforward, j)));
    forall o: int ensures CrossTerm(p.kin, p.n, p.target, p.position, p.velocity, i, o) == 0.0 {
    }
    hide CrossTerm;
    SumZero(p.n, o => if o == i then 0.0 else CrossTerm(p.kin, p.n, p.target, p.position, p.velocity, i, o));
  }

  lemma NothingCoupled(p: Pass, g: seq<real>, i: int)
    requires NothingAt(g)
    ensures forall o: int :: Coupling(p.kin, p.n, g, i, o) == 0.0
  {
    forall o: int ensures Coupling(p.kin, p.n, g, i, o) == 0.0 {
      forall j: int ensures Product(Product(At(g, j), p.kin.B(j, i)), p.kin.B(j, o)) == 0.0 {
        ZeroTimes(p.kin.B(j, i));
        ZeroTimes(p.kin.B(j, o));
      }
      SumZero(p.n, j => Product(Product(At(g, j), p.kin.B(j, i)), p.kin.B(j, o)));
    }
  }

  lemma NothingDesired(p: Pass)
    requires AsksNothing(p)
    ensures forall o: int :: DesiredPosition(p.kin, p.n, p.target, o) == 0.0 && DesiredVelocity(p.kin, p.n, p.target, o) == 0.0
  {
    forall o: int ensures DesiredPosition(p.kin, p.n, p.target, o) == 0.0 && DesiredVelocity(p.kin, p.n, p.target, o) == 0.0 {
      forall x: real ensures Product(x, 0.0) == 0.0 {
        ZeroTimes(x);
      }
      hide Product;
      SumZero(p.n, j => Product(p.kin.A(o, j), At(p.target.position, j)));
      SumZero(p.n, j => Product(p.kin.A(o, j), At(p.target.velocity, j)));
    }
  }

  /** A small request can be encoded for each of the motors. */
  lemma CanSend(m: nat, x: real)
    requires m < 3 && 0.0 <= x <= 1.0
    ensures SETUP.Valid() && |SETUP.cfgs| == 3
    ensures PolicyWords(SETUP.cfgs[m], true, Command(0.0, 0.0, 0.0, 0.0, x), REST, false).words.Ok?
  {
    SetupIsLoaded();
    TorqueCanBeSent(SETUP.cfgs[m], x);
    hide PolicyWords, IsAnkle;
  }

  lemma WordsOfHeld(u: Setup, events: seq<Event>, m: nat, c: Command)
    requires u.Valid() && m < |u.cfgs| && u.Holds(m, events) == Held(c, true)
    requires PolicyWords(u.cfgs[m], true, c, REST, u.saturating).words.Ok?
    ensures u.WordsFor(m, events, REST).Ok?
  {
    hide PolicyWords, Setup.Holds, Setup.Valid;
  }

  lemma HoldsMeans(u: Setup, events: seq<Event>, m: nat)
    requires u.Valid() && m < |u.cfgs|
    ensures u.Holds(m, events) == HeldAfter(u.cfgs[m], m, Passes(events), u.held[m])
  {
    hide HeldAfter, Passes;
  }

  /** The frame of a motor that is not an ankle's, after one preview that asks for nothing. */
  lemma OtherFrame(u: Setup, events: seq<Event>, m: nat, p: Pass)
    requires u.Valid() && m < |u.cfgs| && Passes(events) == [p] && AsksNothing(p) && p.refresh && !p.saturating
    requires !IsAnkle(u.cfgs[m])
    requires PolicyWords(u.cfgs[m], true, Command(0.0, 0.0, 0.0, 0.0, 0.0), REST, u.saturating).words.Ok?
    ensures u.WordsFor(m, events, REST).Ok?
  {
    hide PolicyWords, HeldAfter, Passes, Synthesize, AsksNothing, IsAnkle, Setup.Holds, Setup.WordsFor;
    NothingIsAsked(p, m);
    RefreshedOnce(u.cfgs[m], m, p, u.held[m]);
    HoldsMeans(u, events, m);
    WordsOfHeld(u, events, m, Command(0.0, 0.0, 0.0, 0.0, 0.0));
  }

  lemma CapsArePositive()
    ensures |SETUP.cfgs| == 3 && (forall m :: 0 <= m < 3 ==> SETUP.cfgs[m].cap > 0.0)
    ensures SETUP.held == [UNSET, UNSET, UNSET] && !SETUP.saturating
  {
  }

  lemma PassIs(x: real, refresh: bool)
    ensures PassOf(x, refresh) == Pass(PLANT, 3, Asking(x), ZERO, ZERO, refresh, false)
  {
  }

  lemma FirstAsksNothing()
    ensures AsksNothing(PassOf(0.0, true)) && PassOf(0.0, true).refresh && !PassOf(0.0, true).saturating
  {
  }

  /** After one refreshing preview a motor that is not an ankle's holds what it made. */
  lemma RefreshedOnce(cfg: MotorConfig, m: nat, p: Pass, held: Held)
    requires cfg.cap > 0.0 && !IsAnkle(cfg) && p.refresh && !p.saturating
    ensures HeldAfter(cfg, m, [p], held) == Held(Synthesize(p.kin, p.n, p.target, p.position, p.velocity, m), true)
  {
    assert [p][..0] == [];
    assert HeldAfter(cfg, m, [], held) == held;
    hide Synthesize, IsAnkle;
  }

  /** The frame of the ankle motor, after the second. */
  lemma AnkleFrame(events: seq<Event>, slots: nat, taken: Taken, sent: bool)
    requires Reached(events, slots, [PassOf(0.0, true), PassOf(1.0, false)], taken, sent)
    ensures SETUP.Valid() && |SETUP.cfgs| == 3 && SETUP.WordsFor(2, events, REST).Ok?
    ensures SETUP.Holds(2, events) == Held(Command(0.0, 0.0, 0.0, 0.0, 1.0), true)
  {
    hide *;
    SetupIsLoaded();
    IsDriven(events, slots, [PassOf(0.0, true), PassOf(1.0, false)], taken, sent);
    CanSend(2, 1.0);
    SecondHeld();
    CapsArePositive();
    HoldsMeans(SETUP, events, 2);
    WordsOfHeld(SETUP, events, 2, Command(0.0, 0.0, 0.0, 0.0, 1.0));
  }

  lemma SecondHeld()
    ensures |SETUP.cfgs| == 3 && SETUP.cfgs[2].cap > 0.0
    ensures HeldAfter(SETUP.cfgs[2], 2, [PassOf(0.0, true), PassOf(1.0, false)], UNSET)
            == Held(Command(0.0, 0.0, 0.0, 0.0, 1.0), true)
  {
    hide *;
    SetupIsLoaded();
    CapsArePositive();
    PassIs(0.0, true);
    PassIs(1.0, false);
    AnkleAsks(1.0);
    LatterCounts(SETUP.cfgs[2], PassOf(0.0, true), PassOf(1.0, false), UNSET);
  }

  /** Slots 0 to 3: a preview of the first target, and the frames of the hip and the knee motor. */
  lemma FirstSlots() returns (events: seq<Event>)
    ensures Reached(events, 4, [PassOf(0.0, true)], TakenAt(0.0, 0), true)
  {
    hide *;
    var p, t := PassOf(0.0, true), TakenAt(0.0, 0);
    BothTargets();
    StartReached();
    SetupIsLoaded();
    CapsArePositive();
    FirstAsksNothing();
    CanSend(0, 0.0);
    CanSend(1, 0.0);
    events := WakeUp([], 0, [], t, false);
    events := PreviewNow(events, 1, [], t, false, p);
    assert [] + [p] == [p];
    events := WakeUp(events, 1, [p], t, false);
    IsDriven(events, 2, [p], t, false);
    OtherFrame(SETUP, events, 0, p);
    events := SendFrame(events, 0, [p], t);
    events := WakeUp(events, 2, [p], t, true);
    events := WakeUp(events, 3, [p], t, false);
    IsDriven(events, 4, [p], t, false);
    OtherFrame(SETUP, events, 1, p);
    events := SendFrame(events, 1, [p], t);
  }

  /** Slots 4 and 5: a preview of a second target, and the beginning of the ankle's slot. */
  lemma UpToAnkle() returns (events: seq<Event>)
    ensures Reached(events, 6, [PassOf(0.0, true), PassOf(1.0, false)], TakenAt(1.0, 4), false)
  {
    hide *;
    var p, q, t := PassOf(0.0, true), PassOf(1.0, false), TakenAt(1.0, 4);
    BothTargets();
    events := FirstSlots();
    events := WakeUp(events, 4, [p], TakenAt(0.0, 0), true);
    events := TakeOver(events, 5, [p], TakenAt(0.0, 0), false, 1.0);
    events := PreviewNow(events, 5, [p], t, false, q);
    assert [p] + [q] == [p, q];
    events := WakeUp(events, 5, [p, q], t, false);
  }

  lemma BothTargets()
    ensures TakenAt(0.0, 0).stamp >= 0 && TakenAt(1.0, 4).stamp >= 0
    ensures PassOf(0.0, true) == Pass(PLANT, 3, TakenAt(0.0, 0).target, ZERO, ZERO, true, false)
    ensures PassOf(1.0, false) == Pass(PLANT, 3, TakenAt(1.0, 4).target, ZERO, ZERO, false, false)
  {
  }

  lemma PreparedWell()
    requires |SETUP.cfgs| == 3 && SETUP.Valid()
    ensures Prepares(|SETUP.cfgs|, SETUP.limits, PREPARED) && Enables(ENABLES, 3) && Enabled(ENABLES, 3)
  {
  }

  lemma Assembled(u: Setup, run: Run)
    requires u.Valid() && Driven(u, run.prepared, run.active) && Ready(u.kin, |u.cfgs|, run.prepared) && run.verified == []
    requires Prepares(|u.cfgs|, u.limits, run.prepared) && Enables(run.enables, |u.cfgs|) && Enabled(run.enables, |u.cfgs|)
    requires run.disables == DisableRounds(|u.cfgs|, run.writes, 3, 0)
    ensures run.Safe(u)
  {
    hide Driven, Ready, DisableRounds, Setup.Valid, Prepares, Enables, Enabled;
  }

  lemma OnTheDotIsPunctual(times: seq<int>, slots: nat)
    requires times == OnTheDot(slots)
    ensures Punctual(SETUP, times)
  {
    assert SETUP.start == 0;
  }

  /** The run: it goes well until the ankle motor was sent its frame in slot 5. */
  lemma TheRun() returns (run: Run, k: nat)
    ensures SETUP.Valid() && run.Safe(SETUP) && |run.active| == k + 1 && run.active[k].Policy? && run.active[k].motor == 2
    ensures Reached(run.active[..k], 6, [PassOf(0.0, true), PassOf(1.0, false)], TakenAt(1.0, 4), false)
    ensures Punctual(SETUP, WakeTimes(run.active))
  {
    hide *;
    SetupIsLoaded();
    IsReady();
    PreparedWell();
    BothTargets();
    var passes, taken := [PassOf(0.0, true), PassOf(1.0, false)], TakenAt(1.0, 4);
    var events := UpToAnkle();
    AnkleFrame(events, 6, taken, false);
    var active := SendFrame(events, 2, passes, taken);
    assert active[..|events|] == events;
    run, k := Run(PREPARED, ENABLES, active, (_, _) => true, DisableRounds(3, (_, _) => true, 3, 0), []), |events|;
    IsDriven(active, 6, passes, taken, true);
    Assembled(SETUP, run);
    OnTheDotIsPunctual(WakeTimes(active), 6);
  }

  lemma IsDriven(events: seq<Event>, slots: nat, passes: seq<Pass>, taken: Taken, sent: bool)
    requires Reached(events, slots, passes, taken, sent)
    ensures SETUP.Valid() && Driven(SETUP, PREPARED, events) && WakeTimes(events) == OnTheDot(slots) && Passes(events) == passes
    ensures Wakes(events) == slots
  {
    hide Driven, Setup.Valid, WakeTimes, Passes, LastReply, LastTaken, SentInSlot;
  }

  /** In that run, all of whose slots are on time and served, the ankle's frame is not made in
      slot 0: it asks for the torque of the second target, while slot 0 synthesized none. */
  lemma SlowAnkleBreaks() returns (run: Run, k: nat)
    ensures SETUP.Valid() && Loaded(SETUP) && run.Safe(SETUP) && Punctual(SETUP, WakeTimes(run.active))
    ensures k < |run.active| && run.active[k].Policy? && run.active[k].motor == 2 < |SETUP.cfgs| && SETUP.cfgs[2].pollRate == 50
    ensures Wakes(run.active[..k]) == 6 && !SynthesizedIn(SETUP, run.active[..k], 2, 0)
    ensures SETUP.Holds(2, run.active[..k]).command.feedforward == 1.0
    ensures Passes(run.active[..k]) != [] && Recomputed(SETUP.cfgs[2], 2, Passes(run.active[..k])[0]).feedforward == 0.0
  {
    hide *;
    SetupIsLoaded();
    run, k := TheRun();
    var passes, taken := [PassOf(0.0, true), PassOf(1.0, false)], TakenAt(1.0, 4);
    IsDriven(run.active[..k], 6, passes, taken, false);
    AnkleFrame(run.active[..k], 6, taken, false);
    AnkleIsSlow();
    SlowFrameFromFrameStart(run, SETUP, k, 2, 0, 5);
    PassIs(0.0, true);
    AnkleAsks(0.0);
    RecomputedAnkle(SETUP.cfgs[2], 2, PassOf(0.0, true));
  }

  lemma AnkleIsSlow()
    ensures |SETUP.cfgs| == |SETUP.phases| == 3 && SETUP.cfgs[2].pollRate == 50 && SETUP.phases[2] == 5
  {
  }

  /** What a preview makes of an ankle motor. */
  lemma RecomputedAnkle(cfg: MotorConfig, i: int, p: Pass)
    requires IsAnkle(cfg)
    ensures Recomputed(cfg, i, p) == SynthesizeAnkle(p.kin, p.n, p.target, p.position, p.velocity, i)
  {
    hide IsAnkle, SynthesizeAnkle, Synthesize;
  }
}
