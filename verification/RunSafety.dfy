/** Safety of whole runs of the protected controller, for every sequence of events such a run can
    produce (native/src/sprite_can_shadow.cpp:1551-1822). */
module RunSafety {
  import opened Prelude
  import opened Impedance
  import opened MitCodec
  import opened MotorCommand
  import opened NativeMotor
  import opened Synthesis
  import opened MotorPreview
  import opened Schedule
  import opened PolicyIpc
  import opened RunTrace

  // ---- where an event of a run comes from ----------------------------------

  lemma Locate(run: Run, k: nat)
    requires k < |run.Events()|
    ensures var p := |run.prepared|;
            var e := p + |run.enables|;
            var a := e + |run.active|;
            var d := a + |run.disables|;
            run.Events()[k] == if k < p then run.prepared[k] else if k < e then run.enables[k - p]
                               else if k < a then run.active[k - e] else if k < d then run.disables[k - a]
                               else run.verified[k - d]
  {
  }

  lemma {:induction false} RoundsAreDisables(n: nat, writes: (nat, nat) -> bool, round: nat, i: nat)
    requires i <= n
    ensures forall k :: 0 <= k < |DisableRounds(n, writes, round, i)| ==> DisableRounds(n, writes, round, i)[k].Disable?
    decreases round, i
  {
    if i > 0 {
      RoundsAreDisables(n, writes, round, i - 1);
    } else if round > 0 {
      RoundsAreDisables(n, writes, round - 1, n);
    }
  }

  /** Which part an event of a kind belongs to. */
  lemma Kind(run: Run, u: Setup, k: nat)
    requires u.Valid() && run.Safe(u) && k < |run.Events()|
    ensures var e := |run.prepared| + |run.enables|;
            var a := e + |run.active|;
            && (run.Events()[k].Enable? <==> |run.prepared| <= k < e)
            && (run.Events()[k].Policy? || run.Events()[k].Preview? || run.Events()[k].Wake? ==> e <= k < a)
            && (run.Events()[k].Disable? ==> a <= k)
  {
    hide Ready, ZeroGainBytes, Admitted, FrameDue, PreviewDue, SlotDone, DisableRounds, Passes;
    Locate(run, k);
    RoundsAreDisables(|u.cfgs|, run.writes, 3, 0);
    hide Run.Events;
    var e := |run.prepared| + |run.enables|;
    var a := e + |run.active|;
    if k < |run.prepared| {
      assert PrepareEvent(|u.cfgs|, u.limits, run.prepared[k]);
    } else if e <= k < a {
      assert Just(u, run.prepared, run.active[..k - e], run.active[k - e]);
    } else if a + |run.disables| <= k {
      assert VerifyEvent(run.verified[k - a - |run.disables|]);
    }
  }

  lemma EnablePrefix(run: Run, k: nat)
    requires |run.prepared| <= k <= |run.prepared| + |run.enables|
    ensures k <= |run.Events()| && run.Events()[..k] == run.prepared + run.enables[..k - |run.prepared|]
  {
  }

  lemma ActivePrefix(run: Run, k: nat)
    requires |run.prepared| + |run.enables| <= k <= |run.prepared| + |run.enables| + |run.active|
    ensures k <= |run.Events()|
    ensures run.Events()[..k] == run.prepared + run.enables + run.active[..k - |run.prepared| - |run.enables|]
  {
  }

  /** Neither preparing nor enabling begins a slot, previews or drives. */
  lemma BeforeDriving(run: Run, u: Setup, m: nat)
    requires u.Valid() && run.Safe(u)
    ensures var p := run.prepared + run.enables;
            WakeTimes(p) == [] && Passes(p) == [] && SentInSlot(p, m) == 0 && Disables(p, m) == 0
            && LastTaken(p) == LastTaken(run.prepared) && LastReply(p, m) == LastReply(run.prepared, m)
  {
    hide Ready, ZeroGainBytes, Admitted, Driven, Run.ShutSafely;
    var p := run.prepared + run.enables;
    forall k | 0 <= k < |p| ensures !p[k].Wake? && !p[k].Preview? && !p[k].Policy? && !p[k].Disable? {
      if k < |run.prepared| {
        assert p[k] == run.prepared[k] && PrepareEvent(|u.cfgs|, u.limits, run.prepared[k]);
      }
    }
    NotDriving(p, m);
    Concat(run.prepared, run.enables);
    MotorConcat(run.prepared, run.enables, m);
    NoTarget(run.enables);
    SilentSaysNothing(run.enables, m);
    hide LastTaken, LastReply, WakeTimes, Passes, SentInSlot, Disables;
  }

  /** What the functions of the whole run so far are in terms of its driving part. */
  lemma SoFar(run: Run, u: Setup, i: nat, m: nat)
    requires u.Valid() && run.Safe(u) && i <= |run.active|
    ensures var before := run.active[..i];
            var whole := run.prepared + run.enables + before;
            && LastReply(whole, m) == LastReply(run.prepared + before, m)
            && LastTaken(whole) == LastTaken(run.prepared + before)
            && WakeTimes(whole) == WakeTimes(before) == WakeTimes(run.prepared + before)
            && Passes(whole) == Passes(before)
            && SentInSlot(whole, m) == SentInSlot(before, m)
            && (LastReply(before, m).Some? ==> LastReply(whole, m) == LastReply(before, m))
  {
    hide Run.Safe, Setup.Valid;
    var before := run.active[..i];
    BeforeDriving(run, u, m);
    Concat(run.prepared + run.enables, before);
    Concat(run.prepared, before);
    Concat(run.prepared, run.enables);
    MotorConcat(run.prepared + run.enables, before, m);
    MotorConcat(run.prepared, before, m);
    hide LastTaken, LastReply, WakeTimes, Passes, SentInSlot;
  }

  /** Every target the controller works with passed the tests of the drain. */
  lemma {:induction false} TakenIsAdmitted(n: nat, limits: seq<JointLimit>, events: seq<Event>)
    requires limits == [] || |limits| == n
    requires forall k :: 0 <= k < |events| && events[k].Accepted? ==> Admitted(n, limits, events[k].taken)
    ensures LastTaken(events).Some? ==> Admitted(n, limits, LastTaken(events).value)
  {
    hide Admitted;
    if events != [] {
      TakenIsAdmitted(n, limits, events[..|events| - 1]);
    }
  }

  lemma HistoryIsAdmitted(u: Setup, prepared: seq<Event>, active: seq<Event>)
    requires u.Valid() && Prepares(|u.cfgs|, u.limits, prepared) && Driven(u, prepared, active)
    ensures var t := LastTaken(prepared + active); t.Some? ==> Admitted(|u.cfgs|, u.limits, t.value)
  {
    hide Admitted, FrameDue, PreviewDue, ZeroGainBytes;
    var all := prepared + active;
    forall k | 0 <= k < |all| && all[k].Accepted? ensures Admitted(|u.cfgs|, u.limits, all[k].taken) {
      if k < |prepared| {
        assert all[k] == prepared[k] && PrepareEvent(|u.cfgs|, u.limits, prepared[k]);
      } else {
        assert all[k] == active[k - |prepared|] && Just(u, prepared, active[..k - |prepared|], active[k - |prepared|]);
      }
    }
    TakenIsAdmitted(|u.cfgs|, u.limits, all);
  }

  // ---- before anything is enabled ------------------------------------------

  /** Before any enable only zero-gain frames (and earlier enables) were put on the bus, every
      drive had answered disabled, and of the targets received so far the last one was near the
      pose last reported, with zero velocity, gains and feedforward. */
  lemma EnableIsPrepared(run: Run, u: Setup, k: nat)
    requires u.Valid() && run.Safe(u)
    requires k < |run.Events()| && run.Events()[k].Enable?
    ensures forall j :: 0 <= j < k ==>
              var e := run.Events()[j];
              || (e.ZeroGain? && ZeroGainBytes(e.data)) || (e.Reply? && e.status == 0)
              || (e.Accepted? && Admitted(|u.cfgs|, u.limits, e.taken)) || e.Publish? || (e.Enable? && e.written)
    ensures Ready(u.kin, |u.cfgs|, run.Events()[..k])
  {
    hide Ready, Driven, ZeroGainBytes, Admitted, Run.ShutSafely;
    var all, p := run.Events(), |run.prepared|;
    Kind(run, u, k);
    EnablePrefix(run, k);
    forall j | 0 <= j < k
      ensures var e := all[j];
              || (e.ZeroGain? && ZeroGainBytes(e.data)) || (e.Reply? && e.status == 0)
              || (e.Accepted? && Admitted(|u.cfgs|, u.limits, e.taken)) || e.Publish? || (e.Enable? && e.written)
    {
      assert all[j] == all[..k][j];
      if j < p {
        assert all[j] == run.prepared[j] && PrepareEvent(|u.cfgs|, u.limits, run.prepared[j]);
      } else {
        assert all[j] == run.enables[j - p];
      }
    }
    hide Run.Events;
    StaysReady(u.kin, |u.cfgs|, run.prepared, run.enables[..k - p]);
  }

  /** The same in numbers: the frames before an enable have no stiffness, no damping and the middle
      word for the torque, and at the enable every joint of the target last received is within
      0.03 rad of the pose last reported, with velocity, gains and feedforward zero up to 1e-9. */
  lemma EnableInNumbers(run: Run, u: Setup, k: nat)
    requires u.Valid() && run.Safe(u)
    requires k < |run.Events()| && run.Events()[k].Enable?
    ensures forall j :: 0 <= j < k && run.Events()[j].ZeroGain? ==>
              var data := run.Events()[j].data;
              && |data| == 8 && Unpack(data).kp == 0 && Unpack(data).kd == 0
              && (Unpack(data).torque == 2047 || Unpack(data).torque == 2048)
    ensures forall j :: 0 <= j < k && run.Events()[j].Reply? ==> run.Events()[j].status == 0
    ensures var before, n := run.Events()[..k], |u.cfgs|;
            && LastTaken(before).Some? && LastTaken(before).value.target.Has(n)
            && var t := LastTaken(before).value.target;
               forall j :: 0 <= j < n ==>
                 && LastReply(before, j).Some?
                 && Abs(t.position[j] - JointPosition(u.kin, n, ReportedPositions(before, n), j)) <= 0.03
                 && Abs(t.velocity[j]) <= 0.000000001 && Abs(t.kp[j]) <= 0.000000001 && Abs(t.kd[j]) <= 0.000000001
                 && Abs(t.feedforward[j]) <= 0.000000001
  {
    hide Run.Events, Run.Safe, Setup.Valid, Admitted, LastTaken, LastReply, Unpack, JointPosition;
    EnableIsPrepared(run, u, k);
    var before, n := run.Events()[..k], |u.cfgs|;
    var t, p := LastTaken(before).value.target, JointPositions(u.kin, n, ReportedPositions(before, n));
    forall j | 0 <= j < n ensures StartGateAt(t, p, j) && p[j] == JointPosition(u.kin, n, ReportedPositions(before, n), j) {
      assert StartGate(t, p);
    }
  }

  lemma StaysReady(kin: Kinematics, n: nat, a: seq<Event>, b: seq<Event>)
    requires Ready(kin, n, a) && forall k :: 0 <= k < |b| ==> b[k].Enable?
    ensures Ready(kin, n, a + b)
  {
    Concat(a, b);
    NoTarget(b);
    forall m: nat ensures LastReply(a + b, m) == LastReply(a, m) {
      MotorConcat(a, b, m);
      SilentSaysNothing(b, m);
    }
    hide LastReply, LastTaken, StartGate, JointPositions;
    assert ReportedPositions(a + b, n) == ReportedPositions(a, n);
  }

  // ---- while driving -------------------------------------------------------

  /** A policy frame goes out only after every drive was enabled, to a motor whose turn it is in
      the slot in progress and who had none in it; the watchdog of that slot found the target
      last received at most 100 ms old, and that target is within the gain limits and the
      joint envelope; the torque fits the motor's cap at the feedback last heard from it; and
      after the enable window every drive last said enabled. */
  lemma PolicyIsGuarded(run: Run, u: Setup, k: nat)
    requires u.Valid() && run.Safe(u)
    requires k < |run.Events()| && run.Events()[k].Policy?
    ensures var before, m := run.Events()[..k], run.Events()[k].motor;
            && m < |u.cfgs| && Backed(before) && Admitted(|u.cfgs|, u.limits, LastTaken(before).value)
            && Wakes(before) > 0 && Due(u.cfgs[m].pollRate, u.phases[m], Wakes(before) - 1) && SentInSlot(before, m) == 0
            && LastReply(before, m).Some? && WithinCap(u.cfgs[m], run.Events()[k].data, StateOf(before, m))
            && (forall i :: 0 <= i < |u.cfgs| ==> Enable(i, true) in before)
            && (Wakes(before) - 1 > ENABLE_SLOTS ==> AllSayEnabled(before, |u.cfgs|))
  {
    hide Admitted, WithinCap, Run.ShutSafely, Ready, Setup.Valid, Prepares, Driven, AllSayEnabled, LastReply, LastTaken;
    hide WakeTimes, SentInSlot, Due, StateOf, Passes;
    var p, n := |run.prepared|, |run.enables|;
    Kind(run, u, k);
    Locate(run, k);
    ActivePrefix(run, k);
    var i := k - p - n;
    var e, before, whole := run.active[i], run.active[..i], run.Events()[..k];
    FrameIsGuarded(run, u, i);
    SoFar(run, u, i, e.motor);
    forall j | 0 <= j < |u.cfgs| ensures Enable(j, true) in whole {
      assert whole[p + j] == run.enables[j];
    }
    if Wakes(before) - 1 > ENABLE_SLOTS {
      StillEnabled(run, u, i);
    }
    SameState(run.prepared + run.active[..i], whole, e.motor);
    hide Run.Events;
  }

  /** The same in numbers: the target in force is at most 100 ms old at the reading that began the
      slot, and has nonnegative gains, a damping of at most 5 and every joint inside its table row;
      what the drive makes of the frame at what it last reported is at most the cap plus 1e-9; and
      after two hundred slots every drive last said enabled. */
  lemma PolicyInNumbers(run: Run, u: Setup, k: nat)
    requires u.Valid() && run.Safe(u)
    requires k < |run.Events()| && run.Events()[k].Policy?
    ensures var before, times := run.Events()[..k], WakeTimes(run.Events()[..k]);
            && LastTaken(before).Some? && times != [] && times[|times| - 1] - LastTaken(before).value.stamp <= 100_000_000
            && var t := LastTaken(before).value.target;
               && t.Has(|u.cfgs|) && (forall j :: 0 <= j < |u.cfgs| ==> 0.0 <= t.kp[j] && 0.0 <= t.kd[j] <= 5.0)
               && (forall j :: 0 <= j < |u.limits| ==>
                     && u.limits[j].positionMin - 0.000000001 <= t.position[j] <= u.limits[j].positionMax + 0.000000001
                     && Abs(t.velocity[j]) <= u.limits[j].velocityMax + 0.000000001
                     && t.kp[j] <= u.limits[j].kpMax + 0.000000001 && t.kd[j] <= u.limits[j].kdMax + 0.000000001
                     && Abs(t.feedforward[j]) <= u.limits[j].feedforwardMax + 0.000000001)
    ensures var before, e := run.Events()[..k], run.Events()[k];
            && e.motor < |u.cfgs| && |e.data| == 8 && LastReply(before, e.motor).Some?
            && Abs(Torque(DecodeWords(Unpack(e.data), u.cfgs[e.motor].ranges), LastReply(before, e.motor).value.feedback))
               <= u.cfgs[e.motor].cap + 0.000000001
            && (|WakeTimes(before)| > 201 ==>
                  forall i :: 0 <= i < |u.cfgs| ==> LastReply(before, i).Some? && LastReply(before, i).value.status == 1)
  {
    hide Run.Events, Run.Safe, Admitted, LastTaken, LastReply, WakeTimes, SentInSlot, Due, Unpack, Torque, DecodeWords;
    PolicyIsGuarded(run, u, k);
    var before := run.Events()[..k];
    AdmittedInNumbers(|u.cfgs|, u.limits, LastTaken(before).value);
    hide Target.Has;
    if |WakeTimes(before)| > 201 {
      forall i | 0 <= i < |u.cfgs| ensures LastReply(before, i).Some? && LastReply(before, i).value.status == 1 {
        assert SaysEnabled(before, i);
      }
    }
  }

  lemma SameState(a: seq<Event>, b: seq<Event>, m: nat)
    requires LastReply(a, m) == LastReply(b, m)
    ensures StateOf(a, m) == StateOf(b, m)
  {
    hide LastReply;
  }

  /** The same in terms of the driving part. */
  lemma FrameIsGuarded(run: Run, u: Setup, i: nat)
    requires u.Valid() && run.Safe(u) && i < |run.active| && run.active[i].Policy?
    ensures var before, history, m := run.active[..i], run.prepared + run.active[..i], run.active[i].motor;
            && m < |u.cfgs| && Backed(history) && Admitted(|u.cfgs|, u.limits, LastTaken(history).value)
            && Wakes(before) > 0 && Due(u.cfgs[m].pollRate, u.phases[m], Wakes(before) - 1) && SentInSlot(before, m) == 0
            && LastReply(history, m).Some? && WithinCap(u.cfgs[m], run.active[i].data, StateOf(history, m))
            && (Wakes(before) - 1 > ENABLE_SLOTS ==> AllSayEnabled(before, |u.cfgs|))
  {
    hide FrameDue, PreviewDue, Admitted, WithinCap, Ready, Setup.Valid, Prepares, AllSayEnabled, LastReply, LastTaken, WakeTimes;
    hide SentInSlot, Run.ShutSafely, Enabled, Enables, Due;
    var e, before := run.active[i], run.active[..i];
    FrameIsDue(u, run.prepared, run.active, i);
    DrivenPrefix(u, run.prepared, run.active, i);
    HistoryIsAdmitted(u, run.prepared, before);
    FrameFits(u, run.prepared, before, e);
    hide Driven;
    if Wakes(before) - 1 > ENABLE_SLOTS {
      FrameWhenEnabled(u, run.prepared, before, e);
    }
  }

  lemma StillEnabled(run: Run, u: Setup, i: nat)
    requires u.Valid() && run.Safe(u) && i <= |run.active| && AllSayEnabled(run.active[..i], |u.cfgs|)
    ensures AllSayEnabled(run.prepared + run.enables + run.active[..i], |u.cfgs|)
  {
    hide Run.Safe, Setup.Valid, LastReply;
    forall j | 0 <= j < |u.cfgs| ensures SaysEnabled(run.prepared + run.enables + run.active[..i], j) {
      assert SaysEnabled(run.active[..i], j);
      SoFar(run, u, i, j);
    }
  }

  lemma FrameWhenEnabled(u: Setup, prepared: seq<Event>, before: seq<Event>, e: Event)
    requires u.Valid() && e.Policy? && FrameDue(u, prepared, before, e.motor, e.data) && Wakes(before) - 1 > ENABLE_SLOTS
    ensures AllSayEnabled(before, |u.cfgs|)
  {
    hide AllSayEnabled, Setup.Valid, Backed, LastReply, Passes;
  }

  /** What a frame that is due says about itself. */
  lemma FrameFits(u: Setup, prepared: seq<Event>, before: seq<Event>, e: Event)
    requires u.Valid() && e.Policy? && FrameDue(u, prepared, before, e.motor, e.data)
    ensures var m, history := e.motor, prepared + before;
            && m < |u.cfgs| && Backed(history) && Wakes(before) > 0
            && Due(u.cfgs[m].pollRate, u.phases[m], Wakes(before) - 1) && SentInSlot(before, m) == 0
            && LastReply(history, m).Some? && WithinCap(u.cfgs[m], e.data, StateOf(history, m))
  {
    hide AllSayEnabled, Backed, LastReply, Passes, WakeTimes, LastTaken, SentInSlot, HeldAfter, Pack, WithinCap;
    var h := u.Holds(e.motor, before);
    PayloadWithinCap(u.cfgs[e.motor], h.initialized, h.command, StateOf(prepared + before, e.motor), u.saturating);
    hide PolicyWords;
  }

  lemma PayloadWithinCap(cfg: MotorConfig, initialized: bool, c: Command, s: State, bounded: bool)
    requires cfg.cap > 0.0 && cfg.ranges.Proper() && PolicyWords(cfg, initialized, c, s, bounded).words.Ok?
    ensures WithinCap(cfg, Pack(PolicyWords(cfg, initialized, c, s, bounded).words.value), s)
  {
    PolicyWordsAreSafe(cfg, initialized, c, s, bounded);
    var w := PolicyWords(cfg, initialized, c, s, bounded).words.value;
    assert w.Fits();
    UnpackOfPack(w);
    hide WireTorque, Pack, Unpack, PolicyWords;
  }

  /** The actor is told the truth: every state message carries, motor by motor, the position and the
      velocity last reported, and while driving it comes at the end of a forty-slot frame. */
  lemma StateToldIsReported(run: Run, u: Setup, k: nat)
    requires u.Valid() && run.Safe(u) && k < |run.Events()| && run.Events()[k].Publish?
    ensures var before, e, n := run.Events()[..k], run.Events()[k], |u.cfgs|;
            && |e.position| == |e.velocity| == n
            && forall m :: 0 <= m < n ==>
                 && LastReply(before, m).Some?
                 && e.position[m] == LastReply(before, m).value.feedback.position
                 && e.velocity[m] == LastReply(before, m).value.feedback.velocity
    ensures Wakes(run.Events()[..k]) % 40 == 0
  {
    hide Ready, SlotDone, Admitted, FrameDue, PreviewDue, Failed, Setup.Valid, PrepareEvent, LastReply, WakeTimes, Run.ShutSafely;
    PublishPart(run, u, k);
    Locate(run, k);
    var p, n := |run.prepared|, |run.enables|;
    var before := run.Events()[..k];
    if k < p {
      assert before == run.prepared[..k];
      hide Run.Events;
      assert Tells(|u.cfgs|, run.prepared[..k], run.prepared[k]);
      PreparingNeverWakes(run, u, k);
    } else {
      var i := k - p - n;
      ActivePrefix(run, k);
      hide Run.Events;
      assert Just(u, run.prepared, run.active[..i], run.active[i]);
      SoFar(run, u, i, 0);
      forall m: nat ensures LastReply(before, m) == LastReply(run.prepared + run.active[..i], m) {
        SoFar(run, u, i, m);
      }
    }
  }

  /** State messages are sent while preparing and while driving. */
  lemma PublishPart(run: Run, u: Setup, k: nat)
    requires u.Valid() && run.Safe(u) && k < |run.Events()| && run.Events()[k].Publish?
    ensures k < |run.prepared| || |run.prepared| + |run.enables| <= k < |run.prepared| + |run.enables| + |run.active|
  {
    hide Ready, ZeroGainBytes, Admitted, Prepares, Driven, Passes;
    forall j | 0 <= j < |run.verified| ensures !run.verified[j].Publish? {
      assert VerifyEvent(run.verified[j]);
    }
    Locate(run, k);
    RoundsAreDisables(|u.cfgs|, run.writes, 3, 0);
    hide Run.Events;
  }

  lemma PreparingNeverWakes(run: Run, u: Setup, k: nat)
    requires u.Valid() && run.Safe(u) && k <= |run.prepared|
    ensures Wakes(run.prepared[..k]) == 0
  {
    hide Ready, ZeroGainBytes, Admitted, Driven, Run.ShutSafely, WakeTimes;
    forall j | 0 <= j < k
      ensures !run.prepared[..k][j].Wake? && !run.prepared[..k][j].Preview? && !run.prepared[..k][j].Policy? && !run.prepared[..k][j].Disable?
    {
      assert PrepareEvent(|u.cfgs|, u.limits, run.prepared[j]);
    }
    NotDriving(run.prepared[..k], 0);
  }

  /** Whatever drives on has heard nothing alarming: every reply between an enable and a later slot,
      preview or policy frame reported a position inside the hard limits of its motor, a velocity
      and a torque inside its guards, and both temperatures below their limits. */
  lemma NothingAlarmingHeard(run: Run, u: Setup, i: nat, j: nat, k: nat)
    requires u.Valid() && run.Safe(u) && i < j < k < |run.Events()|
    requires run.Events()[i].Enable? && run.Events()[j].Reply?
    requires run.Events()[k].Policy? || run.Events()[k].Preview? || run.Events()[k].Wake?
    ensures var e := run.Events()[j];
            && e.motor < |u.cfgs|
            && var cfg := u.cfgs[e.motor];
               && cfg.hard.low <= e.feedback.position <= cfg.hard.high
               && Abs(e.feedback.velocity) <= cfg.maxVelocity && Abs(e.load.torque) <= cfg.feedbackCap
               && e.load.mos as real < cfg.mosLimit && e.load.rotor as real < cfg.rotorLimit
  {
    hide Ready, Run.ShutSafely, SlotDone, Admitted, FrameDue, PreviewDue, Failed, Setup.Valid, Prepares;
    Kind(run, u, i);
    Kind(run, u, j);
    Kind(run, u, k);
    Locate(run, j);
    var p, n := |run.prepared|, |run.enables|;
    hide Run.Events;
    assert Just(u, run.prepared, run.active[..j - p - n], run.active[j - p - n]);
  }

  /** A preview is made in every fourth slot, of the target last received, which is within the
      gain limits and the envelope and at most 100 ms old, at what every motor last reported. */
  lemma PreviewIsCurrent(run: Run, u: Setup, k: nat)
    requires u.Valid() && run.Safe(u)
    requires k < |run.Events()| && run.Events()[k].Preview?
    ensures var before, pass := run.Events()[..k], run.Events()[k].pass;
            && Wakes(before) == 4 * |Passes(before)| + 1
            && Backed(before) && Admitted(|u.cfgs|, u.limits, LastTaken(before).value)
            && pass.target == LastTaken(before).value.target
            && AllHeard(before, |u.cfgs|) && pass.position == ReportedPositions(before, |u.cfgs|)
            && pass.velocity == ReportedVelocities(before, |u.cfgs|)
            && pass.refresh == (|Passes(before)| % 10 == 0) && pass.kin == u.kin && pass.saturating == u.saturating
  {
    hide Just, Admitted, Run.ShutSafely, Ready, Setup.Valid, Prepares, LastReply, LastTaken, WakeTimes, PreviewDue, SentInSlot, Passes;
    Kind(run, u, k);
    Locate(run, k);
    ActivePrefix(run, k);
    var i := k - |run.prepared| - |run.enables|;
    var before, n := run.active[..i], |u.cfgs|;
    var whole, short := run.Events()[..k], run.prepared + before;
    hide Run.Events;
    PreviewIsDue(u, run.prepared, run.active, i);
    WhatIsDue(u, run.prepared, before, run.active[i].pass);
    SoFar(run, u, i, 0);
    DrivenPrefix(u, run.prepared, run.active, i);
    HistoryIsAdmitted(u, run.prepared, before);
    forall m: nat ensures LastReply(whole, m) == LastReply(short, m) {
      SoFar(run, u, i, m);
    }
    hide Driven, Run.Safe;
    SameReports(short, whole, n);
  }

  /** What a preview that is due says about itself. */
  lemma WhatIsDue(u: Setup, prepared: seq<Event>, before: seq<Event>, pass: Pass)
    requires u.Valid() && PreviewDue(u, prepared, before, pass)
    ensures var history, n := prepared + before, |u.cfgs|;
            && Wakes(before) == 4 * |Passes(before)| + 1 && Backed(history) && AllHeard(history, n)
            && pass == Pass(u.kin, n, LastTaken(history).value.target, ReportedPositions(history, n),
                            ReportedVelocities(history, n), |Passes(before)| % 10 == 0, u.saturating)
  {
    hide Setup.Valid, LastTaken, WakeTimes, Passes, PreviewsBefore, AllHeard;
    FourthSlot(Wakes(before) - 1);
  }

  lemma SameReports(a: seq<Event>, b: seq<Event>, n: nat)
    requires forall m: nat :: LastReply(b, m) == LastReply(a, m)
    ensures ReportedPositions(b, n) == ReportedPositions(a, n) && ReportedVelocities(b, n) == ReportedVelocities(a, n)
    ensures AllHeard(a, n) ==> AllHeard(b, n)
  {
    hide LastReply;
  }

  lemma FourthSlot(slot: nat)
    requires slot % 4 == 0
    ensures PreviewsBefore(slot) * 4 == slot
  {
    PreviewsClosedForm(slot);
  }

  /** In one slot no bus carries two policy frames. */
  lemma OneFramePerBus(run: Run, u: Setup, j: nat, k: nat)
    requires u.Valid() && u.Scheduled() && run.Safe(u)
    requires j < k < |run.Events()| && run.Events()[j].Policy? && run.Events()[k].Policy?
    requires Wakes(run.Events()[..j]) == Wakes(run.Events()[..k])
    ensures run.Events()[j].motor < |u.cfgs| && run.Events()[k].motor < |u.cfgs|
    ensures u.cfgs[run.Events()[j].motor].bus != u.cfgs[run.Events()[k].motor].bus
  {
    hide Run.Safe, Run.Events, Admitted, WithinCap, Backed, LastReply, LastTaken, WakeTimes, SentInSlot, Due, Setup.Scheduled;
    PolicyIsGuarded(run, u, j);
    PolicyIsGuarded(run, u, k);
    hide Setup.Valid, AllSayEnabled;
    SentSince(run.Events(), j, k);
    DifferentBuses(u, run.Events()[j].motor, run.Events()[k].motor, Wakes(run.Events()[..k]) - 1);
  }

  /** Two motors whose turn it is in one slot are on different buses. */
  lemma DifferentBuses(u: Setup, a: nat, b: nat, slot: nat)
    requires u.Scheduled() && a < |u.cfgs| && b < |u.cfgs| && a != b
    requires Due(u.cfgs[a].pollRate, u.phases[a], slot) && Due(u.cfgs[b].pollRate, u.phases[b], slot)
    ensures u.cfgs[a].bus != u.cfgs[b].bus
  {
    hide Phase, Due;
    var rows := u.Rows();
    assert Due(rows[a].rate, Phase(rows, a), slot) && Due(rows[b].rate, Phase(rows, b), slot);
    if rows[a].bus == rows[b].bus {
      NoCollision(rows, if a < b then a else b, if a < b then b else a, slot);
    }
  }

  /** A frame sent since the slot began is counted. */
  lemma {:induction false} SentSince(events: seq<Event>, j: nat, k: nat)
    requires j < k <= |events| && events[j].Policy? && Wakes(events[..j]) == Wakes(events[..k])
    ensures SentInSlot(events[..k], events[j].motor) > 0
  {
    var front := events[..k - 1];
    assert events[..k] == front + [events[k - 1]];
    Next(front, events[k - 1]);
    MotorNext(front, events[k - 1], events[j].motor);
    if j < k - 1 {
      MoreWakes(events, j, k - 1);
      SentSince(events, j, k - 1);
    }
  }

  lemma {:induction false} MoreWakes(events: seq<Event>, j: nat, k: nat)
    requires j <= k <= |events|
    ensures Wakes(events[..j]) <= Wakes(events[..k])
  {
    if j < k {
      assert events[..k] == events[..k - 1] + [events[k - 1]];
      Next(events[..k - 1], events[k - 1]);
      MoreWakes(events, j, k - 1);
    }
  }

  /** A preview that can be relied on. */
  predicate Usable(u: Setup, pass: Pass, number: nat)
    requires u.Valid()
  {
    && pass.Valid() && pass.kin == u.kin && pass.n == |u.cfgs| && pass.saturating == u.saturating
    && pass.target.NonNegativeGains() && pass.refresh == (number % 10 == 0)
  }

  lemma PassIsUsable(u: Setup, prepared: seq<Event>, before: seq<Event>, pass: Pass)
    requires u.Valid() && Prepares(|u.cfgs|, u.limits, prepared) && Driven(u, prepared, before)
    requires PreviewDue(u, prepared, before, pass)
    ensures Usable(u, pass, |Passes(before)|)
  {
    HistoryIsAdmitted(u, prepared, before);
    hide Driven, Prepares, LastTaken, LastReply, WakeTimes, Passes, PreviewsBefore, Admitted;
    GainsOf(|u.cfgs|, u.limits, LastTaken(prepared + before).value);
  }

  /** Every completed preview of a driving part can be. */
  lemma {:induction false} PassesAreUsable(u: Setup, prepared: seq<Event>, active: seq<Event>)
    requires u.Valid() && Prepares(|u.cfgs|, u.limits, prepared) && Driven(u, prepared, active)
    ensures forall j :: 0 <= j < |Passes(active)| ==> Usable(u, Passes(active)[j], j)
  {
    hide PreviewDue, Usable, Prepares, Setup.Valid, Just;
    if active != [] {
      var front, last := active[..|active| - 1], active[|active| - 1];
      DrivenPrefix(u, prepared, active, |front|);
      PassesAreUsable(u, prepared, front);
      if last.Preview? {
        PreviewIsDue(u, prepared, active, |front|);
        PassIsUsable(u, prepared, front, last.pass);
      }
    }
  }

  lemma GainsOf(n: nat, limits: seq<JointLimit>, t: Taken)
    requires (limits == [] || |limits| == n) && Admitted(n, limits, t)
    ensures t.target.Has(n) && t.target.NonNegativeGains()
  {
  }

  /** In a saturating run every policy frame encodes a command that at least one preview
      produced, with nonnegative gains and a torque of at most 98% of the cap at the feedback
      of the latest preview. */
  lemma PolicyWasLimited(run: Run, u: Setup, k: nat)
    requires u.Valid() && run.Safe(u) && u.saturating
    requires forall m :: 0 <= m < |u.cfgs| ==> u.cfgs[m].Accepted() && !u.held[m].initialized
    requires k < |run.active| && run.active[k].Policy?
    ensures var e, before := run.active[k], run.active[..k];
            e.motor < |u.cfgs| &&
            var passes, h := Passes(before), u.Holds(e.motor, before);
            var words := u.WordsFor(e.motor, before, StateOf(run.prepared + before, e.motor));
            && words.Ok? && e.data == Pack(words.value)
            && passes != [] && e.motor < |passes[|passes| - 1].position| == |passes[|passes| - 1].velocity|
            && h.initialized && h.command.kp >= 0.0 && h.command.kd >= 0.0
            && Abs(Torque(h.command, State(passes[|passes| - 1].position[e.motor], passes[|passes| - 1].velocity[e.motor])))
               <= 0.98 * u.cfgs[e.motor].cap
  {
    hide Torque, Run.ShutSafely, Ready, Prepares, Pass.Result, FrameDue, PreviewDue, LastReply;
    hide MotorConfig.Accepted, Admitted, PolicyWords, HeldAfter, Enabled, Enables, WakeTimes;
    var e, before := run.active[k], run.active[..k];
    FrameIsDue(u, run.prepared, run.active, k);
    FrameHasWords(u, run.prepared, before, e);
    DrivenPrefix(u, run.prepared, run.active, k);
    PassesAreUsable(u, run.prepared, before);
    hide Driven, Passes;
    var m, passes := e.motor, Passes(before);
    forall j | 0 <= j < |passes|
      ensures passes[j].Valid() && passes[j].saturating && m < passes[j].n && passes[j].target.NonNegativeGains()
    {
      assert Usable(u, passes[j], j);
    }
    assert Usable(u, passes[|passes| - 1], |passes| - 1);
    PreviewRunIsSafe(u.cfgs[m], m, passes, u.held[m]);
  }

  /** A frame that goes out encodes what its motor holds, after at least one preview. */
  lemma FrameHasWords(u: Setup, prepared: seq<Event>, before: seq<Event>, e: Event)
    requires u.Valid() && e.Policy? && FrameDue(u, prepared, before, e.motor, e.data)
    ensures e.motor < |u.cfgs| && Passes(before) != [] && u.Holds(e.motor, before).initialized
    ensures var words := u.WordsFor(e.motor, before, StateOf(prepared + before, e.motor));
            words.Ok? && e.data == Pack(words.value)
  {
    hide AllSayEnabled, Backed, LastReply, Passes, WakeTimes, LastTaken, SentInSlot, HeldAfter, Pack, PreviewsBefore;
    AtLeastOne(Wakes(before));
    var h := u.Holds(e.motor, before);
    NeedsPreview(u.cfgs[e.motor], h.initialized, h.command, StateOf(prepared + before, e.motor), u.saturating);
    hide PolicyWords;
  }

  lemma NeedsPreview(cfg: MotorConfig, initialized: bool, c: Command, s: State, bounded: bool)
    requires cfg.cap > 0.0 && cfg.ranges.Proper() && PolicyWords(cfg, initialized, c, s, bounded).words.Ok?
    ensures initialized
  {
  }

  lemma AtLeastOne(slots: nat)
    requires slots > 0
    ensures PreviewsBefore(slots) > 0
  {
    PreviewsClosedForm(slots);
  }

  // ---- shutting down -------------------------------------------------------

  /** No policy frame follows a disable. */
  lemma NoPolicyAfterDisable(run: Run, u: Setup, j: nat, k: nat)
    requires u.Valid() && run.Safe(u)
    requires j < |run.Events()| && k < |run.Events()| && run.Events()[j].Disable? && run.Events()[k].Policy?
    ensures k < j
  {
    Kind(run, u, j);
    Kind(run, u, k);
    hide Run.Events, Run.Safe;
  }

  /** Every write before motor `i` of a round succeeded. */
  ghost predicate WrittenUpTo(n: nat, writes: (nat, nat) -> bool, round: nat, i: nat) {
    forall r: nat, m: nat :: m < n && (r < round || (r == round && m < i)) ==> writes(r, m)
  }

  /** The first disable write that fails is the one of this round to this motor. */
  ghost predicate FirstFailure(n: nat, writes: (nat, nat) -> bool, round: nat, i: nat) {
    round < 3 && i < n && !writes(round, i) && WrittenUpTo(n, writes, round, i)
  }

  /** As long as writes succeed every motor gets one disable a round. */
  lemma {:induction false} RoundsWritten(n: nat, writes: (nat, nat) -> bool, round: nat, i: nat)
    requires i <= n && WrittenUpTo(n, writes, round, i)
    ensures !Failed(DisableRounds(n, writes, round, i))
    ensures forall m: nat :: m < n ==> Disables(DisableRounds(n, writes, round, i), m) == round + if m < i then 1 else 0
    decreases round, i
  {
    if i > 0 {
      RoundsWritten(n, writes, round, i - 1);
      assert writes(round, i - 1);
      OneDisable(DisableRounds(n, writes, round, i - 1), Disable(i - 1, true));
    } else if round > 0 {
      assert WrittenUpTo(n, writes, round - 1, n);
      RoundsWritten(n, writes, round - 1, n);
    }
  }

  lemma OneDisable(events: seq<Event>, e: Event)
    ensures forall m: nat :: Disables(events + [e], m) == Disables(events, m) + if e == Disable(m, true) then 1 else 0
  {
    forall m: nat ensures Disables(events + [e], m) == Disables(events, m) + if e == Disable(m, true) then 1 else 0 {
      MotorNext(events, e, m);
    }
  }

  /** After the first failure nothing more is written. */
  lemma {:induction false} RoundsStop(n: nat, writes: (nat, nat) -> bool, round: nat, i: nat, later: nat, j: nat)
    requires FirstFailure(n, writes, round, i) && j <= n && (round < later || (round == later && i < j))
    ensures DisableRounds(n, writes, later, j) == DisableRounds(n, writes, round, i) + [Disable(i, false)]
    decreases later, j
  {
    RoundsWritten(n, writes, round, i);
    hide WrittenUpTo, Disables;
    if later == round && j == i + 1 {
    } else if j > 0 {
      RoundsStop(n, writes, round, i, later, j - 1);
    } else {
      RoundsStop(n, writes, round, i, later - 1, n);
    }
  }

  /** How often the whole run disables a motor is decided by its disable loop. */
  lemma DisablesOfRun(run: Run, u: Setup, m: nat)
    requires u.Valid() && run.Safe(u)
    ensures Disables(run.Events(), m) == Disables(run.disables, m)
  {
    var front := run.prepared + run.enables + run.active;
    NoDisables(front, m) by {
      forall k | 0 <= k < |front| ensures !front[k].Disable? {
        Kind(run, u, k);
        assert run.Events()[k] == front[k];
      }
    }
    NoDisables(run.verified, m) by {
      hide ZeroGainBytes;
      assert forall k :: 0 <= k < |run.verified| ==> VerifyEvent(run.verified[k]);
    }
    MotorConcat(front + run.disables, run.verified, m);
    MotorConcat(front, run.disables, m);
  }

  lemma {:induction false} NoDisables(events: seq<Event>, m: nat)
    requires forall k :: 0 <= k < |events| ==> !events[k].Disable?
    ensures Disables(events, m) == 0
  {
    if events != [] {
      NoDisables(events[..|events| - 1], m);
    }
  }

  /** The first disable write that fails ends the run: the motors before it have one disable
      more than there were full rounds, the others do not, and no drive is verified. */
  lemma DisablesUntilFailure(run: Run, u: Setup, round: nat, i: nat)
    requires u.Valid() && run.Safe(u) && FirstFailure(|u.cfgs|, run.writes, round, i)
    ensures forall m: nat :: m < |u.cfgs| ==> Disables(run.Events(), m) == round + if m < i then 1 else 0
    ensures run.Events() != [] && run.Events()[|run.Events()| - 1] == Disable(i, false) && run.verified == []
    ensures forall slots :: !run.Succeeded(u, slots)
  {
    hide Run.PoweredSafely, Run.DroveWell, Setup.Valid, DisableRounds, Disables;
    var n := |u.cfgs|;
    RoundsWritten(n, run.writes, round, i);
    RoundsStop(n, run.writes, round, i, 3, 0);
    hide FirstFailure;
    OneDisable(DisableRounds(n, run.writes, round, i), Disable(i, false));
    forall m: nat | m < n ensures Disables(run.Events(), m) == round + if m < i then 1 else 0 {
      DisablesOfRun(run, u, m);
    }
  }

  ghost predicate EveryWriteSucceeds(n: nat, writes: (nat, nat) -> bool) {
    forall round: nat, i: nat :: round < 3 && i < n ==> writes(round, i)
  }

  predicate DisabledThrice(events: seq<Event>, n: nat) { forall m :: 0 <= m < n ==> Disables(events, m) == 3 }

  /** Every motor is disabled three times in exactly the runs in which no disable write fails. */
  lemma ThreeDisablesUnlessWriteFails(run: Run, u: Setup)
    requires u.Valid() && run.Safe(u)
    ensures DisabledThrice(run.Events(), |u.cfgs|) <==> EveryWriteSucceeds(|u.cfgs|, run.writes)
  {
    hide Run.PoweredSafely, Setup.Valid, DisableRounds, Disables, Run.Events;
    var n := |u.cfgs|;
    if EveryWriteSucceeds(n, run.writes) {
      assert WrittenUpTo(n, run.writes, 3, 0);
      RoundsWritten(n, run.writes, 3, 0);
      forall m | 0 <= m < n ensures Disables(run.Events(), m) == 3 {
        DisablesOfRun(run, u, m);
      }
    } else {
      var round: nat, i: nat :| round < 3 && i < n && !run.writes(round, i);
      var r, j := EarliestFailure(n, run.writes, round, i);
      DisablesUntilFailure(run, u, r, j);
      assert Disables(run.Events(), j) == r != 3;
    }
  }

  lemma {:induction false} EarliestFailure(n: nat, writes: (nat, nat) -> bool, round: nat, i: nat) returns (r: nat, j: nat)
    requires round < 3 && i < n && !writes(round, i)
    ensures FirstFailure(n, writes, r, j)
    decreases round, i
  {
    if a: nat, b: nat :| b < n && (a < round || (a == round && b < i)) && !writes(a, b) {
      r, j := EarliestFailure(n, writes, a, b);
    } else {
      r, j := round, i;
    }
  }

  /** Such runs exist, whatever the setup: the controller that finds no target shuts down, and
      any of its disable writes may fail. */
  lemma DisableMayFail(u: Setup, round: nat, i: nat) returns (run: Run)
    requires u.Valid() && round < 3 && i < |u.cfgs|
    ensures run.Safe(u) && FirstFailure(|u.cfgs|, run.writes, round, i)
    ensures forall m: nat :: m < |u.cfgs| ==> Disables(run.Events(), m) == round + if m < i then 1 else 0
  {
    var writes := (r: nat, m: nat) => r != round || m != i;
    var disables := DisableRounds(|u.cfgs|, writes, 3, 0);
    run := Run([], [], [], writes, disables, []);
    DisablesUntilFailure(run, u, round, i);
  }

  /** Success: after its last policy frame every motor was sent three disables, and the last
      thing it said in the run is that it is disabled. */
  lemma SuccessMeansDisabled(run: Run, u: Setup, slots: nat, k: nat, m: nat)
    requires u.Valid() && run.Safe(u) && run.Succeeded(u, slots)
    requires k < |run.Events()| && run.Events()[k].Policy? && m < |u.cfgs|
    ensures Disables(run.Events()[k + 1..], m) == 3
    ensures LastReply(run.Events(), m).Some? && LastReply(run.Events(), m).value.status == 0
  {
    hide Run.DroveWell, Run.PoweredSafely, Setup.Valid, DisableRounds, Disables, LastReply;
    AllWritten(run, u);
    var all := run.Events();
    ThreeDisablesUnlessWriteFails(run, u);
    NoneUpTo(run, u, k, m);
    assert all == all[..k + 1] + all[k + 1..];
    MotorConcat(all[..k + 1], all[k + 1..], m);
    MotorConcat(run.prepared + run.enables + run.active + run.disables, run.verified, m);
    hide Run.ShutSafely;
  }

  lemma NoneUpTo(run: Run, u: Setup, k: nat, m: nat)
    requires u.Valid() && run.Safe(u) && k < |run.Events()| && run.Events()[k].Policy?
    ensures Disables(run.Events()[..k + 1], m) == 0
  {
    hide Run.Safe, Run.Events, Setup.Valid, Disables;
    var front := run.Events()[..k + 1];
    forall j | 0 <= j < |front| ensures !front[j].Disable? {
      if front[j].Disable? {
        NoPolicyAfterDisable(run, u, j, k);
      }
    }
    NoDisables(front, m);
  }

  /** A disable loop that did not fail met no failing write. */
  lemma AllWritten(run: Run, u: Setup)
    requires u.Valid() && run.Safe(u) && !Failed(run.disables)
    ensures EveryWriteSucceeds(|u.cfgs|, run.writes)
  {
    hide Run.PoweredSafely, Setup.Valid, DisableRounds;
    forall round: nat, i: nat | round < 3 && i < |u.cfgs| ensures run.writes(round, i) {
      if !run.writes(round, i) {
        var r, j := EarliestFailure(|u.cfgs|, run.writes, round, i);
        RoundsStop(|u.cfgs|, run.writes, r, j, 3, 0);
      }
    }
  }

  // ---- what success says about time ----------------------------------------

  /** Slots begin in order, none before its deadline. */
  lemma {:induction false} ClockLaw(u: Setup, prepared: seq<Event>, events: seq<Event>)
    requires u.Valid() && Driven(u, prepared, events)
    ensures forall s :: 0 <= s < Wakes(events) ==> WakeTimes(events)[s] >= u.Deadline(s)
    ensures forall r, s :: 0 <= r <= s < Wakes(events) ==> WakeTimes(events)[r] <= WakeTimes(events)[s]
  {
    hide FrameDue, PreviewDue, Admitted, Setup.Valid, Passes;
    if events != [] {
      var k := |events| - 1;
      DrivenPrefix(u, prepared, events, k);
      ClockLaw(u, prepared, events[..k]);
      assert Just(u, prepared, events[..k], events[k]);
    }
  }

  /** What has begun stays begun: earlier readings are a prefix of later ones. */
  lemma WakePrefix(events: seq<Event>, i: nat, k: nat)
    requires i <= k <= |events|
    ensures WakeTimes(events[..i]) <= WakeTimes(events[..k])
  {
    assert events[..k] == events[..i] + events[i..k];
    Concat(events[..i], events[i..k]);
    hide WakeTimes;
  }

  /** Without another target the robot is driven for at most 216 slots, 108 ms, on the last one: as
      long as the slots are punctual, however they are delayed within their 2 ms, no frame goes
      out later. That is so in every safe run, also in the one the silence ends. */
  lemma SilenceStopsDriving(run: Run, u: Setup, x: nat, k: nat)
    requires u.Valid() && run.Safe(u)
    requires x < k < |run.active| && run.active[x].Accepted? && run.active[k].Policy?
    requires forall j :: x < j < k ==> !run.active[j].Accepted?
    requires Punctual(u, WakeTimes(run.active[..k]))
    ensures Wakes(run.active[..k]) <= Wakes(run.active[..x]) + 216
  {
    hide Run.ShutSafely, Ready, Setup.Valid, Prepares, Enabled, Enables, FrameDue, PreviewDue, EnvelopeAcceptable, GainsAcceptable;
    hide WakeTimes, LastTaken, SentInSlot, LastReply, AllSayEnabled, WithinCap, Passes, PreviewsBefore, Due, SlotDone;
    assert Just(u, run.prepared, run.active[..x], run.active[x]);
    FrameIsGuarded(run, u, k);
    LastTakenIs(run.prepared, run.active, x, k);
    Concat(run.prepared, run.active[..k]);
    PreparedNeverWakes(run, u);
    DrivenPrefix(u, run.prepared, run.active, k);
    ClockLaw(u, run.prepared, run.active[..k]);
    hide Driven;
    WakePrefix(run.active, x, k);
    var times := WakeTimes(run.active[..k]);
    var a, b := Wakes(run.active[..x]) - 1, Wakes(run.active[..k]) - 1;
    assert 0 <= a <= b < |times| && times[b] <= times[a] + 105_000_000;
    SlotsApart(u, times, a, b);
  }

  lemma PreparedNeverWakes(run: Run, u: Setup)
    requires u.Valid() && run.Safe(u)
    ensures WakeTimes(run.prepared) == []
  {
    hide Driven, Admitted, ZeroGainBytes, Ready, Run.ShutSafely;
    forall k | 0 <= k < |run.prepared|
      ensures !run.prepared[k].Wake? && !run.prepared[k].Preview? && !run.prepared[k].Policy? && !run.prepared[k].Disable?
    {
      assert PrepareEvent(|u.cfgs|, u.limits, run.prepared[k]);
    }
    NotDriving(run.prepared, 0);
  }

  /** Two slots whose readings are at most 105 ms apart, when every fourth slot is less than 2 ms
      late. */
  lemma SlotsApart(u: Setup, times: seq<int>, a: nat, b: nat)
    requires a <= b < |times| && times[b] <= times[a] + 105_000_000 && Punctual(u, times)
    requires forall s :: 0 <= s < |times| ==> times[s] >= u.Deadline(s)
    requires forall r, s :: 0 <= r <= s < |times| ==> times[r] <= times[s]
    ensures b <= a + 216
  {
    var c := a + (4 - a % 4) % 4;
    if c <= b {
      assert c % 4 == 0;
      assert times[a] <= times[c] < u.Deadline(c) + LATE_NS;
      assert times[b] >= u.Deadline(b);
    }
  }

  /** The target last taken over is that of the last such event. */
  lemma {:induction false} LastTakenIs(prepared: seq<Event>, active: seq<Event>, x: nat, k: nat)
    requires x < k <= |active| && active[x].Accepted? && forall j :: x < j < k ==> !active[j].Accepted?
    ensures LastTaken(prepared + active[..k]) == Some(active[x].taken)
  {
    assert prepared + active[..k] == prepared + active[..k - 1] + [active[k - 1]];
    Next(prepared + active[..k - 1], active[k - 1]);
    if x < k - 1 {
      LastTakenIs(prepared, active, x, k - 1);
    }
  }

  /** A successful run of any length sent every motor exactly the policy frames its schedule has,
      heard replies to at least 95% of them, made a preview in every fourth slot, and began every
      fourth slot less than 2 ms after its half-millisecond deadline. */
  lemma SuccessIsPunctual(run: Run, u: Setup, slots: nat, m: nat)
    requires u.Valid() && run.Succeeded(u, slots) && m < |u.cfgs|
    ensures Commands(run.active, m) == Turns(u.cfgs[m].pollRate, u.phases[m], 0, slots) > 0
    ensures 20 * Replies(run.active, m) >= 19 * Commands(run.active, m)
    ensures |Passes(run.active)| == (slots + 3) / 4
    ensures |WakeTimes(run.active)| == slots
    ensures forall j :: 0 <= j < slots && j % 4 == 0 ==> WakeTimes(run.active)[j] < u.start + 500_000 * j + 2_000_000
  {
    CoveredMeans(run.active, |u.cfgs|, m);
    hide Covered, AllSayDisabled, Enabled, Commands, Replies, Turns, Passes, WakeTimes, PreviewsBefore;
    PreviewsClosedForm(slots);
  }

  lemma CoveredMeans(events: seq<Event>, n: nat, m: nat)
    requires m < n
    ensures Covered(events, n) ==> Commands(events, m) > 0 && 20 * Replies(events, m) >= 19 * Commands(events, m)
  {
    hide Commands, Replies;
  }

  /** In whole frames of forty slots that is ten frames for a 500 Hz motor and one for a 50 Hz
      motor, and ten previews. */
  lemma SuccessInFrames(run: Run, u: Setup, frames: nat, m: nat)
    requires u.Valid() && u.Scheduled() && run.Succeeded(u, 40 * frames) && m < |u.cfgs|
    ensures Commands(run.active, m) == frames * if u.cfgs[m].pollRate == 500 then 10 else 1
    ensures |Passes(run.active)| == 10 * frames
  {
    hide Run.Succeeded, Commands, Turns, Passes, WakeTimes, Punctual, Phase;
    SuccessIsPunctual(run, u, 40 * frames, m);
    assert u.Rows()[m].rate == u.cfgs[m].pollRate;
    TurnsOfFrames(u.cfgs[m].pollRate, u.phases[m], frames);
    assert (40 * frames + 3) / 4 == 10 * frames;
  }

  lemma {:induction false} TurnsOfFrames(rate: int, phase: nat, frames: nat)
    requires (rate == 50 || rate == 500) && phase < Period(rate)
    ensures Turns(rate, phase, 0, 40 * frames) == frames * if rate == 500 then 10 else 1
  {
    if frames > 0 {
      TurnsOfFrames(rate, phase, frames - 1);
      TurnsSplit(rate, phase, 0, 40 * (frames - 1), 40);
      TurnsPerFrame(rate, phase, 40 * (frames - 1));
      hide Turns;
    }
  }
}
