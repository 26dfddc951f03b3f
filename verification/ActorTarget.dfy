/** The actor's protected target composed over whole runs, against the safety table exported
    from the same contract: what leaves the actor always passes the controller's tests. */
module ActorTarget {
  import opened Prelude
  import opened Impedance
  import opened Smoothstep
  import opened Protection

  /** The contract arrays both sides are configured from. */
  datatype Contract = Contract(
    velocityLimit: seq<real>, stiffness: seq<real>, damping: seq<real>, effortLimit: seq<real>,
    hardLower: seq<real>, hardUpper: seq<real>)
  {
    predicate Has(n: nat) {
      && |velocityLimit| == n && |stiffness| == n && |damping| == n && |effortLimit| == n
      && |hardLower| == n && |hardUpper| == n
    }
    /** The exporter's tests on the arrays. */
    predicate Accepted()
      requires Has(|stiffness|)
    {
      forall i :: 0 <= i < |stiffness| ==>
        velocityLimit[i] > 0.0 && stiffness[i] >= 0.0 && damping[i] >= 0.0 && effortLimit[i] >= 0.0
    }
    predicate SoftInsideHard(p: Projection, i: nat)
      requires Has(|stiffness|) && p.Has(|stiffness|) && i < |stiffness|
    {
      && p.lower[i] < p.upper[i] && hardLower[i] < hardUpper[i]
      && p.lower[i] >= hardLower[i] && p.upper[i] <= hardUpper[i]
    }
  }

  /** One exported row. */
  function ExportRow(p: Projection, c: Contract, i: nat): JointLimit {
    var s := Product(p.scale, At(p.gain, i));
    JointLimit(At(p.lower, i), At(p.upper, i), Abs(At(c.velocityLimit, i)),
               Product(s, At(c.stiffness, i)),
               Product(Product(s, At(p.damping, i)), Min(At(c.damping, i), p.maximumKd)),
               Product(s, At(c.effortLimit, i)))
  }

  /** The exporter's loop. */
  method ExportRows(p: Projection, c: Contract, n: nat) returns (r: Result<seq<JointLimit>, ProtectFault>)
    requires p.Has(n) && c.Has(n)
    ensures r.Ok? <==> forall i :: 0 <= i < n ==> c.SoftInsideHard(p, i)
    ensures r.Ok? ==> r.value == seq(n, i requires i >= 0 => ExportRow(p, c, i))
  {
    hide ExportRow;
    var rows := [];
    for i := 0 to n
      invariant |rows| == i && forall k :: 0 <= k < i ==> rows[k] == ExportRow(p, c, k) && c.SoftInsideHard(p, k)
    {
      if p.lower[i] >= p.upper[i] || c.hardLower[i] >= c.hardUpper[i]
         || p.lower[i] < c.hardLower[i] || p.upper[i] > c.hardUpper[i] {
        assert !c.SoftInsideHard(p, i);
        return Err(BadLimits);
      }
      rows := rows + [ExportRow(p, c, i)];
    }
    r := Ok(rows);
  }

  // ---- the pipeline --------------------------------------------------------

  datatype Pipeline = Pipeline(n: nat, p: Projection, timing: Timing, c: Contract) {
    predicate Valid() {
      && p.Has(n) && p.Accepted() && p.maximumKd <= 5.0 && c.Has(n) && c.Accepted() && timing.ramp >= 1
    }

    function Rows(): seq<JointLimit> { seq(n, i requires i >= 0 => ExportRow(p, c, i)) }

    /** What the actor wants before protection: contract gains, no velocity, no feedforward. */
    function Wanted(position: seq<real>): Target {
      Target(position, seq(n, _ => 0.0), c.stiffness, seq(n, i => Min(At(c.damping, i), p.maximumKd)), seq(n, _ => 0.0))
    }

    /** No exported Kd limit exceeds the projector's own limit. */
    predicate KdFits() { forall i :: 0 <= i < n ==> ExportRow(p, c, i).kdMax <= p.maximumKd }
  }

  /** One protected frame: project, check the pose that is about to be captured, ramp. */
  function Protect(p: Projection, timing: Timing, n: nat, s: RampState, t: Target, measured: seq<real>)
    : (RampState, Result<Target, ProtectFault>)
    requires p.Has(n) && |measured| == n
  {
    var projected := p.Result(n, t);
    if projected.Err? then (s, projected)
    else if s.initial.None? && !p.PoseAccepted(measured) then (s, Err(PoseOutsideLimits))
    else RampStep(n, timing, s, projected.value, measured)
  }

  method RequirePosition(p: Projection, pose: seq<real>) returns (r: Result<seq<real>, ProtectFault>)
    requires p.Has(|pose|)
    ensures r == if p.PoseAccepted(pose) then Ok(pose) else Err(PoseOutsideLimits)
  {
    for i := 0 to |pose|
      invariant forall k :: 0 <= k < i ==> p.lower[k] <= pose[k] <= p.upper[k]
    {
      if pose[i] < p.lower[i] || pose[i] > p.upper[i] {
        return Err(PoseOutsideLimits);
      }
    }
    return Ok(pose);
  }

  /** The actor's protection stage on its two stateful objects. */
  method ProtectTick(projector: TargetProjector, startup: StartupRamp, t: Target, measured: seq<real>)
    returns (r: Result<Target, ProtectFault>)
    requires projector.Valid() && startup.Valid() && projector.n == startup.n
    requires t.Has(projector.n) && |measured| == projector.n
    modifies projector`maximumOvershoot, projector.clampCount, startup
    ensures projector.Valid() && startup.Valid()
    ensures (startup.State(), r) == Protect(projector.cfg, startup.timing, startup.n, old(startup.State()), t, measured)
  {
    hide RampStep, Projection.Result, Counted, StatisticsAgree, Projection.Worst, Projection.PoseAccepted;
    var projected := projector.Project(t);
    if projected.Err? {
      return projected;
    }
    if !startup.captured {
      var pose := RequirePosition(projector.cfg, measured);
      if pose.Err? {
        return Err(pose.error);
      }
    }
    ProjectedHas(projector.cfg, projector.n, t);
    r := startup.Apply(projected.value, measured);
  }

  lemma ProjectedHas(p: Projection, n: nat, t: Target)
    requires p.Has(n) && t.Has(n) && p.Result(n, t).Ok?
    ensures p.Result(n, t).value.Has(n)
  {
  }

  // ---- whole runs ----------------------------------------------------------

  datatype Tick = Tick(wanted: seq<real>, measured: seq<real>)

  predicate TicksFit(n: nat, ticks: seq<Tick>) {
    forall k :: 0 <= k < |ticks| ==> |ticks[k].wanted| == n && |ticks[k].measured| == n
  }

  datatype Run = Run(state: RampState, emitted: seq<Target>)

  /** The actor from its start: it stops at the first fault. */
  function After(a: Pipeline, ticks: seq<Tick>): (r: Result<Run, ProtectFault>)
    requires a.Valid() && TicksFit(a.n, ticks)
    ensures r.Ok? ==> |r.value.emitted| == |ticks|
  {
    if ticks == [] then Ok(Run(FRESH_RAMP, []))
    else
      var before := After(a, ticks[..|ticks| - 1]);
      var tick := ticks[|ticks| - 1];
      if before.Err? then before
      else
        var next := Protect(a.p, a.timing, a.n, before.value.state, a.Wanted(tick.wanted), tick.measured);
        if next.1.Err? then Err(next.1.error)
        else Ok(Run(next.0, before.value.emitted + [next.1.value]))
  }

  /** The frame a run emits at tick `k`. */
  function Frame(a: Pipeline, ticks: seq<Tick>, k: nat): Target
    requires k < |ticks|
  {
    Blended(a.n, a.timing.Alpha(k), ticks[0].measured, a.p.Projected(a.n, a.Wanted(ticks[k].wanted)))
  }

  lemma WantedProjects(a: Pipeline, wanted: seq<real>)
    requires a.Valid() && |wanted| == a.n
    ensures a.p.Result(a.n, a.Wanted(wanted))
            == if a.KdFits() then Ok(a.p.Projected(a.n, a.Wanted(wanted))) else Err(KdBeyondLimit)
  {
    var t := a.Wanted(wanted);
    hide Product, Projection.Projected;
    var first := a.p.FirstOver(a.n, t, 0);
    forall i | 0 <= i < a.n ensures a.p.ProjectedKd(t, i) == ExportRow(a.p, a.c, i).kdMax {
    }
    if first < a.n {
      assert a.p.OverKd(t, first);
    } else {
      forall i | 0 <= i < a.n ensures ExportRow(a.p, a.c, i).kdMax <= a.p.maximumKd {
        assert !a.p.OverKd(t, i);
      }
    }
  }

  lemma ProjectedGains(a: Pipeline, wanted: seq<real>)
    requires a.Valid() && |wanted| == a.n
    ensures a.p.Projected(a.n, a.Wanted(wanted)).NonNegativeGains()
  {
    var t := a.p.Projected(a.n, a.Wanted(wanted));
    forall i | 0 <= i < a.n ensures t.kp[i] >= 0.0 && t.kd[i] >= 0.0 {
      RowNonNegative(a, i);
    }
  }

  lemma RowNonNegative(a: Pipeline, i: nat)
    requires a.Valid() && i < a.n
    ensures var r := ExportRow(a.p, a.c, i); r.kpMax >= 0.0 && r.kdMax >= 0.0 && r.feedforwardMax >= 0.0
  {
    var s := Product(a.p.scale, a.p.gain[i]);
    NonNegativeProduct(a.p.scale, a.p.gain[i]);
    NonNegativeProduct(s, a.c.stiffness[i]);
    NonNegativeProduct(s, a.c.effortLimit[i]);
    NonNegativeProduct(s, a.p.damping[i]);
    NonNegativeProduct(Product(s, a.p.damping[i]), Min(a.c.damping[i], a.p.maximumKd));
    hide Product;
  }

  /** Exactly which runs succeed, and every frame of those that do. */
  lemma {:induction false} RunShape(a: Pipeline, ticks: seq<Tick>)
    requires a.Valid() && TicksFit(a.n, ticks)
    ensures After(a, ticks).Ok? <==> ticks == [] || (a.KdFits() && a.p.PoseAccepted(ticks[0].measured))
    ensures After(a, ticks).Ok? ==>
              var run := After(a, ticks).value;
              && run.state.completed == |ticks| == |run.emitted|
              && run.state.initial == (if ticks == [] then None else Some(ticks[0].measured))
              && (forall k :: 0 <= k < |ticks| ==> run.emitted[k] == Frame(a, ticks, k))
              && (ticks != [] ==> run.state.lastAlpha == a.timing.Alpha(|ticks| - 1))
  {
    hide Projection.Projected, Projection.Result, Blended, Timing.Alpha, Pipeline.KdFits, Projection.PoseAccepted, WorstMove;
    hide Target.NonNegativeGains, Pipeline.Wanted;
    if ticks != [] {
      var before, tick := ticks[..|ticks| - 1], ticks[|ticks| - 1];
      RunShape(a, before);
      WantedProjects(a, tick.wanted);
      ProjectedGains(a, tick.wanted);
      forall k | 0 <= k < |before| ensures Frame(a, before, k) == Frame(a, ticks, k) {
      }
    }
  }

  /** A frame blended from a pose inside the limits and a projected target is inside the
      exported envelope, gains and all. */
  lemma FrameFits(a: Pipeline, ticks: seq<Tick>, k: nat)
    requires a.Valid() && TicksFit(a.n, ticks) && k < |ticks|
    requires a.KdFits() && a.p.PoseAccepted(ticks[0].measured)
    ensures Frame(a, ticks, k).Has(a.n)
    ensures GainsAcceptable(Frame(a, ticks, k)) && EnvelopeAcceptable(Frame(a, ticks, k), a.Rows())
  {
    var t := a.p.Projected(a.n, a.Wanted(ticks[k].wanted));
    var f := Frame(a, ticks, k);
    AlphaLaw(a.timing, k);
    forall i | 0 <= i < a.n
      ensures f.kp[i] >= 0.0 && 0.0 <= f.kd[i] <= 5.0 && WithinLimit(f, i, ExportRow(a.p, a.c, i))
    {
      JointFits(a, ticks, k, i);
    }
    hide Timing.Alpha, Projection.Projected, ExportRow, WithinLimit;
  }

  lemma JointFits(a: Pipeline, ticks: seq<Tick>, k: nat, i: nat)
    requires a.Valid() && TicksFit(a.n, ticks) && k < |ticks| && i < a.n
    requires a.KdFits() && a.p.PoseAccepted(ticks[0].measured)
    ensures var f := Frame(a, ticks, k);
            && f.Has(a.n) && f.kp[i] >= 0.0 && 0.0 <= f.kd[i] <= 5.0
            && WithinLimit(f, i, ExportRow(a.p, a.c, i))
  {
    var t := a.p.Projected(a.n, a.Wanted(ticks[k].wanted));
    var row := ExportRow(a.p, a.c, i);
    var alpha := a.timing.Alpha(k);
    AlphaLaw(a.timing, k);
    hide Timing.Alpha;
    RowNonNegative(a, i);
    assert t.kp[i] == row.kpMax && t.kd[i] == row.kdMax;
    ZeroTimes(Product(a.p.scale, a.p.gain[i]));
    ZeroTimes(alpha);
    assert t.feedforward[i] == 0.0 && t.velocity[i] == 0.0;
    ShrinkWithin(alpha, row.kpMax);
    ShrinkWithin(alpha, row.kdMax);
    ProjectionIsNearest(a.p, a.Wanted(ticks[k].wanted), i, 0.0);
    MixWithin(alpha, ticks[0].measured[i], t.position[i], a.p.lower[i], a.p.upper[i]);
    hide Mix, Product;
  }

  lemma ShrinkWithin(a: real, x: real)
    requires 0.0 <= a <= 1.0 && x >= 0.0
    ensures 0.0 <= Product(a, x) <= x
  {
    NonNegativeProduct(a, x);
    NonNegativeProduct(1.0 - a, x);
  }

  /** Main result: whatever the policy wants and whatever is measured, every target emitted
      at every tick of every run passes the controller's gain and envelope tests. */
  lemma EmittedTargetsPass(a: Pipeline, ticks: seq<Tick>, k: nat)
    requires a.Valid() && TicksFit(a.n, ticks) && After(a, ticks).Ok? && k < |ticks|
    ensures var t := After(a, ticks).value.emitted[k];
            t.Has(a.n) && GainsAcceptable(t) && EnvelopeAcceptable(t, a.Rows())
  {
    hide After, Frame;
    RunShape(a, ticks);
    FrameFits(a, ticks, k);
  }

  /** The table is tight: from the tick that completes the ramp on, every joint is asked for its
      clamped target with exactly the stiffness and damping of its table row, which are the
      contract's, scaled, the damping by its own factor and cut at the projector's limit. */
  lemma FullGainsAfterRamp(a: Pipeline, ticks: seq<Tick>, k: nat, i: nat)
    requires a.Valid() && TicksFit(a.n, ticks) && After(a, ticks).Ok? && k < |ticks| && i < a.n
    requires k + 1 >= a.timing.hold + a.timing.ramp
    ensures var t, row := After(a, ticks).value.emitted[k], a.Rows()[i];
            var s := a.p.scale * a.p.gain[i];
            && t.Has(a.n) && t.position[i] == Min(Max(ticks[k].wanted[i], a.p.lower[i]), a.p.upper[i])
            && t.kp[i] == row.kpMax == Product(s, a.c.stiffness[i])
            && t.kd[i] == row.kdMax == Product(Product(s, a.p.damping[i]), Min(a.c.damping[i], a.p.maximumKd))
            && t.velocity[i] == 0.0 && t.feedforward[i] == 0.0
            && row.positionMin == a.p.lower[i] && row.positionMax == a.p.upper[i]
            && row.velocityMax == a.c.velocityLimit[i] && row.feedforwardMax == Product(s, a.c.effortLimit[i])
  {
    RunShape(a, ticks);
    hide After;
    AlphaLaw(a.timing, k);
    assert a.timing.Alpha(k) == 1.0;
    hide Timing.Alpha;
    var p := a.p.Projected(a.n, a.Wanted(ticks[k].wanted));
    RowIsProjection(a, ticks[k].wanted, i);
    FullBlend(a.n, ticks[0].measured, p, i);
    hide *;
  }

  /** What projecting the wanted target gives, and the table row. */
  lemma RowIsProjection(a: Pipeline, wanted: seq<real>, i: nat)
    requires a.Valid() && |wanted| == a.n && i < a.n
    ensures var p, row, s := a.p.Projected(a.n, a.Wanted(wanted)), a.Rows()[i], a.p.scale * a.p.gain[i];
            && p.Has(a.n) && p.position[i] == Min(Max(wanted[i], a.p.lower[i]), a.p.upper[i])
            && p.kp[i] == row.kpMax == Product(s, a.c.stiffness[i])
            && p.kd[i] == row.kdMax == Product(Product(s, a.p.damping[i]), Min(a.c.damping[i], a.p.maximumKd))
            && p.velocity[i] == 0.0 && p.feedforward[i] == 0.0
            && row.positionMin == a.p.lower[i] && row.positionMax == a.p.upper[i]
            && row.velocityMax == a.c.velocityLimit[i] && row.feedforwardMax == Product(s, a.c.effortLimit[i])
  {
    ZeroTimes(Product(a.p.scale, a.p.gain[i]));
    assert Product(a.p.scale, a.p.gain[i]) == a.p.scale * a.p.gain[i];
    hide Product;
  }

  /** The whole of a target. */
  lemma FullBlend(n: nat, initial: seq<real>, t: Target, i: nat)
    requires t.Has(n) && |initial| == n && i < n
    ensures var b := Blended(n, 1.0, initial, t);
            && b.Has(n) && b.position[i] == t.position[i] && b.velocity[i] == t.velocity[i] && b.kp[i] == t.kp[i]
            && b.kd[i] == t.kd[i] && b.feedforward[i] == t.feedforward[i]
  {
    MixEnds(initial[i], t.position[i]);
    OneTimes(t.velocity[i]);
    OneTimes(t.kp[i]);
    OneTimes(t.kd[i]);
    OneTimes(t.feedforward[i]);
    hide Product, Mix;
  }

  /** An actor that can emit at all was built from limits the controller's loader accepts. */
  lemma TableLoads(a: Pipeline, ticks: seq<Tick>)
    requires a.Valid() && TicksFit(a.n, ticks) && ticks != [] && After(a, ticks).Ok?
    ensures forall i :: 0 <= i < a.n ==> a.Rows()[i].Accepted()
  {
    hide After;
    RunShape(a, ticks);
    forall i | 0 <= i < a.n ensures a.Rows()[i].Accepted() {
      RowNonNegative(a, i);
      hide Product;
    }
  }

  /** With a hold tick the first emitted target is the measured pose with every gain zero,
      so it passes the controller's start gate exactly when no joint has since moved by more
      than 0.03 rad. */
  lemma FirstTargetIsMeasuredPose(a: Pipeline, ticks: seq<Tick>, seen: seq<real>)
    requires a.Valid() && TicksFit(a.n, ticks) && ticks != [] && After(a, ticks).Ok?
    requires a.timing.hold >= 1 && |seen| == a.n
    ensures var t := After(a, ticks).value.emitted[0];
            && t == Target(ticks[0].measured, Zeros(a.n), Zeros(a.n), Zeros(a.n), Zeros(a.n))
            && (StartGate(t, seen) <==> forall j :: 0 <= j < a.n ==> Abs(ticks[0].measured[j] - seen[j]) <= 0.03)
  {
    hide After;
    RunShape(a, ticks);
    var t := Frame(a, ticks, 0);
    var p := a.p.Projected(a.n, a.Wanted(ticks[0].wanted));
    assert a.timing.Alpha(0) == 0.0;
    hide Timing.Alpha, Projection.Projected;
    forall i | 0 <= i < a.n
      ensures t.position[i] == ticks[0].measured[i] && t.velocity[i] == 0.0 && t.kp[i] == 0.0 && t.kd[i] == 0.0 && t.feedforward[i] == 0.0
    {
      MixEnds(ticks[0].measured[i], p.position[i]);
      ZeroTimes(p.velocity[i]);
      ZeroTimes(p.kp[i]);
      ZeroTimes(p.kd[i]);
      ZeroTimes(p.feedforward[i]);
    }
    assert t.position == ticks[0].measured && t.velocity == Zeros(a.n) && t.kp == Zeros(a.n);
    assert t.kd == Zeros(a.n) && t.feedforward == Zeros(a.n);
    StartGateOfZero(t, seen);
  }

  lemma StartGateOfZero(t: Target, seen: seq<real>)
    requires t.Has(|seen|)
    requires t.velocity == Zeros(|seen|) && t.kp == Zeros(|seen|) && t.kd == Zeros(|seen|) && t.feedforward == Zeros(|seen|)
    ensures StartGate(t, seen) <==> forall j :: 0 <= j < |seen| ==> Abs(t.position[j] - seen[j]) <= START_POSITION_GATE
  {
    forall j | 0 <= j < |seen| ensures StartGateAt(t, seen, j) <==> Abs(t.position[j] - seen[j]) <= START_POSITION_GATE {
    }
    hide StartGateAt;
    if StartGate(t, seen) {
      forall j | 0 <= j < |seen| ensures Abs(t.position[j] - seen[j]) <= START_POSITION_GATE {
        assert StartGateAt(t, seen, j);
      }
    }
  }

  /** The hold tick is needed: without one some target moves the very first frame. */
  lemma FirstTickMovesWithoutHold(timing: Timing)
    requires timing.ramp >= 1
    ensures timing.hold >= 1 <==> forall measured: real, target: real :: Mix(timing.Alpha(0), measured, target) == measured
  {
    AlphaLaw(timing, 0);
    var a := timing.Alpha(0);
    hide Timing.Alpha;
    if timing.hold >= 1 {
      forall measured: real, target: real ensures Mix(a, measured, target) == measured {
        MixEnds(measured, target);
      }
    } else {
      assert Mix(a, 0.0, 1.0) == a;
    }
  }

  // ---- the objects themselves ----------------------------------------------

  lemma NextTick(a: Pipeline, ticks: seq<Tick>, k: nat)
    requires a.Valid() && TicksFit(a.n, ticks) && k < |ticks| && After(a, ticks[..k]).Ok?
    ensures var before := After(a, ticks[..k]).value;
            var next := Protect(a.p, a.timing, a.n, before.state, a.Wanted(ticks[k].wanted), ticks[k].measured);
            After(a, ticks[..k + 1]) == if next.1.Err? then Err(next.1.error) else Ok(Run(next.0, before.emitted + [next.1.value]))
  {
    assert ticks[..k + 1][..k] == ticks[..k];
    hide Protect, Pipeline.Wanted;
  }

  lemma {:induction false} FaultStays(a: Pipeline, ticks: seq<Tick>, k: nat)
    requires a.Valid() && TicksFit(a.n, ticks) && k <= |ticks| && After(a, ticks[..k]).Err?
    ensures After(a, ticks) == Err(After(a, ticks[..k]).error)
    decreases |ticks| - k
  {
    if k == |ticks| {
      assert ticks[..k] == ticks;
    } else {
      assert ticks[..k + 1][..k] == ticks[..k];
      hide Protect, Pipeline.Wanted;
      FaultStays(a, ticks, k + 1);
    }
  }

  /** The protection loop on its two objects, stopping at the first fault: it emits the targets
      of the run, and every one of them passes the controller's gain and envelope tests. */
  method Replay(projector: TargetProjector, startup: StartupRamp, a: Pipeline, ticks: seq<Tick>)
    returns (r: Result<seq<Target>, ProtectFault>)
    requires a.Valid() && TicksFit(a.n, ticks) && projector.Valid() && startup.Valid() && startup.State() == FRESH_RAMP
    requires projector.cfg == a.p && projector.n == startup.n == a.n && startup.timing == a.timing
    modifies projector`maximumOvershoot, projector.clampCount, startup
    ensures projector.Valid() && startup.Valid()
    ensures r == match After(a, ticks) case Ok(run) => Ok(run.emitted) case Err(error) => Err(error)
    ensures r.Ok? ==> startup.State() == After(a, ticks).value.state
    ensures r.Ok? ==> |r.value| == |ticks| && forall k :: 0 <= k < |ticks| ==>
              r.value[k].Has(a.n) && GainsAcceptable(r.value[k]) && EnvelopeAcceptable(r.value[k], a.Rows())
  {
    hide After, Protect, Pipeline.Wanted, GainsAcceptable, EnvelopeAcceptable, Pipeline.Valid;
    var emitted: seq<Target> := [];
    NoTicks(a, ticks[..0]);
    for k := 0 to |ticks|
      invariant projector.Valid() && startup.Valid()
      invariant After(a, ticks[..k]) == Ok(Run(startup.State(), emitted))
    {
      NextTick(a, ticks, k);
      WantedHas(a, ticks[k].wanted);
      var one := ProtectTick(projector, startup, a.Wanted(ticks[k].wanted), ticks[k].measured);
      if one.Err? {
        FaultStays(a, ticks, k + 1);
        return Err(one.error);
      }
      emitted := emitted + [one.value];
    }
    assert ticks[..|ticks|] == ticks;
    forall k | 0 <= k < |ticks|
      ensures emitted[k].Has(a.n) && GainsAcceptable(emitted[k]) && EnvelopeAcceptable(emitted[k], a.Rows())
    {
      EmittedTargetsPass(a, ticks, k);
    }
    return Ok(emitted);
  }

  lemma NoTicks(a: Pipeline, ticks: seq<Tick>)
    requires a.Valid() && ticks == []
    ensures After(a, ticks) == Ok(Run(FRESH_RAMP, []))
  {
  }

  lemma WantedHas(a: Pipeline, wanted: seq<real>)
    requires a.Valid() && |wanted| == a.n
    ensures a.Wanted(wanted).Has(a.n)
  {
  }
}
