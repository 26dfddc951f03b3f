/** The actor's last two stages, projection and startup ramp
    (native/src/policy_protection.hpp), and the exported table the controller checks their
    output against (tools/export_native_joint_safety_config.py). */
module Protection {
  import opened Prelude
  import opened Impedance
  import opened Smoothstep

  datatype ProtectFault = NegativeGain | PoseOutsideLimits | KdBeyondLimit | BadTiming | BadLimits

  // ---- projection ----------------------------------------------------------

  datatype Projection = Projection(
    lower: seq<real>, upper: seq<real>, gain: seq<real>, damping: seq<real>, scale: real, maximumKd: real)
  {
    predicate Has(n: nat) { |lower| == n && |upper| == n && |gain| == n && |damping| == n }

    /** The constructor's tests. */
    predicate Accepted()
      requires Has(|lower|)
    {
      && 0.0 < scale <= 1.0 && maximumKd > 0.0
      && forall i :: 0 <= i < |lower| ==>
           lower[i] < upper[i] && 0.0 < gain[i] <= 1.0 && 0.0 < damping[i] <= 4.0
    }

    predicate PoseAccepted(p: seq<real>)
      requires Has(|lower|) && |p| == |lower|
    {
      forall i :: 0 <= i < |p| ==> lower[i] <= p[i] <= upper[i]
    }

    function Gain(i: int): real { Product(scale, At(gain, i)) }
    function DampingGain(i: int): real { Product(Gain(i), At(damping, i)) }
    function Limited(t: Target, i: int): real { Clamp(At(t.position, i), At(lower, i), At(upper, i)) }
    function ProjectedKd(t: Target, i: int): real { Product(DampingGain(i), At(t.kd, i)) }
    predicate OverKd(t: Target, i: int) { ProjectedKd(t, i) > maximumKd }
    predicate Clamped(t: Target, i: int) { Limited(t, i) != At(t.position, i) }
    function Overshoot(t: Target, i: int): real {
      Max(At(lower, i) - At(t.position, i), At(t.position, i) - At(upper, i))
    }

    function Projected(n: nat, t: Target): Target {
      Target(seq(n, i => Limited(t, i)), t.velocity, seq(n, i => Product(Gain(i), At(t.kp, i))),
             seq(n, i => ProjectedKd(t, i)), seq(n, i => Product(Gain(i), At(t.feedforward, i))))
    }

    /** The joint whose Kd stops the loop, or `n`. */
    function FirstOver(n: nat, t: Target, from: nat): (k: nat)
      requires from <= n
      ensures from <= k <= n
      ensures forall i :: from <= i < k ==> !OverKd(t, i)
      ensures k < n ==> OverKd(t, k)
      decreases n - from
    {
      if from == n || OverKd(t, from) then from else FirstOver(n, t, from + 1)
    }

    function Result(n: nat, t: Target): Result<Target, ProtectFault> {
      if !t.NonNegativeGains() then Err(NegativeGain)
      else if FirstOver(n, t, 0) < n then Err(KdBeyondLimit)
      else Ok(Projected(n, t))
    }

    /** Largest overshoot over the first joints, on top of what was seen before. */
    function Worst(t: Target, count: nat, before: real): real {
      if count == 0 then before else Max(Worst(t, count - 1, before), Overshoot(t, count - 1))
    }
  }

  /** A target is clamped exactly when it overshoots, and the overshoot is the distance the
      projection moves it; no point inside the limits is nearer. */
  lemma ProjectionIsNearest(p: Projection, t: Target, i: nat, x: real)
    requires p.Has(|p.lower|) && p.Accepted() && i < |p.lower|
    ensures p.lower[i] <= p.Limited(t, i) <= p.upper[i]
    ensures p.lower[i] <= x <= p.upper[i] ==> Abs(At(t.position, i) - p.Limited(t, i)) <= Abs(At(t.position, i) - x)
    ensures p.Clamped(t, i) <==> p.Overshoot(t, i) > 0.0
    ensures p.Clamped(t, i) ==> p.Overshoot(t, i) == Abs(At(t.position, i) - p.Limited(t, i))
  {
  }

  lemma {:induction false} WorstPositive(p: Projection, n: nat, t: Target, count: nat, before: real)
    requires p.Has(n) && p.Accepted() && count <= n && before >= 0.0
    ensures p.Worst(t, count, before) >= before
    ensures p.Worst(t, count, before) > 0.0 <==> before > 0.0 || exists i :: 0 <= i < count && p.Clamped(t, i)
  {
    if count > 0 {
      WorstPositive(p, n, t, count - 1, before);
      ProjectionIsNearest(p, t, count - 1, 0.0);
    }
  }

  /** One more clamp for every visited joint that was clamped. */
  predicate Counted(p: Projection, t: Target, visited: nat, before: seq<nat>, after: seq<nat>) {
    && |after| == |before|
    && forall i :: 0 <= i < |after| ==> after[i] == before[i] + if i < visited && p.Clamped(t, i) then 1 else 0
  }

  /** The two statistics agree: an overshoot was seen iff some joint was clamped. */
  predicate StatisticsAgree(overshoot: real, counts: seq<nat>) {
    overshoot >= 0.0 && (overshoot > 0.0 <==> exists i :: 0 <= i < |counts| && counts[i] > 0)
  }

  lemma StatisticsKept(p: Projection, n: nat, t: Target, visited: nat, overshoot: real, before: seq<nat>, after: seq<nat>)
    requires p.Has(n) && p.Accepted() && visited <= n == |before|
    requires StatisticsAgree(overshoot, before) && Counted(p, t, visited, before, after)
    ensures StatisticsAgree(p.Worst(t, visited, overshoot), after)
  {
    WorstPositive(p, n, t, visited, overshoot);
    hide Projection.Worst, Projection.Clamped;
    if k :| 0 <= k < n && before[k] > 0 {
      assert after[k] > 0;
    } else if k :| 0 <= k < visited && p.Clamped(t, k) {
      assert after[k] > 0;
    }
  }

  class TargetProjector {
    const cfg: Projection
    const n: nat
    const clampCount: array<nat>
    var maximumOvershoot: real

    predicate Valid()
      reads this, clampCount
    {
      cfg.Has(n) && cfg.Accepted() && clampCount.Length == n && StatisticsAgree(maximumOvershoot, clampCount[..])
    }

    constructor (cfg: Projection, n: nat)
      requires cfg.Has(n) && cfg.Accepted()
      ensures Valid() && this.cfg == cfg && this.n == n && fresh(clampCount)
    {
      this.cfg, this.n := cfg, n;
      clampCount := new nat[n](_ => 0);
      maximumOvershoot := 0.0;
    }

    /** One joint of the statistics. */
    method Account(t: Target, i: nat, limited: real)
      requires cfg.Has(n) && clampCount.Length == n && t.Has(n) && i < n && limited == cfg.Limited(t, i)
      modifies this`maximumOvershoot, clampCount
      ensures maximumOvershoot == Max(old(maximumOvershoot), cfg.Overshoot(t, i))
      ensures clampCount[..] == old(clampCount[..])[i := old(clampCount[i]) + if cfg.Clamped(t, i) then 1 else 0]
    {
      if limited != t.position[i] {
        clampCount[i] := clampCount[i] + 1;
      }
      maximumOvershoot := Max(maximumOvershoot, Max(cfg.lower[i] - t.position[i], t.position[i] - cfg.upper[i]));
    }

    /** `project`. The statistics of every joint up to and including the refused one move,
        also when the projection is refused. */
    method Project(t: Target) returns (r: Result<Target, ProtectFault>)
      requires Valid() && t.Has(n)
      modifies this`maximumOvershoot, clampCount
      ensures Valid() && r == cfg.Result(n, t)
      ensures var visited := if t.NonNegativeGains() then Min2(cfg.FirstOver(n, t, 0) + 1, n) else 0;
              && maximumOvershoot == cfg.Worst(t, visited, old(maximumOvershoot))
              && Counted(cfg, t, visited, old(clampCount[..]), clampCount[..])
    {
      if !t.NonNegativeGains() {
        return Err(NegativeGain);
      }
      hide Product, StatisticsAgree, Counted, Clamp, Projection.FirstOver, Projection.Projected, Projection.Worst,
           Projection.Limited, Projection.Clamped, Projection.Overshoot, Projection.OverKd,
           Projection.Accepted, Target.NonNegativeGains;
      var position, kp, kd, feedforward := [], [], [], [];
      ghost var counts, worst := clampCount[..], maximumOvershoot;
      CountedStart(cfg, t, clampCount[..]);
      ProjectedStart(cfg, n, t, maximumOvershoot);
      for i := 0 to n
        invariant cfg.FirstOver(n, t, 0) == cfg.FirstOver(n, t, i)
        invariant position == cfg.Projected(i, t).position && kp == cfg.Projected(i, t).kp
        invariant kd == cfg.Projected(i, t).kd && feedforward == cfg.Projected(i, t).feedforward
        invariant maximumOvershoot == cfg.Worst(t, i, worst)
        invariant Counted(cfg, t, i, counts, clampCount[..])
      {
        ProjectedStep(cfg, n, t, i, worst);
        CountedStep(cfg, t, i, counts, clampCount[..]);
        var limited := Clamp(t.position[i], cfg.lower[i], cfg.upper[i]);
        position := position + [limited];
        Account(t, i, limited);
        var s := Product(cfg.scale, cfg.gain[i]);
        kp := kp + [Product(s, t.kp[i])];
        var damped := Product(Product(s, cfg.damping[i]), t.kd[i]);
        kd := kd + [damped];
        feedforward := feedforward + [Product(s, t.feedforward[i])];
        if damped > cfg.maximumKd {
          StatisticsKept(cfg, n, t, i + 1, worst, counts, clampCount[..]);
          return Err(KdBeyondLimit);
        }
      }
      StatisticsKept(cfg, n, t, n, worst, counts, clampCount[..]);
      ProjectedEnd(cfg, n, t);
      r := Ok(Target(position, t.velocity, kp, kd, feedforward));
    }
  }

  lemma CountedStart(p: Projection, t: Target, counts: seq<nat>)
    ensures Counted(p, t, 0, counts, counts)
  {
  }

  lemma CountedStep(p: Projection, t: Target, i: nat, before: seq<nat>, after: seq<nat>)
    requires i < |after| && Counted(p, t, i, before, after)
    ensures Counted(p, t, i + 1, before, after[i := after[i] + if p.Clamped(t, i) then 1 else 0])
  {
  }

  lemma ProjectedStart(p: Projection, n: nat, t: Target, before: real)
    ensures var r := p.Projected(0, t); r.position == [] && r.kp == [] && r.kd == [] && r.feedforward == []
    ensures p.Worst(t, 0, before) == before
  {
  }

  /** One joint of the projection loop against its specification. */
  lemma ProjectedStep(p: Projection, n: nat, t: Target, i: nat, before: real)
    requires p.Has(n) && t.Has(n) && i < n
    ensures var r, next := p.Projected(i, t), p.Projected(i + 1, t);
            var s := Product(p.scale, p.gain[i]);
            && next.position == r.position + [Clamp(t.position[i], p.lower[i], p.upper[i])]
            && next.kp == r.kp + [Product(s, t.kp[i])]
            && next.kd == r.kd + [Product(Product(s, p.damping[i]), t.kd[i])]
            && next.feedforward == r.feedforward + [Product(s, t.feedforward[i])]
            && (Product(Product(s, p.damping[i]), t.kd[i]) > p.maximumKd <==> p.OverKd(t, i))
    ensures p.Limited(t, i) == Clamp(t.position[i], p.lower[i], p.upper[i])
    ensures p.FirstOver(n, t, i) == if p.OverKd(t, i) then i else p.FirstOver(n, t, i + 1)
    ensures p.Worst(t, i + 1, before) == Max(p.Worst(t, i, before), p.Overshoot(t, i))
  {
    hide Product;
  }

  lemma ProjectedEnd(p: Projection, n: nat, t: Target)
    requires p.Has(n) && t.Has(n)
    ensures p.FirstOver(n, t, n) == n
    ensures p.Projected(n, t).velocity == t.velocity
  {
  }

  function Min2(a: nat, b: nat): nat { if a < b then a else b }

  // ---- startup ramp --------------------------------------------------------

  datatype Timing = Timing(hold: nat, ramp: nat) {
    function Alpha(completed: nat): real {
      if completed < hold || ramp == 0 then 0.0
      else Smooth(Min(1.0, (completed - hold + 1) as real / ramp as real))
    }
    predicate Complete(completed: nat) { completed >= hold + ramp }
  }

  function Ceiling(x: real): int { -((-x).Floor) }

  const MAX_TICKS: int := 1_000_000_000

  /** The ramp's constructor: seconds to whole ticks. */
  function Timed(hz: real, holdSeconds: real, rampSeconds: real): Result<Timing, ProtectFault> {
    if hz <= 0.0 || holdSeconds < 0.0 || rampSeconds <= 0.0 then Err(BadTiming)
    else
      var h, r := Ceiling(Product(hz, holdSeconds)), Ceiling(Product(hz, rampSeconds));
      if h > MAX_TICKS || r > MAX_TICKS then Err(BadTiming)
      else
        assert h >= 0 by { NonNegativeProduct(hz, holdSeconds); }
        Ok(Timing(h, if r < 1 then 1 else r))
  }

  /** Neither phase is shortened by rounding, none gains a whole tick, and there is a hold
      tick exactly when a positive hold was asked for. */
  lemma TimedCovers(hz: real, holdSeconds: real, rampSeconds: real)
    requires Timed(hz, holdSeconds, rampSeconds).Ok?
    ensures var t := Timed(hz, holdSeconds, rampSeconds).value;
            && t.ramp >= 1 && (t.hold >= 1 <==> holdSeconds > 0.0)
            && t.hold as real - 1.0 < hz * holdSeconds <= t.hold as real
            && t.ramp as real - 1.0 < hz * rampSeconds <= t.ramp as real
  {
    NonNegativeProduct(hz, holdSeconds);
    PositiveProduct(hz, rampSeconds);
    if holdSeconds > 0.0 {
      PositiveProduct(hz, holdSeconds);
    }
  }

  /** Progress along the ramp, before smoothing. */
  function Linear(t: Timing, completed: nat): real
    requires t.ramp >= 1 && completed >= t.hold
  {
    Min(1.0, (completed - t.hold + 1) as real / t.ramp as real)
  }

  lemma LinearSteps(t: Timing, completed: nat)
    requires t.ramp >= 1 && completed >= t.hold
    ensures 0.0 < Linear(t, completed) <= 1.0
    ensures Linear(t, completed) == 1.0 <==> t.Complete(completed + 1)
    ensures completed == t.hold ==> Linear(t, completed) <= 1.0 / t.ramp as real
    ensures 0.0 <= Linear(t, completed + 1) - Linear(t, completed) <= 1.0 / t.ramp as real
  {
    var r, k := t.ramp as real, (completed - t.hold + 1) as real;
    Quotients(k, r);
  }

  lemma Quotients(k: real, r: real)
    requires r > 0.0 && k > 0.0
    ensures k / r > 0.0 && (k / r >= 1.0 <==> k >= r)
    ensures (k + 1.0) / r == k / r + 1.0 / r && 1.0 / r > 0.0
  {
    var q := k / r;
    assert q * r == k;
    if q >= 1.0 {
      NonNegativeProduct(q - 1.0, r);
    } else {
      PositiveProduct(1.0 - q, r);
    }
  }

  /** The blend is zero exactly during the hold, stays in the unit interval, never falls,
      rises by at most 1.5/ramp per tick, and is one exactly when the tick it is used in
      completes the ramp. */
  lemma AlphaLaw(t: Timing, completed: nat)
    requires t.ramp >= 1
    ensures 0.0 <= t.Alpha(completed) <= 1.0
    ensures t.Alpha(completed) == 0.0 <==> completed < t.hold
    ensures t.Alpha(completed) == 1.0 <==> t.Complete(completed + 1)
    ensures 0.0 <= t.Alpha(completed + 1) - t.Alpha(completed) <= 1.5 / t.ramp as real
  {
    hide Smooth;
    Quotients(1.0, t.ramp as real);
    if completed + 1 >= t.hold {
      LinearSteps(t, completed + 1);
      SmoothEnds(Linear(t, completed + 1));
      SmoothEnds(0.0);
      if completed >= t.hold {
        LinearSteps(t, completed);
        SmoothEnds(Linear(t, completed));
        SmoothIncrement(Linear(t, completed), Linear(t, completed + 1));
      } else {
        SmoothIncrement(0.0, Linear(t, completed + 1));
      }
    }
  }

  datatype RampState = RampState(
    completed: nat, initial: Option<seq<real>>, previous: Option<seq<real>>, lastAlpha: real, maximumDelta: real)
  {
    predicate Has(n: nat) {
      (initial.Some? ==> |initial.value| == n) && (previous.Some? ==> |previous.value| == n)
    }
  }

  const FRESH_RAMP := RampState(0, None, None, 0.0, 0.0)

  function Scaled(n: nat, a: real, v: seq<real>): seq<real> { seq(n, i => Product(a, At(v, i))) }

  function Blended(n: nat, a: real, initial: seq<real>, t: Target): Target {
    Target(seq(n, i => Mix(a, At(initial, i), At(t.position, i))),
           Scaled(n, a, t.velocity), Scaled(n, a, t.kp), Scaled(n, a, t.kd), Scaled(n, a, t.feedforward))
  }

  /** Largest move of a joint between two frames, on top of what was seen before. */
  function WorstMove(x: seq<real>, y: seq<real>, count: nat, before: real): real {
    if count == 0 then before
    else Max(WorstMove(x, y, count - 1, before), Abs(At(x, count - 1) - At(y, count - 1)))
  }

  function RampStep(n: nat, timing: Timing, s: RampState, t: Target, measured: seq<real>): (RampState, Result<Target, ProtectFault>) {
    if !t.NonNegativeGains() then (s, Err(NegativeGain))
    else
      var initial := if s.initial.Some? then s.initial.value else measured;
      var a := timing.Alpha(s.completed);
      var r := Blended(n, a, initial, t);
      (RampState(s.completed + 1, Some(initial), Some(r.position), a,
                 if s.previous.Some? then WorstMove(r.position, s.previous.value, n, s.maximumDelta) else s.maximumDelta),
       Ok(r))
  }

  /** The second `validate_target` never fires: a blend in the unit interval keeps gains nonnegative. */
  lemma BlendKeepsGains(n: nat, a: real, initial: seq<real>, t: Target)
    requires 0.0 <= a <= 1.0 && t.Has(n) && t.NonNegativeGains()
    ensures Blended(n, a, initial, t).NonNegativeGains()
  {
    forall i | 0 <= i < n ensures Product(a, t.kp[i]) >= 0.0 && Product(a, t.kd[i]) >= 0.0 {
      NonNegativeProduct(a, t.kp[i]);
      NonNegativeProduct(a, t.kd[i]);
    }
  }

  class StartupRamp {
    const n: nat
    const timing: Timing
    var completed: nat
    var initial: seq<real>
    var previous: seq<real>
    var captured: bool
    var hasPrevious: bool
    var lastAlpha: real
    var maximumPositionDelta: real

    predicate Valid()
      reads this
    {
      timing.ramp >= 1 && State().Has(n)
    }

    function State(): RampState
      reads this
    {
      RampState(completed, if captured then Some(initial) else None, if hasPrevious then Some(previous) else None,
                lastAlpha, maximumPositionDelta)
    }

    constructor (n: nat, timing: Timing)
      requires timing.ramp >= 1
      ensures Valid() && this.n == n && this.timing == timing && State() == FRESH_RAMP
    {
      this.n, this.timing := n, timing;
      completed, initial, previous, captured, hasPrevious := 0, [], [], false, false;
      lastAlpha, maximumPositionDelta := 0.0, 0.0;
    }

    /** `apply`. */
    method Apply(t: Target, measured: seq<real>) returns (r: Result<Target, ProtectFault>)
      requires Valid() && t.Has(n) && |measured| == n
      modifies this
      ensures Valid() && (State(), r) == RampStep(n, timing, old(State()), t, measured)
    {
      hide Product, Smooth, Mix;
      if !t.NonNegativeGains() {
        return Err(NegativeGain);
      }
      if !captured {
        initial, captured := measured, true;
      }
      var a := 0.0;
      if completed >= timing.hold {
        a := Smooth(Min(1.0, (completed - timing.hold + 1) as real / timing.ramp as real));
      }
      AlphaLaw(timing, completed);
      ghost var from := initial;
      ghost var worst := maximumPositionDelta;
      var result := Target([], [], [], [], []);
      BlendedStart(a, from, t);
      hide Blended, WorstMove, Timing.Alpha;
      for i := 0 to n
        invariant result == Blended(i, a, from, t)
        invariant maximumPositionDelta == if hasPrevious then WorstMove(result.position, previous, i, worst) else worst
        invariant initial == from && hasPrevious == old(hasPrevious) && previous == old(previous) && captured
        invariant completed == old(completed)
      {
        BlendedStep(n, i, a, from, t, previous, worst);
        result := Target(
          result.position + [Mix(a, initial[i], t.position[i])],
          result.velocity + [Product(a, t.velocity[i])], result.kp + [Product(a, t.kp[i])],
          result.kd + [Product(a, t.kd[i])], result.feedforward + [Product(a, t.feedforward[i])]);
        if hasPrevious {
          maximumPositionDelta := Max(maximumPositionDelta, Abs(result.position[i] - previous[i]));
        }
      }
      BlendKeepsGains(n, a, from, t);
      if !result.NonNegativeGains() {
        return Err(NegativeGain);
      }
      previous, hasPrevious, lastAlpha, completed := result.position, true, a, completed + 1;
      return Ok(result);
    }
  }

  lemma BlendedStart(a: real, initial: seq<real>, t: Target)
    ensures Blended(0, a, initial, t) == Target([], [], [], [], [])
  {
  }

  /** One joint of the ramp loop against its specification. */
  lemma BlendedStep(n: nat, i: nat, a: real, initial: seq<real>, t: Target, previous: seq<real>, worst: real)
    requires t.Has(n) && |initial| == n && i < n
    ensures Blended(i, a, initial, t).Has(i) && Blended(i + 1, a, initial, t).Has(i + 1)
    ensures var r := Blended(i, a, initial, t);
            && Blended(i + 1, a, initial, t)
               == Target(r.position + [Mix(a, initial[i], t.position[i])], r.velocity + [Product(a, t.velocity[i])],
                         r.kp + [Product(a, t.kp[i])], r.kd + [Product(a, t.kd[i])],
                         r.feedforward + [Product(a, t.feedforward[i])])
            && WorstMove(Blended(i + 1, a, initial, t).position, previous, i + 1, worst)
               == Max(WorstMove(r.position, previous, i, worst),
                      Abs(Mix(a, initial[i], t.position[i]) - At(previous, i)))
  {
    hide Product, Mix;
    MovePrefix(Blended(i, a, initial, t).position, Blended(i + 1, a, initial, t).position, previous, i, worst);
  }

  lemma {:induction false} MovePrefix(x: seq<real>, longer: seq<real>, y: seq<real>, count: nat, before: real)
    requires count <= |x| <= |longer| && x == longer[..|x|]
    ensures WorstMove(x, y, count, before) == WorstMove(longer, y, count, before)
  {
    if count > 0 {
      MovePrefix(x, longer, y, count - 1, before);
    }
  }

  /** For a constant target every tick moves a joint by at most 1.5/ramp times the distance
      between the target and the measured pose. */
  lemma StepBound(n: nat, t: Timing, completed: nat, initial: seq<real>, target: Target, i: nat)
    requires t.ramp >= 1 && i < n == |initial| && target.Has(n)
    ensures var x, y := Blended(n, t.Alpha(completed), initial, target).position[i],
                        Blended(n, t.Alpha(completed + 1), initial, target).position[i];
            Abs(y - x) <= 1.5 / t.ramp as real * Abs(target.position[i] - initial[i])
  {
    var a, b, span := t.Alpha(completed), t.Alpha(completed + 1), target.position[i] - initial[i];
    AlphaLaw(t, completed);
    MixStep(a, b, initial[i], target.position[i]);
    ScaledSpan(b - a, 1.5 / t.ramp as real, span);
    hide Mix, Product;
  }

  lemma ScaledSpan(d: real, bound: real, span: real)
    requires 0.0 <= d <= bound
    ensures Abs(Product(d, span)) <= bound * Abs(span)
  {
    NonNegativeProduct(bound - d, Abs(span));
    NonNegativeProduct(d, Abs(span));
  }
}
