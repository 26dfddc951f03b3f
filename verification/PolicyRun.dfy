/** Whole runs of the actor core: observe, infer, latch, again and again. */
module PolicyRun {
  import opened Prelude
  import opened Smoothstep
  import opened Handoff
  import opened PolicyCore

  /** One tick: the sensor vector and what the network answered. */
  datatype Tick = Tick(input: seq<real>, raw: seq<real>)

  predicate TicksFit(ticks: seq<Tick>) {
    forall k :: 0 <= k < |ticks| ==> |ticks[k].input| == INPUTS && |ticks[k].raw| == 31
  }

  datatype Actor = Actor(latched: Latched, frames: seq<Sample>, actions: seq<seq<real>>)

  const STARTED := Actor(NOTHING, [BLANK], [])

  /** An alternating run of `observe` and `latch`. */
  function After(c: Config, ticks: seq<Tick>): (r: Actor)
    requires c.Valid() && ScaleUsable(c.scale) && TicksFit(ticks)
    ensures r.latched.Valid() && |r.actions| == |ticks| && forall k :: 0 <= k < |ticks| ==> |r.actions[k]| == 31
  {
    if ticks == [] then STARTED
    else
      var s, tick := After(c, ticks[..|ticks| - 1]), ticks[|ticks| - 1];
      var sample := Observed(c.narrow, c.defaults, s.latched.previous, tick.input);
      var next := Latching(c, s.latched, tick.raw, tick.input[..31]);
      Actor(next, Observing(s.frames, s.latched.initial.Some?, sample), s.actions + [next.previous])
  }

  /** The same calls on the Python handoff. */
  function PythonAfter(c: Config, ticks: seq<Tick>): (r: (PythonState, seq<seq<real>>))
    requires c.Valid() && ScaleUsable(c.scale) && TicksFit(ticks)
    ensures |r.1| == |ticks| && (r.0.initial.Some? ==> |r.0.initial.value| == 31)
  {
    if ticks == [] then (PythonState(0, None), [])
    else
      var s, tick := PythonAfter(c, ticks[..|ticks| - 1]), ticks[|ticks| - 1];
      var next := PythonBlend(c.steps, c.offset, c.scale, s.0, tick.raw, tick.input[..31]);
      (next.0, s.1 + [next.1])
  }

  /** The `k`-th action of a run, in closed form. */
  function Action(c: Config, ticks: seq<Tick>, k: nat): (r: seq<real>)
    requires c.Valid() && ScaleUsable(c.scale) && TicksFit(ticks) && k < |ticks|
    ensures |r| == 31
  {
    Blend(Share(c.steps, k), PoseAction(ticks[0].input[..31], c.offset, c.scale), ticks[k].raw)
  }

  /** The action an observation looks back at. */
  function ActionBefore(c: Config, ticks: seq<Tick>, k: nat): (r: seq<real>)
    requires c.Valid() && ScaleUsable(c.scale) && TicksFit(ticks) && k < |ticks|
    ensures |r| == 31
  {
    if k == 0 then NOTHING.previous else Action(c, ticks, k - 1)
  }

  /** The `k`-th observation of a run. */
  function Seen(c: Config, ticks: seq<Tick>, k: nat): (s: Sample)
    requires c.Valid() && ScaleUsable(c.scale) && TicksFit(ticks) && k < |ticks|
    ensures Fits(s)
  {
    Observed(c.narrow, c.defaults, ActionBefore(c, ticks, k), ticks[k].input)
  }

  predicate LatchShape(c: Config, ticks: seq<Tick>, s: Actor)
    requires c.Valid() && ScaleUsable(c.scale) && TicksFit(ticks) && ticks != []
  {
    && s.latched.initial == Some(PoseAction(ticks[0].input[..31], c.offset, c.scale))
    && s.latched.completed == (if |ticks| < c.steps then |ticks| else c.steps)
    && s.latched.previous == Action(c, ticks, |ticks| - 1)
    && |s.actions| == |ticks|
    && forall k :: 0 <= k < |ticks| ==> s.actions[k] == Action(c, ticks, k)
  }

  lemma SamePast(c: Config, ticks: seq<Tick>, n: nat, k: nat)
    requires c.Valid() && ScaleUsable(c.scale) && TicksFit(ticks) && k < n <= |ticks|
    ensures Action(c, ticks[..n], k) == Action(c, ticks, k)
    ensures Seen(c, ticks[..n], k) == Seen(c, ticks, k)
  {
    hide Observed, Blend, PoseAction, Share;
  }

  lemma {:induction false} LatchRun(c: Config, ticks: seq<Tick>)
    requires c.Valid() && ScaleUsable(c.scale) && TicksFit(ticks) && ticks != []
    ensures LatchShape(c, ticks, After(c, ticks))
  {
    hide Observed, Observing, Blend, PoseAction, Smooth;
    var n := |ticks| - 1;
    var before := ticks[..n];
    if n > 0 {
      LatchRun(c, before);
      forall k | 0 <= k < n ensures Action(c, before, k) == Action(c, ticks, k) {
        SamePast(c, ticks, n, k);
      }
    }
  }

  predicate FramesShape(c: Config, ticks: seq<Tick>, frames: seq<Sample>)
    requires c.Valid() && ScaleUsable(c.scale) && TicksFit(ticks)
  {
    |frames| == |ticks| && forall k :: 0 <= k < |ticks| ==> frames[k] == Seen(c, ticks, k)
  }

  lemma LastFrame(c: Config, ticks: seq<Tick>)
    requires c.Valid() && ScaleUsable(c.scale) && TicksFit(ticks) && ticks != []
    ensures var n := |ticks| - 1;
            var s := After(c, ticks[..n]);
            (n > 0 ==> LatchShape(c, ticks[..n], s))
            && After(c, ticks).frames == if n == 0 then [Seen(c, ticks, 0)] else s.frames + [Seen(c, ticks, n)]
  {
    hide Observed, PoseAction, Latching, Action, Fits, ScaleUsable;
    var n := |ticks| - 1;
    if n > 0 {
      LatchRun(c, ticks[..n]);
      SamePast(c, ticks, n, n - 1);
    }
  }

  lemma {:induction false} FramesRun(c: Config, ticks: seq<Tick>)
    requires c.Valid() && ScaleUsable(c.scale) && TicksFit(ticks) && ticks != []
    ensures FramesShape(c, ticks, After(c, ticks).frames)
  {
    hide After, Seen, Action, Fits, LatchShape;
    var n := |ticks| - 1;
    LastFrame(c, ticks);
    if n > 0 {
      FramesRun(c, ticks[..n]);
      forall k | 0 <= k < n ensures Seen(c, ticks[..n], k) == Seen(c, ticks, k) {
        SamePast(c, ticks, n, k);
      }
    }
  }

  /** After any run, the flat buffer holds at position `base + f * width + j` of term `t` value `j`
      of the observation made `7 - f` ticks ago, the first observation standing in for those
      before the start. */
  lemma HistoryIsSeen(c: Config, ticks: seq<Tick>, t: nat, f: nat, j: nat)
    requires c.Valid() && ScaleUsable(c.scale) && TicksFit(ticks) && ticks != []
    requires t < TERMS && f < FRAMES && j < WIDTHS[t]
    ensures var n := |ticks|;
            var age := if n + f < FRAMES then 0 else n + f - FRAMES;
            var frames := After(c, ticks).frames;
            && frames != [] && AllFit(frames)
            && BASES[t] + f * WIDTHS[t] + j < |Window(frames)| == HISTORY
            && Window(frames)[BASES[t] + f * WIDTHS[t] + j] == Seen(c, ticks, age)[t][j]
  {
    hide After, Seen, Region, Window;
    FramesRun(c, ticks);
    var frames := After(c, ticks).frames;
    forall k | 0 <= k < |frames| ensures Fits(frames[k]) {
      assert frames[k] == Seen(c, ticks, k);
    }
    RegionHolds(frames, t, FRAMES, f, j);
    InWindow(frames, t, f * WIDTHS[t] + j);
  }

  /** The tick that slot `f` of the history shows after `n` ticks. */
  function AgeOf(n: nat, f: nat): (k: nat)
    requires n > 0 && f < FRAMES
    ensures k < n && (n + f >= FRAMES ==> n - 1 - k == FRAMES - 1 - f) && (n + f < FRAMES ==> k == 0)
  {
    if n + f < FRAMES then 0 else n + f - FRAMES
  }

  /** Main result on observations: after any run, each of the eight slots of the flat buffer
      holds what the sensors said at its tick: joint positions relative to the defaults, joint
      velocities, the action sent the tick before, body rates and gravity, each in its block. */
  lemma HistoryIsSlidingWindow(c: Config, ticks: seq<Tick>, f: nat, j: nat)
    requires c.Valid() && ScaleUsable(c.scale) && TicksFit(ticks) && ticks != [] && f < FRAMES
    ensures var s, k := After(c, ticks), AgeOf(|ticks|, f);
            && s.frames != [] && AllFit(s.frames) && |Window(s.frames)| == HISTORY
            && var w, input := Window(s.frames), ticks[k].input;
               && (j < 31 ==>
                     && w[31 * f + j] == c.narrow(c.narrow(input[j]) - c.narrow(c.defaults[j]))
                     && w[248 + 31 * f + j] == c.narrow(input[31 + j])
                     && w[496 + 31 * f + j] == c.narrow(if k == 0 then 0.0 else s.actions[k - 1][j]))
               && (j < 3 ==>
                     && w[744 + 3 * f + j] == c.narrow(input[62 + j])
                     && w[768 + 3 * f + j] == c.narrow(input[65 + j]))
  {
    hide After, Window, Action, Fits;
    LatchRun(c, ticks);
    HistoryIsSeen(c, ticks, 0, f, 0);
    if j < 31 {
      HistoryIsSeen(c, ticks, 0, f, j);
      HistoryIsSeen(c, ticks, 1, f, j);
      HistoryIsSeen(c, ticks, 2, f, j);
    }
    if j < 3 {
      HistoryIsSeen(c, ticks, 3, f, j);
      HistoryIsSeen(c, ticks, 4, f, j);
    }
  }

  lemma InWindow(frames: seq<Sample>, t: nat, i: nat)
    requires frames != [] && AllFit(frames) && t < TERMS && i < FRAMES * WIDTHS[t]
    ensures |Window(frames)| == HISTORY && Window(frames)[BASES[t] + i] == Region(frames, t, FRAMES)[i]
  {
    hide Region;
  }

  // ---- the native latch refines the Python blend ---------------------------

  lemma {:induction false} PythonShape(c: Config, ticks: seq<Tick>)
    requires c.Valid() && ScaleUsable(c.scale) && TicksFit(ticks)
    ensures var s := PythonAfter(c, ticks);
            && s.0.initial == (if ticks == [] then None else Some(PoseAction(ticks[0].input[..31], c.offset, c.scale)))
            && s.0.completed == (if |ticks| < c.steps then |ticks| else c.steps)
            && (forall k :: 0 <= k < |ticks| ==> s.1[k] == Action(c, ticks, k))
  {
    hide PoseAction, Smooth, Mix;
    if ticks != [] {
      var before, last := ticks[..|ticks| - 1], |ticks| - 1;
      PythonShape(c, before);
      forall k | 0 <= k < |before| ensures Action(c, before, k) == Action(c, ticks, k) {
      }
      if last < c.steps {
        FractionClamped(last + 1, c.steps);
      } else {
        BlendComplete(PoseAction(ticks[0].input[..31], c.offset, c.scale), ticks[last].raw);
      }
    }
  }

  lemma FractionClamped(k: nat, n: nat)
    requires 0 < k <= n
    ensures Min(1.0, k as real / n as real) == k as real / n as real
  {
    Fraction(k, n);
  }

  lemma BlendComplete(initial: seq<real>, action: seq<real>)
    requires |initial| == |action|
    ensures Blend(1.0, initial, action) == action
  {
    forall j | 0 <= j < |action| ensures Blend(1.0, initial, action)[j] == action[j] {
      MixEnds(initial[j], action[j]);
    }
  }

  /** Main result on actions: for every run and every handoff length the native core and the
      Python handoff return the same actions. */
  lemma LatchRefinesBlend(c: Config, ticks: seq<Tick>)
    requires c.Valid() && ScaleUsable(c.scale) && TicksFit(ticks)
    ensures After(c, ticks).actions == PythonAfter(c, ticks).1
  {
    hide After, PythonAfter, Action;
    PythonShape(c, ticks);
    if ticks != [] {
      LatchRun(c, ticks);
    }
  }

  /** Every joint target is the convex combination of the first measured pose and the target
      the policy asks for, with a share that never falls and ends at one. */
  lemma TargetsBlendFromMeasuredPose(c: Config, ticks: seq<Tick>, k: nat, j: nat)
    requires c.Valid() && ScaleUsable(c.scale) && TicksFit(ticks) && k < |ticks| && j < 31
    ensures var a := Share(c.steps, k);
            && 0.0 < a <= 1.0 && a <= Share(c.steps, k + 1) && (a == 1.0 <==> k + 1 >= c.steps)
            && Affine(c.offset, c.scale, After(c, ticks).actions[k])[j]
               == Mix(a, ticks[0].input[j], c.offset[j] + Product(c.scale[j], ticks[k].raw[j]))
  {
    hide Share, Mix, Product, After, Action;
    LatchRun(c, ticks);
    ShareLaw(c.steps, k);
    ActionAt(c, ticks, k, j);
    AffineOfMix(Share(c.steps, k), ticks[0].input[j], c.offset[j], c.scale[j], ticks[k].raw[j]);
  }

  lemma ActionAt(c: Config, ticks: seq<Tick>, k: nat, j: nat)
    requires c.Valid() && ScaleUsable(c.scale) && TicksFit(ticks) && k < |ticks| && j < 31
    ensures Abs(c.scale[j]) > SCALE_FLOOR
    ensures Action(c, ticks, k)[j]
            == Mix(Share(c.steps, k), (ticks[0].input[j] - c.offset[j]) / c.scale[j], ticks[k].raw[j])
  {
    hide Share, Mix;
  }

  lemma AffineOfMix(a: real, measured: real, offset: real, scale: real, raw: real)
    requires Abs(scale) > SCALE_FLOOR
    ensures offset + Product(scale, Mix(a, (measured - offset) / scale, raw))
            == Mix(a, measured, offset + Product(scale, raw))
  {
    var u := (measured - offset) / scale;
    assert scale * u == measured - offset;
    assert scale * ((1.0 - a) * u + a * raw) == (1.0 - a) * (scale * u) + a * (scale * raw);
  }

  // ---- the objects themselves ----------------------------------------------

  lemma NextTick(c: Config, ticks: seq<Tick>, k: nat)
    requires c.Valid() && ScaleUsable(c.scale) && TicksFit(ticks) && k < |ticks|
    ensures var s, tick := After(c, ticks[..k]), ticks[k];
            var next := Latching(c, s.latched, tick.raw, tick.input[..31]);
            After(c, ticks[..k + 1])
            == Actor(next, Observing(s.frames, s.latched.initial.Some?, Observed(c.narrow, c.defaults, s.latched.previous, tick.input)),
                     s.actions + [next.previous])
    ensures var s, tick := PythonAfter(c, ticks[..k]), ticks[k];
            var next := PythonBlend(c.steps, c.offset, c.scale, s.0, tick.raw, tick.input[..31]);
            PythonAfter(c, ticks[..k + 1]) == (next.0, s.1 + [next.1])
  {
    assert ticks[..k + 1][..k] == ticks[..k];
    hide Latching, Observing, Observed, PythonBlend;
  }

  /** The actor loop on both runtimes: the native core observes and latches, the Python handoff
      blends. Both objects end where the run says, and return the same actions. */
  method Replay(core: Core, handoff: MeasuredPoseActionHandoff, ticks: seq<Tick>)
    returns (native: seq<seq<real>>, python: seq<seq<real>>)
    requires core.Valid() && core.State() == NOTHING && core.frames == [BLANK] && ScaleUsable(core.cfg.scale) && TicksFit(ticks)
    requires handoff.Valid() && handoff.State() == PythonState(0, None)
    requires handoff.offset == core.cfg.offset && handoff.scale == core.cfg.scale && handoff.totalSteps == core.cfg.steps
    modifies core, core.history, handoff
    ensures core.Valid() && handoff.Valid()
    ensures var end := After(core.cfg, ticks);
            core.State() == end.latched && core.frames == end.frames && core.history[..] == Window(end.frames) && native == end.actions
    ensures (handoff.State(), python) == PythonAfter(core.cfg, ticks)
    ensures native == python
  {
    hide After, PythonAfter, Latching, Observing, Observed, PythonBlend, ScaleUsable, Window, Affine, Shows;
    native, python := [], [];
    var c := core.cfg;
    assert After(c, ticks[..0]) == STARTED && PythonAfter(c, ticks[..0]) == (PythonState(0, None), []) by { NoTicks(c, ticks[..0]); }
    for k := 0 to |ticks|
      invariant core.Valid() && handoff.Valid()
      invariant var s := After(c, ticks[..k]); core.State() == s.latched && core.frames == s.frames && native == s.actions
      invariant (handoff.State(), python) == PythonAfter(c, ticks[..k])
    {
      var tick := ticks[k];
      NextTick(c, ticks, k);
      var seen := core.Observe(tick.input);
      var targets := core.Latch(tick.raw, tick.input);
      native := native + [core.previous];
      var action := handoff.BlendAction(tick.raw, tick.input[..31]);
      python := python + [action];
    }
    assert ticks[..|ticks|] == ticks;
    LatchRefinesBlend(c, ticks);
    WindowShown(core);
  }

  lemma NoTicks(c: Config, ticks: seq<Tick>)
    requires c.Valid() && ScaleUsable(c.scale) && ticks == []
    ensures After(c, ticks) == STARTED && PythonAfter(c, ticks) == (PythonState(0, None), [])
  {
  }

  lemma WindowShown(core: Core)
    requires core.Valid()
    ensures core.history[..] == Window(core.frames)
  {
    ShowsWindow(core.history[..], core.frames);
    hide Window, Shows;
  }
}
