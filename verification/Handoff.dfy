/** Blending from the measured pose to the policy: the Python qualification code
    (src/open_sprite_runtime/handoff.py) and the closed form both runtimes share. */
module Handoff {
  import opened Prelude
  import opened Smoothstep

  const SCALE_FLOOR: real := 0.000000000001

  predicate ScaleUsable(scale: seq<real>) {
    forall j :: 0 <= j < |scale| ==> Abs(scale[j]) > SCALE_FLOOR
  }

  /** The action whose target is the measured pose. */
  function PoseAction(measured: seq<real>, offset: seq<real>, scale: seq<real>): (r: seq<real>)
    requires |measured| == |offset| == |scale| && ScaleUsable(scale)
    ensures |r| == |scale|
  {
    seq(|scale|, j requires 0 <= j < |scale| => (measured[j] - offset[j]) / scale[j])
  }

  function Blend(a: real, initial: seq<real>, action: seq<real>): (r: seq<real>)
    requires |initial| == |action|
    ensures |r| == |action|
  {
    seq(|action|, j requires 0 <= j < |action| => Mix(a, initial[j], action[j]))
  }

  /** The joint targets an action stands for. */
  function Affine(offset: seq<real>, scale: seq<real>, action: seq<real>): (r: seq<real>)
    requires |offset| == |scale| == |action|
    ensures |r| == |action|
  {
    seq(|action|, j requires 0 <= j < |action| => offset[j] + Product(scale[j], action[j]))
  }

  /** Share of the policy in the `k`-th blended action, counting from zero. */
  function Share(steps: nat, k: nat): real {
    if k < steps then Smooth((k + 1) as real / steps as real) else 1.0
  }

  lemma ShareLaw(steps: nat, k: nat)
    ensures 0.0 < Share(steps, k) <= 1.0
    ensures Share(steps, k) <= Share(steps, k + 1)
    ensures Share(steps, k) == 1.0 <==> k + 1 >= steps
  {
    hide Smooth;
    if k < steps {
      Fraction(k + 1, steps);
      SmoothEnds((k + 1) as real / steps as real);
      if k + 1 < steps {
        Fraction(k + 2, steps);
        MonotoneFraction(k + 1, k + 2, steps);
        SmoothIncrement((k + 1) as real / steps as real, (k + 2) as real / steps as real);
      }
    }
  }

  lemma Fraction(k: nat, n: nat)
    requires 0 < k <= n
    ensures 0.0 < k as real / n as real <= 1.0
    ensures k as real / n as real == 1.0 <==> k == n
  {
    var q := k as real / n as real;
    assert q * n as real == k as real;
  }

  lemma MonotoneFraction(a: nat, b: nat, n: nat)
    requires a <= b && n > 0
    ensures a as real / n as real <= b as real / n as real
  {
    var q := (b - a) as real / n as real;
    assert b as real / n as real == a as real / n as real + q;
    assert q * n as real == (b - a) as real;
  }

  // ---- the Python class ----------------------------------------------------

  datatype PythonState = PythonState(completed: nat, initial: Option<seq<real>>)

  /** `progress`. */
  function Progress(total: nat, completed: nat): real {
    if total == 0 then 1.0 else Smooth(Min(1.0, completed as real / total as real))
  }

  function PythonBlend(total: nat, offset: seq<real>, scale: seq<real>, s: PythonState, action: seq<real>, measured: seq<real>)
    : (PythonState, seq<real>)
    requires |action| == |measured| == |offset| == |scale| && ScaleUsable(scale)
    requires s.initial.Some? ==> |s.initial.value| == |scale|
  {
    var initial := if s.initial.Some? then s.initial.value else PoseAction(measured, offset, scale);
    if total == 0 || s.completed >= total then (PythonState(s.completed, Some(initial)), action)
    else (PythonState(s.completed + 1, Some(initial)), Blend(Progress(total, s.completed + 1), initial, action))
  }

  class MeasuredPoseActionHandoff {
    const offset: seq<real>
    const scale: seq<real>
    const totalSteps: nat
    var completedSteps: nat
    var initialAction: Option<seq<real>>

    predicate Valid()
      reads this
    {
      |offset| == |scale| && ScaleUsable(scale) && (initialAction.Some? ==> |initialAction.value| == |scale|)
    }

    function State(): PythonState
      reads this
    {
      PythonState(completedSteps, initialAction)
    }

    constructor (offset: seq<real>, scale: seq<real>, totalSteps: nat)
      requires |offset| == |scale| && ScaleUsable(scale)
      ensures Valid() && this.offset == offset && this.scale == scale && this.totalSteps == totalSteps
      ensures State() == PythonState(0, None)
    {
      this.offset, this.scale, this.totalSteps := offset, scale, totalSteps;
      completedSteps, initialAction := 0, None;
    }

    predicate Complete()
      reads this
    {
      completedSteps >= totalSteps
    }

    /** `blend`. */
    method BlendAction(action: seq<real>, measured: seq<real>) returns (r: seq<real>)
      requires Valid() && |action| == |measured| == |scale|
      modifies this
      ensures Valid()
      ensures (State(), r) == PythonBlend(totalSteps, offset, scale, old(State()), action, measured)
    {
      hide Mix, Smooth;
      if initialAction.None? {
        initialAction := Some(PoseAction(measured, offset, scale));
      }
      if totalSteps == 0 || Complete() {
        return action;
      }
      completedSteps := completedSteps + 1;
      var blend := Progress(totalSteps, completedSteps);
      return Blend(blend, initialAction.value, action);
    }
  }
}
