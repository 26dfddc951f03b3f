/** Joint-space impedance targets, shared by the actor, the IPC and the controller. */
module Impedance {
  import opened Prelude

  datatype Target = Target(position: seq<real>, velocity: seq<real>, kp: seq<real>, kd: seq<real>, feedforward: seq<real>) {
    predicate Has(n: nat) {
      |position| == n && |velocity| == n && |kp| == n && |kd| == n && |feedforward| == n
    }

    /** `validate_target`: gains are never negative (finiteness is vacuous over reals). */
    predicate NonNegativeGains() {
      (forall i :: 0 <= i < |kp| ==> kp[i] >= 0.0) && (forall i :: 0 <= i < |kd| ==> kd[i] >= 0.0)
    }
  }

  /** Indexing that is total, for use inside sums. */
  function At(v: seq<real>, i: int): real {
    if 0 <= i < |v| then v[i] else 0.0
  }

  /** One row of the controller's joint safety table. */
  datatype JointLimit = JointLimit(
    positionMin: real, positionMax: real, velocityMax: real, kpMax: real, kdMax: real, feedforwardMax: real)
  {
    /** The row test of `load_joint_safety`. */
    predicate Accepted() {
      && positionMin < positionMax && velocityMax > 0.0
      && kpMax >= 0.0 && 0.0 <= kdMax <= 5.0 && feedforwardMax >= 0.0
    }
  }

  const ENVELOPE_TOLERANCE: real := 0.000000001

  /** The gain test every received target must pass. */
  predicate GainsAcceptable(t: Target) {
    && (forall i :: 0 <= i < |t.kp| ==> t.kp[i] >= 0.0)
    && (forall i :: 0 <= i < |t.kd| ==> 0.0 <= t.kd[i] <= 5.0)
  }

  predicate WithinLimit(t: Target, i: nat, l: JointLimit)
    requires t.Has(|t.position|) && i < |t.position|
  {
    && l.positionMin - ENVELOPE_TOLERANCE <= t.position[i] <= l.positionMax + ENVELOPE_TOLERANCE
    && Abs(t.velocity[i]) <= l.velocityMax + ENVELOPE_TOLERANCE
    && t.kp[i] <= l.kpMax + ENVELOPE_TOLERANCE
    && t.kd[i] <= l.kdMax + ENVELOPE_TOLERANCE
    && Abs(t.feedforward[i]) <= l.feedforwardMax + ENVELOPE_TOLERANCE
  }

  /** The envelope test; without a safety table there is none. */
  predicate EnvelopeAcceptable(t: Target, limits: seq<JointLimit>)
    requires t.Has(|t.position|) && (limits == [] || |limits| == |t.position|)
  {
    limits != [] ==> forall i :: 0 <= i < |limits| ==> WithinLimit(t, i, limits[i])
  }

  const START_POSITION_GATE: real := 0.03

  /** The gate on the first target before any drive is enabled
      (native/src/sprite_can_shadow.cpp:1602-1636): near the measured pose, all else zero. */
  predicate StartGate(t: Target, measured: seq<real>)
    requires t.Has(|measured|)
  {
    forall j :: 0 <= j < |measured| ==> StartGateAt(t, measured, j)
  }

  predicate StartGateAt(t: Target, measured: seq<real>, j: nat)
    requires t.Has(|measured|) && j < |measured|
  {
    && Abs(t.position[j] - measured[j]) <= START_POSITION_GATE
    && Abs(t.velocity[j]) <= ENVELOPE_TOLERANCE
    && Abs(t.kp[j]) <= ENVELOPE_TOLERANCE
    && Abs(t.kd[j]) <= ENVELOPE_TOLERANCE
    && Abs(t.feedforward[j]) <= ENVELOPE_TOLERANCE
  }
}
