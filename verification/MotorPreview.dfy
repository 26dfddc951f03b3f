/** `preview_final_motor_commands`: the loops that turn one accepted target and the latest
    feedback into the held command of every motor, proved equal to the sums of Synthesis. */
module MotorPreview {
  import opened Prelude
  import opened Impedance
  import opened MitCodec
  import opened MotorCommand
  import opened NativeMotor
  import opened Synthesis

  predicate IsAnkle(cfg: MotorConfig) { Mentions(cfg.name, "ankle_motor") }

  /** A motor's held command and whether it was ever set. */
  datatype Held = Held(command: Command, initialized: bool)

  /** Ankles are recomputed at every preview, the others every tenth, and a motor that is
      neither keeps its held command. */
  function Refreshed(kin: Kinematics, n: nat, t: Target, position: seq<real>, velocity: seq<real>, i: int,
                     ankle: bool, refresh: bool, held: Held): Held {
    if ankle then Held(SynthesizeAnkle(kin, n, t, position, velocity, i), true)
    else if refresh then Held(Synthesize(kin, n, t, position, velocity, i), true)
    else held
  }

  function Limited(cfg: MotorConfig, h: Held, s: State, saturating: bool): Held
    requires cfg.cap > 0.0
  {
    if h.initialized && saturating then h.(command := Saturate(cfg, h.command, s)) else h
  }

  predicate Acceptable(cfg: MotorConfig, h: Held, s: State) {
    h.initialized ==> PreviewOk(cfg, h.command, s)
  }

  /** One joint's measured position and velocity, accumulated over the motors. */
  method JointRow(kin: Kinematics, n: nat, position: seq<real>, velocity: seq<real>, j: nat)
    returns (q: real, qd: real)
    requires |position| == n && |velocity| == n && kin.Has(n) && j < n
    ensures q == JointPosition(kin, n, position, j) && qd == JointVelocity(kin, n, velocity, j)
  {
    hide Product;
    q, qd := 0.0, 0.0;
    ghost var f := m => Product(kin.B(j, m), At(position, m) - At(kin.motorOffset, m));
    ghost var g := m => Product(kin.B(j, m), At(velocity, m));
    for m := 0 to n
      invariant q == Sum(m, f) && qd == Sum(m, g)
    {
      q := q + Product(kin.motorToJoint[j][m], position[m] - kin.motorOffset[m]);
      qd := qd + Product(kin.motorToJoint[j][m], velocity[m]);
    }
    SumExt(n, f, m => Product(kin.B(j, m), At(position, m) - At(kin.motorOffset, m)));
    SumExt(n, g, m => Product(kin.B(j, m), At(velocity, m)));
  }

  method JointState(kin: Kinematics, n: nat, position: seq<real>, velocity: seq<real>)
    returns (q: seq<real>, qd: seq<real>)
    requires |position| == n && |velocity| == n && kin.Has(n)
    ensures |q| == n && |qd| == n
    ensures forall j :: 0 <= j < n ==> q[j] == JointPosition(kin, n, position, j)
    ensures forall j :: 0 <= j < n ==> qd[j] == JointVelocity(kin, n, velocity, j)
  {
    hide JointPosition, JointVelocity;
    q, qd := [], [];
    for j := 0 to n
      invariant |q| == j && |qd| == j
      invariant forall i :: 0 <= i < j ==> q[i] == JointPosition(kin, n, position, i)
      invariant forall i :: 0 <= i < j ==> qd[i] == JointVelocity(kin, n, velocity, i)
    {
      var p, v := JointRow(kin, n, position, velocity, j);
      q, qd := q + [p], qd + [v];
    }
  }

  /** One motor's desired position and velocity, accumulated over the joints. */
  method DesiredRow(kin: Kinematics, n: nat, t: Target, m: nat) returns (p: real, v: real)
    requires t.Has(n) && kin.Has(n) && m < n
    ensures p == DesiredPosition(kin, n, t, m) && v == DesiredVelocity(kin, n, t, m)
  {
    hide Product;
    p, v := kin.motorOffset[m], 0.0;
    ghost var f := j => Product(kin.A(m, j), At(t.position, j));
    ghost var g := j => Product(kin.A(m, j), At(t.velocity, j));
    for j := 0 to n
      invariant p == kin.motorOffset[m] + Sum(j, f) && v == Sum(j, g)
    {
      p := p + Product(kin.jointToMotor[m][j], t.position[j]);
      v := v + Product(kin.jointToMotor[m][j], t.velocity[j]);
    }
    SumExt(n, f, j => Product(kin.A(m, j), At(t.position, j)));
    SumExt(n, g, j => Product(kin.A(m, j), At(t.velocity, j)));
  }

  method DesiredState(kin: Kinematics, n: nat, t: Target) returns (p: seq<real>, v: seq<real>)
    requires t.Has(n) && kin.Has(n)
    ensures |p| == n && |v| == n
    ensures forall m :: 0 <= m < n ==> p[m] == DesiredPosition(kin, n, t, m)
    ensures forall m :: 0 <= m < n ==> v[m] == DesiredVelocity(kin, n, t, m)
  {
    hide DesiredPosition, DesiredVelocity;
    p, v := [], [];
    for m := 0 to n
      invariant |p| == m && |v| == m
      invariant forall i :: 0 <= i < m ==> p[i] == DesiredPosition(kin, n, t, i)
      invariant forall i :: 0 <= i < m ==> v[i] == DesiredVelocity(kin, n, t, i)
    {
      var dp, dv := DesiredRow(kin, n, t, m);
      p, v := p + [dp], v + [dv];
    }
  }

  method JointTorques(kin: Kinematics, n: nat, t: Target, q: seq<real>, qd: seq<real>,
                      ghost position: seq<real>, ghost velocity: seq<real>)
    returns (torque: seq<real>)
    requires t.Has(n) && kin.Has(n) && |q| == n && |qd| == n
    requires forall j :: 0 <= j < n ==> q[j] == JointPosition(kin, n, position, j)
    requires forall j :: 0 <= j < n ==> qd[j] == JointVelocity(kin, n, velocity, j)
    ensures |torque| == n
    ensures forall j :: 0 <= j < n ==> torque[j] == JointTorque(kin, n, t, position, velocity, j)
  {
    hide Product, JointPosition, JointVelocity;
    torque := [];
    for j := 0 to n
      invariant |torque| == j
      invariant forall i :: 0 <= i < j ==> torque[i] == JointTorque(kin, n, t, position, velocity, i)
    {
      var raw := Product(t.kp[j], t.position[j] - q[j]) + Product(t.kd[j], t.velocity[j] - qd[j]) + t.feedforward[j];
      torque := torque + [Clamp(raw, -kin.jointEffort[j], kin.jointEffort[j])];
    }
  }

  method AnkleCommand(kin: Kinematics, n: nat, ghost t: Target, torque: seq<real>,
                      position: seq<real>, ghost velocity: seq<real>, i: nat)
    returns (c: Command)
    requires kin.Has(n) && |torque| == n && |position| == n && i < n
    requires forall j :: 0 <= j < n ==> torque[j] == JointTorque(kin, n, t, position, velocity, j)
    ensures c == SynthesizeAnkle(kin, n, t, position, velocity, i)
  {
    hide Product, JointTorque;
    var total := 0.0;
    ghost var f := j => if AnkleJoint(kin, j) then Product(kin.B(j, i), JointTorque(kin, n, t, position, velocity, j)) else 0.0;
    for j := 0 to n
      invariant total == Sum(j, f)
    {
      if Mentions(kin.jointNames[j], "ankle_") {
        total := total + Product(kin.motorToJoint[j][i], torque[j]);
      }
    }
    SumExt(n, f, j => if AnkleJoint(kin, j) then Product(kin.B(j, i), JointTorque(kin, n, t, position, velocity, j)) else 0.0);
    c := Command(position[i], 0.0, 0.0, 0.0, total);
  }

  /** The gain coupling motors `i` and `o`, accumulated over the joints. */
  method CoupledGains(kin: Kinematics, n: nat, t: Target, i: nat, o: nat) returns (kp: real, kd: real)
    requires kin.Has(n) && t.Has(n) && i < n && o < n
    ensures kp == Coupling(kin, n, t.kp, i, o) && kd == Coupling(kin, n, t.kd, i, o)
  {
    hide Product;
    kp, kd := 0.0, 0.0;
    ghost var f := j => Product(Product(At(t.kp, j), kin.B(j, i)), kin.B(j, o));
    ghost var g := j => Product(Product(At(t.kd, j), kin.B(j, i)), kin.B(j, o));
    for j := 0 to n
      invariant kp == Sum(j, f) && kd == Sum(j, g)
    {
      var left, right := kin.motorToJoint[j][i], kin.motorToJoint[j][o];
      kp := kp + Product(Product(t.kp[j], left), right);
      kd := kd + Product(Product(t.kd[j], left), right);
    }
    SumExt(n, f, j => Product(Product(At(t.kp, j), kin.B(j, i)), kin.B(j, o)));
    SumExt(n, g, j => Product(Product(At(t.kd, j), kin.B(j, i)), kin.B(j, o)));
  }

  method OtherCommand(kin: Kinematics, n: nat, t: Target, desiredP: seq<real>, desiredV: seq<real>,
                      position: seq<real>, velocity: seq<real>, i: nat)
    returns (c: Command)
    requires kin.Has(n) && t.Has(n) && i < n
    requires |desiredP| == n && |desiredV| == n && |position| == n && |velocity| == n
    requires forall m :: 0 <= m < n ==> desiredP[m] == DesiredPosition(kin, n, t, m)
    requires forall m :: 0 <= m < n ==> desiredV[m] == DesiredVelocity(kin, n, t, m)
    ensures c == Synthesize(kin, n, t, position, velocity, i)
  {
    hide Product, Coupling, DesiredPosition, DesiredVelocity;
    var kp, kd := CoupledGains(kin, n, t, i, i);
    var total := 0.0;
    ghost var f := j => Product(kin.B(j, i), At(t.feedforward, j));
    for j := 0 to n
      invariant total == Sum(j, f)
    {
      total := total + Product(kin.motorToJoint[j][i], t.feedforward[j]);
    }
    SumExt(n, f, j => Product(kin.B(j, i), At(t.feedforward, j)));
    ghost var cross := o => if o == i then 0.0 else CrossTerm(kin, n, t, position, velocity, i, o);
    for o := 0 to n
      invariant total == Feedforward(kin, n, t, i) + Sum(o, cross)
    {
      if o == i { continue; }
      var ckp, ckd := CoupledGains(kin, n, t, i, o);
      total := total + Product(ckp, desiredP[o] - position[o]) + Product(ckd, desiredV[o] - velocity[o]);
    }
    SumExt(n, cross, o => if o == i then 0.0 else CrossTerm(kin, n, t, position, velocity, i, o));
    c := Command(desiredP[i], desiredV[i], kp, kd, total);
  }

  predicate Distinct(motors: seq<Motor>) {
    forall i, j :: 0 <= i < j < |motors| ==> motors[i] != motors[j]
  }

  ghost function Positions(motors: seq<Motor>): (p: seq<real>)
    reads motors`lastPosition
    ensures |p| == |motors| && forall i :: 0 <= i < |motors| ==> p[i] == motors[i].lastPosition
  {
    if motors == [] then [] else Positions(motors[..|motors| - 1]) + [motors[|motors| - 1].lastPosition]
  }

  ghost function Velocities(motors: seq<Motor>): (v: seq<real>)
    reads motors`lastVelocity
    ensures |v| == |motors| && forall i :: 0 <= i < |motors| ==> v[i] == motors[i].lastVelocity
  {
    if motors == [] then [] else Velocities(motors[..|motors| - 1]) + [motors[|motors| - 1].lastVelocity]
  }

  method Snapshot(motors: seq<Motor>) returns (position: seq<real>, velocity: seq<real>)
    ensures position == Positions(motors) && velocity == Velocities(motors)
  {
    position, velocity := [], [];
    for i := 0 to |motors|
      invariant |position| == i && |velocity| == i
      invariant forall k :: 0 <= k < i ==> position[k] == motors[k].lastPosition && velocity[k] == motors[k].lastVelocity
    {
      position := position + [motors[i].lastPosition];
      velocity := velocity + [motors[i].lastVelocity];
    }
  }

  function HeldBy(m: Motor): Held
    reads m`preview, m`previewInitialized
  {
    Held(m.preview, m.previewInitialized)
  }

  /** The held command of motor `i` after a completed preview. */
  function Previewed(cfg: MotorConfig, kin: Kinematics, n: nat, t: Target, position: seq<real>, velocity: seq<real>,
                     i: int, refresh: bool, saturating: bool, held: Held): Held
    requires cfg.cap > 0.0
  {
    Limited(cfg, Refreshed(kin, n, t, position, velocity, i, IsAnkle(cfg), refresh, held),
            State(At(position, i), At(velocity, i)), saturating)
  }

  /** What a preview needs to know besides the motor itself. */
  datatype Pass = Pass(kin: Kinematics, n: nat, target: Target, position: seq<real>, velocity: seq<real>,
                       refresh: bool, saturating: bool)
  {
    predicate Valid() { kin.Has(n) && target.Has(n) && |position| == n && |velocity| == n }

    function Result(cfg: MotorConfig, i: int, held: Held): Held
      requires cfg.cap > 0.0
    {
      Previewed(cfg, kin, n, target, position, velocity, i, refresh, saturating, held)
    }

    predicate Accepts(cfg: MotorConfig, i: int, held: Held)
      requires cfg.cap > 0.0
    {
      Acceptable(cfg, Result(cfg, i, held), State(At(position, i), At(velocity, i)))
    }
  }

  method PreviewOne(motor: Motor, pass: Pass, desiredP: seq<real>, desiredV: seq<real>, torque: seq<real>, i: nat)
    returns (r: Prelude.Result<(), CommandFault>)
    requires pass.Valid() && i < pass.n && motor.cfg.cap > 0.0
    requires |desiredP| == pass.n && |desiredV| == pass.n && |torque| == pass.n
    requires forall m :: 0 <= m < pass.n ==> desiredP[m] == DesiredPosition(pass.kin, pass.n, pass.target, m)
    requires forall m :: 0 <= m < pass.n ==> desiredV[m] == DesiredVelocity(pass.kin, pass.n, pass.target, m)
    requires forall j :: 0 <= j < pass.n ==>
               torque[j] == JointTorque(pass.kin, pass.n, pass.target, pass.position, pass.velocity, j)
    requires motor.Feedback() == State(pass.position[i], pass.velocity[i])
    modifies motor`preview, motor`previewInitialized, motor`saturationCount, motor`maxUnsaturatedTorque,
             motor`maxEstimatedTorque
    ensures HeldBy(motor) == pass.Result(motor.cfg, i, old(HeldBy(motor)))
    ensures r.Ok? <==> pass.Accepts(motor.cfg, i, old(HeldBy(motor)))
  {
    hide PreviewOk, Saturate, Torque, Synthesize, SynthesizeAnkle, JointTorque, DesiredPosition, DesiredVelocity, IsAnkle;
    if IsAnkle(motor.cfg) {
      motor.preview := AnkleCommand(pass.kin, pass.n, pass.target, torque, pass.position, pass.velocity, i);
      motor.previewInitialized := true;
    } else if pass.refresh {
      motor.preview := OtherCommand(pass.kin, pass.n, pass.target, desiredP, desiredV, pass.position, pass.velocity, i);
      motor.previewInitialized := true;
    }
    if !motor.previewInitialized {
      return Ok(());
    }
    r := motor.FinishPreview(pass.saturating);
  }

  ghost function HeldByAll(motors: seq<Motor>): (h: seq<Held>)
    reads motors`preview, motors`previewInitialized
    ensures |h| == |motors| && forall i :: 0 <= i < |motors| ==> h[i] == HeldBy(motors[i])
  {
    if motors == [] then [] else HeldByAll(motors[..|motors| - 1]) + [HeldBy(motors[|motors| - 1])]
  }

  /** The pass that a controller with these motors makes at preview number `count`. */
  ghost function PassAt(motors: seq<Motor>, kin: Kinematics, t: Target, count: nat, saturating: bool): Pass
    reads motors`lastPosition, motors`lastVelocity
  {
    Pass(kin, |motors|, t, Positions(motors), Velocities(motors), count % 10 == 0, saturating)
  }

  predicate Powered(motors: seq<Motor>) {
    forall i :: 0 <= i < |motors| ==> motors[i].cfg.cap > 0.0
  }

  /** Every motor's held command satisfies the final invariant after the pass. */
  ghost predicate PassSucceeds(motors: seq<Motor>, pass: Pass, held: seq<Held>)
    requires Powered(motors) && |held| == |motors|
  {
    forall i :: 0 <= i < |motors| ==> pass.Accepts(motors[i].cfg, i, held[i])
  }

  /** One pass over all motors. It completes exactly when every initialized command satisfies
      the final invariant; then every motor holds its synthesized, limited command. Feedback
      is never touched. Every tenth completed pass refreshes the motors that are not ankles. */
  method PreviewAll(motors: seq<Motor>, kin: Kinematics, target: Option<Target>, count: nat, saturating: bool)
    returns (r: Prelude.Result<nat, CommandFault>)
    requires Distinct(motors) && kin.Has(|motors|) && Powered(motors)
    requires target.Some? ==> target.value.Has(|motors|)
    modifies motors`preview, motors`previewInitialized, motors`saturationCount, motors`maxUnsaturatedTorque,
             motors`maxEstimatedTorque
    ensures target.None? ==> r == Ok(count) && unchanged(motors)
    ensures target.Some? ==>
              (r.Ok? <==> PassSucceeds(motors, PassAt(motors, kin, target.value, count, saturating), old(HeldByAll(motors))))
    ensures target.Some? && r.Ok? ==> r.value == count + 1
    ensures target.Some? && r.Ok? ==> forall i :: 0 <= i < |motors| ==>
              HeldBy(motors[i])
              == PassAt(motors, kin, target.value, count, saturating).Result(motors[i].cfg, i, old(HeldBy(motors[i])))
  {
    if target.None? {
      return Ok(count);
    }
    hide Pass.Result, Pass.Accepts, PassSucceeds, Positions, Velocities, HeldByAll;
    var position, velocity := Snapshot(motors);
    var pass := Pass(kin, |motors|, target.value, position, velocity, count % 10 == 0, saturating);
    var completed := RunPass(motors, pass);
    return if completed.Ok? then Ok(count + 1) else Err(completed.error);
  }

  method RunPass(motors: seq<Motor>, pass: Pass) returns (r: Prelude.Result<(), CommandFault>)
    requires Distinct(motors) && Powered(motors) && pass.Valid() && pass.n == |motors|
    requires Positions(motors) == pass.position && Velocities(motors) == pass.velocity
    modifies motors`preview, motors`previewInitialized, motors`saturationCount, motors`maxUnsaturatedTorque,
             motors`maxEstimatedTorque
    ensures r.Ok? <==> PassSucceeds(motors, pass, old(HeldByAll(motors)))
    ensures r.Ok? ==> forall i :: 0 <= i < |motors| ==>
              HeldBy(motors[i]) == pass.Result(motors[i].cfg, i, old(HeldBy(motors[i])))
  {
    hide JointTorque, DesiredPosition, DesiredVelocity, JointPosition, JointVelocity, Pass.Result, Pass.Accepts;
    hide Positions, Velocities, HeldByAll;
    var q, qd := JointState(pass.kin, pass.n, pass.position, pass.velocity);
    var desiredP, desiredV := DesiredState(pass.kin, pass.n, pass.target);
    var torque := JointTorques(pass.kin, pass.n, pass.target, q, qd, pass.position, pass.velocity);
    ghost var held := HeldByAll(motors);
    for i := 0 to |motors|
      invariant forall k :: 0 <= k < i ==> HeldBy(motors[k]) == pass.Result(motors[k].cfg, k, held[k])
      invariant forall k :: 0 <= k < i ==> pass.Accepts(motors[k].cfg, k, held[k])
      invariant forall k :: i <= k < |motors| ==> HeldBy(motors[k]) == held[k]
    {
      var one := PreviewOne(motors[i], pass, desiredP, desiredV, torque, i);
      if one.Err? {
        return Err(one.error);
      }
    }
    return Ok(());
  }

  // ---- what a run of previews guarantees -----------------------------------

  /** Embedded gains are sums of nonnegative terms. */
  lemma EmbeddedGainNonNegative(kin: Kinematics, n: nat, g: seq<real>, i: int)
    requires forall j :: 0 <= j < |g| ==> g[j] >= 0.0
    ensures Coupling(kin, n, g, i, i) >= 0.0
  {
    var f := j => Product(Product(At(g, j), kin.B(j, i)), kin.B(j, i));
    forall j | 0 <= j < n ensures f(j) >= 0.0 {
      SquareScaled(At(g, j), kin.B(j, i));
    }
    SumNonNegative(n, f);
    SumExt(n, f, j => Product(Product(At(g, j), kin.B(j, i)), kin.B(j, i)));
  }

  lemma SquareScaled(g: real, b: real)
    requires g >= 0.0
    ensures Product(Product(g, b), b) >= 0.0
  {
    var q := b * b;
    assert q >= 0.0;
    MulLe(0.0, q, g);
    assert g * b * b == q * g;
  }

  predicate HeldGainsNonNegative(h: Held) {
    h.initialized ==> h.command.kp >= 0.0 && h.command.kd >= 0.0
  }

  /** One saturating preview of one motor, whatever the feedback and the accepted target:
      torque within 98% of the cap, gains nonnegative, and, unless the motor was refreshed,
      gains no larger than before. The mechanical-peak clause decides nothing. */
  lemma PassIsSafe(pass: Pass, cfg: MotorConfig, i: nat, held: Held)
    requires pass.Valid() && pass.saturating && i < pass.n && pass.target.NonNegativeGains()
    requires cfg.Accepted() && HeldGainsNonNegative(held)
    ensures var h := pass.Result(cfg, i, held);
            var s := State(pass.position[i], pass.velocity[i]);
            && HeldGainsNonNegative(h)
            && (h.initialized ==> Abs(Torque(h.command, s)) <= 0.98 * cfg.cap)
            && (h.initialized ==> (PreviewOk(cfg, h.command, s) <==> PreviewOkButPeak(cfg, h.command, s)))
            && (!IsAnkle(cfg) && !pass.refresh && held.initialized ==>
                  h.command.kp <= held.command.kp && h.command.kd <= held.command.kd
                  && h.command.velocity == held.command.velocity)
            && (h.initialized <==> held.initialized || IsAnkle(cfg) || pass.refresh)
  {
    hide Torque, Saturate, Guard, PreviewOk, PreviewOkButPeak, Coupling, IsAnkle, Product;
    EmbeddedGainNonNegative(pass.kin, pass.n, pass.target.kp, i);
    EmbeddedGainNonNegative(pass.kin, pass.n, pass.target.kd, i);
    var s := State(pass.position[i], pass.velocity[i]);
    var r := Refreshed(pass.kin, pass.n, pass.target, pass.position, pass.velocity, i, IsAnkle(cfg), pass.refresh, held);
    if r.initialized {
      SaturateIsSafe(cfg, r.command, s);
      PeakTestNeverFires(cfg, r.command, s);
    }
  }

  /** What one motor holds after a run of previews. */
  function HeldAfter(cfg: MotorConfig, i: nat, passes: seq<Pass>, held: Held): Held
    requires cfg.cap > 0.0
  {
    if passes == [] then held
    else passes[|passes| - 1].Result(cfg, i, HeldAfter(cfg, i, passes[..|passes| - 1], held))
  }

  predicate SaturatingRun(passes: seq<Pass>, i: nat) {
    forall k :: 0 <= k < |passes| ==>
      passes[k].Valid() && passes[k].saturating && i < passes[k].n && passes[k].target.NonNegativeGains()
  }

  /** Over every run of saturating previews (any targets, any feedback, any refresh pattern)
      an initialized motor's torque request at the newest feedback is within 98% of the cap. */
  lemma {:induction false} PreviewRunIsSafe(cfg: MotorConfig, i: nat, passes: seq<Pass>, held: Held)
    requires cfg.Accepted() && HeldGainsNonNegative(held) && SaturatingRun(passes, i)
    ensures HeldGainsNonNegative(HeldAfter(cfg, i, passes, held))
    ensures var h := HeldAfter(cfg, i, passes, held);
            passes != [] && h.initialized ==>
              var last := passes[|passes| - 1];
              Abs(Torque(h.command, State(last.position[i], last.velocity[i]))) <= 0.98 * cfg.cap
  {
    hide Torque, Pass.Result;
    if passes != [] {
      var before := passes[..|passes| - 1];
      PreviewRunIsSafe(cfg, i, before, held);
      PassIsSafe(passes[|passes| - 1], cfg, i, HeldAfter(cfg, i, before, held));
    }
  }

  /** Ankle motors carry no drive gains; their torque is bounded by the clamped efforts of
      the ankle joints alone, whatever the target. */
  lemma AnkleTorqueBound(kin: Kinematics, n: nat, t: Target, position: seq<real>, velocity: seq<real>, i: nat)
    requires kin.Has(n) && (forall j :: 0 <= j < n ==> kin.jointEffort[j] > 0.0)
    ensures var c := SynthesizeAnkle(kin, n, t, position, velocity, i);
            && c.kp == 0.0 && c.kd == 0.0
            && Abs(Torque(c, State(At(position, i), At(velocity, i))))
               <= Sum(n, j => if AnkleJoint(kin, j) then Product(Abs(kin.B(j, i)), At(kin.jointEffort, j)) else 0.0)
  {
    hide JointLaw, AnkleJoint;
    var c := SynthesizeAnkle(kin, n, t, position, velocity, i);
    ZeroTimes(c.position - At(position, i));
    ZeroTimes(c.velocity - At(velocity, i));
    var f := j => if AnkleJoint(kin, j) then Product(kin.B(j, i), JointTorque(kin, n, t, position, velocity, j)) else 0.0;
    var bound := j => if AnkleJoint(kin, j) then Product(Abs(kin.B(j, i)), At(kin.jointEffort, j)) else 0.0;
    forall j | 0 <= j < n ensures Abs(f(j)) <= bound(j) {
      ProductBoundBoth(kin.B(j, i), JointTorque(kin, n, t, position, velocity, j), kin.jointEffort[j]);
    }
    SumAbs(n, f, bound);
    hide Product, JointTorque;
    SumExt(n, f, j => if AnkleJoint(kin, j) then Product(kin.B(j, i), JointTorque(kin, n, t, position, velocity, j)) else 0.0);
    SumExt(n, bound, j => if AnkleJoint(kin, j) then Product(Abs(kin.B(j, i)), At(kin.jointEffort, j)) else 0.0);
  }

  /** What a joint is asked for is the point of its effort range nearest to the joint law: the law
      itself while that is within the range. */
  lemma JointTorqueIsNearest(kin: Kinematics, n: nat, t: Target, position: seq<real>, velocity: seq<real>, j: nat, other: real)
    requires kin.Has(n) && j < n && Abs(other) <= kin.jointEffort[j]
    ensures var law, torque := JointLaw(kin, n, t, position, velocity, j), JointTorque(kin, n, t, position, velocity, j);
            && Abs(torque) <= kin.jointEffort[j] && Abs(torque - law) <= Abs(other - law)
            && (Abs(law) <= kin.jointEffort[j] ==> torque == law)
  {
    hide JointLaw;
  }

  function AnkleShare(kin: Kinematics, i: int, j: int, torque: real): real {
    if AnkleJoint(kin, j) then Product(kin.B(j, i), torque) else 0.0
  }

  /** The torque of an ankle motor's command, wherever the motor has moved since: what its ankle
      joints are asked for, carried to it; while every ankle joint is within its effort limit that
      is the unclamped joint law of the ankle joints carried to it. */
  lemma AnkleTorque(kin: Kinematics, n: nat, t: Target, position: seq<real>, velocity: seq<real>, i: nat, x: real, y: real)
    requires kin.Has(n)
    ensures var torque := Torque(SynthesizeAnkle(kin, n, t, position, velocity, i), State(x, y));
            && torque == Sum(n, j => AnkleShare(kin, i, j, JointTorque(kin, n, t, position, velocity, j)))
            && ((forall j :: 0 <= j < n && AnkleJoint(kin, j) ==> Abs(JointLaw(kin, n, t, position, velocity, j)) <= kin.jointEffort[j]) ==>
                  torque == Sum(n, j => AnkleShare(kin, i, j, JointLaw(kin, n, t, position, velocity, j))))
  {
    hide JointLaw, AnkleJoint, JointTorque;
    var c := SynthesizeAnkle(kin, n, t, position, velocity, i);
    ZeroTimes(c.position - x);
    ZeroTimes(c.velocity - y);
    hide Product;
    SumExt(n, j => if AnkleJoint(kin, j) then Product(kin.B(j, i), JointTorque(kin, n, t, position, velocity, j)) else 0.0,
           j => AnkleShare(kin, i, j, JointTorque(kin, n, t, position, velocity, j)));
    if forall j :: 0 <= j < n && AnkleJoint(kin, j) ==> Abs(JointLaw(kin, n, t, position, velocity, j)) <= kin.jointEffort[j] {
      forall j | 0 <= j < n
        ensures AnkleShare(kin, i, j, JointTorque(kin, n, t, position, velocity, j))
                == AnkleShare(kin, i, j, JointLaw(kin, n, t, position, velocity, j))
      {
        if AnkleJoint(kin, j) {
          JointTorqueIsNearest(kin, n, t, position, velocity, j, JointLaw(kin, n, t, position, velocity, j));
        }
      }
      SumExt(n, j => AnkleShare(kin, i, j, JointTorque(kin, n, t, position, velocity, j)),
             j => AnkleShare(kin, i, j, JointLaw(kin, n, t, position, velocity, j)));
    }
  }

  /** Torque the preview asks of an ankle motor where it was when it was made. */
  function AnkleAsked(cfgs: seq<MotorConfig>, kin: Kinematics, n: nat, t: Target, position: seq<real>, velocity: seq<real>, m: int): real {
    if 0 <= m < |cfgs| && IsAnkle(cfgs[m]) then
      Torque(SynthesizeAnkle(kin, n, t, position, velocity, m), State(At(position, m), At(velocity, m)))
    else 0.0
  }

  /** Ankle joints are asked for damping only. */
  predicate OnlyDamps(kin: Kinematics, n: nat, t: Target)
    requires t.Has(n)
  {
    forall j :: 0 <= j < n && AnkleJoint(kin, j) ==>
      t.kp[j] == 0.0 && t.feedforward[j] == 0.0 && t.velocity[j] == 0.0 && t.kd[j] >= 0.0
  }

  /** Only ankle motors move ankle joints. */
  predicate AnklesApart(cfgs: seq<MotorConfig>, kin: Kinematics) {
    forall m, j :: 0 <= m < |cfgs| && 0 <= j < |kin.jointNames| && !IsAnkle(cfgs[m]) && AnkleJoint(kin, j) ==> kin.B(j, m) == 0.0
  }

  /** Pure damping brakes: however the ankles move, their motors together deliver no positive
      power. */
  lemma DampedAnklesBrake(cfgs: seq<MotorConfig>, kin: Kinematics, n: nat, t: Target, position: seq<real>, velocity: seq<real>)
    requires kin.Has(n) && t.Has(n) && |cfgs| == n && AnklesApart(cfgs, kin) && OnlyDamps(kin, n, t)
    requires forall j :: 0 <= j < n ==> kin.jointEffort[j] > 0.0
    ensures Sum(n, m => Product(At(velocity, m), AnkleAsked(cfgs, kin, n, t, position, velocity, m))) <= 0.0
  {
    hide IsAnkle, AnkleJoint, AnkleAsked, JointTorque, Product, JointVelocity, AnklesApart;
    var share := j => if AnkleJoint(kin, j) then JointTorque(kin, n, t, position, velocity, j) else 0.0;
    forall m | 0 <= m < n
      ensures AnkleAsked(cfgs, kin, n, t, position, velocity, m) == Sum(n, j => Product(kin.B(j, m), share(j)))
    {
      CarriedAsked(cfgs, kin, n, t, position, velocity, m, share);
    }
    SumExt(n, m => Product(At(velocity, m), AnkleAsked(cfgs, kin, n, t, position, velocity, m)),
           m => Product(At(velocity, m), Sum(n, j => Product(kin.B(j, m), share(j)))));
    PowerIsConserved(kin, n, share, velocity);
    forall j | 0 <= j < n ensures Product(share(j), JointVelocity(kin, n, velocity, j)) <= 0.0 {
      if AnkleJoint(kin, j) {
        JointBrakes(kin, n, t, position, velocity, j);
      } else {
        ZeroTimes(JointVelocity(kin, n, velocity, j));
      }
    }
    SumNonPositive(n, j => Product(share(j), JointVelocity(kin, n, velocity, j)));
  }

  /** Every motor is asked for its part of what the ankle joints are asked for. */
  lemma CarriedAsked(cfgs: seq<MotorConfig>, kin: Kinematics, n: nat, t: Target, position: seq<real>, velocity: seq<real>,
                     m: nat, share: int -> real)
    requires kin.Has(n) && |cfgs| == n && m < n && AnklesApart(cfgs, kin)
    requires forall j :: share(j) == if AnkleJoint(kin, j) then JointTorque(kin, n, t, position, velocity, j) else 0.0
    ensures AnkleAsked(cfgs, kin, n, t, position, velocity, m) == Sum(n, j => Product(kin.B(j, m), share(j)))
  {
    hide IsAnkle, AnkleJoint, JointTorque, Torque, SynthesizeAnkle;
    forall x: real ensures Product(x, 0.0) == 0.0 && Product(0.0, x) == 0.0 {
      ZeroTimes(x);
    }
    hide Product;
    if IsAnkle(cfgs[m]) {
      AnkleTorque(kin, n, t, position, velocity, m, At(position, m), At(velocity, m));
      SumExt(n, j => AnkleShare(kin, m, j, JointTorque(kin, n, t, position, velocity, j)), j => Product(kin.B(j, m), share(j)));
    } else {
      SumZero(n, j => Product(kin.B(j, m), share(j)));
    }
  }

  lemma JointBrakes(kin: Kinematics, n: nat, t: Target, position: seq<real>, velocity: seq<real>, j: nat)
    requires kin.Has(n) && t.Has(n) && j < n && kin.jointEffort[j] > 0.0
    requires t.kp[j] == 0.0 && t.feedforward[j] == 0.0 && t.velocity[j] == 0.0 && t.kd[j] >= 0.0
    ensures Product(JointTorque(kin, n, t, position, velocity, j), JointVelocity(kin, n, velocity, j)) <= 0.0
  {
    hide JointPosition, JointVelocity;
    var qd, law := JointVelocity(kin, n, velocity, j), JointLaw(kin, n, t, position, velocity, j);
    ZeroTimes(t.position[j] - JointPosition(kin, n, position, j));
    assert law == Product(t.kd[j], -qd);
    Opposes(t.kd[j], qd);
    JointTorqueIsNearest(kin, n, t, position, velocity, j, 0.0);
    hide JointLaw, Product;
    OppositeProduct(JointTorque(kin, n, t, position, velocity, j), qd);
  }

  lemma Opposes(gain: real, x: real)
    requires gain >= 0.0
    ensures x >= 0.0 ==> Product(gain, -x) <= 0.0
    ensures x <= 0.0 ==> Product(gain, -x) >= 0.0
  {
    if x >= 0.0 {
      NonNegativeProduct(gain, x);
    } else {
      NonNegativeProduct(gain, -x);
    }
  }

  lemma OppositeProduct(a: real, b: real)
    requires (b >= 0.0 ==> a <= 0.0) && (b <= 0.0 ==> a >= 0.0)
    ensures Product(a, b) <= 0.0
  {
    if b >= 0.0 {
      NonNegativeProduct(-a, b);
    } else {
      NonNegativeProduct(a, -b);
    }
  }
}
