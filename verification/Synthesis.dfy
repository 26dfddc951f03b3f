/** Joint-to-motor impedance synthesis (native/src/sprite_can_shadow.cpp:809-889): the
    host turns a joint-space impedance target into one MIT command per motor. */
module Synthesis {
  import opened Prelude
  import opened Impedance
  import opened MitCodec

  datatype Kinematics = Kinematics(
    jointNames: seq<string>, motorOffset: seq<real>, jointEffort: seq<real>,
    jointToMotor: seq<seq<real>>, motorToJoint: seq<seq<real>>)
  {
    predicate Has(n: nat) {
      && |jointNames| == n && |motorOffset| == n && |jointEffort| == n
      && |jointToMotor| == n && (forall i :: 0 <= i < n ==> |jointToMotor[i]| == n)
      && |motorToJoint| == n && (forall i :: 0 <= i < n ==> |motorToJoint[i]| == n)
    }

    /** Motor `m` per joint `j`, and joint `j` per motor `m`. */
    function A(m: int, j: int): real {
      if 0 <= m < |jointToMotor| then At(jointToMotor[m], j) else 0.0
    }
    function B(j: int, m: int): real {
      if 0 <= j < |motorToJoint| then At(motorToJoint[j], m) else 0.0
    }

    /** Entry of `motorToJoint * jointToMotor`. */
    function BA(n: nat, i: int, j: int): real {
      Sum(n, k => Product(B(i, k), A(k, j)))
    }

    /** What is left of that product after taking the identity away. */
    function Residual(n: nat, i: int, j: int): real {
      BA(n, i, j) - (if i == j then 1.0 else 0.0)
    }

    /** The inverse test of `load_kinematics`, whose bound is 1e-9. */
    ghost predicate InverseWithin(n: nat, epsilon: real) {
      forall i, j :: 0 <= i < n && 0 <= j < n ==> Abs(Residual(n, i, j)) <= epsilon
    }
  }

  const LOADER_TOLERANCE: real := 0.000000001

  // ---- what the controller computes ----------------------------------------

  /** Measured joint position and velocity from motor feedback. */
  function JointPosition(kin: Kinematics, n: nat, position: seq<real>, j: int): real {
    Sum(n, m => Product(kin.B(j, m), At(position, m) - At(kin.motorOffset, m)))
  }

  function JointVelocity(kin: Kinematics, n: nat, velocity: seq<real>, j: int): real {
    Sum(n, m => Product(kin.B(j, m), At(velocity, m)))
  }

  /** Motor-space image of a joint-space vector. */
  function ToMotor(kin: Kinematics, n: nat, v: seq<real>, m: int): real {
    Sum(n, j => Product(kin.A(m, j), At(v, j)))
  }

  function DesiredPosition(kin: Kinematics, n: nat, t: Target, m: int): real {
    At(kin.motorOffset, m) + ToMotor(kin, n, t.position, m)
  }

  function DesiredVelocity(kin: Kinematics, n: nat, t: Target, m: int): real {
    ToMotor(kin, n, t.velocity, m)
  }

  /** The gain between motors `i` and `o` that joint gains `g` induce. */
  function Coupling(kin: Kinematics, n: nat, g: seq<real>, i: int, o: int): real {
    Sum(n, j => Product(Product(At(g, j), kin.B(j, i)), kin.B(j, o)))
  }

  /** Torque a motor must contribute because another motor is off its setpoint. */
  function CrossTerm(kin: Kinematics, n: nat, t: Target, position: seq<real>, velocity: seq<real>, i: int, o: int): real {
    Product(Coupling(kin, n, t.kp, i, o), DesiredPosition(kin, n, t, o) - At(position, o))
    + Product(Coupling(kin, n, t.kd, i, o), DesiredVelocity(kin, n, t, o) - At(velocity, o))
  }

  function Feedforward(kin: Kinematics, n: nat, t: Target, i: int): real {
    Sum(n, j => Product(kin.B(j, i), At(t.feedforward, j)))
  }

  /** The command of a refreshed 50 Hz motor: diagonal gains embedded in the drive, all the
      coupling in the feedforward. */
  function Synthesize(kin: Kinematics, n: nat, t: Target, position: seq<real>, velocity: seq<real>, i: int): Command {
    Command(
      DesiredPosition(kin, n, t, i), DesiredVelocity(kin, n, t, i),
      Coupling(kin, n, t.kp, i, i), Coupling(kin, n, t.kd, i, i),
      Feedforward(kin, n, t, i)
      + Sum(n, o => if o == i then 0.0 else CrossTerm(kin, n, t, position, velocity, i, o)))
  }

  /** The joint impedance law before and after the effort clamp. */
  function JointLaw(kin: Kinematics, n: nat, t: Target, position: seq<real>, velocity: seq<real>, j: int): real {
    Product(At(t.kp, j), At(t.position, j) - JointPosition(kin, n, position, j))
    + Product(At(t.kd, j), At(t.velocity, j) - JointVelocity(kin, n, velocity, j))
    + At(t.feedforward, j)
  }

  function JointTorque(kin: Kinematics, n: nat, t: Target, position: seq<real>, velocity: seq<real>, j: int): real {
    Clamp(JointLaw(kin, n, t, position, velocity, j), -At(kin.jointEffort, j), At(kin.jointEffort, j))
  }

  predicate Mentions(text: string, word: string) {
    exists i :: 0 <= i <= |text| && word <= text[i..]
  }

  predicate AnkleJoint(kin: Kinematics, j: int) {
    0 <= j < |kin.jointNames| && Mentions(kin.jointNames[j], "ankle_")
  }

  /** The command of an ankle motor: a pure host-computed torque, no drive gains. */
  function SynthesizeAnkle(kin: Kinematics, n: nat, t: Target, position: seq<real>, velocity: seq<real>, i: int): Command {
    Command(At(position, i), 0.0, 0.0, 0.0,
            Sum(n, j => if AnkleJoint(kin, j) then Product(kin.B(j, i), JointTorque(kin, n, t, position, velocity, j)) else 0.0))
  }

  // ---- what it means -------------------------------------------------------

  /** Joint-space image of a motor-space vector. */
  function ToJoint(kin: Kinematics, n: nat, x: int -> real, j: int): real {
    Sum(n, m => Product(kin.B(j, m), x(m)))
  }

  /** What an imperfect inverse adds to joint `j` of a vector. */
  function Leak(kin: Kinematics, n: nat, v: seq<real>, j: int): real {
    Sum(n, k => Product(kin.Residual(n, j, k), At(v, k)))
  }

  /** Associativity of the matrix product: `B (A v) = (B A) v`. */
  lemma MatrixAssociates(kin: Kinematics, n: nat, v: seq<real>, j: int)
    ensures ToJoint(kin, n, m => ToMotor(kin, n, v, m), j) == Sum(n, k => Product(kin.BA(n, j, k), At(v, k)))
  {
    var term := (m: int, k: int) => Product(kin.B(j, m), Product(kin.A(m, k), At(v, k)));
    var image := m => ToMotor(kin, n, v, m);
    forall m | 0 <= m < n ensures Product(kin.B(j, m), image(m)) == Sum(n, k => term(m, k)) {
      SumScale(n, kin.B(j, m), k => Product(kin.A(m, k), At(v, k)), k => term(m, k));
    }
    SumExt(n, m => Product(kin.B(j, m), image(m)), m => Sum(n, k => term(m, k)));
    SumSwap(n, n, term);
    forall k | 0 <= k < n ensures Sum(n, m => term(m, k)) == Product(kin.BA(n, j, k), At(v, k)) {
      ColumnSum(kin, n, v, j, k);
      SumExt(n, m => term(m, k), m => Product(kin.B(j, m), Product(kin.A(m, k), At(v, k))));
    }
    SumExt(n, k => Sum(n, m => term(m, k)), k => Product(kin.BA(n, j, k), At(v, k)));
  }

  lemma ColumnSum(kin: Kinematics, n: nat, v: seq<real>, j: int, k: int)
    ensures Sum(n, m => Product(kin.B(j, m), Product(kin.A(m, k), At(v, k)))) == Product(kin.BA(n, j, k), At(v, k))
  {
    hide Product;
    var f := m => Product(kin.B(j, m), kin.A(m, k));
    var h := m => Product(kin.B(j, m), Product(kin.A(m, k), At(v, k)));
    forall m | 0 <= m < n ensures h(m) == Product(At(v, k), f(m)) {
      Associate(kin.B(j, m), kin.A(m, k), At(v, k));
      Commute(f(m), At(v, k));
    }
    SumScale(n, At(v, k), f, h);
    Commute(At(v, k), Sum(n, f));
  }

  /** Joint space, motor space and back gives the vector plus the leak. */
  lemma ThroughMotors(kin: Kinematics, n: nat, v: seq<real>, j: nat)
    requires |v| == n && j < n
    ensures ToJoint(kin, n, m => ToMotor(kin, n, v, m), j) == v[j] + Leak(kin, n, v, j)
  {
    hide Product;
    MatrixAssociates(kin, n, v, j);
    var unit := k => Product(if j == k then 1.0 else 0.0, At(v, k));
    var leak := k => Product(kin.Residual(n, j, k), At(v, k));
    var whole := k => Product(kin.BA(n, j, k), At(v, k));
    forall k | 0 <= k < n ensures whole(k) == unit(k) + leak(k) {
      Distribute(At(v, k), if j == k then 1.0 else 0.0, kin.Residual(n, j, k));
    }
    SumAdd(n, unit, leak, whole);
    forall k | 0 <= k < n ensures unit(k) == if k == j then v[k] else 0.0 {
      OneTimes(At(v, k));
      ZeroTimes(At(v, k));
    }
    SumSingle(n, j, unit);
  }

  /** The error of the motors about the image of `v`, seen at a joint. */
  lemma ErrorAtJoint(kin: Kinematics, n: nat, error: int -> real, v: seq<real>, seen: int -> real, j: nat)
    requires |v| == n && j < n
    requires forall m :: 0 <= m < n ==> ToMotor(kin, n, v, m) == error(m) + seen(m)
    ensures ToJoint(kin, n, error, j) == v[j] - ToJoint(kin, n, seen, j) + Leak(kin, n, v, j)
  {
    hide Product, Leak, ToMotor;
    var image := m => ToMotor(kin, n, v, m);
    var there := m => Product(kin.B(j, m), image(m));
    var whole := m => Product(kin.B(j, m), error(m));
    var measured := m => Product(kin.B(j, m), seen(m));
    forall m | 0 <= m < n ensures there(m) == whole(m) + measured(m) {
      Distribute(kin.B(j, m), error(m), seen(m));
    }
    SumAdd(n, whole, measured, there);
    ThroughMotors(kin, n, v, j);
  }

  lemma PositionErrorAtJoint(kin: Kinematics, n: nat, t: Target, position: seq<real>, j: nat)
    requires t.Has(n) && j < n
    ensures ToJoint(kin, n, m => DesiredPosition(kin, n, t, m) - At(position, m), j)
            == t.position[j] - JointPosition(kin, n, position, j) + Leak(kin, n, t.position, j)
  {
    hide Product, Leak;
    var seen := m => At(position, m) - At(kin.motorOffset, m);
    ErrorAtJoint(kin, n, m => DesiredPosition(kin, n, t, m) - At(position, m), t.position, seen, j);
    SumExt(n, m => Product(kin.B(j, m), seen(m)),
           m => Product(kin.B(j, m), At(position, m) - At(kin.motorOffset, m)));
  }

  lemma VelocityErrorAtJoint(kin: Kinematics, n: nat, t: Target, velocity: seq<real>, j: nat)
    requires t.Has(n) && j < n
    ensures ToJoint(kin, n, m => DesiredVelocity(kin, n, t, m) - At(velocity, m), j)
            == t.velocity[j] - JointVelocity(kin, n, velocity, j) + Leak(kin, n, t.velocity, j)
  {
    hide Product, Leak;
    var seen := m => At(velocity, m);
    ErrorAtJoint(kin, n, m => DesiredVelocity(kin, n, t, m) - At(velocity, m), t.velocity, seen, j);
    SumExt(n, m => Product(kin.B(j, m), seen(m)), m => Product(kin.B(j, m), At(velocity, m)));
  }

  /** Exchanging the motor sum and the joint sum of a coupled gain. */
  lemma CoupledSum(kin: Kinematics, n: nat, g: seq<real>, e: int -> real, i: int)
    ensures Sum(n, o => Product(Coupling(kin, n, g, i, o), e(o)))
            == Sum(n, j => Product(kin.B(j, i), Product(At(g, j), ToJoint(kin, n, e, j))))
  {
    hide Product;
    var term := (o: int, j: int) => Product(Product(Product(At(g, j), kin.B(j, i)), kin.B(j, o)), e(o));
    forall o | 0 <= o < n ensures Product(Coupling(kin, n, g, i, o), e(o)) == Sum(n, j => term(o, j)) {
      var f := j => Product(Product(At(g, j), kin.B(j, i)), kin.B(j, o));
      forall j | 0 <= j < n ensures term(o, j) == Product(e(o), f(j)) {
        Commute(f(j), e(o));
      }
      SumScale(n, e(o), f, j => term(o, j));
      Commute(e(o), Sum(n, f));
    }
    SumExt(n, o => Product(Coupling(kin, n, g, i, o), e(o)), o => Sum(n, j => term(o, j)));
    SumSwap(n, n, term);
    forall j | 0 <= j < n
      ensures Sum(n, o => term(o, j)) == Product(kin.B(j, i), Product(At(g, j), ToJoint(kin, n, e, j)))
    {
      var f := o => Product(kin.B(j, o), e(o));
      var c := Product(At(g, j), kin.B(j, i));
      forall o | 0 <= o < n ensures term(o, j) == Product(c, f(o)) {
        Associate(c, kin.B(j, o), e(o));
      }
      SumScale(n, c, f, o => term(o, j));
      Commute(At(g, j), kin.B(j, i));
      Associate(kin.B(j, i), At(g, j), Sum(n, f));
    }
    SumExt(n, j => Sum(n, o => term(o, j)),
           j => Product(kin.B(j, i), Product(At(g, j), ToJoint(kin, n, e, j))));
  }

  /** The joint law of the target corrected by what the inverse leaks. */
  function LeakyLaw(kin: Kinematics, n: nat, t: Target, position: seq<real>, velocity: seq<real>, j: int): real {
    JointLaw(kin, n, t, position, velocity, j) + LawLeak(kin, n, t, j)
  }

  function LawLeak(kin: Kinematics, n: nat, t: Target, j: int): real {
    Product(At(t.kp, j), Leak(kin, n, t.position, j)) + Product(At(t.kd, j), Leak(kin, n, t.velocity, j))
  }

  /** All the coupled terms of one motor, its own included, are the PD part of the leaky
      joint law carried to the motor. */
  lemma CoupledTorque(kin: Kinematics, n: nat, t: Target, position: seq<real>, velocity: seq<real>, i: int)
    requires t.Has(n)
    ensures Sum(n, o => CrossTerm(kin, n, t, position, velocity, i, o)) + Feedforward(kin, n, t, i)
            == Sum(n, j => Product(kin.B(j, i), LeakyLaw(kin, n, t, position, velocity, j)))
  {
    hide Product, Leak, Coupling, JointPosition, JointVelocity, DesiredPosition, DesiredVelocity;
    var ep := m => DesiredPosition(kin, n, t, m) - At(position, m);
    var ev := m => DesiredVelocity(kin, n, t, m) - At(velocity, m);
    var stiff := o => Product(Coupling(kin, n, t.kp, i, o), ep(o));
    var damp := o => Product(Coupling(kin, n, t.kd, i, o), ev(o));
    SumAdd(n, stiff, damp, o => CrossTerm(kin, n, t, position, velocity, i, o));
    CoupledSum(kin, n, t.kp, ep, i);
    CoupledSum(kin, n, t.kd, ev, i);
    var p := j => Product(kin.B(j, i), Product(At(t.kp, j), ToJoint(kin, n, ep, j)));
    var d := j => Product(kin.B(j, i), Product(At(t.kd, j), ToJoint(kin, n, ev, j)));
    var f := j => Product(kin.B(j, i), At(t.feedforward, j));
    SumAdd(n, p, d, j => p(j) + d(j));
    var law := j => Product(kin.B(j, i), LeakyLaw(kin, n, t, position, velocity, j));
    forall j | 0 <= j < n ensures law(j) == (p(j) + d(j)) + f(j) {
      LawAtJoint(kin, n, t, position, velocity, ep, ev, j);
      Distribute(kin.B(j, i), Product(At(t.kp, j), ToJoint(kin, n, ep, j)), Product(At(t.kd, j), ToJoint(kin, n, ev, j)));
      Distribute(kin.B(j, i), Product(At(t.kp, j), ToJoint(kin, n, ep, j)) + Product(At(t.kd, j), ToJoint(kin, n, ev, j)),
                 At(t.feedforward, j));
    }
    SumAdd(n, j => p(j) + d(j), f, law);
  }

  lemma LawAtJoint(kin: Kinematics, n: nat, t: Target, position: seq<real>, velocity: seq<real>,
                   ep: int -> real, ev: int -> real, j: nat)
    requires t.Has(n) && j < n
    requires ep == (m => DesiredPosition(kin, n, t, m) - At(position, m))
    requires ev == (m => DesiredVelocity(kin, n, t, m) - At(velocity, m))
    ensures LeakyLaw(kin, n, t, position, velocity, j)
            == Product(At(t.kp, j), ToJoint(kin, n, ep, j)) + Product(At(t.kd, j), ToJoint(kin, n, ev, j))
               + At(t.feedforward, j)
  {
    hide Product, Leak, JointPosition, JointVelocity, ToJoint;
    PositionErrorAtJoint(kin, n, t, position, j);
    VelocityErrorAtJoint(kin, n, t, velocity, j);
    Distribute(t.kp[j], t.position[j] - JointPosition(kin, n, position, j), Leak(kin, n, t.position, j));
    Distribute(t.kd[j], t.velocity[j] - JointVelocity(kin, n, velocity, j), Leak(kin, n, t.velocity, j));
  }

  /** The torque a refreshed motor's drive produces at the feedback it was synthesized from
      is the transpose image of the (leaky) joint law: the embedded gains and the coupled
      feedforward together implement the joint-space controller. */
  lemma SynthesizedTorque(kin: Kinematics, n: nat, t: Target, position: seq<real>, velocity: seq<real>, i: nat)
    requires t.Has(n) && i < n
    ensures Torque(Synthesize(kin, n, t, position, velocity, i), State(At(position, i), At(velocity, i)))
            == Sum(n, j => Product(kin.B(j, i), LeakyLaw(kin, n, t, position, velocity, j)))
  {
    hide Product, Coupling, DesiredPosition, DesiredVelocity, Feedforward, LeakyLaw;
    var cross := o => CrossTerm(kin, n, t, position, velocity, i, o);
    SumWithout(n, i, cross, o => if o == i then 0.0 else CrossTerm(kin, n, t, position, velocity, i, o));
    CoupledTorque(kin, n, t, position, velocity, i);
    SumExt(n, cross, o => CrossTerm(kin, n, t, position, velocity, i, o));
  }

  /** A command is made from the feedback of the other motors only: its own is left to the gains
      in the drive. */
  lemma OwnFeedbackUnused(kin: Kinematics, n: nat, t: Target, position: seq<real>, velocity: seq<real>, i: nat, x: real, y: real)
    requires i < n == |position| == |velocity|
    ensures Synthesize(kin, n, t, position[i := x], velocity[i := y], i) == Synthesize(kin, n, t, position, velocity, i)
  {
    hide Coupling, Product, DesiredPosition, DesiredVelocity, Feedforward;
    SumExt(n, o => if o == i then 0.0 else CrossTerm(kin, n, t, position[i := x], velocity[i := y], i, o),
           o => if o == i then 0.0 else CrossTerm(kin, n, t, position, velocity, i, o));
  }

  /** With an exact inverse pair the torque is exactly the transpose image of the unclamped
      joint law `kp (t - q) + kd (v - qd) + ff`, not only at the feedback the command was made
      from but wherever the motor has moved since: at every position `x` and velocity `y` of its
      own, the other motors being where they were. */
  lemma ExactInverseTorque(kin: Kinematics, n: nat, t: Target, position: seq<real>, velocity: seq<real>, i: nat, x: real, y: real)
    requires t.Has(n) && i < n == |position| == |velocity| && kin.InverseWithin(n, 0.0)
    ensures Torque(Synthesize(kin, n, t, position, velocity, i), State(x, y))
            == Sum(n, j => Product(kin.B(j, i), JointLaw(kin, n, t, position[i := x], velocity[i := y], j)))
  {
    hide Product, Torque, Synthesize, JointLaw, Leak;
    OwnFeedbackUnused(kin, n, t, position, velocity, i, x, y);
    var p, v := position[i := x], velocity[i := y];
    SynthesizedTorque(kin, n, t, p, v, i);
    forall j | 0 <= j < n ensures LeakyLaw(kin, n, t, p, v, j) == JointLaw(kin, n, t, p, v, j) {
      NoLeak(kin, n, t.position, j);
      NoLeak(kin, n, t.velocity, j);
      ZeroTimes(At(t.kp, j));
      ZeroTimes(At(t.kd, j));
    }
    SumExt(n, j => Product(kin.B(j, i), LeakyLaw(kin, n, t, p, v, j)), j => Product(kin.B(j, i), JointLaw(kin, n, t, p, v, j)));
  }

  lemma NoLeak(kin: Kinematics, n: nat, v: seq<real>, j: nat)
    requires j < n && kin.InverseWithin(n, 0.0)
    ensures Leak(kin, n, v, j) == 0.0
  {
    LeakBound(kin, n, v, j, 0.0);
    ZeroTimes(Sum(n, k => Abs(At(v, k))));
    hide Leak, Sum, Product;
  }

  /** The setpoints of all the motors together are the target: carried to the joints they are its
      positions and velocities, up to what the inverse leaks. */
  lemma SetpointsAreTarget(kin: Kinematics, n: nat, t: Target, position: seq<real>, velocity: seq<real>, j: nat)
    requires t.Has(n) && j < n
    ensures JointPosition(kin, n, seq(n, m => Synthesize(kin, n, t, position, velocity, m).position), j)
            == t.position[j] + Leak(kin, n, t.position, j)
    ensures JointVelocity(kin, n, seq(n, m => Synthesize(kin, n, t, position, velocity, m).velocity), j)
            == t.velocity[j] + Leak(kin, n, t.velocity, j)
    ensures kin.InverseWithin(n, 0.0) ==> Leak(kin, n, t.position, j) == Leak(kin, n, t.velocity, j) == 0.0
  {
    hide Product, Leak, ToMotor;
    var p := seq(n, m => Synthesize(kin, n, t, position, velocity, m).position);
    var v := seq(n, m => Synthesize(kin, n, t, position, velocity, m).velocity);
    ThroughMotors(kin, n, t.position, j);
    ThroughMotors(kin, n, t.velocity, j);
    SumExt(n, m => Product(kin.B(j, m), At(p, m) - At(kin.motorOffset, m)), m => Product(kin.B(j, m), ToMotor(kin, n, t.position, m)));
    SumExt(n, m => Product(kin.B(j, m), At(v, m)), m => Product(kin.B(j, m), ToMotor(kin, n, t.velocity, m)));
    ThroughAsSum(kin, n, t.position, j);
    ThroughAsSum(kin, n, t.velocity, j);
    if kin.InverseWithin(n, 0.0) {
      NoLeak(kin, n, t.position, j);
      NoLeak(kin, n, t.velocity, j);
    }
  }

  lemma ThroughAsSum(kin: Kinematics, n: nat, v: seq<real>, j: nat)
    ensures ToJoint(kin, n, m => ToMotor(kin, n, v, m), j) == Sum(n, m => Product(kin.B(j, m), ToMotor(kin, n, v, m)))
  {
    hide Product, ToMotor;
    var image := m => ToMotor(kin, n, v, m);
    SumExt(n, m => Product(kin.B(j, m), image(m)), m => Product(kin.B(j, m), ToMotor(kin, n, v, m)));
  }

  /** The leak is bounded by the residual bound times the 1-norm of the vector. */
  lemma LeakBound(kin: Kinematics, n: nat, v: seq<real>, j: nat, epsilon: real)
    requires j < n && kin.InverseWithin(n, epsilon)
    ensures Abs(Leak(kin, n, v, j)) <= Product(epsilon, Sum(n, k => Abs(At(v, k))))
  {
    var leak := k => Product(kin.Residual(n, j, k), At(v, k));
    var size := k => Abs(At(v, k));
    var bound := k => Product(epsilon, size(k));
    forall k | 0 <= k < n ensures Abs(leak(k)) <= bound(k) {
      ProductBound(kin.Residual(n, j, k), At(v, k), epsilon);
    }
    SumAbs(n, leak, bound);
    SumScale(n, epsilon, size, bound);
    SumExt(n, size, k => Abs(At(v, k)));
    SumExt(n, leak, k => Product(kin.Residual(n, j, k), At(v, k)));
  }

  lemma ProductBound(r: real, x: real, epsilon: real)
    requires Abs(r) <= epsilon
    ensures Abs(Product(r, x)) <= Product(epsilon, Abs(x))
  {
    MulLe(Abs(r), epsilon, Abs(x));
    assert Abs(r * x) == Abs(r) * Abs(x);
  }

  /** The largest torque error a motor can suffer from matrices that only pass the loader's
      approximate inverse test. */
  function LeakBudget(kin: Kinematics, n: nat, t: Target, epsilon: real, j: int): real {
    Product(At(t.kp, j), Product(epsilon, Sum(n, k => Abs(At(t.position, k)))))
    + Product(At(t.kd, j), Product(epsilon, Sum(n, k => Abs(At(t.velocity, k)))))
  }

  /** For every pair of matrices that is inverse up to a residual, the synthesized torque differs
      from the joint law's image by at most the residual bound times gains and target size,
      again wherever the motor has moved. */
  lemma LoadedKinematicsTorque(kin: Kinematics, n: nat, t: Target, position: seq<real>, velocity: seq<real>,
                               i: nat, x: real, y: real, epsilon: real)
    requires t.Has(n) && t.NonNegativeGains() && i < n == |position| == |velocity| && kin.InverseWithin(n, epsilon)
    ensures Abs(Torque(Synthesize(kin, n, t, position, velocity, i), State(x, y))
                - Sum(n, j => Product(kin.B(j, i), JointLaw(kin, n, t, position[i := x], velocity[i := y], j))))
            <= Sum(n, j => Product(Abs(kin.B(j, i)), LeakBudget(kin, n, t, epsilon, j)))
  {
    hide Product, Torque, Synthesize, JointLaw, Leak;
    OwnFeedbackUnused(kin, n, t, position, velocity, i, x, y);
    var p, v := position[i := x], velocity[i := y];
    SynthesizedTorque(kin, n, t, p, v, i);
    var law := j => Product(kin.B(j, i), JointLaw(kin, n, t, p, v, j));
    var extra := j => Product(kin.B(j, i), LawLeak(kin, n, t, j));
    var whole := j => Product(kin.B(j, i), LeakyLaw(kin, n, t, p, v, j));
    forall j | 0 <= j < n ensures whole(j) == law(j) + extra(j) {
      Distribute(kin.B(j, i), JointLaw(kin, n, t, p, v, j), LawLeak(kin, n, t, j));
    }
    SumAdd(n, law, extra, whole);
    var bound := j => Product(Abs(kin.B(j, i)), LeakBudget(kin, n, t, epsilon, j));
    forall j | 0 <= j < n ensures Abs(extra(j)) <= bound(j) {
      LawLeakBound(kin, n, t, j, epsilon);
      ProductBoundBoth(kin.B(j, i), LawLeak(kin, n, t, j), LeakBudget(kin, n, t, epsilon, j));
    }
    SumAbs(n, extra, bound);
    SumExt(n, law, j => Product(kin.B(j, i), JointLaw(kin, n, t, p, v, j)));
    SumExt(n, whole, j => Product(kin.B(j, i), LeakyLaw(kin, n, t, p, v, j)));
    SumExt(n, bound, j => Product(Abs(kin.B(j, i)), LeakBudget(kin, n, t, epsilon, j)));
  }

  /** One entry of the product, accumulated as the loader does. */
  method ProductEntry(kin: Kinematics, n: nat, i: nat, j: nat) returns (product: real)
    requires kin.Has(n) && i < n && j < n
    ensures product == kin.BA(n, i, j)
  {
    hide Product;
    product := 0.0;
    ghost var f := k => Product(kin.B(i, k), kin.A(k, j));
    for k := 0 to n
      invariant product == Sum(k, f)
    {
      product := product + Product(kin.motorToJoint[i][k], kin.jointToMotor[k][j]);
    }
    SumExt(n, f, k => Product(kin.B(i, k), kin.A(k, j)));
  }

  /** The inverse test of `load_kinematics`. */
  method CheckInverse(kin: Kinematics, n: nat) returns (ok: bool)
    requires kin.Has(n)
    ensures ok <==> kin.InverseWithin(n, 0.000000001)
  {
    hide Kinematics.BA;
    for i := 0 to n
      invariant forall a, b :: 0 <= a < i && 0 <= b < n ==> Abs(kin.Residual(n, a, b)) <= LOADER_TOLERANCE
    {
      for j := 0 to n
        invariant forall a, b :: 0 <= a < i && 0 <= b < n ==> Abs(kin.Residual(n, a, b)) <= LOADER_TOLERANCE
        invariant forall b :: 0 <= b < j ==> Abs(kin.Residual(n, i, b)) <= LOADER_TOLERANCE
      {
        var product := ProductEntry(kin, n, i, j);
        var expected := if i == j then 1.0 else 0.0;
        if Abs(product - expected) > LOADER_TOLERANCE {
          assert Abs(kin.Residual(n, i, j)) > LOADER_TOLERANCE;
          return false;
        }
      }
    }
    return true;
  }

  /** For every pair of matrices that passes that test: the torque is off by at most a billionth
      of gains times target, summed over the joints the motor moves. */
  lemma AcceptedKinematicsTorque(kin: Kinematics, n: nat, t: Target, position: seq<real>, velocity: seq<real>, i: nat,
                                 x: real, y: real)
    requires t.Has(n) && t.NonNegativeGains() && i < n == |position| == |velocity| && kin.InverseWithin(n, LOADER_TOLERANCE)
    ensures Abs(Torque(Synthesize(kin, n, t, position, velocity, i), State(x, y))
                - Sum(n, j => Product(kin.B(j, i), JointLaw(kin, n, t, position[i := x], velocity[i := y], j))))
            <= Product(LOADER_TOLERANCE, Sum(n, j => Product(Abs(kin.B(j, i)), LeakWeight(n, t, j))))
  {
    hide Product, Torque, Synthesize, JointLaw, Leak, LeakBudget, LeakWeight;
    LoadedKinematicsTorque(kin, n, t, position, velocity, i, x, y, LOADER_TOLERANCE);
    var budget := j => Product(Abs(kin.B(j, i)), LeakBudget(kin, n, t, LOADER_TOLERANCE, j));
    var weight := j => Product(Abs(kin.B(j, i)), LeakWeight(n, t, j));
    forall j | 0 <= j < n ensures budget(j) == Product(LOADER_TOLERANCE, weight(j)) {
      BudgetIsWeight(kin, n, t, LOADER_TOLERANCE, j);
      Associate(Abs(kin.B(j, i)), LOADER_TOLERANCE, LeakWeight(n, t, j));
      Associate(LOADER_TOLERANCE, Abs(kin.B(j, i)), LeakWeight(n, t, j));
      Commute(Abs(kin.B(j, i)), LOADER_TOLERANCE);
    }
    SumScale(n, LOADER_TOLERANCE, weight, budget);
    SumExt(n, budget, j => Product(Abs(kin.B(j, i)), LeakBudget(kin, n, t, LOADER_TOLERANCE, j)));
    SumExt(n, weight, j => Product(Abs(kin.B(j, i)), LeakWeight(n, t, j)));
  }

  /** Gains times the size of what they act on. */
  function LeakWeight(n: nat, t: Target, j: int): real {
    Product(At(t.kp, j), Sum(n, k => Abs(At(t.position, k)))) + Product(At(t.kd, j), Sum(n, k => Abs(At(t.velocity, k))))
  }

  lemma BudgetIsWeight(kin: Kinematics, n: nat, t: Target, epsilon: real, j: int)
    ensures LeakBudget(kin, n, t, epsilon, j) == Product(epsilon, LeakWeight(n, t, j))
  {
    var p, v := Sum(n, k => Abs(At(t.position, k))), Sum(n, k => Abs(At(t.velocity, k)));
    hide Product;
    Associate(At(t.kp, j), epsilon, p);
    Associate(epsilon, At(t.kp, j), p);
    Commute(At(t.kp, j), epsilon);
    Associate(At(t.kd, j), epsilon, v);
    Associate(epsilon, At(t.kd, j), v);
    Commute(At(t.kd, j), epsilon);
    Distribute(epsilon, Product(At(t.kp, j), p), Product(At(t.kd, j), v));
  }

  lemma LawLeakBound(kin: Kinematics, n: nat, t: Target, j: nat, epsilon: real)
    requires t.Has(n) && t.NonNegativeGains() && j < n && kin.InverseWithin(n, epsilon)
    ensures Abs(LawLeak(kin, n, t, j)) <= LeakBudget(kin, n, t, epsilon, j)
  {
    hide Product, Leak;
    LeakBound(kin, n, t.position, j, epsilon);
    LeakBound(kin, n, t.velocity, j, epsilon);
    ProductBoundBoth(t.kp[j], Leak(kin, n, t.position, j), Product(epsilon, Sum(n, k => Abs(At(t.position, k)))));
    ProductBoundBoth(t.kd[j], Leak(kin, n, t.velocity, j), Product(epsilon, Sum(n, k => Abs(At(t.velocity, k)))));
  }

  lemma ProductBoundBoth(b: real, x: real, bound: real)
    requires Abs(x) <= bound
    ensures Abs(Product(b, x)) <= Product(Abs(b), bound)
  {
    ProductBound(x, b, bound);
    Commute(x, b);
    Commute(Abs(b), bound);
  }

  /** Virtual work: motor torques that are the transpose image of joint torques deliver, over
      any motor motion, exactly the power the joint torques deliver over its joint image. */
  lemma PowerIsConserved(kin: Kinematics, n: nat, torque: int -> real, velocity: seq<real>)
    ensures Sum(n, m => Product(At(velocity, m), Sum(n, j => Product(kin.B(j, m), torque(j)))))
            == Sum(n, j => Product(torque(j), JointVelocity(kin, n, velocity, j)))
  {
    hide Product;
    var term := (m: int, j: int) => Product(At(velocity, m), Product(kin.B(j, m), torque(j)));
    forall m | 0 <= m < n
      ensures Product(At(velocity, m), Sum(n, j => Product(kin.B(j, m), torque(j)))) == Sum(n, j => term(m, j))
    {
      SumScale(n, At(velocity, m), j => Product(kin.B(j, m), torque(j)), j => term(m, j));
    }
    SumExt(n, m => Product(At(velocity, m), Sum(n, j => Product(kin.B(j, m), torque(j)))),
           m => Sum(n, j => term(m, j)));
    SumSwap(n, n, term);
    forall j | 0 <= j < n ensures Sum(n, m => term(m, j)) == Product(torque(j), JointVelocity(kin, n, velocity, j)) {
      var f := m => Product(kin.B(j, m), At(velocity, m));
      forall m | 0 <= m < n ensures term(m, j) == Product(torque(j), f(m)) {
        Associate(At(velocity, m), kin.B(j, m), torque(j));
        Commute(At(velocity, m), kin.B(j, m));
        Commute(f(m), torque(j));
      }
      SumScale(n, torque(j), f, m => term(m, j));
    }
    SumExt(n, j => Sum(n, m => term(m, j)), j => Product(torque(j), JointVelocity(kin, n, velocity, j)));
  }
}
