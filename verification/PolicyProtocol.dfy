/** The actor's fault-latching channel, the controller's inbox, and the two of them
    composed over reliable FIFO sockets: what every interleaving preserves. */
module PolicyProtocol {
  import opened Prelude
  import opened Wire
  import opened Impedance
  import opened PolicyIpc

  // ---- the actor's channel -------------------------------------------------

  datatype Actor = Actor(lastState: nat, lastTarget: nat, failed: bool)

  /** What `receive` does with the outcome of checking a datagram (or with a timeout). */
  function Receiving(a: Actor, checked: Result<StateMsg, IpcFault>): (Actor, Result<StateMsg, IpcFault>) {
    if a.failed then (a, Err(Latched))
    else if checked.Err? then (a.(failed := true), checked)
    else (a.(lastState := checked.value.sequence), checked)
  }

  /** The message `send` would build. */
  function Answer(a: Actor, t: Target, state: StateMsg, now: nat, hash: nat): TargetMsg {
    TargetMsg(a.lastTarget + 1, now, hash, state.sequence, t)
  }

  /** The tests of `send`, up to the socket. */
  function SendFault(a: Actor, t: Target, state: StateMsg, now: nat, age: nat): Option<IpcFault> {
    if a.failed then Some(Latched)
    else if state.sequence != a.lastState then Some(SourceMismatch)
    else if !Fresh(state.stamp, now, age) then Some(Stale)
    else if !TargetEncodable(t, a.lastTarget + 1, now, state.sequence) then Some(BadTarget)
    else None
  }

  function Sending(a: Actor, t: Target, state: StateMsg, now: nat, age: nat, delivered: bool): (Actor, Result<(), IpcFault>) {
    var fault := SendFault(a, t, state, now, age);
    if fault.Some? then (a.(failed := true), Err(fault.value))
    else if !delivered then (a.(failed := true), Err(Transport))
    else (a.(lastTarget := a.lastTarget + 1), Ok(()))
  }

  class PolicyStateChannel {
    const n: nat
    const motorHash: nat
    const jointHash: nat
    const maxAge: nat
    var lastState: nat
    var lastTarget: nat
    var failed: bool

    function State(): Actor
      reads this
    {
      Actor(lastState, lastTarget, failed)
    }

    constructor (n: nat, motorHash: nat, jointHash: nat, maxAge: nat)
      ensures this.n == n && this.motorHash == motorHash && this.jointHash == jointHash && this.maxAge == maxAge
      ensures State() == Actor(0, 0, false)
    {
      this.n, this.motorHash, this.jointHash, this.maxAge := n, motorHash, jointHash, maxAge;
      lastState, lastTarget, failed := 0, 0, false;
    }

    /** `datagram` is None on a timeout, a disconnect or a receive error. */
    method Receive(ieee: Ieee, datagram: Option<seq<Byte>>, now: nat) returns (r: Result<StateMsg, IpcFault>)
      modifies this
      ensures var checked := if datagram.None? then Err(Transport)
                             else DecodeState(ieee, n, datagram.value, motorHash, old(lastState), now, maxAge);
              (State(), r) == Receiving(old(State()), checked)
    {
      if failed {
        return Err(Latched);
      }
      if datagram.None? {
        failed := true;
        return Err(Transport);
      }
      r := DecodeState(ieee, n, datagram.value, motorHash, lastState, now, maxAge);
      if r.Err? {
        failed := true;
      } else {
        lastState := r.value.sequence;
      }
    }

    /** The packet that reaches the socket, if any; `delivered` is the socket's verdict. */
    method Send(ieee: Ieee, t: Target, state: StateMsg, now: nat, delivered: bool)
      returns (r: Result<(), IpcFault>, packet: Option<seq<Byte>>)
      requires t.Has(n)
      modifies this
      ensures (State(), r) == Sending(old(State()), t, state, now, maxAge, delivered)
      ensures packet == if SendFault(old(State()), t, state, now, maxAge).None?
                        then Some(TargetBytes(ieee, Answer(old(State()), t, state, now, jointHash))) else None
    {
      packet := None;
      if failed {
        return Err(Latched), None;
      }
      if state.sequence != lastState {
        failed := true;
        return Err(SourceMismatch), None;
      }
      if !Fresh(state.stamp, now, maxAge) {
        failed := true;
        return Err(Stale), None;
      }
      var encoded := EncodeTarget(ieee, n, TargetMsg(lastTarget + 1, now, jointHash, state.sequence, t));
      if encoded.Err? {
        failed := true;
        return Err(encoded.error), None;
      }
      packet := Some(encoded.value);
      if !delivered {
        failed := true;
        return Err(Transport), packet;
      }
      lastTarget := lastTarget + 1;
      return Ok(()), packet;
    }
  }

  // ---- the controller's inbox ----------------------------------------------

  datatype Datagram = Bytes(data: seq<Byte>) | ReceiveError | Disconnected

  /** Draining the queued datagrams in order; the first refusal aborts the run. */
  function Drained(ieee: Ieee, n: nat, inbox: Inbox, queue: seq<Datagram>, hash: nat, limits: seq<JointLimit>, now: int): (Inbox, Option<IpcFault>)
    requires limits == [] || |limits| == n
    decreases |queue|
  {
    if queue == [] then (inbox, None)
    else if !queue[0].Bytes? then (inbox, Some(Transport))
    else
      var next := AcceptBytes(ieee, n, inbox, queue[0].data, hash, limits, now);
      if next.Err? then (inbox, Some(next.error))
      else Drained(ieee, n, next.value, queue[1..], hash, limits, now)
  }

  class IpcSocket {
    var inbox: Inbox

    constructor ()
      ensures inbox == Inbox(0, 0, 0, 0, None)
    {
      inbox := Inbox(0, 0, 0, 0, None);
    }

    /** `send_state_packet`: the number is taken before the socket's verdict is known. */
    method SendState(ieee: Ieee, position: seq<real>, velocity: seq<real>, hash: nat, now: nat, delivered: bool)
      returns (packet: seq<Byte>, ok: bool)
      modifies this
      ensures inbox == old(inbox).(stateSequence := old(inbox).stateSequence + 1)
      ensures packet == StateBytes(ieee, StateMsg(inbox.stateSequence, now, hash, position, velocity)) && ok == delivered
    {
      inbox := inbox.(stateSequence := inbox.stateSequence + 1);
      packet := StateBytes(ieee, StateMsg(inbox.stateSequence, now, hash, position, velocity));
      ok := delivered;
    }

    /** Beside the new inbox: every target taken over passed the gain, envelope and age tests,
        and the inbox keeps the last of them. */
    method DrainTargetPackets(ieee: Ieee, n: nat, queue: seq<Datagram>, hash: nat, limits: seq<JointLimit>, now: int)
      returns (fault: Option<IpcFault>, ghost taken: seq<Taken>)
      requires limits == [] || |limits| == n
      modifies this
      ensures (inbox, fault) == Drained(ieee, n, old(inbox), queue, hash, limits, now)
      ensures forall k :: 0 <= k < |taken| ==> Admitted(n, limits, taken[k]) && taken[k].now == now
      ensures if taken == [] then inbox == old(inbox) else Keeps(inbox, Some(taken[|taken| - 1]))
    {
      hide AcceptBytes;
      var i := 0;
      taken := [];
      while i < |queue|
        invariant 0 <= i <= |queue|
        invariant Drained(ieee, n, old(inbox), queue, hash, limits, now) == Drained(ieee, n, inbox, queue[i..], hash, limits, now)
        invariant forall k :: 0 <= k < |taken| ==> Admitted(n, limits, taken[k]) && taken[k].now == now
        invariant if taken == [] then inbox == old(inbox) else Keeps(inbox, Some(taken[|taken| - 1]))
      {
        if !queue[i].Bytes? {
          return Some(Transport), taken;
        }
        var next := AcceptBytes(ieee, n, inbox, queue[i].data, hash, limits, now);
        if next.Err? {
          return Some(next.error), taken;
        }
        AcceptedIsAdmitted(ieee, n, inbox, queue[i].data, hash, limits, now);
        assert queue[i..][1..] == queue[i + 1..];
        taken := taken + [Taken(next.value.latest.value, next.value.lastNs, now)];
        inbox := next.value;
        i := i + 1;
      }
      return None, taken;
    }
  }

  lemma AcceptedIsAdmitted(ieee: Ieee, n: nat, inbox: Inbox, p: seq<Byte>, hash: nat, limits: seq<JointLimit>, now: int)
    requires limits == [] || |limits| == n
    requires AcceptBytes(ieee, n, inbox, p, hash, limits, now).Ok?
    ensures var next := AcceptBytes(ieee, n, inbox, p, hash, limits, now).value;
            next.latest.Some? && Admitted(n, limits, Taken(next.latest.value, next.lastNs, now))
  {
    hide WordAt, Ieee.ReadAll;
  }

  // ---- both sides over reliable FIFO channels ------------------------------

  datatype Config = Config(
    controllerMotorHash: nat, controllerJointHash: nat, actorMotorHash: nat, actorJointHash: nat,
    maxAge: nat, limits: seq<JointLimit>, n: nat)
  {
    predicate Valid() { limits == [] || |limits| == n }
  }

  /** A target the controller accepted, with the state counter at that moment, the actor's stamp
      on it and the controller's clock. */
  datatype Acceptance = Acceptance(sequence: nat, source: nat, published: nat, stamp: nat, clock: int)

  datatype World = World(
    inbox: Inbox, aborted: bool, actor: Actor,
    toActor: seq<StateMsg>, toController: seq<TargetMsg>,
    published: seq<StateMsg>, accepted: seq<Acceptance>)

  const START := World(Inbox(0, 0, 0, 0, None), false, Actor(0, 0, false), [], [], [], [])

  /** Everything either side or the environment can do next. Clocks, socket verdicts, poses
      and actor outputs are arbitrary. */
  datatype Step =
    | Publish(now: nat, position: seq<real>, velocity: seq<real>, delivered: bool)
    | Receive(now: nat, timeout: bool)
    | Send(target: Target, state: StateMsg, now: nat, delivered: bool)
    | Drain(clock: int)

  predicate StepValid(c: Config, s: Step) { s.Send? ==> s.target.Has(c.n) }

  predicate Sound(c: Config, w: World) {
    c.Valid() && forall i :: 0 <= i < |w.toController| ==> w.toController[i].target.Has(c.n)
  }

  function Apply(c: Config, w: World, s: Step): World
    requires Sound(c, w) && StepValid(c, s)
  {
    match s
    case Publish(now, position, velocity, delivered) =>
      if w.aborted then w
      else
        var number := w.inbox.stateSequence + 1;
        var m := StateMsg(number, now, c.controllerMotorHash, position, velocity);
        var counted := w.(inbox := w.inbox.(stateSequence := number));
        if delivered then counted.(toActor := w.toActor + [m], published := w.published + [m])
        else counted.(aborted := true)
    case Receive(now, timeout) =>
      if timeout || w.toActor == [] then w.(actor := Receiving(w.actor, Err(Transport)).0)
      else if w.actor.failed then w
      else w.(actor := Receiving(w.actor, CheckState(w.toActor[0], c.actorMotorHash, w.actor.lastState, now, c.maxAge)).0,
              toActor := w.toActor[1..])
    case Send(target, state, now, delivered) =>
      var sent := Sending(w.actor, target, state, now, c.maxAge, delivered);
      if sent.1.Ok? then
        w.(actor := sent.0, toController := w.toController + [Answer(w.actor, target, state, now, c.actorJointHash)])
      else w.(actor := sent.0)
    case Drain(now) =>
      if w.aborted || w.toController == [] then w
      else
        var m := w.toController[0];
        var next := AcceptTarget(w.inbox, m, c.controllerJointHash, c.limits, now);
        var popped := w.(toController := w.toController[1..]);
        if next.Err? then popped.(aborted := true)
        else popped.(inbox := next.value,
                     accepted := w.accepted + [Acceptance(m.sequence, m.source, w.inbox.stateSequence, m.stamp, now)])
  }

  predicate PublishedInOrder(w: World) {
    && (forall k :: 0 <= k < |w.published| ==> w.published[k].sequence == k + 1)
    && |w.published| <= w.inbox.stateSequence
    && (!w.aborted ==> |w.published| == w.inbox.stateSequence)
  }

  predicate StatesQueued(w: World) {
    && |w.toActor| <= |w.published|
    && w.toActor == w.published[|w.published| - |w.toActor|..]
    && w.actor.lastState <= |w.published| - |w.toActor|
  }

  predicate TargetsQueued(w: World) {
    && |w.toController| <= w.actor.lastTarget
    && (forall i :: 0 <= i < |w.toController| ==>
          w.toController[i].sequence == w.actor.lastTarget - |w.toController| + 1 + i)
    && (forall i :: 0 <= i < |w.toController| ==> 1 <= w.toController[i].source <= w.actor.lastState)
    && (!w.aborted ==> w.inbox.lastSequence == w.actor.lastTarget - |w.toController|)
    && (!w.aborted ==> |w.accepted| == w.inbox.lastSequence)
  }

  predicate AcceptedInOrder(w: World) {
    forall i :: 0 <= i < |w.accepted| ==>
      var a := w.accepted[i];
      && a.sequence == i + 1
      && 1 <= a.source <= a.published <= w.inbox.stateSequence
      && a.published - a.source <= MAX_LAG
      && a.source <= |w.published|
  }

  predicate Inv(c: Config, w: World) {
    Sound(c, w) && PublishedInOrder(w) && StatesQueued(w) && TargetsQueued(w) && AcceptedInOrder(w)
  }

  lemma StartInv(c: Config)
    requires c.Valid()
    ensures Inv(c, START)
  {
  }

  lemma PublishKeeps(c: Config, w: World, s: Step)
    requires Inv(c, w) && s.Publish?
    ensures Inv(c, Apply(c, w, s))
  {
    var v := Apply(c, w, s);
    if v.toActor != w.toActor {
      assert v.toActor == v.published[|v.published| - |v.toActor|..];
    }
  }

  lemma ReceiveKeeps(c: Config, w: World, s: Step)
    requires Inv(c, w) && s.Receive?
    ensures Inv(c, Apply(c, w, s))
  {
    var v := Apply(c, w, s);
    if v.toActor != w.toActor {
      assert w.toActor[0] == w.published[|w.published| - |w.toActor|];
      assert v.toActor == v.published[|v.published| - |v.toActor|..];
    }
  }

  lemma SendKeeps(c: Config, w: World, s: Step)
    requires Inv(c, w) && s.Send? && StepValid(c, s)
    ensures Inv(c, Apply(c, w, s))
  {
  }

  lemma DrainKeeps(c: Config, w: World, s: Step)
    requires Inv(c, w) && s.Drain?
    ensures Inv(c, Apply(c, w, s))
  {
    hide GainsAcceptable, EnvelopeAcceptable;
    var v := Apply(c, w, s);
    if v.toController != w.toController {
      assert forall i :: 0 <= i < |v.toController| ==> v.toController[i] == w.toController[i + 1];
    }
  }

  /** No step of either side, and nothing the environment does, breaks the invariant. */
  lemma StepKeeps(c: Config, w: World, s: Step)
    requires Inv(c, w) && StepValid(c, s)
    ensures Inv(c, Apply(c, w, s))
  {
    hide Apply, Inv;
    match s
    case Publish(_, _, _, _) => PublishKeeps(c, w, s);
    case Receive(_, _) => ReceiveKeeps(c, w, s);
    case Send(_, _, _, _) => SendKeeps(c, w, s);
    case Drain(_) => DrainKeeps(c, w, s);
  }

  predicate RunValid(c: Config, steps: seq<Step>) {
    c.Valid() && forall i :: 0 <= i < |steps| ==> StepValid(c, steps[i])
  }

  function Run(c: Config, steps: seq<Step>): (w: World)
    requires RunValid(c, steps)
    ensures Inv(c, w)
  {
    if steps == [] then
      StartInv(c);
      START
    else
      var before := Run(c, steps[..|steps| - 1]);
      StepKeeps(c, before, steps[|steps| - 1]);
      Apply(c, before, steps[|steps| - 1])
  }

  /** In every run the accepted targets are numbered 1, 2, 3, ... without gap or repeat, and
      each answers a state that was really published, at most five states back. */
  lemma AcceptedTargetsAnswerStates(c: Config, steps: seq<Step>, i: nat)
    requires RunValid(c, steps) && i < |Run(c, steps).accepted|
    ensures var w := Run(c, steps);
            var a := w.accepted[i];
            && a.sequence == i + 1
            && a.source >= 1 && w.published[a.source - 1].sequence == a.source
            && a.source <= a.published <= a.source + MAX_LAG
  {
    hide Run, Apply;
    assert Inv(c, Run(c, steps));
  }

  /** In every run the next target waiting for the controller passes the two order tests, so
      the sequence invariant can fail only because the actor lags more than five states. */
  lemma OrderTestsNeverTrip(c: Config, steps: seq<Step>)
    requires RunValid(c, steps)
    requires !Run(c, steps).aborted && Run(c, steps).toController != []
    ensures var w := Run(c, steps);
            var m := w.toController[0];
            && m.sequence == w.inbox.lastSequence + 1
            && m.source <= w.inbox.stateSequence
            && (SequenceOk(w.inbox, m) <==> w.inbox.stateSequence <= m.source + MAX_LAG)
  {
    hide Run, Apply;
    assert Inv(c, Run(c, steps));
  }

  /** When the actor's answer goes out: no fault so far, the state is the one last received, its
      stamp is neither missing nor ahead nor too old, gains are nonnegative and the clock fits, and
      the socket delivers. What goes out is the target, under the next number, stamped now, naming
      the state it answers. */
  lemma AnswerGoesOutWhen(c: Config, w: World, s: Step)
    requires Sound(c, w) && StepValid(c, s) && s.Send?
    ensures var v := Apply(c, w, s);
            var sent := [TargetMsg(w.actor.lastTarget + 1, s.now, c.actorJointHash, s.state.sequence, s.target)];
            v.toController == if !w.actor.failed && s.delivered && s.state.sequence == w.actor.lastState > 0 && c.maxAge > 0
                                 && 0 < s.state.stamp <= s.now <= s.state.stamp + c.maxAge && s.now <= 0x7FFF_FFFF_FFFF_FFFF
                                 && (forall j :: 0 <= j < |s.target.kp| ==> s.target.kp[j] >= 0.0)
                                 && (forall j :: 0 <= j < |s.target.kd| ==> s.target.kd[j] >= 0.0)
                              then w.toController + sent else w.toController
  {
  }

  /** What the controller publishes: the next number, its clock, the order of its motors, and what it
      was given of positions and velocities. */
  lemma StateGoesOutWhen(c: Config, w: World, s: Step)
    requires Sound(c, w) && s.Publish?
    ensures var v := Apply(c, w, s);
            var sent := [StateMsg(w.inbox.stateSequence + 1, s.now, c.controllerMotorHash, s.position, s.velocity)];
            v.toActor == if !w.aborted && s.delivered then w.toActor + sent else w.toActor
  {
  }

  /** The actor answers with the state it was given: the one published under that number. */
  predicate HandsBack(w: World, s: Step) {
    s.Send? && 1 <= s.state.sequence <= |w.published| ==> s.state == w.published[s.state.sequence - 1]
  }

  ghost predicate AlwaysHandsBack(c: Config, steps: seq<Step>)
    requires RunValid(c, steps)
  {
    forall i :: 0 <= i < |steps| ==> HandsBack(Run(c, steps[..i]), steps[i])
  }

  /** A target stamped while the state it answers was not older than the actor allows. */
  predicate InTime(c: Config, published: seq<StateMsg>, source: nat, stamp: nat) {
    1 <= source <= |published| && published[source - 1].stamp <= stamp <= published[source - 1].stamp + c.maxAge
  }

  predicate QueuedInTime(c: Config, w: World) {
    forall i :: 0 <= i < |w.toController| ==>
      InTime(c, w.published, w.toController[i].source, w.toController[i].stamp) && w.toController[i].stamp <= INT64_MAX
  }

  predicate AcceptedInTime(c: Config, w: World) {
    forall i :: 0 <= i < |w.accepted| ==>
      var a := w.accepted[i];
      InTime(c, w.published, a.source, a.stamp) && a.stamp - 5_000_000 <= a.clock <= a.stamp + 100_000_000
  }

  lemma SendInTime(c: Config, w: World, s: Step)
    requires Inv(c, w) && s.Send? && StepValid(c, s) && HandsBack(w, s) && QueuedInTime(c, w)
    ensures QueuedInTime(c, Apply(c, w, s))
  {
    hide Target.NonNegativeGains, Sound, TargetsQueued, AcceptedInOrder, PublishedInOrder;
  }

  lemma DrainInTime(c: Config, w: World, s: Step)
    requires Inv(c, w) && s.Drain? && QueuedInTime(c, w) && AcceptedInTime(c, w)
    ensures QueuedInTime(c, Apply(c, w, s)) && AcceptedInTime(c, Apply(c, w, s))
  {
    hide GainsAcceptable, EnvelopeAcceptable, TargetsQueued, AcceptedInOrder, PublishedInOrder, StatesQueued;
    var v := Apply(c, w, s);
    if v.toController != w.toController {
      assert forall i :: 0 <= i < |v.toController| ==> v.toController[i] == w.toController[i + 1];
    }
  }

  lemma StepInTime(c: Config, w: World, s: Step)
    requires Inv(c, w) && StepValid(c, s) && HandsBack(w, s) && QueuedInTime(c, w) && AcceptedInTime(c, w)
    ensures QueuedInTime(c, Apply(c, w, s)) && AcceptedInTime(c, Apply(c, w, s))
  {
    match s
    case Publish(_, _, _, _) => hide Inv;
    case Receive(_, _) => hide Inv;
    case Send(_, _, _, _) => SendInTime(c, w, s); hide Inv;
    case Drain(_) => DrainInTime(c, w, s); hide Apply, Inv;
  }

  lemma {:induction false} RunInTime(c: Config, steps: seq<Step>)
    requires RunValid(c, steps) && AlwaysHandsBack(c, steps)
    ensures QueuedInTime(c, Run(c, steps)) && AcceptedInTime(c, Run(c, steps))
    decreases |steps|
  {
    if steps != [] {
      var k := |steps| - 1;
      var front := steps[..k];
      forall i | 0 <= i < k ensures HandsBack(Run(c, front[..i]), front[i]) {
        assert front[..i] == steps[..i] && front[i] == steps[i];
      }
      RunInTime(c, front);
      assert HandsBack(Run(c, steps[..k]), steps[k]);
      StepInTime(c, Run(c, front), steps[k]);
      hide Apply, Inv, HandsBack, QueuedInTime, AcceptedInTime;
    }
  }

  /** The loop over both processes is never stale: in every run in which the actor answers with
      the states it was given, the pose behind an accepted target is at most the actor's age limit
      plus 100 ms old when the controller takes the target over, and at most 5 ms ahead of it. */
  lemma AcceptedTargetsAreFresh(c: Config, steps: seq<Step>, i: nat)
    requires RunValid(c, steps) && AlwaysHandsBack(c, steps) && i < |Run(c, steps).accepted|
    ensures var w := Run(c, steps);
            var a := w.accepted[i];
            && 1 <= a.source <= |w.published| && w.published[a.source - 1].sequence == a.source
            && w.published[a.source - 1].stamp - 5_000_000 <= a.clock <= w.published[a.source - 1].stamp + c.maxAge + 100_000_000
  {
    hide *;
    RunInTime(c, steps);
    FreshIn(c, Run(c, steps), i);
  }

  lemma FreshIn(c: Config, w: World, i: nat)
    requires Inv(c, w) && AcceptedInTime(c, w) && i < |w.accepted|
    ensures var a := w.accepted[i];
            && 1 <= a.source <= |w.published| && w.published[a.source - 1].sequence == a.source
            && w.published[a.source - 1].stamp - 5_000_000 <= a.clock <= w.published[a.source - 1].stamp + c.maxAge + 100_000_000
  {
    hide Sound, StatesQueued, TargetsQueued;
    assert InTime(c, w.published, w.accepted[i].source, w.accepted[i].stamp);
  }

  /** A fault in `receive` or `send` is final: whatever is tried afterwards, no further
      packet leaves the actor and its state never changes again. */
  lemma {:induction false} FaultIsFinal(c: Config, steps: seq<Step>, more: seq<Step>)
    requires RunValid(c, steps) && RunValid(c, steps + more) && Run(c, steps).actor.failed
    ensures Run(c, steps + more).actor == Run(c, steps).actor
    ensures |Run(c, steps + more).toController| <= |Run(c, steps).toController|
    decreases |more|
  {
    hide Apply, StepValid, PublishedInOrder, StatesQueued, TargetsQueued, AcceptedInOrder;
    if more == [] {
      assert steps + more == steps;
    } else {
      var front, last := more[..|more| - 1], more[|more| - 1];
      var all := steps + more;
      assert all[..|all| - 1] == steps + front && all[|all| - 1] == last;
      forall i | 0 <= i < |steps + front| ensures StepValid(c, (steps + front)[i]) {
        assert (steps + front)[i] == all[i];
      }
      FaultIsFinal(c, steps, front);
      FailedStaysFailed(c, Run(c, steps + front), last);
    }
  }

  lemma FailedStaysFailed(c: Config, w: World, s: Step)
    requires Sound(c, w) && StepValid(c, s) && w.actor.failed
    ensures Apply(c, w, s).actor == w.actor
    ensures |Apply(c, w, s).toController| <= |w.toController|
  {
  }

  // ---- the objects themselves ----------------------------------------------

  /** A step whose numbers fit the packets. */
  predicate StepFits(ieee: Ieee, c: Config, s: Step) {
    match s
    case Publish(now, position, velocity, _) =>
      now < WORD && |position| == |velocity| == c.n && ieee.AllExact(position + velocity)
    case Send(target, state, now, _) =>
      target.Has(c.n) && ieee.AllExact(Flat(target)) && now < WORD && state.sequence < WORD
    case _ => true
  }

  predicate HashesFit(c: Config) { c.controllerMotorHash < WORD && c.actorJointHash < WORD }

  /** The bytes under way are those of the messages under way. */
  predicate Carried(ieee: Ieee, c: Config, w: World, toActor: seq<seq<Byte>>, toController: seq<seq<Byte>>) {
    && |toActor| == |w.toActor| && |toController| == |w.toController|
    && (forall i :: 0 <= i < |toActor| ==> StateFits(ieee, c.n, w.toActor[i]) && toActor[i] == StateBytes(ieee, w.toActor[i]))
    && (forall i :: 0 <= i < |toController| ==>
          TargetFits(ieee, c.n, w.toController[i]) && toController[i] == TargetBytes(ieee, w.toController[i]))
  }

  /** The objects are in the states of the world, and their counters have room. */
  ghost predicate Agrees(channel: PolicyStateChannel, socket: IpcSocket, c: Config, w: World, steps: nat)
    reads channel, socket
  {
    && channel.n == c.n && channel.motorHash == c.actorMotorHash && channel.jointHash == c.actorJointHash && channel.maxAge == c.maxAge
    && channel.State() == w.actor && socket.inbox == w.inbox
    && w.actor.lastTarget <= steps && w.inbox.stateSequence <= steps
  }

  method DoPublish(socket: IpcSocket, ieee: Ieee, c: Config, s: Step, aborted: bool, toActor: seq<seq<Byte>>,
                   ghost channel: PolicyStateChannel, ghost w: World, ghost toController: seq<seq<Byte>>, ghost steps: nat)
    returns (stop: bool, queue: seq<seq<Byte>>)
    requires s.Publish? && StepFits(ieee, c, s) && HashesFit(c) && Sound(c, w) && aborted == w.aborted && steps + 1 < WORD
    requires Agrees(channel, socket, c, w, steps) && Carried(ieee, c, w, toActor, toController)
    modifies socket
    ensures var v := Apply(c, w, s);
            stop == v.aborted && Agrees(channel, socket, c, v, steps + 1) && Carried(ieee, c, v, queue, toController)
  {
    hide StateBytes, TargetBytes, Ieee.AllExact, TargetFits;
    stop, queue := aborted, toActor;
    if !aborted {
      var packet, ok := socket.SendState(ieee, s.position, s.velocity, c.controllerMotorHash, s.now, s.delivered);
      if ok {
        queue := queue + [packet];
      } else {
        stop := true;
      }
    }
  }

  method DoReceive(channel: PolicyStateChannel, ieee: Ieee, c: Config, s: Step, toActor: seq<seq<Byte>>,
                   ghost socket: IpcSocket, ghost w: World, ghost toController: seq<seq<Byte>>, ghost steps: nat)
    returns (queue: seq<seq<Byte>>)
    requires s.Receive? && Sound(c, w) && Agrees(channel, socket, c, w, steps) && Carried(ieee, c, w, toActor, toController)
    modifies channel
    ensures var v := Apply(c, w, s);
            v.aborted == w.aborted && Agrees(channel, socket, c, v, steps + 1) && Carried(ieee, c, v, queue, toController)
  {
    hide StateBytes, TargetBytes, DecodeState, CheckState, StateFits, TargetFits;
    queue := toActor;
    if s.timeout || toActor == [] {
      var r := channel.Receive(ieee, None, s.now);
      return;
    }
    StateCrosses(ieee, c.n, w.toActor[0], channel.motorHash, channel.lastState, s.now, channel.maxAge);
    if !channel.failed {
      queue := queue[1..];
    }
    var r := channel.Receive(ieee, Some(toActor[0]), s.now);
  }

  method DoSend(channel: PolicyStateChannel, ieee: Ieee, c: Config, s: Step, toController: seq<seq<Byte>>,
                ghost socket: IpcSocket, ghost w: World, ghost toActor: seq<seq<Byte>>, ghost steps: nat)
    returns (queue: seq<seq<Byte>>)
    requires s.Send? && StepFits(ieee, c, s) && HashesFit(c) && Sound(c, w) && steps + 1 < WORD
    requires Agrees(channel, socket, c, w, steps) && Carried(ieee, c, w, toActor, toController)
    modifies channel
    ensures var v := Apply(c, w, s);
            v.aborted == w.aborted && Agrees(channel, socket, c, v, steps + 1) && Carried(ieee, c, v, toActor, queue)
  {
    hide StateBytes, TargetBytes, StateFits, Ieee.AllExact, TargetEncodable, Fresh;
    queue := toController;
    var sent, packet := channel.Send(ieee, s.target, s.state, s.now, s.delivered);
    if sent.Ok? {
      queue := queue + [packet.value];
    }
  }

  method DoDrain(socket: IpcSocket, ieee: Ieee, c: Config, s: Step, aborted: bool, toController: seq<seq<Byte>>,
                 ghost channel: PolicyStateChannel, ghost w: World, ghost toActor: seq<seq<Byte>>, ghost steps: nat)
    returns (stop: bool, queue: seq<seq<Byte>>)
    requires s.Drain? && Sound(c, w) && aborted == w.aborted
    requires Agrees(channel, socket, c, w, steps) && Carried(ieee, c, w, toActor, toController)
    modifies socket
    ensures var v := Apply(c, w, s);
            stop == v.aborted && Agrees(channel, socket, c, v, steps + 1) && Carried(ieee, c, v, toActor, queue)
  {
    hide StateBytes, TargetBytes, AcceptBytes, StateFits, TargetFits, GainsAcceptable, EnvelopeAcceptable;
    stop, queue := aborted, toController;
    if aborted || toController == [] {
      return;
    }
    TargetCrosses(ieee, c.n, w.toController[0], socket.inbox, c.controllerJointHash, c.limits, s.clock);
    DrainOne(ieee, c.n, socket.inbox, toController[0], c.controllerJointHash, c.limits, s.clock);
    var fault;
    ghost var taken;
    fault, taken := socket.DrainTargetPackets(ieee, c.n, [Bytes(toController[0])], c.controllerJointHash, c.limits, s.clock);
    stop, queue := fault.Some?, queue[1..];
  }

  lemma DrainOne(ieee: Ieee, n: nat, inbox: Inbox, p: seq<Byte>, hash: nat, limits: seq<JointLimit>, now: int)
    requires limits == [] || |limits| == n
    ensures Drained(ieee, n, inbox, [Bytes(p)], hash, limits, now)
            == var next := AcceptBytes(ieee, n, inbox, p, hash, limits, now);
               if next.Err? then (inbox, Some(next.error)) else (next.value, None)
  {
    hide AcceptBytes;
    assert [Bytes(p)][1..] == [];
  }

  /** Any interleaving, on the two objects and on bytes: they go through exactly the states of the
      run over messages, so what is proved of that run holds of them. */
  method Interact(channel: PolicyStateChannel, socket: IpcSocket, ieee: Ieee, c: Config, steps: seq<Step>)
    requires RunValid(c, steps) && (forall i :: 0 <= i < |steps| ==> StepFits(ieee, c, steps[i])) && HashesFit(c) && |steps| < WORD
    requires channel.State() == START.actor && socket.inbox == START.inbox
    requires channel.n == c.n && channel.motorHash == c.actorMotorHash
    requires channel.jointHash == c.actorJointHash && channel.maxAge == c.maxAge
    modifies channel, socket
    ensures channel.State() == Run(c, steps).actor && socket.inbox == Run(c, steps).inbox
  {
    hide Run, Apply, Inv, Carried, StepFits;
    var toActor: seq<seq<Byte>>, toController: seq<seq<Byte>>, aborted := [], [], false;
    NoSteps(ieee, c, steps[..0]);
    for k := 0 to |steps|
      invariant RunValid(c, steps[..k])
      invariant var w := Run(c, steps[..k]);
                aborted == w.aborted && Agrees(channel, socket, c, w, k) && Carried(ieee, c, w, toActor, toController)
    {
      ghost var w := Run(c, steps[..k]);
      RunNext(c, steps, k);
      match steps[k]
      case Publish(_, _, _, _) =>
        aborted, toActor := DoPublish(socket, ieee, c, steps[k], aborted, toActor, channel, w, toController, k);
      case Receive(_, _) => toActor := DoReceive(channel, ieee, c, steps[k], toActor, socket, w, toController, k);
      case Send(_, _, _, _) => toController := DoSend(channel, ieee, c, steps[k], toController, socket, w, toActor, k);
      case Drain(_) => aborted, toController := DoDrain(socket, ieee, c, steps[k], aborted, toController, channel, w, toActor, k);
    }
    assert steps[..|steps|] == steps;
  }

  lemma NoSteps(ieee: Ieee, c: Config, steps: seq<Step>)
    requires c.Valid() && steps == []
    ensures Run(c, steps) == START && Carried(ieee, c, START, [], [])
  {
  }

  lemma RunNext(c: Config, steps: seq<Step>, k: nat)
    requires RunValid(c, steps) && k < |steps|
    ensures RunValid(c, steps[..k]) && RunValid(c, steps[..k + 1]) && StepValid(c, steps[k])
    ensures Sound(c, Run(c, steps[..k])) && Run(c, steps[..k + 1]) == Apply(c, Run(c, steps[..k]), steps[k])
  {
    assert steps[..k + 1][..k] == steps[..k];
    hide Apply, PublishedInOrder, StatesQueued, TargetsQueued, AcceptedInOrder;
  }
}
