/** What a commissioning gate does to its motor pair, as a sequence of events, and the safety
    statements over such sequences
    (src/open_sprite_runtime/ankle_pair_commissioning.py). */
module PairTrace {
  import opened Prelude
  import opened MitCodec

  datatype Endpoint = Endpoint(ranges: Ranges, soft: Range)

  /** What a decoded reply says beside its status. */
  datatype Said = Said(position: real, velocity: real, torque: real)

  /** Every attempt to write, whether or not the writer raised, and every decoded reply. */
  datatype Event =
    | Echo(motor: nat, written: bool, data: seq<Byte>)
    | TorqueFrame(motor: nat, written: bool, data: seq<Byte>, request: real)
    | Enable(motor: nat, written: bool)
    | Disable(motor: nat, written: bool)
    | Heard(motor: nat, status: int, said: Said)

  const DISABLED: int := 0
  const ENABLED: int := 1

  /** No stiffness, no damping, and a feedforward word that decodes to the requested torque
      rounded down by less than one step. */
  predicate PureTorque(ranges: Ranges, data: seq<Byte>, request: real) {
    |data| == 8 && var w := Unpack(data);
      && w.kp == 0 && w.kd == 0
      && Below(Decode(w.torque, ranges.torque, LEVELS12), request, Step(ranges.torque, LEVELS12))
  }

  /** The position word is the encoding of a position. */
  predicate Carries(ranges: Ranges, data: seq<Byte>, position: real) {
    ranges.Ordered() && |data| == 8 && Encode(position, ranges.position, LEVELS16) == Ok(Unpack(data).position)
  }

  predicate EchoOk(eps: seq<Endpoint>, e: Event) {
    e.Echo? && e.motor < |eps| && PureTorque(eps[e.motor].ranges, e.data, 0.0)
  }

  /** A position the drive can report: the decoding of one of its words. */
  ghost predicate Reportable(ep: Endpoint, position: real) {
    exists raw: nat :: raw <= LEVELS16 && position == Decode(raw, ep.ranges.position, LEVELS16)
  }

  ghost predicate HeardOk(eps: seq<Endpoint>, e: Event) {
    e.Heard? && e.motor < |eps| && Reportable(eps[e.motor], e.said.position)
  }

  predicate TorqueOk(eps: seq<Endpoint>, cap: real, e: Event) {
    e.TorqueFrame? && e.motor < |eps| && Abs(e.request) <= cap && PureTorque(eps[e.motor].ranges, e.data, e.request)
  }

  /** The torque the drive makes of such a frame. */
  function DriveTorque(ranges: Ranges, data: seq<Byte>): real
    requires |data| == 8
  {
    Decode(Unpack(data).torque, ranges.torque, LEVELS12)
  }

  /** Quantization rounds down, so a request at the negative cap may ask the drive for more than
      the cap: exactly when the request shares its word with a cap that is not itself a word.
      The excess is less than one step. */
  lemma OverCapWhen(range: Range, cap: real, request: real)
    requires range.low < range.high && range.Contains(request) && Abs(request) <= cap
    ensures var d := Decode(Encode(request, range, LEVELS12).value, range, LEVELS12);
            && -cap - Step(range, LEVELS12) < d <= cap
            && (Abs(d) > cap <==> range.Contains(-cap)
                                  && Encode(request, range, LEVELS12) == Encode(-cap, range, LEVELS12)
                                  && Decode(Encode(-cap, range, LEVELS12).value, range, LEVELS12) != -cap)
  {
    DecodeWithinStep(request, range, LEVELS12);
    var word := Encode(request, range, LEVELS12).value;
    if range.Contains(-cap) {
      var least := Encode(-cap, range, LEVELS12).value;
      EncodeIsLargestBelow(-cap, range, LEVELS12, word);
      EncodeIsLargestBelow(-cap, range, LEVELS12, least);
      EncodeIsLargestBelow(request, range, LEVELS12, least);
    }
    hide Encode, Decode, Step;
  }

  // ---- counting ------------------------------------------------------------

  function Answers(events: seq<Event>, m: nat): nat {
    if events == [] then 0
    else Answers(events[..|events| - 1], m)
         + if events[|events| - 1].Heard? && events[|events| - 1].motor == m then 1 else 0
  }

  /** Commands written to a motor, of either kind. */
  function Commands(events: seq<Event>, m: nat): nat {
    if events == [] then 0
    else
      var e := events[|events| - 1];
      Commands(events[..|events| - 1], m) + if (e.Echo? || e.TorqueFrame?) && e.motor == m && e.written then 1 else 0
  }

  /** Disable attempts, and those the writer accepted. */
  function DisableTries(events: seq<Event>, m: nat): nat {
    if events == [] then 0
    else
      var e := events[|events| - 1];
      DisableTries(events[..|events| - 1], m) + if e.Disable? && e.motor == m then 1 else 0
  }

  function Disables(events: seq<Event>, m: nat): nat {
    if events == [] then 0
    else Disables(events[..|events| - 1], m) + if events[|events| - 1] == Disable(m, true) then 1 else 0
  }

  /** The last thing motor `m` said. */
  function LastSaid(events: seq<Event>, m: nat): (r: Option<Event>)
    ensures r.Some? ==> r.value.Heard? && r.value.motor == m && r.value in events
  {
    if events == [] then None
    else
      var e := events[|events| - 1];
      if e.Heard? && e.motor == m then Some(e) else LastSaid(events[..|events| - 1], m)
  }

  function LastStatus(events: seq<Event>, m: nat): Option<int> {
    var l := LastSaid(events, m);
    if l.Some? then Some(l.value.status) else None
  }

  /** All five at once, one event further. */
  lemma OneMore(events: seq<Event>, e: Event, m: nat)
    ensures Answers(events + [e], m) == Answers(events, m) + if e.Heard? && e.motor == m then 1 else 0
    ensures Commands(events + [e], m)
            == Commands(events, m) + if (e.Echo? || e.TorqueFrame?) && e.motor == m && e.written then 1 else 0
    ensures DisableTries(events + [e], m) == DisableTries(events, m) + if e.Disable? && e.motor == m then 1 else 0
    ensures Disables(events + [e], m) == Disables(events, m) + if e == Disable(m, true) then 1 else 0
    ensures LastSaid(events + [e], m) == if e.Heard? && e.motor == m then Some(e) else LastSaid(events, m)
    ensures LastStatus(events + [e], m) == if e.Heard? && e.motor == m then Some(e.status) else LastStatus(events, m)
  {
    assert (events + [e])[..|events + [e]| - 1] == events;
  }

  lemma {:induction false} TriesConcat(a: seq<Event>, b: seq<Event>, m: nat)
    ensures DisableTries(a + b, m) == DisableTries(a, m) + DisableTries(b, m)
    decreases |b|
  {
    if b == [] {
      assert a + b == a;
    } else {
      assert (a + b)[..|a + b| - 1] == a + b[..|b| - 1];
      TriesConcat(a, b[..|b| - 1], m);
    }
  }

  lemma {:induction false} LastConcat(a: seq<Event>, b: seq<Event>, m: nat)
    ensures LastSaid(a + b, m) == if LastSaid(b, m).Some? then LastSaid(b, m) else LastSaid(a, m)
    decreases |b|
  {
    if b == [] {
      assert a + b == a;
    } else {
      assert (a + b)[..|a + b| - 1] == a + b[..|b| - 1];
      LastConcat(a, b[..|b| - 1], m);
    }
  }

  /** What motor `m` said, in order. */
  function RepliesOf(events: seq<Event>, m: nat): seq<Event> {
    if events == [] then []
    else
      RepliesOf(events[..|events| - 1], m)
      + if events[|events| - 1].Heard? && events[|events| - 1].motor == m then [events[|events| - 1]] else []
  }

  lemma {:induction false} RepliesConcat(a: seq<Event>, b: seq<Event>, m: nat)
    ensures RepliesOf(a + b, m) == RepliesOf(a, m) + RepliesOf(b, m)
    decreases |b|
  {
    if b == [] {
      assert a + b == a;
    } else {
      assert (a + b)[..|a + b| - 1] == a + b[..|b| - 1];
      RepliesConcat(a, b[..|b| - 1], m);
    }
  }

  lemma {:induction false} LastOfReplies(events: seq<Event>, m: nat)
    ensures var r := RepliesOf(events, m); LastSaid(events, m) == if r == [] then None else Some(r[|r| - 1])
  {
    if events != [] {
      LastOfReplies(events[..|events| - 1], m);
    }
  }

  // ---- the four parts of a run ---------------------------------------------

  ghost predicate ProbeEvent(eps: seq<Endpoint>, e: Event) { EchoOk(eps, e) || HeardOk(eps, e) }

  ghost predicate Probes(eps: seq<Endpoint>, events: seq<Event>) {
    forall k {:trigger ProbeEvent(eps, events[k])} :: 0 <= k < |events| ==> ProbeEvent(eps, events[k])
  }

  /** The bytes of an echo, if it can be encoded. */
  function EchoBytes(ep: Endpoint, position: real): seq<Byte>
    requires ep.ranges.Ordered()
  {
    var r := PythonZeroGain(ep.ranges, position);
    if r.Ok? then r.value else []
  }

  predicate AllOrdered(eps: seq<Endpoint>) { forall m :: 0 <= m < |eps| ==> eps[m].ranges.Ordered() }

  /** One probing round over the first motors: an echo of a position to each, and its answer. */
  function Round(eps: seq<Endpoint>, echoed: seq<real>, heard: seq<Said>, upTo: nat): seq<Event>
    requires AllOrdered(eps) && upTo <= |eps| && upTo <= |echoed| && upTo <= |heard|
  {
    if upTo == 0 then []
    else
      var m := upTo - 1;
      Round(eps, echoed, heard, m) + [Echo(m, true, EchoBytes(eps[m], echoed[m])), Heard(m, DISABLED, heard[m])]
  }

  /** Both rounds: echoes of zero, then of what was answered. */
  function BothRounds(eps: seq<Endpoint>, first: seq<Said>, second: seq<Said>): seq<Event>
    requires AllOrdered(eps) && |first| == |second| == |eps|
  {
    Round(eps, Zeros(|eps|), first, |eps|) + Round(eps, Positions(first), second, |eps|)
  }

  function Positions(said: seq<Said>): (p: seq<real>)
    ensures |p| == |said| && forall m :: 0 <= m < |said| ==> p[m] == said[m].position
  {
    seq(|said|, m requires 0 <= m < |said| => said[m].position)
  }

  predicate Inside(ep: Endpoint, margin: real, position: real) {
    ep.soft.low + margin <= position <= ep.soft.high - margin
  }

  /** Motor by motor: both echoes could be sent, and the first answer keeps the margin. */
  ghost predicate AnswersFit(ep: Endpoint, margin: real, first: Said, second: Said) {
    && EchoAccepted(ep.ranges, 0.0) && EchoAccepted(ep.ranges, first.position)
    && Reportable(ep, first.position) && Reportable(ep, second.position) && Inside(ep, margin, first.position)
  }

  /** A probing that went through is exactly two rounds in which every motor answers disabled,
      the first time with margin to its soft limits. */
  ghost predicate ProbedAs(eps: seq<Endpoint>, events: seq<Event>, margin: real, first: seq<Said>, second: seq<Said>) {
    && AllOrdered(eps) && |first| == |second| == |eps| && events == BothRounds(eps, first, second)
    && forall m {:trigger AnswersFit(eps[m], margin, first[m], second[m])} ::
         0 <= m < |eps| ==> AnswersFit(eps[m], margin, first[m], second[m])
  }

  ghost predicate Probed(eps: seq<Endpoint>, events: seq<Event>, margin: real) {
    exists first, second :: ProbedAs(eps, events, margin, first, second)
  }

  /** A round asks nothing about answers that come later. */
  lemma {:induction false} RoundMore(eps: seq<Endpoint>, echoed: seq<real>, heard: seq<Said>, x: Said, upTo: nat)
    requires AllOrdered(eps) && upTo <= |eps| && upTo <= |echoed| && upTo <= |heard|
    ensures Round(eps, echoed, heard + [x], upTo) == Round(eps, echoed, heard, upTo)
  {
    if upTo > 0 {
      RoundMore(eps, echoed, heard, x, upTo - 1);
    }
  }

  lemma {:induction false} RoundReplies(eps: seq<Endpoint>, echoed: seq<real>, heard: seq<Said>, upTo: nat, m: nat)
    requires AllOrdered(eps) && upTo <= |eps| && upTo <= |echoed| && upTo <= |heard|
    ensures RepliesOf(Round(eps, echoed, heard, upTo), m) == if m < upTo then [Heard(m, DISABLED, heard[m])] else []
  {
    hide EchoBytes;
    if upTo > 0 {
      RoundReplies(eps, echoed, heard, upTo - 1, m);
      RoundStep(eps, echoed, heard, upTo - 1, m);
      hide Round, RepliesOf;
    }
  }

  lemma RoundStep(eps: seq<Endpoint>, echoed: seq<real>, heard: seq<Said>, i: nat, m: nat)
    requires AllOrdered(eps) && i < |eps| && i < |echoed| && i < |heard|
    ensures RepliesOf(Round(eps, echoed, heard, i + 1), m)
            == RepliesOf(Round(eps, echoed, heard, i), m) + if m == i then [Heard(i, DISABLED, heard[i])] else []
  {
    hide EchoBytes, RepliesOf;
    var e, h := Echo(i, true, EchoBytes(eps[i], echoed[i])), Heard(i, DISABLED, heard[i]);
    RepliesConcat(Round(eps, echoed, heard, i), [e, h], m);
    PairReplies(e, h, m);
  }

  lemma PairReplies(e: Event, h: Event, m: nat)
    requires e.Echo? && h.Heard?
    ensures RepliesOf([e, h], m) == if h.motor == m then [h] else []
  {
    assert [e, h][..1] == [e] && [e][..0] == [];
    assert RepliesOf([e], m) == [];
  }

  /** Every motor answers exactly twice. */
  lemma ProbedReplies(eps: seq<Endpoint>, events: seq<Event>, margin: real, first: seq<Said>, second: seq<Said>, m: nat)
    requires ProbedAs(eps, events, margin, first, second) && m < |eps|
    ensures RepliesOf(events, m) == [Heard(m, DISABLED, first[m]), Heard(m, DISABLED, second[m])]
  {
    hide Round, AnswersFit;
    RoundReplies(eps, Zeros(|eps|), first, |eps|, m);
    RoundReplies(eps, Positions(first), second, |eps|, m);
    RepliesConcat(Round(eps, Zeros(|eps|), first, |eps|), Round(eps, Positions(first), second, |eps|), m);
    hide RepliesOf;
  }

  predicate Enables(events: seq<Event>, n: nat) {
    && |events| <= n
    && (forall k :: 0 <= k < |events| ==> events[k].Enable? && events[k].motor == k)
    && (forall k :: 0 <= k < |events| - 1 ==> events[k].written)
  }

  predicate Enabled(events: seq<Event>, n: nat) {
    |events| == n && forall k :: 0 <= k < n ==> events[k] == Enable(k, true)
  }

  /** The limits of a gate: the soft-limit margin of the probing, the torque cap, and what a motor
      may report while it is enabled; without a drift the pose is watched elsewhere. */
  datatype Guards = Guards(margin: real, cap: real, velocity: real, drift: Option<real>)

  /** Where motor `m` was at first. */
  function FirstPosition(probe: seq<Event>, m: nat): real {
    var r := RepliesOf(probe, m);
    if r != [] && r[0].Heard? then r[0].said.position else 0.0
  }

  /** A reply that lets the powered interval go on. */
  predicate Calm(g: Guards, probe: seq<Event>, e: Event)
    requires e.Heard?
  {
    && e.status == ENABLED && Abs(e.said.velocity) <= g.velocity && Abs(e.said.torque) <= g.cap
    && (g.drift.Some? ==> Abs(e.said.position - FirstPosition(probe, e.motor)) <= g.drift.value)
  }

  predicate AllCalm(g: Guards, probe: seq<Event>, events: seq<Event>) {
    forall k :: 0 <= k < |events| && events[k].Heard? ==> Calm(g, probe, events[k])
  }

  /** A frame of the powered interval sends the position its motor last reported, in the probing
      or since; with a torque only if that lies within the motor's soft limits. */
  ghost predicate FrameOk(eps: seq<Endpoint>, cap: real, history: seq<Event>, e: Event) {
    && (EchoOk(eps, e) || TorqueOk(eps, cap, e))
    && var l := LastSaid(history, e.motor);
       l.Some? && Carries(eps[e.motor].ranges, e.data, l.value.said.position)
       && (e.TorqueFrame? ==> eps[e.motor].soft.Contains(l.value.said.position))
  }

  ghost predicate ActiveEvent(eps: seq<Endpoint>, cap: real, history: seq<Event>, e: Event) {
    HeardOk(eps, e) || FrameOk(eps, cap, history, e)
  }

  /** The powered interval: commands within the cap at the position last reported, and none after
      a reply that did not say enabled or was beyond a guard. */
  ghost predicate Active(eps: seq<Endpoint>, g: Guards, probe: seq<Event>, events: seq<Event>) {
    && (forall k {:trigger ActiveEvent(eps, g.cap, probe + events[..k], events[k])} ::
          0 <= k < |events| ==> ActiveEvent(eps, g.cap, probe + events[..k], events[k]))
    && (forall k :: 0 <= k < |events| && !events[k].Heard? ==> AllCalm(g, probe, events[..k]))
  }

  lemma ActiveNext(eps: seq<Endpoint>, g: Guards, probe: seq<Event>, events: seq<Event>, e: Event)
    requires Active(eps, g, probe, events)
    requires ActiveEvent(eps, g.cap, probe + events, e)
    requires !e.Heard? ==> AllCalm(g, probe, events)
    ensures Active(eps, g, probe, events + [e])
    ensures AllCalm(g, probe, events) && (e.Heard? ==> Calm(g, probe, e)) ==> AllCalm(g, probe, events + [e])
  {
    hide ActiveEvent, Calm;
    var all := events + [e];
    forall k | 0 <= k < |all| ensures all[..k] == if k < |events| then events[..k] else events {
      assert k < |events| ==> ActiveEvent(eps, g.cap, probe + events[..k], events[k]);
    }
  }

  ghost predicate ClosingEvent(eps: seq<Endpoint>, e: Event) {
    EchoOk(eps, e) || HeardOk(eps, e) || (e.Disable? && e.motor < |eps|)
  }

  ghost predicate Closes(eps: seq<Endpoint>, events: seq<Event>) {
    forall k {:trigger ClosingEvent(eps, events[k])} :: 0 <= k < |events| ==> ClosingEvent(eps, events[k])
  }

  predicate TriedThrice(events: seq<Event>, n: nat) { forall m :: 0 <= m < n ==> DisableTries(events, m) >= 3 }

  predicate SaidDisabled(events: seq<Event>, n: nat) {
    forall m :: 0 <= m < n ==> LastStatus(events, m) == Some(DISABLED)
  }

  datatype GateRun = GateRun(probe: seq<Event>, enables: seq<Event>, active: seq<Event>, closing: seq<Event>) {
    function Events(): seq<Event> { probe + enables + active + closing }

    /** Everything that holds of every run, wherever the writer raised. */
    ghost predicate Safe(eps: seq<Endpoint>, g: Guards) {
      && Probes(eps, probe)
      && Enables(enables, |eps|) && (enables != [] ==> Probed(eps, probe, g.margin))
      && Active(eps, g, probe, active) && (active != [] ==> Enabled(enables, |eps|))
      && Closes(eps, closing) && TriedThrice(closing, |eps|)
    }
  }

  // ---- the statements a reader wants ---------------------------------------

  /** Which part an event of the whole run comes from. */
  lemma Locate(run: GateRun, k: nat)
    requires k < |run.Events()|
    ensures var p, e, a := |run.probe|, |run.probe| + |run.enables|, |run.probe| + |run.enables| + |run.active|;
            run.Events()[k] == if k < p then run.probe[k] else if k < e then run.enables[k - p]
                               else if k < a then run.active[k - e] else run.closing[k - a]
  {
  }

  lemma KindOf(run: GateRun, eps: seq<Endpoint>, g: Guards, k: nat)
    requires run.Safe(eps, g) && k < |run.Events()|
    ensures run.Events()[k].Enable? ==> |run.probe| <= k < |run.probe| + |run.enables|
    ensures run.Events()[k].TorqueFrame? ==>
              |run.probe| + |run.enables| <= k < |run.probe| + |run.enables| + |run.active|
  {
    hide PureTorque, Probed, TriedThrice, AllCalm, Reportable, Carries;
    Locate(run, k);
    hide GateRun.Events;
    var start := |run.probe| + |run.enables|;
    if k < |run.probe| {
      assert ProbeEvent(eps, run.probe[k]);
    } else if start <= k < start + |run.active| {
      assert ActiveEvent(eps, g.cap, run.probe + run.active[..k - start], run.active[k - start]);
    } else if start <= k {
      assert ClosingEvent(eps, run.closing[k - start - |run.active|]);
    }
  }

  /** Nothing is enabled before both probing rounds: of the only two answers every motor gave, both
      disabled, the first kept the margin. */
  lemma EnableIsProbed(run: GateRun, eps: seq<Endpoint>, g: Guards, k: nat)
    requires run.Safe(eps, g) && k < |run.Events()| && run.Events()[k].Enable?
    ensures |run.probe| <= k && run.Events()[..|run.probe|] == run.probe && Probed(eps, run.probe, g.margin)
    ensures forall m :: 0 <= m < |eps| ==>
              var r := RepliesOf(run.probe, m);
              && |r| == 2 && r[0].Heard? && r[0].status == DISABLED && Inside(eps[m], g.margin, r[0].said.position)
              && r[1].Heard? && r[1].status == DISABLED
  {
    hide GateRun.Events, RepliesOf, ProbedAs, Inside;
    ProbeComesFirst(run, eps, g, k);
    hide GateRun.Safe;
    var first: seq<Said>, second: seq<Said> :| ProbedAs(eps, run.probe, g.margin, first, second);
    AnswersKept(eps, run.probe, g.margin, first, second);
  }

  lemma ProbeComesFirst(run: GateRun, eps: seq<Endpoint>, g: Guards, k: nat)
    requires run.Safe(eps, g) && k < |run.Events()| && run.Events()[k].Enable?
    ensures |run.probe| <= k && run.Events()[..|run.probe|] == run.probe && Probed(eps, run.probe, g.margin)
  {
    hide Probed, Probes, Active, Closes, TriedThrice;
    KindOf(run, eps, g, k);
    Locate(run, k);
    assert run.Events()[..|run.probe|] == run.probe;
  }

  lemma AnswersKept(eps: seq<Endpoint>, events: seq<Event>, margin: real, first: seq<Said>, second: seq<Said>)
    requires ProbedAs(eps, events, margin, first, second)
    ensures |first| == |second| == |eps|
    ensures forall m :: 0 <= m < |eps| ==>
              var r := RepliesOf(events, m);
              && |r| == 2 && r[0].Heard? && r[0].status == DISABLED && Inside(eps[m], margin, r[0].said.position)
              && r[1].Heard? && r[1].status == DISABLED
  {
    forall m | 0 <= m < |eps|
      ensures var r := RepliesOf(events, m);
              && |r| == 2 && r[0].Heard? && r[0].status == DISABLED && Inside(eps[m], margin, r[0].said.position)
              && r[1].Heard? && r[1].status == DISABLED
    {
      FirstIsInside(eps, events, margin, first, second, m);
      ProbedReplies(eps, events, margin, first, second, m);
      hide RepliesOf, ProbedAs, Reportable, PythonZeroGain;
    }
  }

  lemma FirstIsInside(eps: seq<Endpoint>, events: seq<Event>, margin: real, first: seq<Said>, second: seq<Said>, m: nat)
    requires ProbedAs(eps, events, margin, first, second) && m < |eps|
    ensures m < |first| && m < |second| && AnswersFit(eps[m], margin, first[m], second[m])
  {
    hide AnswersFit;
  }

  // ---- the second answer ---------------------------------------------------

  ghost predicate AllInside(eps: seq<Endpoint>, margin: real, events: seq<Event>) {
    forall m, k :: 0 <= m < |eps| && 0 <= k < |RepliesOf(events, m)| && RepliesOf(events, m)[k].Heard? ==>
      Inside(eps[m], margin, RepliesOf(events, m)[k].said.position)
  }

  /** Whether a motor can be probed at all. */
  ghost predicate CanBeProbed(ep: Endpoint, margin: real) {
    EchoAccepted(ep.ranges, 0.0) && exists p :: Reportable(ep, p) && Inside(ep, margin, p)
  }

  /** Whatever the motor can report lies within its soft limits with margin. */
  predicate RangeInside(ep: Endpoint, margin: real) {
    Inside(ep, margin, ep.ranges.position.low) && Inside(ep, margin, ep.ranges.position.high)
  }

  /** An echo that can be sent at zero can be sent at every position the drive can report. */
  lemma EchoAtReported(ep: Endpoint, p: real)
    requires EchoAccepted(ep.ranges, 0.0) && Reportable(ep, p)
    ensures EchoAccepted(ep.ranges, p) && ep.ranges.position.Contains(p)
  {
    var raw: nat :| raw <= LEVELS16 && p == Decode(raw, ep.ranges.position, LEVELS16);
    EncodeOfDecode(raw, ep.ranges.position, LEVELS16);
    ZeroGainWritersAgree(ep.ranges, 0.0);
    ZeroGainWritersAgree(ep.ranges, p);
    hide PythonZeroGain, Decode, Encode;
  }

  /** The ends of the range can be reported. */
  lemma EndsReportable(ep: Endpoint)
    requires ep.ranges.Ordered()
    ensures Reportable(ep, ep.ranges.position.low) && Reportable(ep, ep.ranges.position.high)
  {
    var r := ep.ranges.position;
    TopWord(r, LEVELS16);
    assert Decode(0, r, LEVELS16) == r.low;
    assert Decode(LEVELS16, r, LEVELS16) == r.high;
  }

  /** A first answer of a motor that can be probed. */
  lemma AnAnswer(ep: Endpoint, margin: real) returns (said: Said)
    requires CanBeProbed(ep, margin)
    ensures AnswersFit(ep, margin, said, said)
  {
    hide PythonZeroGain, Reportable;
    var p :| Reportable(ep, p) && Inside(ep, margin, p);
    EchoAtReported(ep, p);
    said := Said(p, 0.0, 0.0);
  }

  /** An end of the range that lies outside. */
  lemma AnEnd(ep: Endpoint, margin: real) returns (said: Said)
    requires ep.ranges.Ordered() && !RangeInside(ep, margin)
    ensures Reportable(ep, said.position) && !Inside(ep, margin, said.position)
  {
    EndsReportable(ep);
    hide Reportable;
    said := Said(if Inside(ep, margin, ep.ranges.position.low) then ep.ranges.position.high else ep.ranges.position.low, 0.0, 0.0);
  }

  /** A second answer from anywhere. */
  lemma AnySecond(ep: Endpoint, margin: real, first: Said, second: Said)
    requires AnswersFit(ep, margin, first, first) && Reportable(ep, second.position)
    ensures AnswersFit(ep, margin, first, second)
  {
    hide PythonZeroGain, Reportable;
  }

  /** The run that fails: motor `b` answers the second echo from the end of its range that lies
      outside, and everything is enabled all the same. */
  lemma SecondAnswerMayLeave(eps: seq<Endpoint>, margin: real, b: nat) returns (run: GateRun)
    requires |eps| == 2 && b < 2 && (forall m :: 0 <= m < 2 ==> CanBeProbed(eps[m], margin)) && !RangeInside(eps[b], margin)
    ensures run.enables == [Enable(0, true), Enable(1, true)] && forall g: Guards :: g.margin == margin ==> run.Safe(eps, g)
    ensures var r := RepliesOf(run.probe, b); |r| == 2 && r[1].Heard? && !Inside(eps[b], margin, r[1].said.position)
    ensures !AllInside(eps, margin, run.probe)
  {
    hide PythonZeroGain, Reportable, Inside, AnswersFit, BothRounds, RepliesOf, RangeInside;
    assert CanBeProbed(eps[0], margin) && CanBeProbed(eps[1], margin);
    var p := AnAnswer(eps[0], margin);
    var q := AnAnswer(eps[1], margin);
    var bad := AnEnd(eps[b], margin);
    hide CanBeProbed;
    var first := [p, q];
    var second := first[b := bad];
    AnySecond(eps[b], margin, first[b], bad);
    forall m | 0 <= m < 2 ensures AnswersFit(eps[m], margin, first[m], second[m]) {
    }
    IsOrdered(eps, margin, first, second);
    var probe := BothRounds(eps, first, second);
    assert ProbedAs(eps, probe, margin, first, second);
    ProbedReplies(eps, probe, margin, first, second, b);
    RoundsAreProbes(eps, probe, margin, first, second);
    run := GateRun(probe, [Enable(0, true), Enable(1, true)], [], ThreeRounds());
    hide ProbedAs, Probes;
    assert Probed(eps, probe, margin);
    hide Probed;
    EnabledOnly(eps, margin, run);
    assert RepliesOf(probe, b)[1] == Heard(b, DISABLED, bad);
  }

  lemma IsOrdered(eps: seq<Endpoint>, margin: real, first: seq<Said>, second: seq<Said>)
    requires |first| == |second| == |eps| && forall m :: 0 <= m < |eps| ==> AnswersFit(eps[m], margin, first[m], second[m])
    ensures AllOrdered(eps)
  {
    hide PythonZeroGain, Reportable;
  }

  /** A run that enables, does nothing and closes. */
  lemma EnabledOnly(eps: seq<Endpoint>, margin: real, run: GateRun)
    requires |eps| == 2 && Probes(eps, run.probe) && Probed(eps, run.probe, margin)
    requires run.enables == [Enable(0, true), Enable(1, true)] && run.active == [] && run.closing == ThreeRounds()
    ensures forall g: Guards :: g.margin == margin ==> run.Safe(eps, g)
  {
    ThreeRoundsTry();
    hide Probes, Probed, DisableTries;
    assert Closes(eps, ThreeRounds());
    hide ThreeRounds;
    forall g: Guards | g.margin == margin ensures run.Safe(eps, g) {
      assert Active(eps, g, run.probe, []);
    }
  }

  function ThreeRounds(): seq<Event> {
    [] + [Disable(0, true)] + [Disable(1, true)] + [Disable(0, true)] + [Disable(1, true)] + [Disable(0, true)] + [Disable(1, true)]
  }

  lemma ThreeRoundsTry()
    ensures DisableTries(ThreeRounds(), 0) == 3 && DisableTries(ThreeRounds(), 1) == 3
  {
    var a, b := Disable(0, true), Disable(1, true);
    forall m: nat ensures DisableTries(ThreeRounds(), m) == if m == 0 || m == 1 then 3 else 0 {
      OneMore([], a, m);
      OneMore([] + [a], b, m);
      OneMore([] + [a] + [b], a, m);
      OneMore([] + [a] + [b] + [a], b, m);
      OneMore([] + [a] + [b] + [a] + [b], a, m);
      OneMore([] + [a] + [b] + [a] + [b] + [a], b, m);
    }
  }

  /** A probing that went through consists of probing events. */
  lemma RoundsAreProbes(eps: seq<Endpoint>, events: seq<Event>, margin: real, first: seq<Said>, second: seq<Said>)
    requires ProbedAs(eps, events, margin, first, second)
    ensures Probes(eps, events)
  {
    hide PythonZeroGain, ProbeEvent, Reportable;
    forall m | 0 <= m < |eps| ensures EchoAccepted(eps[m].ranges, 0.0) && EchoAccepted(eps[m].ranges, first[m].position)
                              ensures Reportable(eps[m], first[m].position) && Reportable(eps[m], second[m].position)
    {
      assert AnswersFit(eps[m], margin, first[m], second[m]);
    }
    RoundIsProbing(eps, Zeros(|eps|), first, |eps|);
    RoundIsProbing(eps, Positions(first), second, |eps|);
    hide Round;
  }

  lemma {:induction false} RoundIsProbing(eps: seq<Endpoint>, echoed: seq<real>, heard: seq<Said>, upTo: nat)
    requires AllOrdered(eps) && upTo <= |eps| && upTo <= |echoed| && upTo <= |heard|
    requires forall m :: 0 <= m < upTo ==> EchoAccepted(eps[m].ranges, echoed[m]) && Reportable(eps[m], heard[m].position)
    ensures Probes(eps, Round(eps, echoed, heard, upTo))
  {
    hide PythonZeroGain, Reportable, PureTorque, EchoBytes, EchoOk;
    if upTo > 0 {
      var m := upTo - 1;
      RoundIsProbing(eps, echoed, heard, m);
      EchoIsPure(eps, m, echoed[m]);
      var front, e, h := Round(eps, echoed, heard, m), Echo(m, true, EchoBytes(eps[m], echoed[m])), Heard(m, DISABLED, heard[m]);
      assert HeardOk(eps, h);
      assert ProbeEvent(eps, e) && ProbeEvent(eps, h);
      forall k | 0 <= k < |front| + 2 ensures ProbeEvent(eps, (front + [e, h])[k]) {
        assert k < |front| ==> ProbeEvent(eps, front[k]);
      }
    }
  }

  /** An accepted echo asks for nothing, at the position it was made for. */
  lemma EchoIsPure(eps: seq<Endpoint>, m: nat, position: real)
    requires m < |eps| && EchoAccepted(eps[m].ranges, position)
    ensures EchoOk(eps, Echo(m, true, EchoBytes(eps[m], position)))
    ensures Carries(eps[m].ranges, EchoBytes(eps[m], position), position)
  {
    hide Torque, EnvelopeRefusal, PureTorque, Carries, ZeroGainPayload;
    var ranges := eps[m].ranges;
    ZeroGainWritersAgree(ranges, position);
    var e := Envelope(ranges.position, ranges.velocity.Nearest(), ranges.torque.Nearest(), ranges.torque.Nearest());
    EncodedIsPure(ranges, position, 0.0, State(position, 0.0), e);
  }

  /** What the Python encoder makes of a command without gains. */
  lemma EncodedIsPure(ranges: Ranges, position: real, request: real, s: State, e: Envelope)
    requires ranges.Ordered() && PythonEncode(ranges, Command(position, 0.0, 0.0, 0.0, request), s, e).Ok?
    ensures var data := PythonEncode(ranges, Command(position, 0.0, 0.0, 0.0, request), s, e).value;
            PureTorque(ranges, data, request) && Abs(request) <= e.maxFeedforward
            && Carries(ranges, data, position) && e.position.Contains(position)
  {
    hide Torque, EnvelopeRefusal, Pack, PythonPack, Unpack, Encode, Decode;
    NoRefusal(ranges, Command(position, 0.0, 0.0, 0.0, request), s, e);
    var c := Command(position, 0.0, 0.0, 0.0, request);
    PythonAgreesWithNative(ranges, c, s, e);
    CommandRoundTrip(c, ranges);
    ZeroWord(KP_RANGE);
    ZeroWord(KD_RANGE);
    UnpackOfPack(EncodeCommand(c, ranges).value);
  }

  /** In no run of a gate whatsoever does the motor leave the margin between the two answers. */
  ghost predicate AlwaysInside(eps: seq<Endpoint>, margin: real) {
    forall run: GateRun, g: Guards :: g.margin == margin && run.Safe(eps, g) && run.enables != [] ==> AllInside(eps, margin, run.probe)
  }

  /** The gates test the margin on the first answer only. That is enough exactly when no run can
      get as far as enabling, or everything each motor can report lies inside anyway. */
  lemma BothAnswersInsideWhen(eps: seq<Endpoint>, margin: real)
    requires |eps| == 2 && AllOrdered(eps)
    ensures AlwaysInside(eps, margin) <==>
            ((forall m :: 0 <= m < 2 ==> CanBeProbed(eps[m], margin)) ==> forall m :: 0 <= m < 2 ==> RangeInside(eps[m], margin))
  {
    hide GateRun.Safe, AllInside, CanBeProbed, RangeInside;
    if (forall m :: 0 <= m < 2 ==> CanBeProbed(eps[m], margin)) && !(forall m :: 0 <= m < 2 ==> RangeInside(eps[m], margin)) {
      var b :| 0 <= b < 2 && !RangeInside(eps[b], margin);
      var run := SecondAnswerMayLeave(eps, margin, b);
      assert run.Safe(eps, Guards(margin, 0.0, 0.0, None));
    } else {
      forall run: GateRun, g: Guards | g.margin == margin && run.Safe(eps, g) && run.enables != [] ensures AllInside(eps, margin, run.probe) {
        InsideIfRangeIs(eps, g, run);
      }
    }
  }

  lemma InsideIfRangeIs(eps: seq<Endpoint>, g: Guards, run: GateRun)
    requires |eps| == 2 && AllOrdered(eps) && run.Safe(eps, g) && run.enables != []
    requires (forall m :: 0 <= m < 2 ==> CanBeProbed(eps[m], g.margin)) ==> forall m :: 0 <= m < 2 ==> RangeInside(eps[m], g.margin)
    ensures AllInside(eps, g.margin, run.probe)
  {
    hide Probes, Active, Closes, TriedThrice, ProbedAs, RangeInside, Reportable, PythonZeroGain, RepliesOf, Inside;
    var first: seq<Said>, second: seq<Said> :| ProbedAs(eps, run.probe, g.margin, first, second);
    AnswersKept(eps, run.probe, g.margin, first, second);
    forall m | 0 <= m < 2 ensures CanBeProbed(eps[m], g.margin) {
      FirstIsInside(eps, run.probe, g.margin, first, second, m);
    }
    hide CanBeProbed;
    forall m, k | 0 <= m < 2 && 0 <= k < |RepliesOf(run.probe, m)| && RepliesOf(run.probe, m)[k].Heard?
      ensures Inside(eps[m], g.margin, RepliesOf(run.probe, m)[k].said.position)
    {
      ProbedReplies(eps, run.probe, g.margin, first, second, m);
      FirstIsInside(eps, run.probe, g.margin, first, second, m);
      EchoAtReported(eps[m], second[m].position);
      EndsAround(eps[m], g.margin, second[m].position);
    }
  }

  lemma EndsAround(ep: Endpoint, margin: real, p: real)
    requires RangeInside(ep, margin) && ep.ranges.position.Contains(p)
    ensures Inside(ep, margin, p)
  {
  }

  // ---- torque frames and closing -------------------------------------------

  /** A torque frame goes out only after both drives were enabled and before any reply said
      otherwise. It is a pure torque whose request is within the cap, and what the drive makes of
      it exceeds the cap by less than one step, on the negative side only. The drive reads its
      position as exactly the one it last reported, which lies within the soft limits. */
  lemma TorqueIsGuarded(run: GateRun, eps: seq<Endpoint>, g: Guards, k: nat)
    requires run.Safe(eps, g) && k < |run.Events()| && run.Events()[k].TorqueFrame?
    ensures TorqueOk(eps, g.cap, run.Events()[k])
    ensures var e := run.Events()[k];
            var range := eps[e.motor].ranges.torque;
            -g.cap - Step(range, LEVELS12) < DriveTorque(eps[e.motor].ranges, e.data) <= g.cap
    ensures var e, last := run.Events()[k], LastSaid(run.Events()[..k], run.Events()[k].motor);
            && last.Some? && eps[e.motor].soft.Contains(last.value.said.position)
            && Carries(eps[e.motor].ranges, e.data, last.value.said.position)
            && Decode(Unpack(e.data).position, eps[e.motor].ranges.position, LEVELS16) == last.value.said.position
    ensures Enabled(run.enables, |eps|)
    ensures var start := |run.probe| + |run.enables|;
            start <= k && forall j :: start <= j < k && run.Events()[j].Heard? ==>
              var e := run.Events()[j];
              && e.status == 1 && Abs(e.said.velocity) <= g.velocity && Abs(e.said.torque) <= g.cap
              && (g.drift.Some? ==> Abs(e.said.position - FirstPosition(run.probe, e.motor)) <= g.drift.value)
  {
    hide Probed, Closes, TriedThrice, Reportable, PureTorque, Carries, LastSaid;
    KindOf(run, eps, g, k);
    Locate(run, k);
    var e, start := run.Events()[k], |run.probe| + |run.enables|;
    var i := k - start;
    assert ActiveEvent(eps, g.cap, run.probe + run.active[..i], e);
    TorqueBound(eps, g.cap, e);
    hide DriveTorque;
    assert run.Events()[start..k] == run.active[..i];
    assert run.Events()[..k] == run.probe + run.enables + run.active[..i];
    EnablesSayNothing(run.enables, e.motor);
    LastConcat(run.probe, run.enables, e.motor);
    LastConcat(run.probe + run.enables, run.active[..i], e.motor);
    LastConcat(run.probe, run.active[..i], e.motor);
    WasReported(eps, g, run.probe, run.active, i, e.motor);
    ReportedIsCarried(eps[e.motor], e.data, LastSaid(run.probe + run.active[..i], e.motor).value.said.position);
  }

  /** What a motor last said is a position it can report. */
  lemma WasReported(eps: seq<Endpoint>, g: Guards, probe: seq<Event>, active: seq<Event>, i: nat, m: nat)
    requires Probes(eps, probe) && Active(eps, g, probe, active) && i <= |active| && m < |eps|
    ensures var l := LastSaid(probe + active[..i], m); l.Some? ==> Reportable(eps[m], l.value.said.position)
  {
    hide EchoOk, TorqueOk, Carries, Reportable, AllCalm, LastSaid;
    var all := probe + active[..i];
    var l := LastSaid(all, m);
    if l.Some? {
      var k :| 0 <= k < |all| && all[k] == l.value;
      if k < |probe| {
        assert ProbeEvent(eps, probe[k]);
        EchoIsNotHeard(eps, probe[k]);
      } else {
        var j := k - |probe|;
        assert ActiveEvent(eps, g.cap, probe + active[..j], active[j]);
        EchoIsNotHeard(eps, active[j]);
      }
    }
  }

  lemma EchoIsNotHeard(eps: seq<Endpoint>, e: Event)
    requires e.Heard?
    ensures !EchoOk(eps, e) && forall cap :: !TorqueOk(eps, cap, e)
  {
  }

  lemma {:induction false} EnablesSayNothing(events: seq<Event>, m: nat)
    requires forall k :: 0 <= k < |events| ==> events[k].Enable?
    ensures LastSaid(events, m).None?
  {
    if events != [] {
      EnablesSayNothing(events[..|events| - 1], m);
    }
  }

  /** A reported position survives its word. */
  lemma ReportedIsCarried(ep: Endpoint, data: seq<Byte>, position: real)
    requires Reportable(ep, position) && Carries(ep.ranges, data, position)
    ensures Decode(Unpack(data).position, ep.ranges.position, LEVELS16) == position
  {
    hide Unpack, Encode, Decode;
    var raw: nat :| raw <= LEVELS16 && position == Decode(raw, ep.ranges.position, LEVELS16);
    EncodeOfDecode(raw, ep.ranges.position, LEVELS16);
  }

  lemma TorqueBound(eps: seq<Endpoint>, cap: real, e: Event)
    requires e.TorqueFrame? && e.motor < |eps| && TorqueOk(eps, cap, e)
    ensures |e.data| == 8
    ensures var range := eps[e.motor].ranges.torque;
            -cap - Step(range, LEVELS12) < DriveTorque(eps[e.motor].ranges, e.data) <= cap
  {
    hide Decode, Unpack, Step;
  }

  /** After its last torque frame every motor is tried to be disabled at least three times. */
  lemma DisabledAfterTorque(run: GateRun, eps: seq<Endpoint>, g: Guards, k: nat, m: nat)
    requires run.Safe(eps, g) && k < |run.Events()| && run.Events()[k].TorqueFrame? && m < |eps|
    ensures DisableTries(run.Events()[k + 1..], m) >= 3
  {
    hide PureTorque, Probed, Probes, Active, DisableTries, Reportable;
    assert TriedThrice(run.closing, |eps|);
    KindOf(run, eps, g, k);
    var cut := |run.probe| + |run.enables| + |run.active|;
    var middle := run.Events()[k + 1..cut];
    assert run.Events()[k + 1..] == middle + run.closing;
    TriesConcat(middle, run.closing, m);
  }
}
