/** Which preview synthesized the command a policy frame carries: the refresh pattern of the
    preview (native/src/sprite_can_shadow.cpp:844-889) against the slots in which frames go out
    (1562-1566, 1682-1690). */
module FrameStart {
  import opened Prelude
  import opened Impedance
  import opened MitCodec
  import opened MotorCommand
  import opened Synthesis
  import opened MotorPreview
  import opened Schedule
  import opened PolicyIpc
  import opened RunTrace
  import opened RunSafety

  // ---- over a run of previews ----------------------------------------------

  /** Whether a preview recomputes the command of a motor. */
  predicate Recomputes(cfg: MotorConfig, pass: Pass) { IsAnkle(cfg) || pass.refresh }

  /** What it is then computed to be, before limiting. */
  function Recomputed(cfg: MotorConfig, i: int, pass: Pass): Command {
    if IsAnkle(cfg) then SynthesizeAnkle(pass.kin, pass.n, pass.target, pass.position, pass.velocity, i)
    else Synthesize(pass.kin, pass.n, pass.target, pass.position, pass.velocity, i)
  }

  /** Preview number `s` is the last one that recomputed the command of the motor. */
  predicate MadeBy(cfg: MotorConfig, passes: seq<Pass>, s: nat) {
    s < |passes| && Recomputes(cfg, passes[s]) && forall j :: s < j < |passes| ==> !Recomputes(cfg, passes[j])
  }

  /** The feedback of motor `i` at each of the previews. */
  function Feedbacks(passes: seq<Pass>, i: int): (f: seq<State>)
    ensures |f| == |passes|
  {
    if passes == [] then []
    else
      var last := passes[|passes| - 1];
      Feedbacks(passes[..|passes| - 1], i) + [State(At(last.position, i), At(last.velocity, i))]
  }

  /** A command synthesized by the first of these previews and limited, if at all, at the
      feedback of each of them. */
  function Carried(cfg: MotorConfig, i: int, passes: seq<Pass>, saturating: bool): Command
    requires cfg.cap > 0.0 && passes != []
  {
    var made := Recomputed(cfg, i, passes[0]);
    if saturating then HeldRun(cfg, made, Feedbacks(passes, i)) else made
  }

  /** What a motor holds after a run of previews is what the last recomputing one made of its
      target, limited at every feedback since. */
  lemma {:induction false} HeldIsCarried(cfg: MotorConfig, i: nat, passes: seq<Pass>, s: nat, held: Held, saturating: bool)
    requires cfg.cap > 0.0 && MadeBy(cfg, passes, s)
    requires forall j :: 0 <= j < |passes| ==> passes[j].saturating == saturating
    ensures HeldAfter(cfg, i, passes, held) == Held(Carried(cfg, i, passes[s..], saturating), true)
  {
    hide Synthesize, SynthesizeAnkle, Saturate, IsAnkle;
    var front, last := passes[..|passes| - 1], passes[|passes| - 1];
    var at := State(At(last.position, i), At(last.velocity, i));
    if s == |passes| - 1 {
      assert passes[s..] == [last];
      assert [last][..0] == [] && Feedbacks([last], i) == [at];
      OneHeld(cfg, Recomputed(cfg, i, last), at);
    } else {
      HeldIsCarried(cfg, i, front, s, held, saturating);
      assert passes[s..][..|passes[s..]| - 1] == front[s..];
      var f := Feedbacks(passes[s..], i);
      assert f[..|f| - 1] == Feedbacks(front[s..], i) && f[|f| - 1] == at;
      assert !Recomputes(cfg, last);
    }
  }

  lemma OneHeld(cfg: MotorConfig, c: Command, s: State)
    requires cfg.cap > 0.0
    ensures HeldRun(cfg, c, [s]) == Saturate(cfg, c, s)
  {
    assert [s][..0] == [];
    assert HeldRun(cfg, c, []) == c;
    hide Saturate;
  }

  // ---- over the slots of a run ---------------------------------------------

  /** The slot whose preview makes what a motor is sent in `slot`. */
  function SourceSlot(cfg: MotorConfig, slot: nat): (s: nat)
    ensures s <= slot
  {
    if IsAnkle(cfg) then slot - slot % 4 else slot - slot % 40
  }

  /** Preview number `j` was made in slot `4 * j`. */
  ghost predicate MadeIn(events: seq<Event>, j: nat, slot: nat) {
    exists x :: 0 <= x < |events| && events[x].Preview? && j < |Passes(events)| && events[x].pass == Passes(events)[j]
                && |Passes(events[..x])| == j && Wakes(events[..x]) == slot + 1
  }

  lemma {:induction false} PassSlot(u: Setup, prepared: seq<Event>, events: seq<Event>, j: nat)
    requires u.Valid() && Driven(u, prepared, events) && j < |Passes(events)|
    ensures MadeIn(events, j, 4 * j)
  {
    hide Just, Setup.Valid, WakeTimes, MadeIn;
    var k := |events| - 1;
    DrivenPrefix(u, prepared, events, k);
    if events[k].Preview? && j == |Passes(events[..k])| {
      PreviewIsDue(u, prepared, events, k);
      hide Driven;
      MadeNow(u, prepared, events, k);
    } else {
      PassSlot(u, prepared, events[..k], j);
      MadeBefore(events, j, 4 * j);
    }
  }

  lemma MadeNow(u: Setup, prepared: seq<Event>, events: seq<Event>, k: nat)
    requires u.Valid() && |events| == k + 1 && events[k].Preview? && PreviewDue(u, prepared, events[..k], events[k].pass)
    ensures MadeIn(events, |Passes(events[..k])|, 4 * |Passes(events[..k])|)
  {
    hide Setup.Valid, WakeTimes, PreviewsBefore, AllHeard, Backed, ReportedPositions, ReportedVelocities;
    var front := events[..k];
    FourthSlot(Wakes(front) - 1);
    assert Passes(events) == Passes(front) + [events[k].pass];
  }

  lemma MadeBefore(events: seq<Event>, j: nat, slot: nat)
    requires events != [] && MadeIn(events[..|events| - 1], j, slot)
    ensures MadeIn(events, j, slot)
  {
    hide WakeTimes;
    var front := events[..|events| - 1];
    var x :| 0 <= x < |front| && front[x].Preview? && j < |Passes(front)| && front[x].pass == Passes(front)[j]
             && |Passes(front[..x])| == j && Wakes(front[..x]) == slot + 1;
    assert events[..x] == front[..x] && events[x] == front[x];
    assert Passes(front) <= Passes(events);
    hide Passes;
  }

  /** A preview number says in which slot it was made, and no other. */
  lemma MadeInOne(u: Setup, prepared: seq<Event>, events: seq<Event>, j: nat, slot: nat)
    requires u.Valid() && Driven(u, prepared, events) && MadeIn(events, j, slot)
    ensures slot == 4 * j
  {
    hide Setup.Valid, WakeTimes, PreviewsBefore, AllHeard, Backed, ReportedPositions, ReportedVelocities, Passes, Just;
    var x :| 0 <= x < |events| && events[x].Preview? && j < |Passes(events)| && events[x].pass == Passes(events)[j]
             && |Passes(events[..x])| == j && Wakes(events[..x]) == slot + 1;
    PreviewIsDue(u, prepared, events, x);
    hide Driven;
    FourthSlot(Wakes(events[..x]) - 1);
  }

  /** With a refresh at every tenth preview, the last one that recomputed a motor is known. */
  lemma SourceIsMadeBy(cfg: MotorConfig, passes: seq<Pass>, slot: nat)
    requires |passes| == PreviewsBefore(slot + 1)
    requires forall j :: 0 <= j < |passes| ==> passes[j].refresh == (j % 10 == 0)
    ensures SourceSlot(cfg, slot) % 4 == 0 && MadeBy(cfg, passes, SourceSlot(cfg, slot) / 4)
    ensures forall s :: MadeBy(cfg, passes, s) ==> s == SourceSlot(cfg, slot) / 4
  {
    hide IsAnkle, PreviewsBefore;
    PreviewsClosedForm(slot + 1);
    SlotArithmetic(slot);
    var s := SourceSlot(cfg, slot) / 4;
    if !IsAnkle(cfg) {
      forall j | s < j < |passes| ensures !Recomputes(cfg, passes[j]) {
        SameTen(slot, j);
      }
    }
  }

  lemma SlotArithmetic(slot: nat)
    ensures (slot - slot % 40) % 4 == 0 && (slot - slot % 40) / 4 == slot / 40 * 10 && (slot - slot % 40) / 4 % 10 == 0
    ensures (slot - slot % 4) % 4 == 0 && (slot - slot % 4) / 4 == slot / 4 && (slot + 4) / 4 == slot / 4 + 1
  {
    assert slot - slot % 40 == 40 * (slot / 40);
    assert slot - slot % 4 == 4 * (slot / 4);
    Multiples(slot / 40);
    Multiples(slot / 4);
  }

  lemma Multiples(f: nat)
    ensures 40 * f % 4 == 0 && 40 * f / 4 == f * 10 && f * 10 % 10 == 0
    ensures 4 * f % 4 == 0 && 4 * f / 4 == f
  {
  }

  lemma SameTen(slot: nat, j: nat)
    requires slot / 40 * 10 < j <= slot / 4
    ensures j % 10 != 0
  {
    var f := slot / 40;
    assert slot < 40 * f + 40;
    assert slot / 4 < 10 * f + 10;
    assert j == 10 * f + (j - 10 * f);
  }

  /** The last preview that recomputed what motor `m` holds was made in the given slot. */
  ghost predicate SynthesizedIn(u: Setup, events: seq<Event>, m: nat, slot: nat)
    requires u.Valid() && m < |u.cfgs|
  {
    exists s: nat :: MadeBy(u.cfgs[m], Passes(events), s) && MadeIn(events, s, slot)
  }

  /** The frame carries the words, at the feedback last reported, of the command that preview
      number `s` synthesized from its target, limited at the feedback of each preview since. */
  ghost predicate Carries(u: Setup, prepared: seq<Event>, before: seq<Event>, e: Event, s: nat)
    requires u.Valid() && e.Policy?
  {
    var m, passes := e.motor, Passes(before);
    && m < |u.cfgs| && Wakes(before) > 0 && MadeBy(u.cfgs[m], passes, s)
    && MadeIn(before, s, SourceSlot(u.cfgs[m], Wakes(before) - 1))
    && u.Holds(m, before) == Held(Carried(u.cfgs[m], m, passes[s..], u.saturating), true)
    && u.WordsFor(m, before, StateOf(prepared + before, m)).Ok?
    && e.data == Pack(u.WordsFor(m, before, StateOf(prepared + before, m)).value)
  }

  /** What a policy frame carries was synthesized by one known preview of the run: for an ankle
      motor the latest, for any other motor the one made in the first slot of the forty-slot
      frame. (The target of that preview is the one last received before it, by
      `RunSafety.PreviewIsCurrent`.) */
  lemma FrameCommand(run: Run, u: Setup, k: nat) returns (s: nat)
    requires u.Valid() && run.Safe(u) && k < |run.active| && run.active[k].Policy?
    ensures Carries(u, run.prepared, run.active[..k], run.active[k], s)
  {
    hide FrameDue, Just, Usable, Prepares, Run.ShutSafely, Ready, Enabled, Enables, PolicyWords, Pack;
    hide Carried, SourceSlot, MadeBy, MadeIn, HeldAfter, WakeTimes;
    var e, before := run.active[k], run.active[..k];
    FrameIsDue(u, run.prepared, run.active, k);
    FrameHasWords(u, run.prepared, before, e);
    FrameInSlot(u, run.prepared, before, e);
    DrivenPrefix(u, run.prepared, run.active, k);
    PassesAreUsable(u, run.prepared, before);
    var passes, cfg := Passes(before), u.cfgs[e.motor];
    hide Passes;
    forall j | 0 <= j < |passes| ensures passes[j].refresh == (j % 10 == 0) && passes[j].saturating == u.saturating {
      assert Usable(u, passes[j], j);
      UsableMeans(u, passes[j], j);
    }
    SourceIsMadeBy(cfg, passes, Wakes(before) - 1);
    s := SourceSlot(cfg, Wakes(before) - 1) / 4;
    HeldIsCarried(cfg, e.motor, passes, s, u.held[e.motor], u.saturating);
    MadeByIsOne(cfg, passes, s);
    PassSlot(u, run.prepared, before, s);
    hide Driven;
  }

  lemma MadeByIsOne(cfg: MotorConfig, passes: seq<Pass>, s: nat)
    requires MadeBy(cfg, passes, s)
    ensures s < |passes|
  {
  }

  lemma UsableMeans(u: Setup, pass: Pass, number: nat)
    requires u.Valid() && Usable(u, pass, number)
    ensures pass.saturating == u.saturating && pass.refresh == (number % 10 == 0)
  {
  }

  lemma FrameInSlot(u: Setup, prepared: seq<Event>, before: seq<Event>, e: Event)
    requires u.Valid() && e.Policy? && FrameDue(u, prepared, before, e.motor, e.data)
    ensures e.motor < |u.cfgs| && Wakes(before) > 0 && |Passes(before)| == PreviewsBefore(Wakes(before))
    ensures Due(u.cfgs[e.motor].pollRate, u.phases[e.motor], Wakes(before) - 1)
  {
    hide AllSayEnabled, Backed, LastReply, Passes, WakeTimes, LastTaken, SentInSlot, HeldAfter, Pack, PreviewsBefore;
    hide PolicyWords;
  }

  /** A command was synthesized in one slot only. */
  lemma OneSource(u: Setup, prepared: seq<Event>, before: seq<Event>, m: nat, s: nat, source: nat, slot: nat)
    requires u.Valid() && Driven(u, prepared, before) && m < |u.cfgs|
    requires MadeBy(u.cfgs[m], Passes(before), s) && MadeIn(before, s, source)
    ensures SynthesizedIn(u, before, m, slot) <==> slot == source
  {
    hide Driven, Setup.Valid, Passes, MadeIn, MadeBy;
    MadeInOne(u, prepared, before, s, source);
    if SynthesizedIn(u, before, m, slot) {
      var t: nat :| MadeBy(u.cfgs[m], Passes(before), t) && MadeIn(before, t, slot);
      MadeInOne(u, prepared, before, t, slot);
      MadeByOnce(u.cfgs[m], Passes(before), s, t);
    }
  }

  /** Slot `r` of frame `f`: the source is the first slot of the frame for every motor whose name
      is not an ankle's, and for an ankle only in the first four slots. */
  lemma SourceByName(cfg: MotorConfig, f: nat, r: nat)
    requires r < 40
    ensures SourceSlot(cfg, 40 * f + r) == 40 * f <==> !IsAnkle(cfg) || r < 4
  {
    hide IsAnkle;
    Remainders(f, r);
  }

  lemma Remainders(f: nat, r: nat)
    requires r < 40
    ensures (40 * f + r) % 40 == r && (40 * f + r) % 4 == r % 4
  {
    var x := 40 * f + r;
    assert x == 40 * (x / 40) + x % 40;
    assert x / 40 == f;
    var y := 10 * f + r / 4;
    assert x == 4 * y + r % 4;
    assert x == 4 * (x / 4) + x % 4;
    assert x / 4 == y;
  }

  /** Every 50 Hz frame carries a command synthesized in the first slot of its forty-slot frame
      exactly when its motor is not named an ankle motor, or is one of the first two 50 Hz
      motors of its bus: ankle motors are recomputed at every preview whatever their rate. */
  lemma SlowFrameFromFrameStart(run: Run, u: Setup, k: nat, m: nat, f: nat, r: nat)
    requires u.Valid() && run.Safe(u) && k < |run.active| && run.active[k].Policy?
    requires m == run.active[k].motor < |u.cfgs| && u.cfgs[m].pollRate == 50
    requires Wakes(run.active[..k]) == 40 * f + r + 1 && r < 40
    ensures SynthesizedIn(u, run.active[..k], m, 40 * f) <==> !IsAnkle(u.cfgs[m]) || u.phases[m] < 4
  {
    hide Run.Safe, Setup.Valid, Passes, WakeTimes, IsAnkle, MadeBy, MadeIn, SourceSlot, Due, Carried, Setup.WordsFor, SynthesizedIn;
    var before := run.active[..k];
    var s := FrameCommand(run, u, k);
    PhaseOfFrame(run, u, k, m, f, r);
    OneSource(u, run.prepared, before, m, s, SourceSlot(u.cfgs[m], 40 * f + r), 40 * f);
    SourceByName(u.cfgs[m], f, r);
  }

  lemma PhaseOfFrame(run: Run, u: Setup, k: nat, m: nat, f: nat, r: nat)
    requires u.Valid() && run.Safe(u) && k < |run.active| && run.active[k].Policy?
    requires m == run.active[k].motor < |u.cfgs| && u.cfgs[m].pollRate == 50
    requires Wakes(run.active[..k]) == 40 * f + r + 1 && r < 40
    ensures Driven(u, run.prepared, run.active[..k]) && u.phases[m] == r
  {
    hide FrameDue, Just, Setup.Valid, Run.ShutSafely, Ready, Enabled, Enables, Prepares, Passes, WakeTimes;
    var before := run.active[..k];
    FrameIsDue(u, run.prepared, run.active, k);
    FrameInSlot(u, run.prepared, before, run.active[k]);
    DrivenPrefix(u, run.prepared, run.active, k);
    Remainders(f, r);
    hide Driven;
  }

  lemma MadeByOnce(cfg: MotorConfig, passes: seq<Pass>, s: nat, t: nat)
    requires MadeBy(cfg, passes, s) && MadeBy(cfg, passes, t)
    ensures s == t
  {
    hide Recomputes;
  }
}
