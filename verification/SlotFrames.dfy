/** How many policy frames each slot of a run sends to each motor, in every run however it ends
    (native/src/sprite_can_shadow.cpp:1663-1690). */
module SlotFrames {
  import opened Schedule
  import opened PolicyIpc
  import opened RunTrace

  /** The policy frames written to motor `m` in a slot. */
  function FramesIn(events: seq<Event>, m: nat, slot: nat): nat {
    if events == [] then 0
    else
      var front, e := events[..|events| - 1], events[|events| - 1];
      FramesIn(front, m, slot) + if e.Policy? && e.motor == m && e.written && Wakes(front) == slot + 1 then 1 else 0
  }

  /** A slot that is over sent a motor its one frame, the slot in progress what was counted since
      it began, a later slot nothing. */
  lemma {:induction false} FramesSoFar(u: Setup, prepared: seq<Event>, events: seq<Event>, m: nat, slot: nat)
    requires u.Valid() && Driven(u, prepared, events) && m < |u.cfgs|
    ensures slot + 1 < Wakes(events) ==> FramesIn(events, m, slot) == u.Turn(m, slot)
    ensures slot + 1 == Wakes(events) ==> FramesIn(events, m, slot) <= u.Turn(m, slot)
    ensures slot + 1 == Wakes(events) && !Failed(events) ==> FramesIn(events, m, slot) == SentInSlot(events, m)
    ensures Wakes(events) <= slot ==> FramesIn(events, m, slot) == 0
  {
    hide Just, SentInSlot, WakeTimes, FramesIn, Setup.Valid, Setup.Turn;
    if events == [] {
      NoneIn(m, slot);
    } else {
      var front, e := events[..|events| - 1], events[|events| - 1];
      DrivenPrefix(u, prepared, events, |front|);
      FramesSoFar(u, prepared, front, m, slot);
      assert Just(u, prepared, front, e);
      hide Driven;
      assert events == front + [e];
      FramesNext(front, e, m, slot);
      Next(front, e);
      MotorNext(front, e, m);
      NextIsInTurn(u, prepared, front, e, m);
    }
  }

  lemma NoneIn(m: nat, slot: nat)
    ensures FramesIn([], m, slot) == 0 && WakeTimes([]) == []
  {
  }

  lemma FramesNext(a: seq<Event>, e: Event, m: nat, slot: nat)
    ensures FramesIn(a + [e], m, slot)
            == FramesIn(a, m, slot) + if e.Policy? && e.motor == m && e.written && Wakes(a) == slot + 1 then 1 else 0
  {
    assert (a + [e])[..|a|] == a;
    hide WakeTimes;
  }

  /** A slot begins when the one before it is served, and a frame goes to a motor whose turn it
      is and who had none. */
  lemma NextIsInTurn(u: Setup, prepared: seq<Event>, front: seq<Event>, e: Event, m: nat)
    requires u.Valid() && Just(u, prepared, front, e) && m < |u.cfgs|
    ensures !Failed(front)
    ensures e.Wake? && Wakes(front) > 0 ==> SentInSlot(front, m) == u.Turn(m, Wakes(front) - 1)
    ensures e.Policy? ==> Wakes(front) > 0
    ensures e.Policy? && e.motor == m ==> SentInSlot(front, m) == 0 && u.Turn(m, Wakes(front) - 1) == 1
  {
    hide PreviewDue, Admitted, Backed, AllSayEnabled, Setup.Valid, Setup.WordsFor, Due, LastReply, Passes, WakeTimes, SentInSlot;
  }

  /** The frames written so far are those of the slots that are over and of the one in progress. */
  lemma {:induction false} CommandsSoFar(u: Setup, prepared: seq<Event>, events: seq<Event>, m: nat)
    requires u.Valid() && Driven(u, prepared, events) && m < |u.cfgs|
    ensures Commands(events, m)
            == if Wakes(events) == 0 then 0
               else Turns(u.cfgs[m].pollRate, u.phases[m], 0, Wakes(events) - 1) + FramesIn(events, m, Wakes(events) - 1)
  {
    hide Just, FramesIn, Setup.Valid, Due;
    if events == [] {
    } else {
      var front, e := events[..|events| - 1], events[|events| - 1];
      DrivenPrefix(u, prepared, events, |front|);
      CommandsSoFar(u, prepared, front, m);
      assert Just(u, prepared, front, e);
      hide Driven;
      assert events == front + [e];
      if Wakes(front) > 0 {
        FramesNext(front, e, m, Wakes(front) - 1);
      }
      Next(front, e);
      MotorNext(front, e, m);
      NextIsInTurn(u, prepared, front, e, m);
      hide WakeTimes, Commands;
      if e.Wake? {
        FramesSoFar(u, prepared, events, m, Wakes(front));
        if Wakes(front) > 0 {
          FramesSoFar(u, prepared, events, m, Wakes(front) - 1);
        }
      }
    }
  }

  /** In every safe run, also one that fails, every slot that was followed by another sent
      exactly one frame to each motor whose turn it was and none to any other; the last one
      begun sent at most that. */
  lemma EverySlotIsServed(run: Run, u: Setup, m: nat, slot: nat)
    requires u.Valid() && run.Safe(u) && m < |u.cfgs|
    ensures slot + 1 < Wakes(run.active) ==> FramesIn(run.active, m, slot) == u.Turn(m, slot)
    ensures slot + 1 == Wakes(run.active) ==> FramesIn(run.active, m, slot) <= u.Turn(m, slot)
    ensures Wakes(run.active) <= slot ==> FramesIn(run.active, m, slot) == 0
  {
    hide Driven, Run.ShutSafely, Setup.Valid, FramesIn, WakeTimes;
    FramesSoFar(u, run.prepared, run.active, m, slot);
  }

  /** The frames of a whole run: those of all slots but the last begun, and at most its one. */
  lemma FramesOfRun(run: Run, u: Setup, m: nat)
    requires u.Valid() && run.Safe(u) && m < |u.cfgs| && Wakes(run.active) > 0
    ensures var rate, phase, begun := u.cfgs[m].pollRate, u.phases[m], Wakes(run.active);
            Turns(rate, phase, 0, begun - 1) <= Commands(run.active, m) <= Turns(rate, phase, 0, begun)
  {
    hide Driven, Run.ShutSafely, Setup.Valid, FramesIn, WakeTimes, Due, Commands;
    FramesSoFar(u, run.prepared, run.active, m, Wakes(run.active) - 1);
    CommandsSoFar(u, run.prepared, run.active, m);
  }

  /** Once the last slot is done too, every motor was sent exactly what its schedule has. */
  lemma DoneIsOnTime(u: Setup, prepared: seq<Event>, events: seq<Event>)
    requires u.Valid() && Driven(u, prepared, events) && SlotDone(u, prepared, events) && !Failed(events)
    ensures OnTime(u, events, Wakes(events))
  {
    hide Driven, FramesIn, WakeTimes, Due, Commands, SentInSlot, Backed, Passes;
    forall m: nat | m < |u.cfgs|
      ensures Commands(events, m) == Turns(u.cfgs[m].pollRate, u.phases[m], 0, Wakes(events))
    {
      CommandsSoFar(u, prepared, events, m);
      if Wakes(events) > 0 {
        FramesSoFar(u, prepared, events, m, Wakes(events) - 1);
      }
    }
  }
}
