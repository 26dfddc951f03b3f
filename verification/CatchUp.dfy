/** The catch-up poller of the full-body probe: one sender per bus that emits the slots that
    became due, at most sixteen per wake-up
    (src/open_sprite_runtime/full_body_probe.py:136-189). */
module CatchUp {
  import opened Prelude

  const BURST: nat := 16

  /** When the next poll is due, and how many were sent. */
  datatype Due = Due(next: real, total: nat)

  /** Sending what is due, at most `budget` polls. */
  function Burst(slot: real, s: Due, now: real, budget: nat): Due
    decreases budget
  {
    if budget == 0 || now < s.next then s else Burst(slot, Due(s.next + slot, s.total + 1), now, budget - 1)
  }

  /** One wake-up without transmit errors: a full burst that leaves a backlog drops it. */
  function PassOf(slot: real, s: Due, now: real): Due {
    var b := Burst(slot, s, now, BURST);
    if b.total == s.total + BURST && b.next <= now then Due(now + slot, b.total) else b
  }

  /** A sender never runs ahead of its schedule. */
  predicate OnSchedule(slot: real, start: real, s: Due) { s.next >= start + Product(s.total as real, slot) }

  /** What is sent by `now` fits the slots that have elapsed. */
  predicate WithinRate(slot: real, start: real, s: Due, now: real) {
    s.total > 0 ==> Product((s.total - 1) as real, slot) <= now - start
  }

  lemma {:induction false} BurstLaw(slot: real, start: real, s: Due, now: real, budget: nat)
    requires slot > 0.0 && OnSchedule(slot, start, s)
    ensures var b := Burst(slot, s, now, budget);
            && s.total <= b.total <= s.total + budget
            && b.next == s.next + Product((b.total - s.total) as real, slot)
            && OnSchedule(slot, start, b)
            && (b.total > s.total ==> WithinRate(slot, start, b, now) && b.total > 0)
            && (b.total < s.total + budget ==> now < b.next)
    decreases budget
  {
    if budget == 0 || now < s.next {
      ZeroTimes(slot);
    } else {
      OneMoreSlot(s.total as real, slot);
      var t := Due(s.next + slot, s.total + 1);
      BurstLaw(slot, start, t, now, budget - 1);
      OneMoreSlot((Burst(slot, s, now, budget).total - t.total) as real, slot);
      hide Product;
    }
  }

  lemma OneMoreSlot(n: real, slot: real)
    ensures Product(n + 1.0, slot) == Product(n, slot) + slot
  {
  }

  /** One wake-up: at most sixteen polls, the next one strictly later, and the schedule kept. */
  lemma PassLaw(slot: real, start: real, s: Due, now: real)
    requires slot > 0.0 && OnSchedule(slot, start, s)
    ensures var b := PassOf(slot, s, now);
            && s.total <= b.total <= s.total + BURST && now < b.next
            && OnSchedule(slot, start, b) && (b.total > s.total ==> WithinRate(slot, start, b, now))
  {
    BurstLaw(slot, start, s, now, BURST);
    hide Product;
  }

  predicate Nondecreasing(times: seq<real>) { forall i, j :: 0 <= i <= j < |times| ==> times[i] <= times[j] }

  /** The sender after a sequence of wake-ups. */
  function After(slot: real, start: real, times: seq<real>): Due {
    if times == [] then Due(start, 0) else PassOf(slot, After(slot, start, times[..|times| - 1]), times[|times| - 1])
  }

  lemma {:induction false} RunLaw(slot: real, start: real, times: seq<real>)
    requires slot > 0.0 && Nondecreasing(times)
    ensures OnSchedule(slot, start, After(slot, start, times))
    ensures times != [] ==> WithinRate(slot, start, After(slot, start, times), times[|times| - 1])
  {
    hide Product, PassOf;
    if times == [] {
      assert Product(0.0, slot) == 0.0 by { ZeroTimes(slot); }
    } else {
      var n := |times| - 1;
      RunLaw(slot, start, times[..n]);
      PassLaw(slot, start, After(slot, start, times[..n]), times[n]);
      if n > 0 {
        assert times[n - 1] <= times[n];
      }
      assert n == 0 ==> times[..n] == [];
    }
  }

  /** The rate bound: over every nondecreasing sequence of wake-ups at most one poll per
      elapsed slot plus one is sent, however late or bunched the wake-ups are. */
  lemma RateBound(slot: real, start: real, times: seq<real>)
    requires slot > 0.0 && Nondecreasing(times) && times != [] && times[|times| - 1] >= start
    ensures After(slot, start, times).total <= ((times[|times| - 1] - start) / slot).Floor + 1
  {
    hide PassOf, After;
    RunLaw(slot, start, times);
    var total, elapsed := After(slot, start, times).total, times[|times| - 1] - start;
    SlotsElapsed(elapsed, slot, if total > 0 then total - 1 else 0);
    ZeroTimes(slot);
  }

  lemma SlotsElapsed(elapsed: real, slot: real, k: nat)
    requires slot > 0.0 && Product(k as real, slot) <= elapsed
    ensures k <= (elapsed / slot).Floor
  {
    QuotientAtLeast(elapsed, slot, k as real);
  }

  /** Wake-ups that come no later than sixteen slots apart. */
  predicate Frequent(slot: real, start: real, times: seq<real>) {
    && (times != [] ==> start <= times[0] < start + Product(BURST as real, slot))
    && forall i :: 0 < i < |times| ==> times[i - 1] <= times[i] <= times[i - 1] + Product(BURST as real, slot)
  }

  /** The bound is reached: while wake-ups are frequent no slot is ever dropped, so the number
      of polls is exactly the number of slots that began. */
  lemma {:induction false} NothingDropped(slot: real, start: real, times: seq<real>)
    requires slot > 0.0 && Frequent(slot, start, times) && times != []
    ensures var s, now := After(slot, start, times), times[|times| - 1];
            && s.next == start + Product(s.total as real, slot) && now < s.next <= now + slot
            && s.total == ((now - start) / slot).Floor + 1
  {
    hide Product, PassOf;
    var n, now := |times| - 1, times[|times| - 1];
    var s := After(slot, start, times[..n]);
    if n == 0 {
      assert times[..n] == [];
      assert s == Due(start, 0);
      ZeroTimes(slot);
    } else {
      NothingDropped(slot, start, times[..n]);
      assert times[..n][n - 1] == times[n - 1];
    }
    ExactPass(slot, start, s, now);
    var b := PassOf(slot, s, now);
    FrequentIsLater(slot, start, times);
    ExactCount(slot, start, b, now);
  }

  lemma {:induction false} FrequentIsLater(slot: real, start: real, times: seq<real>)
    requires Frequent(slot, start, times) && times != []
    ensures times[|times| - 1] >= start
  {
    hide Product;
    if |times| > 1 {
      FrequentIsLater(slot, start, times[..|times| - 1]);
    }
  }

  /** A pass that starts exactly on schedule, less than sixteen slots behind, sends everything due. */
  lemma ExactPass(slot: real, start: real, s: Due, now: real)
    requires slot > 0.0 && s.next == start + Product(s.total as real, slot)
    requires now < s.next + Product(BURST as real, slot)
    requires now >= s.next - slot
    ensures var b := PassOf(slot, s, now);
            b.next == start + Product(b.total as real, slot) && now < b.next
    ensures var b := PassOf(slot, s, now); b.next - slot <= now
  {
    BurstLaw(slot, start, s, now, BURST);
    var b := Burst(slot, s, now, BURST);
    Distribute(slot, s.total as real, (b.total - s.total) as real);
    if b.total > s.total {
      OneMoreSlot((b.total - 1) as real, slot);
    } else {
      ZeroTimes(slot);
    }
    hide Product;
  }

  lemma ExactCount(slot: real, start: real, s: Due, now: real)
    requires slot > 0.0 && s.next == start + Product(s.total as real, slot) && now >= start
    requires s.next - slot <= now < s.next
    ensures s.total == ((now - start) / slot).Floor + 1
  {
    var q := (now - start) / slot;
    QuotientAtLeast(now - start, slot, s.total as real);
    OneMoreSlot(s.total as real - 1.0, slot);
    QuotientAtLeast(now - start, slot, s.total as real - 1.0);
  }

  // ---- the sender ----------------------------------------------------------

  /** Polls of motor `m` among those sent. */
  function Polls(sent: seq<nat>, m: nat): nat {
    if sent == [] then 0 else Polls(sent[..|sent| - 1], m) + if sent[|sent| - 1] == m then 1 else 0
  }

  predicate RoundRobin(sent: seq<nat>, n: nat)
    requires n > 0
  {
    forall k :: 0 <= k < |sent| ==> sent[k] == Turn(k, n)
  }

  /** Whose turn the `k`-th poll is. */
  function Turn(k: nat, n: nat): (m: nat)
    requires n > 0
    ensures m < n
  {
    if k == 0 then 0 else Following(Turn(k - 1, n), n)
  }

  function Following(m: nat, n: nat): (r: nat)
    requires m < n
    ensures r < n
  {
    if m + 1 == n then 0 else m + 1
  }

  /** In a round robin the motors before the next one are exactly one poll ahead. */
  lemma {:induction false} RoundRobinCounts(sent: seq<nat>, n: nat, a: nat, b: nat)
    requires n > 0 && RoundRobin(sent, n) && a < n && b < n
    ensures var next := Turn(|sent|, n);
            Polls(sent, a) - Polls(sent, b) == (if a < next then 1 else 0) - (if b < next then 1 else 0)
  {
    if sent != [] {
      RoundRobinCounts(sent[..|sent| - 1], n, a, b);
    }
  }

  class BusSender {
    const motors: nat
    const slot: real
    var nextSend: real
    var nextIndex: nat
    ghost var start: real
    ghost var sent: seq<nat>

    ghost function State(): Due
      reads this
    {
      Due(nextSend, |sent|)
    }

    ghost predicate Valid()
      reads this
    {
      && motors > 0 && slot > 0.0 && RoundRobin(sent, motors) && nextIndex == Turn(|sent|, motors)
      && OnSchedule(slot, start, State())
    }

    constructor (motors: nat, rate: real, start: real)
      requires motors > 0 && rate > 0.0
      ensures Valid() && this.motors == motors && this.start == start && sent == [] && nextSend == start
      ensures slot == 1.0 / (rate * motors as real)
    {
      PositiveProduct(rate, motors as real);
      this.motors, slot := motors, 1.0 / (rate * motors as real);
      nextSend, nextIndex, this.start, sent := start, 0, start, [];
      new;
      ZeroTimes(slot);
      PositiveSlot(rate * motors as real);
    }

    /** One wake-up of one bus. Without a transmit error the new state is exactly the
        specified pass; with one, what was sent stays sent and the caller stops. */
    method Pass(now: real) returns (ok: bool, sends: nat)
      requires Valid()
      modifies this`nextSend, this`nextIndex, this`sent
      ensures Valid() && sends <= 16 && |sent| == |old(sent)| + sends && sent[..|old(sent)|] == old(sent)
      ensures ok ==> State() == PassOf(slot, old(State()), now) && now < nextSend
      ensures sends > 0 ==> WithinRate(slot, start, State(), now)
    {
      hide Product, RoundRobin, Turn, Burst;
      ok, sends := true, 0;
      while now >= nextSend && sends < BURST
        invariant sends <= BURST && |sent| == |old(sent)| + sends && sent[..|old(sent)|] == old(sent)
        invariant RoundRobin(sent, motors) && nextIndex == Turn(|sent|, motors) && OnSchedule(slot, start, State())
        invariant Burst(slot, old(State()), now, BURST) == Burst(slot, State(), now, BURST - sends)
        invariant sends > 0 ==> WithinRate(slot, start, State(), now)
        decreases BURST - sends
      {
        var written: bool := *;
        if !written {
          ok := false;
          return;
        }
        BurstStep(slot, State(), now, BURST - sends);
        SendStep(slot, start, State(), now);
        RoundRobinNext(sent, motors);
        TurnNext(|sent|, motors);
        sent := sent + [nextIndex];
        nextIndex := (nextIndex + 1) % motors;
        nextSend := nextSend + slot;
        sends := sends + 1;
      }
      BurstEnds(slot, State(), now, BURST - sends);
      BurstLaw(slot, start, old(State()), now, BURST);
      if sends == BURST && nextSend <= now {
        nextSend := now + slot;
      }
    }
  }

  lemma PositiveSlot(x: real)
    requires x > 0.0
    ensures 1.0 / x > 0.0
  {
  }

  lemma BurstStep(slot: real, s: Due, now: real, budget: nat)
    requires budget > 0 && now >= s.next
    ensures Burst(slot, s, now, budget) == Burst(slot, Due(s.next + slot, s.total + 1), now, budget - 1)
  {
  }

  lemma BurstEnds(slot: real, s: Due, now: real, budget: nat)
    requires budget == 0 || now < s.next
    ensures Burst(slot, s, now, budget) == s
  {
  }

  lemma SendStep(slot: real, start: real, s: Due, now: real)
    requires OnSchedule(slot, start, s) && now >= s.next
    ensures OnSchedule(slot, start, Due(s.next + slot, s.total + 1))
    ensures WithinRate(slot, start, Due(s.next + slot, s.total + 1), now)
  {
    OneMoreSlot(s.total as real, slot);
    hide Product;
  }

  lemma TurnNext(k: nat, n: nat)
    requires n > 0
    ensures Turn(k + 1, n) == (Turn(k, n) + 1) % n
  {
    SmallRemainder(Turn(k, n) + 1, n);
  }

  lemma SmallRemainder(k: nat, n: nat)
    requires 0 < n && k <= n
    ensures k % n == if k == n then 0 else k
  {
  }

  lemma RoundRobinNext(sent: seq<nat>, n: nat)
    requires n > 0 && RoundRobin(sent, n)
    ensures RoundRobin(sent + [Turn(|sent|, n)], n)
  {
    hide Turn;
  }

  /** All buses of one wake-up, in order; the first transmit error stops the pass. */
  method PassAll(buses: seq<BusSender>, now: real) returns (ok: bool)
    requires forall i :: 0 <= i < |buses| ==> buses[i].Valid()
    requires forall i, j :: 0 <= i < j < |buses| ==> buses[i] != buses[j]
    modifies buses`nextSend, buses`nextIndex, buses`sent
    ensures forall i :: 0 <= i < |buses| ==> buses[i].Valid()
    ensures ok ==> forall i :: 0 <= i < |buses| ==>
              buses[i].State() == PassOf(buses[i].slot, old(buses[i].State()), now) && now < buses[i].nextSend
    ensures forall i :: 0 <= i < |buses| ==> |buses[i].sent| <= |old(buses[i].sent)| + 16
  {
    hide PassOf, RoundRobin, OnSchedule;
    for k := 0 to |buses|
      invariant forall i :: 0 <= i < |buses| ==> buses[i].Valid()
      invariant forall i :: 0 <= i < k ==>
        buses[i].State() == PassOf(buses[i].slot, old(buses[i].State()), now) && now < buses[i].nextSend
      invariant forall i :: k <= i < |buses| ==> buses[i].State() == old(buses[i].State())
      invariant forall i :: 0 <= i < |buses| ==> |buses[i].sent| <= |old(buses[i].sent)| + BURST
    {
      var sends;
      ok, sends := buses[k].Pass(now);
      if !ok {
        return;
      }
    }
    return true;
  }

  /** The event loop: every wake-up serves every bus. Without a transmit error each bus is where
      the run of wake-ups puts it, so it has kept to the rate bound. */
  method Serve(buses: seq<BusSender>, times: seq<real>) returns (ok: bool)
    requires forall i :: 0 <= i < |buses| ==> buses[i].Valid() && buses[i].State() == Due(buses[i].start, 0)
    requires forall i, j :: 0 <= i < j < |buses| ==> buses[i] != buses[j]
    requires Nondecreasing(times) && times != [] && forall i :: 0 <= i < |buses| ==> times[|times| - 1] >= buses[i].start
    modifies buses`nextSend, buses`nextIndex, buses`sent
    ensures forall i :: 0 <= i < |buses| ==> buses[i].Valid()
    ensures ok ==> forall i :: 0 <= i < |buses| ==>
              && buses[i].slot > 0.0 && buses[i].State() == After(buses[i].slot, buses[i].start, times)
              && |buses[i].sent| <= ((times[|times| - 1] - buses[i].start) / buses[i].slot).Floor + 1
  {
    hide PassOf, RoundRobin, OnSchedule, After;
    forall i | 0 <= i < |buses| ensures buses[i].State() == After(buses[i].slot, buses[i].start, times[..0]) {
      NoWakeUps(buses[i].slot, buses[i].start, times[..0]);
    }
    for k := 0 to |times|
      invariant forall i :: 0 <= i < |buses| ==> buses[i].Valid()
      invariant forall i :: 0 <= i < |buses| ==> buses[i].State() == After(buses[i].slot, buses[i].start, times[..k])
    {
      ok := PassAll(buses, times[k]);
      if !ok {
        return;
      }
      forall i | 0 <= i < |buses| ensures buses[i].State() == After(buses[i].slot, buses[i].start, times[..k + 1]) {
        NextWakeUp(buses[i].slot, buses[i].start, times, k);
      }
    }
    assert times[..|times|] == times;
    forall i | 0 <= i < |buses|
      ensures |buses[i].sent| <= ((times[|times| - 1] - buses[i].start) / buses[i].slot).Floor + 1
    {
      RateBound(buses[i].slot, buses[i].start, times);
    }
    ok := true;
  }

  lemma NoWakeUps(slot: real, start: real, times: seq<real>)
    requires times == []
    ensures After(slot, start, times) == Due(start, 0)
  {
  }

  lemma NextWakeUp(slot: real, start: real, times: seq<real>, k: nat)
    requires k < |times|
    ensures After(slot, start, times[..k + 1]) == PassOf(slot, After(slot, start, times[..k]), times[k])
  {
    assert times[..k + 1][..k] == times[..k];
    hide PassOf;
  }

  /** The polls of a bus are spread evenly over its motors. */
  lemma PollsDifferByAtMostOne(bus: BusSender, a: nat, b: nat)
    requires bus.Valid() && a < bus.motors && b < bus.motors
    ensures -1 <= Polls(bus.sent, a) - Polls(bus.sent, b) <= 1
  {
    RoundRobinCounts(bus.sent, bus.motors, a, b);
  }
}
