/** The 2 kHz slot schedule: phase assignment at load time
    (native/src/sprite_can_shadow.cpp:371-385), the due test (1562-1566) and the refresh
    pattern of the preview (844, 1682-1685). */
module Schedule {
  import opened Prelude

  /** The part of a motor row that scheduling looks at. */
  datatype Row = Row(bus: string, rate: int)

  predicate RatesAccepted(rows: seq<Row>) {
    forall i :: 0 <= i < |rows| ==> rows[i].rate == 50 || rows[i].rate == 500
  }

  /** How many of the first `upTo` rows share a bus and a rate class. */
  function Earlier(rows: seq<Row>, upTo: nat, bus: string, fast: bool): nat
    requires upTo <= |rows|
  {
    if upTo == 0 then 0
    else Earlier(rows, upTo - 1, bus, fast)
         + if rows[upTo - 1].bus == bus && (rows[upTo - 1].rate == 500) == fast then 1 else 0
  }

  /** 500 Hz motors take even slots of a period of four, 50 Hz motors odd slots of forty. */
  function Phase(rows: seq<Row>, i: nat): nat
    requires i < |rows|
  {
    if rows[i].rate == 500 then 2 * Earlier(rows, i, rows[i].bus, true)
    else 1 + 2 * Earlier(rows, i, rows[i].bus, false)
  }

  function Period(rate: int): nat { if rate == 500 then 4 else 40 }

  datatype LoadFault = TooManyFast | TooManySlow

  function Count(m: map<string, nat>, bus: string): nat {
    if bus in m then m[bus] else 0
  }

  /** A per-bus counter agrees with the rows seen so far. */
  ghost predicate Tracks(m: map<string, nat>, rows: seq<Row>, upTo: nat, fast: bool)
    requires upTo <= |rows|
  {
    forall bus :: Count(m, bus) == Earlier(rows, upTo, bus, fast)
  }

  lemma TrackStep(m: map<string, nat>, rows: seq<Row>, i: nat, fast: bool)
    requires i < |rows| && Tracks(m, rows, i, fast)
    ensures Count(m, rows[i].bus) == Earlier(rows, i, rows[i].bus, fast)
    ensures (rows[i].rate == 500) == fast ==> Tracks(m[rows[i].bus := Count(m, rows[i].bus) + 1], rows, i + 1, fast)
    ensures (rows[i].rate == 500) != fast ==> Tracks(m, rows, i + 1, fast)
  {
    var bus := rows[i].bus;
    assert Count(m, bus) == Earlier(rows, i, bus, fast);
    var next := if (rows[i].rate == 500) == fast then m[bus := Count(m, bus) + 1] else m;
    forall b ensures Count(next, b) == Earlier(rows, i + 1, b, fast) {
      assert Count(m, b) == Earlier(rows, i, b, fast);
    }
  }

  /** The assignment loop with its two per-bus counters. It succeeds exactly when every
      phase fits its period. */
  method AssignPhases(rows: seq<Row>) returns (r: Result<seq<nat>, LoadFault>)
    requires RatesAccepted(rows)
    ensures r.Ok? <==> Accepted(rows)
    ensures r.Ok? ==> |r.value| == |rows| && forall i :: 0 <= i < |rows| ==> r.value[i] == Phase(rows, i)
  {
    var nextAnkle: map<string, nat>, nextOther: map<string, nat> := map[], map[];
    var phases: seq<nat> := [];
    hide Earlier, Count;
    assert Tracks(nextAnkle, rows, 0, true) && Tracks(nextOther, rows, 0, false) by { StartEmpty(rows); }
    hide Tracks;
    for i := 0 to |rows|
      invariant |phases| == i
      invariant forall k :: 0 <= k < i ==> phases[k] == Phase(rows, k) && phases[k] < Period(rows[k].rate)
      invariant Tracks(nextAnkle, rows, i, true) && Tracks(nextOther, rows, i, false)
    {
      var bus := rows[i].bus;
      TrackStep(nextAnkle, rows, i, true);
      TrackStep(nextOther, rows, i, false);
      var phase;
      if rows[i].rate == 500 {
        phase := 2 * Count(nextAnkle, bus);
        nextAnkle := nextAnkle[bus := Count(nextAnkle, bus) + 1];
        if phase >= 4 {
          assert Phase(rows, i) == phase;
          return Err(TooManyFast);
        }
      } else {
        phase := 1 + 2 * Count(nextOther, bus);
        nextOther := nextOther[bus := Count(nextOther, bus) + 1];
        if phase >= 40 {
          assert Phase(rows, i) == phase;
          return Err(TooManySlow);
        }
      }
      phases := phases + [phase];
    }
    return Ok(phases);
  }

  lemma StartEmpty(rows: seq<Row>)
    ensures Tracks(map[], rows, 0, true) && Tracks(map[], rows, 0, false)
  {
  }

  predicate Accepted(rows: seq<Row>) {
    forall i :: 0 <= i < |rows| ==> Phase(rows, i) < Period(rows[i].rate)
  }

  /** At most two 500 Hz motors and at most twenty 50 Hz motors on the bus. */
  predicate BusFits(rows: seq<Row>, bus: string) {
    Earlier(rows, |rows|, bus, true) <= 2 && Earlier(rows, |rows|, bus, false) <= 20
  }

  /** Acceptance in terms of the bus populations. */
  lemma AcceptedIffPopulation(rows: seq<Row>)
    requires RatesAccepted(rows)
    ensures Accepted(rows) <==> forall i :: 0 <= i < |rows| ==> BusFits(rows, rows[i].bus)
  {
    hide Earlier;
    if Accepted(rows) {
      forall i | 0 <= i < |rows| ensures BusFits(rows, rows[i].bus) {
        PopulationBound(rows, |rows|, rows[i].bus, true, 2);
        PopulationBound(rows, |rows|, rows[i].bus, false, 20);
      }
    }
    forall i | 0 <= i < |rows| && BusFits(rows, rows[i].bus) ensures Phase(rows, i) < Period(rows[i].rate) {
      CountsItself(rows, i);
      EarlierMonotone(rows, i + 1, |rows|, rows[i].bus, true);
      EarlierMonotone(rows, i + 1, |rows|, rows[i].bus, false);
    }
  }

  lemma CountsItself(rows: seq<Row>, i: nat)
    requires i < |rows|
    ensures Earlier(rows, i + 1, rows[i].bus, rows[i].rate == 500) == Earlier(rows, i, rows[i].bus, rows[i].rate == 500) + 1
  {
  }

  lemma {:induction false} EarlierMonotone(rows: seq<Row>, a: nat, b: nat, bus: string, fast: bool)
    requires a <= b <= |rows|
    ensures Earlier(rows, a, bus, fast) <= Earlier(rows, b, bus, fast)
    decreases b - a
  {
    if a < b {
      EarlierMonotone(rows, a, b - 1, bus, fast);
    }
  }

  lemma {:induction false} PopulationBound(rows: seq<Row>, upTo: nat, bus: string, fast: bool, limit: nat)
    requires RatesAccepted(rows) && Accepted(rows) && upTo <= |rows| && limit == if fast then 2 else 20
    ensures Earlier(rows, upTo, bus, fast) <= limit
  {
    if upTo > 0 {
      PopulationBound(rows, upTo - 1, bus, fast, limit);
      assert Phase(rows, upTo - 1) < Period(rows[upTo - 1].rate);
    }
  }

  /** The same bus and the same rate class. */
  predicate Alike(a: Row, b: Row) { a.bus == b.bus && (a.rate == 500) == (b.rate == 500) }

  /** How phases follow the rows: the first motor of its bus and class gets slot 0 if it is fast and
      slot 1 if it is slow, every other one two slots after the one of its kind before it. */
  lemma PhasesFollowRows(rows: seq<Row>, i: nat, k: nat)
    requires i < |rows| && i <= k < |rows| && Alike(rows[i], rows[k])
    requires forall j :: i < j < k ==> !Alike(rows[j], rows[k])
    ensures (forall j :: 0 <= j < i ==> !Alike(rows[j], rows[i])) ==> Phase(rows, i) == if rows[i].rate == 500 then 0 else 1
    ensures i < k ==> Phase(rows, k) == Phase(rows, i) + 2
  {
    var bus, fast := rows[i].bus, rows[i].rate == 500;
    if forall j :: 0 <= j < i ==> !Alike(rows[j], rows[i]) {
      NoneBetween(rows, 0, i, bus, fast);
    }
    if i < k {
      CountsItself(rows, i);
      NoneBetween(rows, i + 1, k, bus, fast);
    }
  }

  lemma {:induction false} NoneBetween(rows: seq<Row>, a: nat, b: nat, bus: string, fast: bool)
    requires a <= b <= |rows| && forall j :: a <= j < b ==> !(rows[j].bus == bus && (rows[j].rate == 500) == fast)
    ensures Earlier(rows, b, bus, fast) == Earlier(rows, a, bus, fast)
    decreases b - a
  {
    if a < b {
      NoneBetween(rows, a, b - 1, bus, fast);
    }
  }

  /** The due test of the controller loops. */
  predicate Due(rate: int, phase: nat, slot: nat) {
    if rate == 500 then slot % 4 == phase else slot % 40 == phase
  }

  /** No two motors of one bus are due in the same slot. */
  lemma NoCollision(rows: seq<Row>, i: nat, k: nat, slot: nat)
    requires RatesAccepted(rows) && i < k < |rows| && rows[i].bus == rows[k].bus
    ensures !(Due(rows[i].rate, Phase(rows, i), slot) && Due(rows[k].rate, Phase(rows, k), slot))
  {
    CountsItself(rows, i);
    EarlierMonotone(rows, i + 1, k, rows[i].bus, true);
    EarlierMonotone(rows, i + 1, k, rows[i].bus, false);
    SameParity(slot);
    hide Earlier;
  }

  lemma SameParity(slot: nat)
    ensures slot % 4 % 2 == slot % 2 && slot % 40 % 2 == slot % 2
  {
    assert slot == 2 * (2 * (slot / 4)) + slot % 4;
    assert slot == 2 * (20 * (slot / 40)) + slot % 40;
  }

  /** Turns of one motor in the `count` slots from `start` on. */
  function Turns(rate: int, phase: nat, start: nat, count: nat): nat {
    if count == 0 then 0
    else Turns(rate, phase, start, count - 1) + if Due(rate, phase, start + count - 1) then 1 else 0
  }

  lemma {:induction false} TurnsSplit(rate: int, phase: nat, start: nat, a: nat, b: nat)
    ensures Turns(rate, phase, start, a + b) == Turns(rate, phase, start, a) + Turns(rate, phase, start + a, b)
  {
    if b > 0 {
      TurnsSplit(rate, phase, start, a, b - 1);
      assert start + a + b - 1 == start + (a + b) - 1;
    }
  }

  /** Turns among the first slots of a frame, in closed form. */
  lemma {:induction false} TurnsFromZero(rate: int, phase: nat, count: nat)
    requires (rate == 50 || rate == 500) && phase < Period(rate) && count <= 40
    ensures Turns(rate, phase, 0, count)
            == if rate == 500 then (count + 3 - phase) / 4 else if count > phase then 1 else 0
  {
    if count > 0 {
      TurnsFromZero(rate, phase, count - 1);
      if rate == 500 {
        QuarterStep(count - 1, phase);
      }
    }
  }

  /** One slot further a motor with a period of four has one turn more exactly in its slot. */
  lemma QuarterStep(slot: nat, phase: nat)
    requires phase < 4
    ensures (slot + 4 - phase) / 4 == (slot + 3 - phase) / 4 + if slot % 4 == phase then 1 else 0
  {
    var q, t := slot / 4, slot % 4;
    assert slot == 4 * q + t;
    assert (slot + 4 - phase) / 4 == q + if t >= phase then 1 else 0;
    assert (slot + 3 - phase) / 4 == q + if t > phase then 1 else 0;
  }

  /** Any 40 consecutive slots hold exactly ten turns of a 500 Hz motor and one of a 50 Hz
      motor, wherever the window starts. */
  lemma {:induction false} TurnsPerFrame(rate: int, phase: nat, start: nat)
    requires (rate == 50 || rate == 500) && phase < Period(rate)
    ensures Turns(rate, phase, start, 40) == if rate == 500 then 10 else 1
  {
    if start == 0 {
      TurnsFromZero(rate, phase, 40);
    } else {
      TurnsPerFrame(rate, phase, start - 1);
      TurnsSplit(rate, phase, start - 1, 1, 39);
      TurnsSplit(rate, phase, start, 39, 1);
      assert Turns(rate, phase, start - 1, 1) == if Due(rate, phase, start - 1) then 1 else 0 by {
        assert Turns(rate, phase, start - 1, 0) == 0;
      }
      assert Turns(rate, phase, start + 39, 1) == if Due(rate, phase, start + 39) then 1 else 0 by {
        assert Turns(rate, phase, start + 39, 0) == 0;
      }
      assert (start - 1) % 4 == (start + 39) % 4 && (start - 1) % 40 == (start + 39) % 40;
    }
  }

  /** Frames that one bus carries in the 40 slots from `start` on. */
  function BusFrames(rows: seq<Row>, upTo: nat, bus: string, start: nat): nat
    requires upTo <= |rows|
  {
    if upTo == 0 then 0
    else BusFrames(rows, upTo - 1, bus, start)
         + if rows[upTo - 1].bus == bus then Turns(rows[upTo - 1].rate, Phase(rows, upTo - 1), start, 40) else 0
  }

  /** Bus load per 20 ms: ten frames per 500 Hz motor and one per 50 Hz motor, which is
      1300 frames per second for a leg bus with two ankles and six other motors. */
  lemma {:induction false} BusLoad(rows: seq<Row>, upTo: nat, bus: string, start: nat)
    requires RatesAccepted(rows) && Accepted(rows) && upTo <= |rows|
    ensures BusFrames(rows, upTo, bus, start)
            == 10 * Earlier(rows, upTo, bus, true) + Earlier(rows, upTo, bus, false)
    ensures BusFrames(rows, upTo, bus, start) <= 40
  {
    PopulationBound(rows, upTo, bus, true, 2);
    PopulationBound(rows, upTo, bus, false, 20);
    if upTo > 0 {
      hide Turns, Due;
      BusLoad(rows, upTo - 1, bus, start);
      TurnsPerFrame(rows[upTo - 1].rate, Phase(rows, upTo - 1), start);
    }
  }

  // ---- previews ------------------------------------------------------------

  /** Previews completed before slot `slot`, one at every slot divisible by four. */
  function PreviewsBefore(slot: nat): nat {
    if slot == 0 then 0 else PreviewsBefore(slot - 1) + if (slot - 1) % 4 == 0 then 1 else 0
  }

  lemma {:induction false} PreviewsClosedForm(slot: nat)
    ensures PreviewsBefore(slot) == (slot + 3) / 4
  {
    if slot > 0 {
      PreviewsClosedForm(slot - 1);
    }
  }
}
