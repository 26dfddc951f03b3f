/** The actor/controller socket: packet layouts, the actor's fault-latching channel
    (native/src/policy_state_ipc.hpp) and the controller's packet drain
    (native/src/sprite_can_shadow.cpp:731-807). */
module PolicyIpc {
  import opened Prelude
  import opened Wire
  import opened Impedance

  datatype IpcFault =
    | Abi            // size, magic, version, kind or name-order hash
    | Sequence       // sequence number or source state out of order
    | Stale          // timestamp missing, in the future or too old
    | NonFinite
    | BadTarget      // negative gains or missing metadata
    | Limits         // gain or envelope test of the controller
    | SourceMismatch // answering a state that is not the last one received
    | Transport      // timeout, disconnect, short send
    | Latched        // an earlier fault closed the channel

  datatype StateMsg = StateMsg(sequence: nat, stamp: nat, hash: nat, position: seq<real>, velocity: seq<real>)

  datatype TargetMsg = TargetMsg(sequence: nat, stamp: nat, hash: nat, source: nat, target: Target)

  // "SPRT", version 1, kind 1 and 2, all little-endian.
  const STATE_MAGIC: seq<Byte> := [0x53, 0x50, 0x52, 0x54, 1, 0, 1, 0]
  const TARGET_MAGIC: seq<Byte> := [0x53, 0x50, 0x52, 0x54, 1, 0, 2, 0]

  const INT64_MAX: nat := 0x7FFF_FFFF_FFFF_FFFF

  function StateSize(n: nat): nat { 32 + 16 * n }
  function TargetSize(n: nat): nat { 40 + 40 * n }

  /** The packed state structure the controller sends. */
  function StateBytes(ieee: Ieee, m: StateMsg): seq<Byte> {
    STATE_MAGIC + Le(m.sequence, 8) + Le(m.stamp, 8) + Le(m.hash, 8) + WordsOf(ieee.Bits(m.position + m.velocity))
  }

  function Flat(t: Target): seq<real> { t.position + t.velocity + t.kp + t.kd + t.feedforward }

  function Unflat(v: seq<real>, n: nat): Target
    requires |v| == 5 * n
  {
    Target(v[..n], v[n..2 * n], v[2 * n..3 * n], v[3 * n..4 * n], v[4 * n..])
  }

  /** The packed target structure the controller receives. */
  function TargetBytes(ieee: Ieee, m: TargetMsg): seq<Byte> {
    TARGET_MAGIC + Le(m.sequence, 8) + Le(m.stamp, 8) + Le(m.hash, 8) + Le(m.source, 8)
    + WordsOf(ieee.Bits(Flat(m.target)))
  }

  // ---- the actor's receiving side ------------------------------------------

  predicate Fresh(stamp: nat, now: nat, age: nat) {
    age > 0 && stamp > 0 && stamp <= now && now - stamp <= age
  }

  /** `decode_state`. */
  function DecodeState(ieee: Ieee, n: nat, p: seq<Byte>, hash: nat, previous: nat, now: nat, age: nat): Result<StateMsg, IpcFault> {
    if |p| != StateSize(n) || p[..8] != STATE_MAGIC || WordAt(p, 24) != hash then Err(Abi)
    else if WordAt(p, 8) <= previous then Err(Sequence)
    else if !Fresh(WordAt(p, 16), now, age) then Err(Stale)
    else
      var xs := ieee.ReadAll(p, 32, 2 * n);
      if xs.None? then Err(NonFinite)
      else Ok(StateMsg(WordAt(p, 8), WordAt(p, 16), hash, xs.value[..n], xs.value[n..]))
  }

  /** What the actor makes of a message that was really sent. */
  function CheckState(m: StateMsg, hash: nat, previous: nat, now: nat, age: nat): Result<StateMsg, IpcFault> {
    if m.hash != hash then Err(Abi)
    else if m.sequence <= previous then Err(Sequence)
    else if !Fresh(m.stamp, now, age) then Err(Stale)
    else Ok(m)
  }

  predicate StateFits(ieee: Ieee, n: nat, m: StateMsg) {
    && m.sequence < WORD && m.stamp < WORD && m.hash < WORD && |m.position| == n && |m.velocity| == n
    && ieee.AllExact(m.position + m.velocity)
  }

  /** The controller's packed structure is exactly the layout the actor decodes: only the
      order, freshness and hash tests decide, and the accepted state is the one sent. */
  lemma StateCrosses(ieee: Ieee, n: nat, m: StateMsg, hash: nat, previous: nat, now: nat, age: nat)
    requires StateFits(ieee, n, m)
    ensures DecodeState(ieee, n, StateBytes(ieee, m), hash, previous, now, age) == CheckState(m, hash, previous, now, age)
  {
    hide WordAt, Le, WordsOf, Ieee.ReadAll, Ieee.Bits;
    var xs := m.position + m.velocity;
    var ws := WordsOf(ieee.Bits(xs));
    var p := StateBytes(ieee, m);
    var h0 := STATE_MAGIC;
    var h1 := h0 + Le(m.sequence, 8);
    var h2 := h1 + Le(m.stamp, 8);
    var h3 := h2 + Le(m.hash, 8);
    assert p == h0 + Le(m.sequence, 8) + (Le(m.stamp, 8) + Le(m.hash, 8) + ws);
    assert p == h1 + Le(m.stamp, 8) + (Le(m.hash, 8) + ws);
    assert p == h2 + Le(m.hash, 8) + ws;
    assert p == h3 + ws + [];
    WordAtHit(h0, m.sequence, Le(m.stamp, 8) + Le(m.hash, 8) + ws);
    WordAtHit(h1, m.stamp, Le(m.hash, 8) + ws);
    WordAtHit(h2, m.hash, ws);
    ieee.ReadBack(h3, xs, []);
    assert xs[..n] == m.position && xs[n..] == m.velocity;
    assert p[..8] == STATE_MAGIC;
  }

  /** Where everything is in the state packet; `j` is any motor. */
  lemma StateLayout(ieee: Ieee, n: nat, m: StateMsg, j: nat)
    requires StateFits(ieee, n, m) && j < n
    ensures var p := StateBytes(ieee, m);
            && |p| == 32 + 16 * n && p[..8] == [0x53, 0x50, 0x52, 0x54, 1, 0, 1, 0]
            && WordAt(p, 8) == m.sequence && WordAt(p, 16) == m.stamp && WordAt(p, 24) == m.hash
            && WordAt(p, 32 + 8 * j) == ieee.bits(m.position[j]) && WordAt(p, 32 + 8 * (n + j)) == ieee.bits(m.velocity[j])
  {
    hide WordAt, Le, WordsOf, Ieee.Bits;
    var xs := m.position + m.velocity;
    var ws := WordsOf(ieee.Bits(xs));
    var p := StateBytes(ieee, m);
    var h1 := STATE_MAGIC + Le(m.sequence, 8);
    var h2 := h1 + Le(m.stamp, 8);
    assert p == STATE_MAGIC + Le(m.sequence, 8) + (Le(m.stamp, 8) + Le(m.hash, 8) + ws);
    assert p == h1 + Le(m.stamp, 8) + (Le(m.hash, 8) + ws);
    assert p == h2 + Le(m.hash, 8) + ws;
    WordAtHit(STATE_MAGIC, m.sequence, Le(m.stamp, 8) + Le(m.hash, 8) + ws);
    WordAtHit(h1, m.stamp, Le(m.hash, 8) + ws);
    WordAtHit(h2, m.hash, ws);
    assert p[..8] == STATE_MAGIC;
    assert xs[j] == m.position[j] && xs[n + j] == m.velocity[j];
    BodyWord(ieee, h2 + Le(m.hash, 8), xs, j, 32 + 8 * j);
    BodyWord(ieee, h2 + Le(m.hash, 8), xs, n + j, 32 + 8 * (n + j));
  }

  /** One of the numbers that close a packet. */
  lemma BodyWord(ieee: Ieee, head: seq<Byte>, xs: seq<real>, k: nat, offset: nat)
    requires ieee.AllExact(xs) && k < |xs| && offset == |head| + 8 * k
    ensures var p := head + WordsOf(ieee.Bits(xs));
            |p| == |head| + 8 * |xs| && WordAt(p, offset) == ieee.bits(xs[k])
  {
    hide WordAt, WordsOf;
    var p := head + WordsOf(ieee.Bits(xs));
    assert p == head + WordsOf(ieee.Bits(xs)) + [];
    assert ieee.Exact(xs[k]);
    WordsOfAt(head, ieee.Bits(xs), [], k);
  }

  /** When the actor takes a state: the hash is its own, the number is new, and the stamp is
      neither missing nor in the future nor older than allowed. */
  lemma StateTakenWhen(m: StateMsg, hash: nat, previous: nat, now: nat, age: nat)
    ensures CheckState(m, hash, previous, now, age) == Ok(m) <==>
            m.hash == hash && previous < m.sequence && 0 < age && 0 < m.stamp <= now <= m.stamp + age
    ensures CheckState(m, hash, previous, now, age).Ok? ==> CheckState(m, hash, previous, now, age) == Ok(m)
  {
  }

  // ---- the actor's sending side --------------------------------------------

  /** The tests of `encode_target`. */
  predicate TargetEncodable(t: Target, sequence: nat, stamp: nat, source: nat) {
    t.NonNegativeGains() && sequence > 0 && 0 < stamp <= INT64_MAX && source > 0
  }

  /** `encode_target`: the packet is filled in place, word by word. */
  method EncodeTarget(ieee: Ieee, n: nat, m: TargetMsg) returns (r: Result<seq<Byte>, IpcFault>)
    requires m.target.Has(n)
    ensures r == if TargetEncodable(m.target, m.sequence, m.stamp, m.source) then Ok(TargetBytes(ieee, m)) else Err(BadTarget)
  {
    if !m.target.NonNegativeGains() || m.sequence == 0 || m.stamp == 0 || m.stamp > INT64_MAX || m.source == 0 {
      return Err(BadTarget);
    }
    hide Le, WordsOf, Ieee.Bits;
    var p := new Byte[TargetSize(n)](_ => 0);
    PutBytes(p, 0, TARGET_MAGIC);
    assert p[..8] == TARGET_MAGIC;
    Append64(p, 8, m.sequence);
    Append64(p, 16, m.stamp);
    Append64(p, 24, m.hash);
    Append64(p, 32, m.source);
    AppendWords(p, 40, ieee.Bits(Flat(m.target)));
    assert p[..] == p[..TargetSize(n)];
    return Ok(p[..]);
  }

  // ---- the controller's receiving side -------------------------------------

  const TARGET_TIMEOUT: int := 100_000_000
  const CLOCK_SLACK: int := 5_000_000
  const MAX_LAG: nat := 5

  /** The controller reads the stamp as a signed 64-bit number. */
  function Signed64(v: nat): int {
    if v > INT64_MAX then v - WORD else v
  }

  /** What the controller remembers about the target stream. */
  datatype Inbox = Inbox(stateSequence: nat, lastSequence: nat, lastNs: int, count: nat, latest: Option<Target>)

  /** A target taken over into the inbox, and the clock reading it was judged by. */
  datatype Taken = Taken(target: Target, stamp: int, now: int)

  /** What the tests of the drain leave true of such a target. */
  predicate Admitted(n: nat, limits: seq<JointLimit>, t: Taken)
    requires limits == [] || |limits| == n
  {
    && t.target.Has(n) && GainsAcceptable(t.target) && EnvelopeAcceptable(t.target, limits)
    && -CLOCK_SLACK <= t.now - t.stamp <= TARGET_TIMEOUT
  }

  lemma InsideTable(t: Target, limits: seq<JointLimit>)
    requires t.Has(|t.position|) && (limits == [] || |limits| == |t.position|)
    ensures EnvelopeAcceptable(t, limits) <==>
            forall j :: 0 <= j < |limits| ==>
              && limits[j].positionMin - 0.000000001 <= t.position[j] <= limits[j].positionMax + 0.000000001
              && Abs(t.velocity[j]) <= limits[j].velocityMax + 0.000000001
              && t.kp[j] <= limits[j].kpMax + 0.000000001 && t.kd[j] <= limits[j].kdMax + 0.000000001
              && Abs(t.feedforward[j]) <= limits[j].feedforwardMax + 0.000000001
  {
  }

  /** What an admitted target is, in numbers: gains, joint table and age. */
  lemma AdmittedInNumbers(n: nat, limits: seq<JointLimit>, taken: Taken)
    requires limits == [] || |limits| == n
    ensures Admitted(n, limits, taken) <==>
            var t := taken.target;
            && t.Has(n) && (forall j :: 0 <= j < n ==> 0.0 <= t.kp[j] && 0.0 <= t.kd[j] <= 5.0)
            && (forall j :: 0 <= j < |limits| ==>
                  && limits[j].positionMin - 0.000000001 <= t.position[j] <= limits[j].positionMax + 0.000000001
                  && Abs(t.velocity[j]) <= limits[j].velocityMax + 0.000000001
                  && t.kp[j] <= limits[j].kpMax + 0.000000001 && t.kd[j] <= limits[j].kdMax + 0.000000001
                  && Abs(t.feedforward[j]) <= limits[j].feedforwardMax + 0.000000001)
            && -5_000_000 <= taken.now - taken.stamp <= 100_000_000
  {
    if taken.target.Has(n) {
      InsideTable(taken.target, limits);
      hide EnvelopeAcceptable;
    }
  }

  /** The inbox holds the target last taken over, if any. */
  predicate Keeps(inbox: Inbox, last: Option<Taken>) {
    if last.None? then inbox.latest.None?
    else inbox.latest == Some(last.value.target) && inbox.lastNs == last.value.stamp
  }

  predicate SequenceOk(inbox: Inbox, m: TargetMsg) {
    m.sequence > inbox.lastSequence && m.source <= inbox.stateSequence && inbox.stateSequence - m.source <= MAX_LAG
  }

  /** The acceptance tests of `drain_target_packets` on one message, in order. */
  function AcceptTarget(inbox: Inbox, m: TargetMsg, hash: nat, limits: seq<JointLimit>, now: int): Result<Inbox, IpcFault>
    requires m.target.Has(|m.target.position|) && (limits == [] || |limits| == |m.target.position|)
  {
    if m.hash != hash then Err(Abi)
    else if !SequenceOk(inbox, m) then Err(Sequence)
    else
      var age := now - Signed64(m.stamp);
      if age < -CLOCK_SLACK || age > TARGET_TIMEOUT then Err(Stale)
      else if !GainsAcceptable(m.target) || !EnvelopeAcceptable(m.target, limits) then Err(Limits)
      else Ok(inbox.(lastSequence := m.sequence, lastNs := Signed64(m.stamp), count := inbox.count + 1,
                     latest := Some(m.target)))
  }

  /** Reading a datagram through the packed structure; None when a double is not finite. */
  function ParseTarget(ieee: Ieee, n: nat, p: seq<Byte>): (r: Option<TargetMsg>)
    requires |p| == TargetSize(n)
    ensures r.Some? ==> r.value.target.Has(n)
  {
    var xs := ieee.ReadAll(p, 40, 5 * n);
    if xs.None? then None
    else Some(TargetMsg(WordAt(p, 8), WordAt(p, 16), WordAt(p, 24), WordAt(p, 32), Unflat(xs.value, n)))
  }

  /** One received datagram. A malformed one is refused before anything is read from it; a
      non-finite one passes the header tests first, like the finite ones do. */
  function AcceptBytes(ieee: Ieee, n: nat, inbox: Inbox, p: seq<Byte>, hash: nat, limits: seq<JointLimit>, now: int): Result<Inbox, IpcFault>
    requires limits == [] || |limits| == n
  {
    if |p| != TargetSize(n) || p[..8] != TARGET_MAGIC then Err(Abi)
    else
      var m := ParseTarget(ieee, n, p);
      if m.Some? then AcceptTarget(inbox, m.value, hash, limits, now)
      else
        var blank := Target(seq(n, _ => 0.0), seq(n, _ => 0.0), seq(n, _ => 0.0), seq(n, _ => 0.0), seq(n, _ => 0.0));
        var header := AcceptTarget(inbox, TargetMsg(WordAt(p, 8), WordAt(p, 16), WordAt(p, 24), WordAt(p, 32), blank), hash, [], now);
        if header.Err? then header else Err(Limits)
  }

  predicate TargetFits(ieee: Ieee, n: nat, m: TargetMsg) {
    && m.sequence < WORD && m.stamp < WORD && m.hash < WORD && m.source < WORD && m.target.Has(n)
    && ieee.AllExact(Flat(m.target))
  }

  /** The actor's bytes are read back by the controller as the message that was sent. */
  lemma TargetCrosses(ieee: Ieee, n: nat, m: TargetMsg, inbox: Inbox, hash: nat, limits: seq<JointLimit>, now: int)
    requires TargetFits(ieee, n, m) && (limits == [] || |limits| == n)
    ensures AcceptBytes(ieee, n, inbox, TargetBytes(ieee, m), hash, limits, now) == AcceptTarget(inbox, m, hash, limits, now)
  {
    hide WordAt, Le, WordsOf, Ieee.ReadAll, Ieee.Bits, AcceptTarget;
    var xs := Flat(m.target);
    var ws := WordsOf(ieee.Bits(xs));
    var p := TargetBytes(ieee, m);
    var h0 := TARGET_MAGIC;
    var h1 := h0 + Le(m.sequence, 8);
    var h2 := h1 + Le(m.stamp, 8);
    var h3 := h2 + Le(m.hash, 8);
    var h4 := h3 + Le(m.source, 8);
    assert p == h0 + Le(m.sequence, 8) + (Le(m.stamp, 8) + Le(m.hash, 8) + Le(m.source, 8) + ws);
    assert p == h1 + Le(m.stamp, 8) + (Le(m.hash, 8) + Le(m.source, 8) + ws);
    assert p == h2 + Le(m.hash, 8) + (Le(m.source, 8) + ws);
    assert p == h3 + Le(m.source, 8) + ws;
    assert p == h4 + ws + [];
    WordAtHit(h0, m.sequence, Le(m.stamp, 8) + Le(m.hash, 8) + Le(m.source, 8) + ws);
    WordAtHit(h1, m.stamp, Le(m.hash, 8) + Le(m.source, 8) + ws);
    WordAtHit(h2, m.hash, Le(m.source, 8) + ws);
    WordAtHit(h3, m.source, ws);
    ieee.ReadBack(h4, xs, []);
    assert p[..8] == TARGET_MAGIC;
    UnflatOfFlat(m.target, n);
  }

  /** Where everything is in the target packet; `j` is any joint. */
  lemma TargetLayout(ieee: Ieee, n: nat, m: TargetMsg, j: nat)
    requires TargetFits(ieee, n, m) && j < n
    ensures var p := TargetBytes(ieee, m);
            && |p| == 40 + 40 * n && p[..8] == [0x53, 0x50, 0x52, 0x54, 1, 0, 2, 0]
            && WordAt(p, 8) == m.sequence && WordAt(p, 16) == m.stamp && WordAt(p, 24) == m.hash && WordAt(p, 32) == m.source
            && WordAt(p, 40 + 8 * j) == ieee.bits(m.target.position[j])
            && WordAt(p, 40 + 8 * (n + j)) == ieee.bits(m.target.velocity[j])
            && WordAt(p, 40 + 8 * (2 * n + j)) == ieee.bits(m.target.kp[j])
            && WordAt(p, 40 + 8 * (3 * n + j)) == ieee.bits(m.target.kd[j])
            && WordAt(p, 40 + 8 * (4 * n + j)) == ieee.bits(m.target.feedforward[j])
  {
    hide WordAt, Le, WordsOf, Ieee.Bits;
    var xs := Flat(m.target);
    var ws := WordsOf(ieee.Bits(xs));
    var p := TargetBytes(ieee, m);
    var h1 := TARGET_MAGIC + Le(m.sequence, 8);
    var h2 := h1 + Le(m.stamp, 8);
    var h3 := h2 + Le(m.hash, 8);
    assert p == TARGET_MAGIC + Le(m.sequence, 8) + (Le(m.stamp, 8) + Le(m.hash, 8) + Le(m.source, 8) + ws);
    assert p == h1 + Le(m.stamp, 8) + (Le(m.hash, 8) + Le(m.source, 8) + ws);
    assert p == h2 + Le(m.hash, 8) + (Le(m.source, 8) + ws);
    assert p == h3 + Le(m.source, 8) + ws;
    WordAtHit(TARGET_MAGIC, m.sequence, Le(m.stamp, 8) + Le(m.hash, 8) + Le(m.source, 8) + ws);
    WordAtHit(h1, m.stamp, Le(m.hash, 8) + Le(m.source, 8) + ws);
    WordAtHit(h2, m.hash, Le(m.source, 8) + ws);
    WordAtHit(h3, m.source, ws);
    assert p[..8] == TARGET_MAGIC;
    TargetBody(ieee, n, h3 + Le(m.source, 8), m.target, j);
    hide Flat, TargetBytes;
  }

  lemma TargetBody(ieee: Ieee, n: nat, head: seq<Byte>, t: Target, j: nat)
    requires t.Has(n) && j < n && |head| == 40 && ieee.AllExact(Flat(t))
    ensures var p := head + WordsOf(ieee.Bits(Flat(t)));
            && |p| == 40 + 40 * n
            && WordAt(p, 40 + 8 * j) == ieee.bits(t.position[j])
            && WordAt(p, 40 + 8 * (n + j)) == ieee.bits(t.velocity[j])
            && WordAt(p, 40 + 8 * (2 * n + j)) == ieee.bits(t.kp[j])
            && WordAt(p, 40 + 8 * (3 * n + j)) == ieee.bits(t.kd[j])
            && WordAt(p, 40 + 8 * (4 * n + j)) == ieee.bits(t.feedforward[j])
  {
    var xs := Flat(t);
    FlatOrder(t, n, j);
    hide Flat, WordAt, WordsOf, Ieee.AllExact, Ieee.Bits, Target.Has;
    BodyWord(ieee, head, xs, j, 40 + 8 * j);
    BodyWord(ieee, head, xs, n + j, 40 + 8 * (n + j));
    BodyWord(ieee, head, xs, 2 * n + j, 40 + 8 * (2 * n + j));
    BodyWord(ieee, head, xs, 3 * n + j, 40 + 8 * (3 * n + j));
    BodyWord(ieee, head, xs, 4 * n + j, 40 + 8 * (4 * n + j));
  }

  lemma FlatOrder(t: Target, n: nat, j: nat)
    requires t.Has(n) && j < n
    ensures |Flat(t)| == 5 * n
    ensures Flat(t)[j] == t.position[j] && Flat(t)[n + j] == t.velocity[j] && Flat(t)[2 * n + j] == t.kp[j]
    ensures Flat(t)[3 * n + j] == t.kd[j] && Flat(t)[4 * n + j] == t.feedforward[j]
  {
  }

  /** When the controller takes a target: the hash is its own, the number is new, it answers a
      state sent at most five states ago, it was stamped at most 100 ms ago and at most 5 ms
      ahead, its gains are nonnegative and its damping at most 5, and, with a safety table, every
      joint is within its row up to 1e-9. */
  lemma TargetTakenWhen(inbox: Inbox, m: TargetMsg, hash: nat, limits: seq<JointLimit>, now: int)
    requires m.target.Has(|m.target.position|) && (limits == [] || |limits| == |m.target.position|)
    requires m.stamp < 0x8000_0000_0000_0000
    ensures var t := m.target;
            AcceptTarget(inbox, m, hash, limits, now).Ok? <==>
            && m.hash == hash && inbox.lastSequence < m.sequence && m.source <= inbox.stateSequence <= m.source + 5
            && m.stamp - 5_000_000 <= now <= m.stamp + 100_000_000
            && (forall j :: 0 <= j < |t.kp| ==> 0.0 <= t.kp[j]) && (forall j :: 0 <= j < |t.kd| ==> 0.0 <= t.kd[j] <= 5.0)
            && forall j :: 0 <= j < |limits| ==>
                 && limits[j].positionMin - 0.000000001 <= t.position[j] <= limits[j].positionMax + 0.000000001
                 && Abs(t.velocity[j]) <= limits[j].velocityMax + 0.000000001
                 && t.kp[j] <= limits[j].kpMax + 0.000000001 && t.kd[j] <= limits[j].kdMax + 0.000000001
                 && Abs(t.feedforward[j]) <= limits[j].feedforwardMax + 0.000000001
    ensures var r := AcceptTarget(inbox, m, hash, limits, now);
            r.Ok? ==> r.value == Inbox(inbox.stateSequence, m.sequence, m.stamp, inbox.count + 1, Some(m.target))
  {
    InsideTable(m.target, limits);
    hide EnvelopeAcceptable;
  }

  lemma UnflatOfFlat(t: Target, n: nat)
    requires t.Has(n)
    ensures |Flat(t)| == 5 * n && Unflat(Flat(t), n) == t
  {
    var v := Flat(t);
    assert v[..n] == t.position;
    assert v[n..2 * n] == t.velocity;
    assert v[2 * n..3 * n] == t.kp;
    assert v[3 * n..4 * n] == t.kd;
    assert v[4 * n..] == t.feedforward;
  }
}
