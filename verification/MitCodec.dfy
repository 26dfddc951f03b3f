/** The Damiao MIT wire format: truncating fixed-point fields packed into eight
    bytes. One codec is shared by the native controller
    (native/src/sprite_can_shadow.cpp) and by the Python commissioning code
    (src/open_sprite_runtime/damiao.py); both encoders are modelled. */
module MitCodec {
  import opened Prelude

  /** Why an encoder refuses a command. */
  datatype CodecFault =
    | OutsideRange            // a field outside its configured MIT range
    | EnvelopeBeyondProtocol  // the project envelope exceeds the motor's own range
    | OutsideEnvelope         // the command exceeds the project envelope
    | TorqueBeyondEnvelope    // the estimated output torque exceeds the envelope
    | BadEnvelope             // an envelope that is not ordered and positive
    | NonzeroPayload          // the restricted writer rejected its own bytes

  /** The largest raw value of a 16-bit and of a 12-bit field. */
  const LEVELS16: nat := 65535
  const LEVELS12: nat := 4095

  const KP_MAX: real := 500.0
  const KD_MAX: real := 5.0

  datatype Range = Range(low: real, high: real) {
    predicate Contains(x: real) { low <= x <= high }
    predicate Symmetric() { low == -high && 0.0 < high }
    function Width(): real { high - low }
    function Nearest(): real { Min(Abs(low), Abs(high)) }
    function Farthest(): real { Max(Abs(low), Abs(high)) }
  }

  const KP_RANGE := Range(0.0, KP_MAX)
  const KD_RANGE := Range(0.0, KD_MAX)

  /** The distance between two adjacent representable values. */
  function Step(range: Range, levels: nat): real
    requires levels > 0
  {
    range.Width() / levels as real
  }

  /** Both encoders truncate; both refuse a value outside the range. */
  function Encode(value: real, range: Range, levels: nat): Result<nat, CodecFault>
    requires range.low != range.high
  {
    if !range.Contains(value) then Err(OutsideRange)
    else
      var scaled := (value - range.low) / range.Width() * levels as real;
      assert scaled >= 0.0 by { QuotientInUnit(value, range); }
      Ok(scaled.Floor)
  }

  function Decode(raw: nat, range: Range, levels: nat): real
    requires levels > 0
  {
    raw as real * range.Width() / levels as real + range.low
  }

  lemma QuotientInUnit(value: real, range: Range)
    requires range.low != range.high && range.Contains(value)
    ensures 0.0 <= (value - range.low) / range.Width() <= 1.0
  {
    var w := range.Width();
    var q := (value - range.low) / w;
    assert q * w == value - range.low;
    CancelLe(0.0, q, w);
    CancelLe(q, 1.0, w);
  }

  /** Galois connection between words and values: the encoder returns the last word
      whose decoded value does not exceed the command. It fixes `Encode` completely. */
  lemma EncodeIsLargestBelow(value: real, range: Range, levels: nat, raw: nat)
    requires range.low < range.high && range.Contains(value) && levels > 0
    ensures Encode(value, range, levels).Ok?
    ensures raw <= Encode(value, range, levels).value <==> Decode(raw, range, levels) <= value
    ensures Encode(value, range, levels).value <= levels
  {
    var w, l := range.Width(), levels as real;
    var q := (value - range.low) / w;
    QuotientInUnit(value, range);
    MulLe(q, 1.0, l);
    ScaledComparison(raw as real, value - range.low, w, l);
    assert raw <= (q * l).Floor <==> raw as real <= q * l;
  }

  /** Multiplying out both divisions. */
  lemma ScaledComparison(r: real, offset: real, w: real, l: real)
    requires w > 0.0 && l > 0.0
    ensures r <= offset / w * l <==> r * w / l <= offset
  {
    var q, d := offset / w, r * w / l;
    assert q * w == offset && d * l == r * w;
    assert (q * l) * w == offset * l by { assert (q * l) * w == (q * w) * l; }
    if r <= q * l {
      MulLe(r, q * l, w);
      CancelLe(d, offset, l);
    }
    if d <= offset {
      MulLe(d, offset, l);
      CancelLe(r, q * l, w);
    }
  }

  lemma MulLe(x: real, y: real, k: real)
    requires x <= y && k >= 0.0
    ensures x * k <= y * k
  {
    assert (y - x) * k >= 0.0;
  }

  lemma CancelLe(x: real, y: real, k: real)
    requires x * k <= y * k && k > 0.0
    ensures x <= y
  {
    assert (x - y) * k <= 0.0;
  }

  lemma TopWord(range: Range, levels: nat)
    requires levels > 0
    ensures Decode(levels, range, levels) == range.high
  {
    DivideBack(range.Width(), levels as real);
  }

  lemma DivideBack(x: real, k: real)
    requires k > 0.0
    ensures k * x / k == x
  {
    var q := k * x / k;
    assert q * k == x * k;
    CancelLe(q, x, k);
    CancelLe(x, q, k);
  }

  /** A decoded word lies less than one step below the value that was encoded. */
  lemma DecodeWithinStep(value: real, range: Range, levels: nat)
    requires range.low < range.high && range.Contains(value) && levels > 0
    ensures Encode(value, range, levels).Ok?
    ensures var d := Decode(Encode(value, range, levels).value, range, levels);
            value - Step(range, levels) < d <= value && range.low <= d
  {
    var r := Encode(value, range, levels).value;
    EncodeIsLargestBelow(value, range, levels, r);
    EncodeIsLargestBelow(value, range, levels, r + 1);
    DecodeSuccessor(r, range, levels);
    assert Decode(0, range, levels) == range.low;
    DecodeMonotone(0, r, range, levels);
  }

  lemma DecodeSuccessor(raw: nat, range: Range, levels: nat)
    requires levels > 0
    ensures Decode(raw + 1, range, levels) == Decode(raw, range, levels) + Step(range, levels)
  {
    var w, l := range.Width(), levels as real;
    assert (raw + 1) as real * w == raw as real * w + w;
    assert (raw as real * w + w) / l == raw as real * w / l + w / l;
  }

  lemma DecodeMonotone(a: nat, b: nat, range: Range, levels: nat)
    requires levels > 0 && range.low <= range.high && a <= b
    ensures Decode(a, range, levels) <= Decode(b, range, levels)
  {
    var w, l := range.Width(), levels as real;
    MulLe(a as real, b as real, w);
    var x, y := a as real * w, b as real * w;
    assert (x / l) * l == x && (y / l) * l == y;
    CancelLe(x / l, y / l, l);
  }

  /** Every word is the encoding of its own decoding. */
  lemma EncodeOfDecode(raw: nat, range: Range, levels: nat)
    requires range.low < range.high && levels > 0 && raw <= levels
    ensures range.Contains(Decode(raw, range, levels))
    ensures Encode(Decode(raw, range, levels), range, levels) == Ok(raw)
  {
    var w, l := range.Width(), levels as real;
    assert Decode(0, range, levels) == range.low;
    TopWord(range, levels);
    DecodeMonotone(0, raw, range, levels);
    DecodeMonotone(raw, levels, range, levels);
    var v := Decode(raw, range, levels);
    DecodeSuccessor(raw, range, levels);
    StepPositive(range, levels);
    EncodeIsLargestBelow(v, range, levels, raw);
    EncodeIsLargestBelow(v, range, levels, raw + 1);
    hide Encode, Decode, Step;
  }

  lemma StepPositive(range: Range, levels: nat)
    requires range.low < range.high && levels > 0
    ensures Step(range, levels) > 0.0
  {
  }

  // ---- the eight-byte frame ------------------------------------------------

  datatype Words = Words(position: nat, velocity: nat, kp: nat, kd: nat, torque: nat) {
    predicate Fits() {
      position <= LEVELS16 && velocity <= LEVELS12 && kp <= LEVELS12 && kd <= LEVELS12 && torque <= LEVELS12
    }
  }

  // Two 12-bit fields share three bytes: eight bits, a split byte, eight bits.
  function HighByte(a: nat): Byte { a / 16 % 256 }
  function SplitByte(a: nat, b: nat): Byte { (a % 16 * 16 + b / 256) % 256 }
  function LowByte(b: nat): Byte { b % 256 }
  function FirstField(high: int, split: int): int { high * 16 + split / 16 }
  function SecondField(split: int, low: int): int { split % 16 * 256 + low }

  /** The native packing: 16+12+12+12+12 bits, each byte cut to eight bits by its cast. */
  function Pack(w: Words): (data: seq<Byte>)
    ensures |data| == 8
  {
    [TopByte(w.position), LowByte(w.position),
     HighByte(w.velocity), SplitByte(w.velocity, w.kp), LowByte(w.kp),
     HighByte(w.kd), SplitByte(w.kd, w.torque), LowByte(w.torque)]
  }

  /** The drive's reading of a command frame, as the restricted writer re-reads its own bytes. */
  function Unpack(data: seq<Byte>): (w: Words)
    requires |data| == 8
  {
    var d: seq<int> := data;
    Words(WideField(d[0], d[1]), FirstField(d[2], d[3]), SecondField(d[3], d[4]),
          FirstField(d[5], d[6]), SecondField(d[6], d[7]))
  }

  function TopByte(a: nat): Byte { a / 256 % 256 }
  function WideField(high: int, low: int): int { high * 256 + low }

  lemma TwoBytes(a: nat)
    requires a < 65536
    ensures WideField(TopByte(a), LowByte(a)) == a
  {
  }

  lemma TwoBytesBack(x: Byte, y: Byte)
    ensures 0 <= WideField(x, y) < 65536
    ensures TopByte(WideField(x, y)) == x && LowByte(WideField(x, y)) == y
  {
  }

  lemma ThreeBytes(a: nat, b: nat)
    requires a < 4096 && b < 4096
    ensures FirstField(HighByte(a), SplitByte(a, b)) == a
    ensures SecondField(SplitByte(a, b), LowByte(b)) == b
  {
    var mid := a % 16 * 16 + b / 256;
    assert b / 256 < 16 && a / 16 < 256;
    assert mid % 256 == mid;
    assert mid / 16 == a % 16;
    assert mid % 16 == b / 256;
  }

  lemma ThreeBytesBack(x: Byte, y: Byte, z: Byte)
    ensures var a, b := FirstField(x, y), SecondField(y, z);
            && 0 <= a < 4096 && 0 <= b < 4096
            && HighByte(a) == x && SplitByte(a, b) == y && LowByte(b) == z
  {
    var a, b := FirstField(x, y), SecondField(y, z);
    assert y / 16 < 16;
    assert a / 16 == x && a % 16 == y / 16;
    assert b / 256 == y % 16;
  }

  lemma UnpackOfPack(w: Words)
    requires w.Fits()
    ensures Unpack(Pack(w)) == w
  {
    hide TopByte, HighByte, SplitByte, LowByte, WideField, FirstField, SecondField;
    TwoBytes(w.position);
    ThreeBytes(w.velocity, w.kp);
    ThreeBytes(w.kd, w.torque);
  }

  /** No byte string is outside the format: packing is onto. */
  lemma PackOfUnpack(data: seq<Byte>)
    requires |data| == 8
    ensures Unpack(data).Fits() && Pack(Unpack(data)) == data
  {
    hide TopByte, HighByte, SplitByte, LowByte, WideField, FirstField, SecondField;
    TwoBytesBack(data[0], data[1]);
    ThreeBytesBack(data[2], data[3], data[4]);
    ThreeBytesBack(data[5], data[6], data[7]);
  }

  /** The number that bytes, most significant first, stand for. */
  function BigEndian(data: seq<Byte>): nat {
    if data == [] then 0
    else
      var last: nat := data[|data| - 1];
      256 * BigEndian(data[..|data| - 1]) + last
  }

  /** The frame is one big-endian 64-bit number: sixteen bits of position, then twelve each of
      velocity, stiffness, damping and torque. */
  lemma PackIsBigEndian(w: Words)
    requires w.Fits()
    ensures BigEndian(Pack(w)) == (((w.position * 4096 + w.velocity) * 4096 + w.kp) * 4096 + w.kd) * 4096 + w.torque
  {
    var d := Pack(w);
    FieldBytes(w.position, w.velocity, w.kp, w.kd, w.torque);
    hide TopByte, HighByte, SplitByte, LowByte, Pack;
    assert d[..1][..0] == [];
    assert d[..2][..1] == d[..1] && d[..3][..2] == d[..2] && d[..4][..3] == d[..3] && d[..5][..4] == d[..4];
    assert d[..6][..5] == d[..5] && d[..7][..6] == d[..6] && d[..8] == d;
    var e: seq<int> := d;
    assert BigEndian(d[..1]) == e[0] && BigEndian(d[..2]) == 256 * e[0] + e[1];
    assert BigEndian(d[..3]) == 256 * BigEndian(d[..2]) + e[2];
    assert BigEndian(d[..4]) == 256 * BigEndian(d[..3]) + e[3];
    assert BigEndian(d[..5]) == 256 * BigEndian(d[..4]) + e[4];
    assert BigEndian(d[..6]) == 256 * BigEndian(d[..5]) + e[5];
    assert BigEndian(d[..7]) == 256 * BigEndian(d[..6]) + e[6];
    assert BigEndian(d[..8]) == 256 * BigEndian(d[..7]) + e[7];
    hide BigEndian;
  }

  lemma FieldBytes(p: nat, v: nat, kp: nat, kd: nat, t: nat)
    requires p < 65536 && v < 4096 && kp < 4096 && kd < 4096 && t < 4096
    ensures 256 * AsInt(TopByte(p)) + AsInt(LowByte(p)) == p
    ensures 65536 * AsInt(HighByte(v)) + 256 * AsInt(SplitByte(v, kp)) + AsInt(LowByte(kp)) == 4096 * v + kp
    ensures 65536 * AsInt(HighByte(kd)) + 256 * AsInt(SplitByte(kd, t)) + AsInt(LowByte(t)) == 4096 * kd + t
  {
    TwoBytes(p);
    PairBytes(v, kp);
    PairBytes(kd, t);
    hide TopByte, HighByte, SplitByte, LowByte;
  }

  // A byte as an unbounded number.
  function AsInt(b: Byte): int { b }

  lemma PairBytes(a: nat, b: nat)
    requires a < 4096 && b < 4096
    ensures 65536 * AsInt(HighByte(a)) + 256 * AsInt(SplitByte(a, b)) + AsInt(LowByte(b)) == 4096 * a + b
  {
    ThreeBytes(a, b);
    var h, m, l := AsInt(HighByte(a)), AsInt(SplitByte(a, b)), AsInt(LowByte(b));
    hide HighByte, SplitByte, LowByte;
    assert m == m / 16 * 16 + m % 16;
  }

  /** Words are spread evenly over the range, from end to end. */
  lemma WordsAreEven(raw: nat, range: Range, levels: nat)
    requires levels > 0
    ensures Decode(0, range, levels) == range.low && Decode(levels, range, levels) == range.high
    ensures Decode(raw + 1, range, levels) - Decode(raw, range, levels) == (range.high - range.low) / levels as real
  {
    TopWord(range, levels);
    DecodeSuccessor(raw, range, levels);
  }

  // ---- commands ------------------------------------------------------------

  datatype Ranges = Ranges(position: Range, velocity: Range, torque: Range) {
    /** What the Python range constructor enforces. */
    predicate Ordered() {
      position.low < position.high && velocity.low < velocity.high && torque.low < torque.high
    }
    predicate Proper() {
      position.low != position.high && velocity.low != velocity.high && torque.low != torque.high
    }
  }

  datatype Command = Command(position: real, velocity: real, kp: real, kd: real, feedforward: real)

  /** A command as the drive sees it after decoding. */
  function DecodeWords(w: Words, ranges: Ranges): Command {
    Command(Decode(w.position, ranges.position, LEVELS16), Decode(w.velocity, ranges.velocity, LEVELS12),
            Decode(w.kp, KP_RANGE, LEVELS12), Decode(w.kd, KD_RANGE, LEVELS12),
            Decode(w.torque, ranges.torque, LEVELS12))
  }

  /** The five field encodings in the source's order; the first refusal wins. */
  function EncodeCommand(c: Command, ranges: Ranges): (r: Result<Words, CodecFault>)
    requires ranges.Proper()
    ensures r.Ok? && ranges.Ordered() ==> r.value.Fits()
  {
    var p := Encode(c.position, ranges.position, LEVELS16);
    if p.Err? then Err(p.error) else
    var v := Encode(c.velocity, ranges.velocity, LEVELS12);
    if v.Err? then Err(v.error) else
    var kp := Encode(c.kp, KP_RANGE, LEVELS12);
    if kp.Err? then Err(kp.error) else
    var kd := Encode(c.kd, KD_RANGE, LEVELS12);
    if kd.Err? then Err(kd.error) else
    var t := Encode(c.feedforward, ranges.torque, LEVELS12);
    if t.Err? then Err(t.error) else
    assert ranges.Ordered() ==> p.value <= LEVELS16 && v.value <= LEVELS12 && t.value <= LEVELS12 by {
      if ranges.Ordered() {
        EncodeIsLargestBelow(c.position, ranges.position, LEVELS16, 0);
        EncodeIsLargestBelow(c.velocity, ranges.velocity, LEVELS12, 0);
        EncodeIsLargestBelow(c.feedforward, ranges.torque, LEVELS12, 0);
      }
    }
    assert kp.value <= LEVELS12 by { EncodeIsLargestBelow(c.kp, KP_RANGE, LEVELS12, 0); }
    assert kd.value <= LEVELS12 by { EncodeIsLargestBelow(c.kd, KD_RANGE, LEVELS12, 0); }
    Ok(Words(p.value, v.value, kp.value, kd.value, t.value))
  }

  predicate Below(d: real, x: real, step: real) { x - step < d <= x }

  predicate InRanges(c: Command, ranges: Ranges) {
    && ranges.position.Contains(c.position) && ranges.velocity.Contains(c.velocity)
    && KP_RANGE.Contains(c.kp) && KD_RANGE.Contains(c.kd) && ranges.torque.Contains(c.feedforward)
  }

  /** Every field of `d` is the one of `c` rounded down by less than one step. */
  predicate RoundedDown(d: Command, c: Command, ranges: Ranges) {
    && Below(d.position, c.position, Step(ranges.position, LEVELS16))
    && Below(d.velocity, c.velocity, Step(ranges.velocity, LEVELS12))
    && Below(d.kp, c.kp, Step(KP_RANGE, LEVELS12))
    && Below(d.kd, c.kd, Step(KD_RANGE, LEVELS12))
    && Below(d.feedforward, c.feedforward, Step(ranges.torque, LEVELS12))
  }

  lemma EncodeAccepts(c: Command, ranges: Ranges)
    requires ranges.Ordered()
    ensures EncodeCommand(c, ranges).Ok? <==> InRanges(c, ranges)
  {
  }

  lemma WordsRoundedDown(c: Command, ranges: Ranges)
    requires ranges.Ordered() && EncodeCommand(c, ranges).Ok?
    ensures RoundedDown(DecodeWords(EncodeCommand(c, ranges).value, ranges), c, ranges)
  {
    DecodeWithinStep(c.position, ranges.position, LEVELS16);
    DecodeWithinStep(c.velocity, ranges.velocity, LEVELS12);
    DecodeWithinStep(c.kp, KP_RANGE, LEVELS12);
    DecodeWithinStep(c.kd, KD_RANGE, LEVELS12);
    DecodeWithinStep(c.feedforward, ranges.torque, LEVELS12);
    hide Encode, Decode, Step;
  }

  /** What the drive decodes from the bytes of an accepted command: every field is the
      commanded one, rounded down by less than one step. Acceptance is exactly the range test. */
  lemma CommandRoundTrip(c: Command, ranges: Ranges)
    requires ranges.Ordered()
    ensures EncodeCommand(c, ranges).Ok? <==> InRanges(c, ranges)
    ensures EncodeCommand(c, ranges).Ok? ==>
            RoundedDown(DecodeWords(Unpack(Pack(EncodeCommand(c, ranges).value)), ranges), c, ranges)
  {
    hide EncodeCommand, DecodeWords, Pack, Unpack;
    EncodeAccepts(c, ranges);
    if EncodeCommand(c, ranges).Ok? {
      UnpackOfPack(EncodeCommand(c, ranges).value);
      WordsRoundedDown(c, ranges);
    }
  }

  /** The ends of the scales: a command at the top of every range, with a stiffness of 500 and a
      damping of 5, fills every word; one at the bottom, without gains, is all zero words. */
  lemma EndsOfScale(ranges: Ranges)
    requires ranges.Ordered()
    ensures EncodeCommand(Command(ranges.position.high, ranges.velocity.high, 500.0, 5.0, ranges.torque.high), ranges)
            == Ok(Words(65535, 4095, 4095, 4095, 4095))
    ensures EncodeCommand(Command(ranges.position.low, ranges.velocity.low, 0.0, 0.0, ranges.torque.low), ranges)
            == Ok(Words(0, 0, 0, 0, 0))
  {
    FieldEnds(ranges.position, LEVELS16);
    FieldEnds(ranges.velocity, LEVELS12);
    FieldEnds(KP_RANGE, LEVELS12);
    FieldEnds(KD_RANGE, LEVELS12);
    FieldEnds(ranges.torque, LEVELS12);
    hide Encode;
  }

  lemma FieldEnds(range: Range, levels: nat)
    requires range.low < range.high && levels > 0
    ensures Encode(range.high, range, levels) == Ok(levels) && Encode(range.low, range, levels) == Ok(0)
  {
    EncodeOfDecode(levels, range, levels);
    EncodeOfDecode(0, range, levels);
    WordsAreEven(0, range, levels);
    hide Encode, Decode;
  }

  // ---- the Python encoder --------------------------------------------------

  datatype State = State(position: real, velocity: real)

  datatype Envelope = Envelope(position: Range, maxVelocity: real, maxFeedforward: real, maxOutput: real)

  /** The torque an MIT drive produces for a command at a measured state. */
  function Torque(c: Command, s: State): real {
    TorqueAt(c, c.position - s.position, c.velocity - s.velocity)
  }

  function TorqueAt(c: Command, positionError: real, velocityError: real): real {
    Product(c.kp, positionError) + Product(c.kd, velocityError) + c.feedforward
  }

  function MakeEnvelope(position: Range, maxVelocity: real, maxFeedforward: real, maxOutput: real): Result<Envelope, CodecFault> {
    if position.low >= position.high then Err(BadEnvelope)
    else if maxVelocity <= 0.0 || maxFeedforward <= 0.0 || maxOutput <= 0.0 then Err(BadEnvelope)
    else Ok(Envelope(position, maxVelocity, maxFeedforward, maxOutput))
  }

  /** The project-envelope tests of `encode_damiao_mit_command`, in order; the first one
      that fails names the error. */
  function EnvelopeRefusal(ranges: Ranges, c: Command, s: State, e: Envelope): Option<CodecFault> {
    if e.position.low < ranges.position.low || e.position.high > ranges.position.high then
      Some(EnvelopeBeyondProtocol)
    else if e.maxVelocity > ranges.velocity.Farthest() then Some(EnvelopeBeyondProtocol)
    else if e.maxFeedforward > ranges.torque.Farthest() then Some(EnvelopeBeyondProtocol)
    else if e.maxOutput > ranges.torque.Farthest() then Some(EnvelopeBeyondProtocol)
    else if !e.position.Contains(c.position) then Some(OutsideEnvelope)
    else if Abs(c.velocity) > e.maxVelocity then Some(OutsideEnvelope)
    else if Abs(c.feedforward) > e.maxFeedforward then Some(OutsideEnvelope)
    else if Abs(Torque(c, s)) > e.maxOutput then Some(TorqueBeyondEnvelope)
    else None
  }

  /** `encode_damiao_mit_command`: the project envelope first, then the protocol ranges. */
  function PythonEncode(ranges: Ranges, c: Command, s: State, e: Envelope): (r: Result<seq<Byte>, CodecFault>)
    requires ranges.Ordered()
  {
    var refusal := EnvelopeRefusal(ranges, c, s, e);
    if refusal.Some? then Err(refusal.value) else PackAll(EncodeCommand(c, ranges))
  }

  function PackAll(words: Result<Words, CodecFault>): Result<seq<Byte>, CodecFault> {
    match words
    case Ok(w) => Ok(PythonPack(w))
    case Err(error) => Err(error)
  }

  /** The Python packing masks every nibble instead of casting. */
  function PythonPack(w: Words): seq<Byte> {
    [TopByte(w.position), LowByte(w.position),
     HighByte(w.velocity), MaskedByte(w.velocity, w.kp), LowByte(w.kp),
     HighByte(w.kd), MaskedByte(w.kd, w.torque), LowByte(w.torque)]
  }

  function MaskedByte(a: nat, b: nat): Byte { a % 16 * 16 + b / 256 % 16 }

  /** Whatever the Python encoder accepts, the native field encoder accepts too, with the
      same eight bytes; the accepted torque request is inside the envelope. */
  lemma PythonAgreesWithNative(ranges: Ranges, c: Command, s: State, e: Envelope)
    requires ranges.Ordered()
    requires PythonEncode(ranges, c, s, e).Ok?
    ensures EncodeCommand(c, ranges).Ok?
    ensures PythonEncode(ranges, c, s, e).value == Pack(EncodeCommand(c, ranges).value)
    ensures Abs(Torque(c, s)) <= e.maxOutput && Abs(c.feedforward) <= e.maxFeedforward
  {
    hide EncodeCommand, Pack, PythonPack, Torque, EnvelopeRefusal;
    NoRefusal(ranges, c, s, e);
    PackingsAgree(EncodeCommand(c, ranges).value);
  }

  lemma NoRefusal(ranges: Ranges, c: Command, s: State, e: Envelope)
    ensures EnvelopeRefusal(ranges, c, s, e).None? <==>
            && ranges.position.low <= e.position.low && e.position.high <= ranges.position.high
            && e.maxVelocity <= ranges.velocity.Farthest()
            && e.maxFeedforward <= ranges.torque.Farthest() && e.maxOutput <= ranges.torque.Farthest()
            && e.position.Contains(c.position) && Abs(c.velocity) <= e.maxVelocity
            && Abs(c.feedforward) <= e.maxFeedforward && Abs(Torque(c, s)) <= e.maxOutput
  {
    hide Torque;
  }

  /** Masking and casting give the same bytes for fields that fit. */
  lemma PackingsAgree(w: Words)
    requires w.Fits()
    ensures PythonPack(w) == Pack(w)
  {
    hide TopByte, HighByte, SplitByte, LowByte, MaskedByte;
    MaskIsCast(w.velocity, w.kp);
    MaskIsCast(w.kd, w.torque);
  }

  lemma MaskIsCast(a: nat, b: nat)
    requires b < 4096
    ensures MaskedByte(a, b) == SplitByte(a, b)
  {
    assert b / 256 < 16;
    assert a % 16 * 16 + b / 256 < 256;
  }

  // ---- special frames ------------------------------------------------------

  /** `send_special`: seven full bytes and an opcode that enables or disables the drive. */
  function SpecialBytes(enable: bool): (data: seq<Byte>)
    ensures |data| == 8
  {
    [0xFF, 0xFF, 0xFF, 0xFF, 0xFF, 0xFF, 0xFF, if enable then 0xFC else 0xFD]
  }

  /** Read as a command a special frame asks for everything: the other frames stay apart from it as
      long as they have a lower position word, or less stiffness. */
  lemma SpecialAsksForAll(enable: bool)
    ensures var w := Unpack(SpecialBytes(enable));
            w.position == 65535 && w.velocity == 4095 && w.kp == 4095 && w.kd == 4095 && w.torque == if enable then 4092 else 4093
  {
  }

  // ---- zero-gain frames ----------------------------------------------------

  /** `encode_zero_gain_position_echo`. */
  function PythonZeroGain(ranges: Ranges, position: real): (r: Result<seq<Byte>, CodecFault>)
    requires ranges.Ordered()
  {
    var e := MakeEnvelope(ranges.position, ranges.velocity.Nearest(), ranges.torque.Nearest(), ranges.torque.Nearest());
    if e.Err? then Err(e.error)
    else PythonEncode(ranges, Command(position, 0.0, 0.0, 0.0, 0.0), State(position, 0.0), e.value)
  }

  predicate MidWord(w: nat) { w == 2047 || w == 2048 }

  /** `zero_gain_payload`: packs, then re-reads its own bytes and refuses anything but a
      mid-scale velocity and torque and zero gains. */
  function ZeroGainPayload(ranges: Ranges, position: real): (r: Result<seq<Byte>, CodecFault>)
    requires ranges.Proper()
    ensures r.Ok? ==> |r.value| == 8
  {
    var p := Encode(position, ranges.position, LEVELS16);
    if p.Err? then Err(p.error) else
    var v := Encode(0.0, ranges.velocity, LEVELS12);
    if v.Err? then Err(v.error) else
    var t := Encode(0.0, ranges.torque, LEVELS12);
    if t.Err? then Err(t.error) else
    var data := Pack(Words(p.value, v.value, 0, 0, t.value));
    var read := Unpack(data);
    if !MidWord(read.velocity) || read.kp != 0 || read.kd != 0 || !MidWord(read.torque) then
      Err(NonzeroPayload)
    else Ok(data)
  }

  lemma EncodedFits(value: real, range: Range, levels: nat)
    requires range.low != range.high && levels > 0 && Encode(value, range, levels).Ok?
    ensures Encode(value, range, levels).value <= levels
  {
    EncodeIsLargestBelow(value, range, levels, 0);
  }

  /** Zero is near enough to mid-scale for the self-check. */
  predicate Centred(range: Range) {
    range.Contains(0.0) && Decode(2047, range, LEVELS12) <= 0.0 < Decode(2049, range, LEVELS12)
  }

  /** The restricted writer accepts exactly the in-range positions of drives whose velocity
      and torque ranges are centred; its frame carries zero gains and the position word. */
  lemma ZeroGainAcceptance(ranges: Ranges, position: real)
    requires ranges.Ordered()
    ensures ZeroGainPayload(ranges, position).Ok? <==>
            ranges.position.Contains(position) && Centred(ranges.velocity) && Centred(ranges.torque)
    ensures ZeroGainPayload(ranges, position).Ok? ==>
            var w := Unpack(ZeroGainPayload(ranges, position).value);
            w.kp == 0 && w.kd == 0 && Ok(w.position) == Encode(position, ranges.position, LEVELS16)
  {
    MidWordIffCentred(ranges.velocity);
    MidWordIffCentred(ranges.torque);
    if ranges.position.Contains(position) && ranges.velocity.Contains(0.0) && ranges.torque.Contains(0.0) {
      EncodedFits(position, ranges.position, LEVELS16);
      EncodedFits(0.0, ranges.velocity, LEVELS12);
      EncodedFits(0.0, ranges.torque, LEVELS12);
      UnpackOfPack(Words(Encode(position, ranges.position, LEVELS16).value,
                         Encode(0.0, ranges.velocity, LEVELS12).value, 0, 0,
                         Encode(0.0, ranges.torque, LEVELS12).value));
    }
  }

  lemma MidWordIffCentred(range: Range)
    requires range.low < range.high
    ensures Centred(range) <==>
            Encode(0.0, range, LEVELS12).Ok? && MidWord(Encode(0.0, range, LEVELS12).value)
  {
    if range.Contains(0.0) {
      EncodeIsLargestBelow(0.0, range, LEVELS12, 2047);
      EncodeIsLargestBelow(0.0, range, LEVELS12, 2049);
    }
  }

  lemma ZeroWord(range: Range)
    requires range.low == 0.0 < range.high
    ensures range.Contains(0.0) && Encode(0.0, range, LEVELS12) == Ok(0)
  {
  }

  /** A poll is never taken for an enable or a disable. */
  lemma PollIsNoSpecial(ranges: Ranges, position: real, enable: bool)
    requires ranges.Ordered() && ZeroGainPayload(ranges, position).Ok?
    ensures ZeroGainPayload(ranges, position).value != SpecialBytes(enable)
  {
    ZeroGainAcceptance(ranges, position);
    SpecialAsksForAll(enable);
    hide ZeroGainPayload, Unpack, SpecialBytes;
  }

  /** With the symmetric ranges of the drives the self-check never rejects. */
  lemma SymmetricIsCentred(range: Range)
    requires range.Symmetric()
    ensures Centred(range)
  {
    var h := range.high;
    assert Decode(2047, range, LEVELS12) == (2047.0 * 2.0 / 4095.0 - 1.0) * h;
    assert Decode(2049, range, LEVELS12) == (2049.0 * 2.0 / 4095.0 - 1.0) * h;
  }

  /** An in-range position of a drive whose velocity and torque ranges straddle zero. */
  predicate EchoAccepted(ranges: Ranges, position: real) {
    && ranges.Ordered() && ranges.position.Contains(position)
    && ranges.velocity.low < 0.0 < ranges.velocity.high && ranges.torque.low < 0.0 < ranges.torque.high
  }

  /** The Python echo accepts exactly the in-range positions of drives whose velocity and
      torque ranges straddle zero; on those the two writers send the same frame whenever
      the native self-check lets it through. */
  lemma ZeroGainWritersAgree(ranges: Ranges, position: real)
    requires ranges.Ordered()
    ensures PythonZeroGain(ranges, position).Ok? <==> EchoAccepted(ranges, position)
    ensures PythonZeroGain(ranges, position).Ok? && ZeroGainPayload(ranges, position).Ok? ==>
            PythonZeroGain(ranges, position) == ZeroGainPayload(ranges, position)
  {
    var c, s := Command(position, 0.0, 0.0, 0.0, 0.0), State(position, 0.0);
    assert Torque(c, s) == 0.0;
    hide Encode, Pack, PythonPack, Unpack, Torque, DecodeWords, EnvelopeRefusal;
    var n := ranges.torque.Nearest();
    NoRefusal(ranges, c, s, Envelope(ranges.position, ranges.velocity.Nearest(), n, n));
    ZeroWord(KP_RANGE);
    ZeroWord(KD_RANGE);
    CommandRoundTrip(c, ranges);
    if EncodeCommand(c, ranges).Ok? {
      PackingsAgree(EncodeCommand(c, ranges).value);
      UnpackOfPack(EncodeCommand(c, ranges).value);
    }
  }
}
