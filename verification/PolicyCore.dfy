/** The actor's observation history and action handoff (native/src/policy_core.hpp). */
module PolicyCore {
  import opened Prelude
  import opened Smoothstep
  import opened Handoff

  const FRAMES: nat := 8
  const TERMS: nat := 5
  const WIDTHS: seq<nat> := [31, 31, 31, 3, 3]
  const BASES: seq<nat> := [0, 248, 496, 744, 768]
  const HISTORY: nat := 792
  const INPUTS: nat := 71

  /** One observation: a block of values for each of the five terms. */
  type Sample = seq<seq<real>>

  predicate Fits(s: Sample) {
    |s| == TERMS && forall t :: 0 <= t < TERMS ==> |s[t]| == WIDTHS[t]
  }

  // ---- the sliding window --------------------------------------------------

  /** Slot `f` of the window over `frames`, oldest first; before eight frames exist the
      oldest one stands in for the missing ones. */
  function Slot(frames: seq<Sample>, f: nat): Sample
    requires frames != [] && f < FRAMES
  {
    frames[if |frames| + f < FRAMES then 0 else |frames| + f - FRAMES]
  }

  predicate AllFit(frames: seq<Sample>) { forall k :: 0 <= k < |frames| ==> Fits(frames[k]) }

  /** The first `count` slots of one term, laid end to end. */
  function Region(frames: seq<Sample>, t: nat, count: nat): (r: seq<real>)
    requires frames != [] && AllFit(frames) && t < TERMS && count <= FRAMES
    ensures |r| == count * WIDTHS[t]
  {
    if count == 0 then [] else Region(frames, t, count - 1) + Slot(frames, count - 1)[t]
  }

  function Window(frames: seq<Sample>): seq<real>
    requires frames != [] && AllFit(frames)
  {
    Region(frames, 0, FRAMES) + Region(frames, 1, FRAMES) + Region(frames, 2, FRAMES)
    + Region(frames, 3, FRAMES) + Region(frames, 4, FRAMES)
  }

  /** What the window means: position `f * width + j` of a term holds value `j` of the frame
      that is `7 - f` observations old. */
  lemma {:induction false} RegionHolds(frames: seq<Sample>, t: nat, count: nat, f: nat, j: nat)
    requires frames != [] && AllFit(frames) && t < TERMS && f < count <= FRAMES && j < WIDTHS[t]
    ensures 0 <= f * WIDTHS[t] + j < count * WIDTHS[t]
    ensures Region(frames, t, count)[f * WIDTHS[t] + j] == Slot(frames, f)[t][j]
  {
    if f == count - 1 {
    } else {
      RegionHolds(frames, t, count - 1, f, j);
    }
  }

  /** Appending a frame drops the oldest slot of a term and adds the new values. */
  lemma {:induction false} RegionSlides(frames: seq<Sample>, s: Sample, t: nat, count: nat)
    requires frames != [] && AllFit(frames) && Fits(s) && t < TERMS && count < FRAMES
    ensures Region(frames + [s], t, count) == Region(frames, t, count + 1)[WIDTHS[t]..]
  {
    if count > 0 {
      RegionSlides(frames, s, t, count - 1);
      assert Slot(frames + [s], count - 1) == Slot(frames, count);
    } else {
      assert Region(frames, t, 1) == Slot(frames, 0)[t];
    }
  }

  lemma WindowSlides(frames: seq<Sample>, s: Sample, t: nat)
    requires frames != [] && AllFit(frames) && Fits(s) && t < TERMS
    ensures Region(frames + [s], t, FRAMES) == Region(frames, t, FRAMES)[WIDTHS[t]..] + s[t]
  {
    RegionSlides(frames, s, t, FRAMES - 1);
    assert Slot(frames + [s], FRAMES - 1) == s;
  }

  /** Every position of a freshly filled term. */
  lemma {:induction false} RegionOfOne(s: Sample, t: nat, count: nat, i: nat)
    requires Fits(s) && t < TERMS && count <= FRAMES && i < count * WIDTHS[t]
    ensures Region([s], t, count)[i] == s[t][i % WIDTHS[t]]
  {
    var w := WIDTHS[t];
    if i < (count - 1) * w {
      RegionOfOne(s, t, count - 1, i);
    } else {
      assert i % w == i - (count - 1) * w;
    }
  }

  // ---- one observation -----------------------------------------------------

  /** The blocks of one observation; `narrow` stands for the cast from double to float. */
  function Observed(narrow: real -> real, defaults: seq<real>, previous: seq<real>, input: seq<real>): (s: Sample)
    requires |defaults| == |previous| == 31 && |input| == INPUTS
    ensures Fits(s)
  {
    [seq(31, j requires 0 <= j < 31 => narrow(narrow(input[j]) - narrow(defaults[j]))),
     seq(31, j requires 0 <= j < 31 => narrow(input[31 + j])),
     seq(31, j requires 0 <= j < 31 => narrow(previous[j])),
     seq(3, j requires 0 <= j < 3 => narrow(input[62 + j])),
     seq(3, j requires 0 <= j < 3 => narrow(input[65 + j]))]
  }

  /** Moving seven frames of one term one place towards the front, in place and in order. */
  method ShiftTerm(history: array<real>, base: nat, width: nat)
    requires base + 8 * width <= history.Length
    modifies history
    ensures history[base..base + 7 * width] == old(history[base + width..base + 8 * width])
    ensures history[..base] == old(history[..base])
    ensures history[base + 8 * width..] == old(history[base + 8 * width..])
  {
    for i := 0 to 7 * width
      invariant history[base..base + i] == old(history[base + width..base + width + i])
      invariant history[base + i..] == old(history[base + i..])
      invariant history[..base] == old(history[..base])
    {
      history[base + i] := history[base + width + i];
    }
  }

  /** Column and row of a cell in a block of 31 or three columns. */
  function Column(i: nat, width: nat): nat { if width == 31 then i % 31 else i % 3 }
  function Line(i: nat, width: nat): nat { if width == 31 then i / 31 else i / 3 }
  function CellAt(f: nat, width: nat, j: nat): nat { if width == 31 then f * 31 + j else f * 3 + j }

  lemma Cell(f: nat, j: nat, width: nat, i: nat)
    requires (width == 31 || width == 3) && j < width
    ensures CellAt(f, width, j) == i <==> Column(i, width) == j && Line(i, width) == f
    ensures CellAt(f, width, j) == f * width + j
    ensures f < FRAMES ==> CellAt(f, width, j) < FRAMES * width
  {
  }

  /** Writing one value of a term into the slots `from .. 7`. */
  method FillColumn(history: array<real>, base: nat, width: nat, j: nat, from: nat, value: real)
    requires (width == 31 || width == 3) && j < width && from < FRAMES && base + 8 * width <= history.Length
    modifies history
    ensures forall i :: 0 <= i < history.Length && (i < base || i >= base + 8 * width) ==> history[i] == old(history[i])
    ensures forall i :: 0 <= i < 8 * width ==>
      history[base + i] == if Column(i, width) == j && Line(i, width) >= from then value else old(history[base + i])
  {
    hide Column, Line, CellAt;
    for f := from to FRAMES
      invariant forall i :: 0 <= i < history.Length && (i < base || i >= base + 8 * width) ==> history[i] == old(history[i])
      invariant forall i :: 0 <= i < 8 * width ==>
        history[base + i] == if Column(i, width) == j && from <= Line(i, width) < f then value else old(history[base + i])
    {
      Cell(f, j, width, CellAt(f, width, j));
      forall i | 0 <= i < 8 * width
        ensures CellAt(f, width, j) == i <==> Column(i, width) == j && Line(i, width) == f
      {
        Cell(f, j, width, i);
      }
      history[base + f * width + j] := value;
    }
    forall i | 0 <= i < 8 * width ensures Line(i, width) < FRAMES {
      LineBound(i, width);
    }
  }

  lemma LineBound(i: nat, width: nat)
    requires (width == 31 || width == 3) && i < 8 * width
    ensures Line(i, width) < FRAMES && Column(i, width) < width
    ensures Line(i, width) >= 7 <==> i >= 7 * width
    ensures i >= 7 * width ==> Column(i, width) == i - 7 * width
    ensures Column(i, width) == i % width
  {
  }

  /** All the values of one term, column by column. */
  method FillTerm(history: array<real>, base: nat, width: nat, from: nat, values: seq<real>)
    requires (width == 31 || width == 3) && |values| == width && from < FRAMES && base + 8 * width <= history.Length
    modifies history
    ensures forall i :: 0 <= i < history.Length && (i < base || i >= base + 8 * width) ==> history[i] == old(history[i])
    ensures forall i :: 0 <= i < 8 * width ==>
      Column(i, width) < width
      && history[base + i] == if Line(i, width) >= from then values[Column(i, width)] else old(history[base + i])
    ensures from == 7 ==> history[..] == old(history[..base + 7 * width]) + values + old(history[base + 8 * width..])
  {
    hide Column, Line;
    forall i | 0 <= i < 8 * width
      ensures Column(i, width) < width && (Line(i, width) >= 7 <==> i >= 7 * width)
      ensures i >= 7 * width ==> Column(i, width) == i - 7 * width
    {
      LineBound(i, width);
    }
    for j := 0 to width
      invariant forall i :: 0 <= i < history.Length && (i < base || i >= base + 8 * width) ==> history[i] == old(history[i])
      invariant forall i :: 0 <= i < 8 * width ==>
        history[base + i] == if Column(i, width) < j && Line(i, width) >= from then values[Column(i, width)] else old(history[base + i])
    {
      FillColumn(history, base, width, j, from, values[j]);
    }
    if from == 7 {
      ghost var want := old(history[..base + 7 * width]) + values + old(history[base + 8 * width..]);
      forall i | base <= i < base + 8 * width ensures history[i] == want[i] {
        var k := i - base;
        LineBound(k, width);
        assert history[base + k] == if k >= 7 * width then values[k - 7 * width] else old(history[base + k]);
      }
      assert history[..] == want;
    }
  }

  predicate Disjointly(t: nat, i: nat)
    requires t < TERMS
  {
    i < BASES[t] || i >= BASES[t] + 8 * WIDTHS[t]
  }

  function Block(h: seq<real>, t: nat): seq<real>
    requires |h| == HISTORY && t < TERMS
  {
    h[BASES[t]..BASES[t] + 8 * WIDTHS[t]]
  }

  /** One term of `observe`: shift when the history is live, then fill the last or every slot. */
  method UpdateTerm(history: array<real>, t: nat, ready: bool, values: seq<real>)
    requires history.Length == HISTORY && t < TERMS && |values| == WIDTHS[t]
    modifies history
    ensures forall i :: 0 <= i < HISTORY && Disjointly(t, i) ==> history[i] == old(history[i])
    ensures ready ==> Block(history[..], t) == Block(old(history[..]), t)[WIDTHS[t]..] + values
    ensures !ready ==> forall i :: 0 <= i < 8 * WIDTHS[t] ==> Block(history[..], t)[i] == values[i % WIDTHS[t]]
  {
    var base, width := BASES[t], WIDTHS[t];
    if ready {
      ShiftTerm(history, base, width);
    }
    ghost var shifted := history[..];
    FillTerm(history, base, width, if ready then 7 else 0, values);
    if ready {
      assert Block(history[..], t) == shifted[base..base + 7 * width] + values;
    } else {
      forall i | 0 <= i < 8 * width ensures history[base + i] == values[i % width] {
        LineBound(i, width);
      }
    }
  }

  // ---- the state machine ---------------------------------------------------

  datatype CoreFault = InvalidScale

  datatype Config = Config(defaults: seq<real>, offset: seq<real>, scale: seq<real>, steps: nat, narrow: real -> real) {
    predicate Valid() { |defaults| == |offset| == |scale| == 31 }
  }

  /** `initial` is None until the first latch: that is the source's `ready` flag. */
  datatype Latched = Latched(initial: Option<seq<real>>, previous: seq<real>, completed: nat) {
    predicate Valid() { |previous| == 31 && (initial.Some? ==> |initial.value| == 31) }
  }

  const NOTHING := Latched(None, Zeros(31), 0)
  const BLANK: Sample := [Zeros(31), Zeros(31), Zeros(31), Zeros(3), Zeros(3)]

  /** The frames the window shows after an observation. */
  function Observing(frames: seq<Sample>, ready: bool, s: Sample): seq<Sample> {
    if ready then frames + [s] else [s]
  }

  /** `latch` on usable scales. */
  function Latching(c: Config, s: Latched, raw: seq<real>, measured: seq<real>): Latched
    requires c.Valid() && s.Valid() && |raw| == |measured| == 31
    requires s.initial.None? ==> ScaleUsable(c.scale)
  {
    var initial := if s.initial.Some? then s.initial.value else PoseAction(measured, c.offset, c.scale);
    var alpha := if s.completed < c.steps then Smooth((s.completed + 1) as real / c.steps as real) else 1.0;
    Latched(Some(initial), Blend(alpha, initial, raw), if s.completed < c.steps then s.completed + 1 else s.completed)
  }

  predicate Shows(h: seq<real>, frames: seq<Sample>) {
    && |h| == HISTORY && frames != [] && AllFit(frames)
    && forall t :: 0 <= t < TERMS ==> Block(h, t) == Region(frames, t, FRAMES)
  }

  lemma ShowsWindow(h: seq<real>, frames: seq<Sample>)
    requires Shows(h, frames)
    ensures h == Window(frames)
  {
    hide Region;
    assert h == Block(h, 0) + Block(h, 1) + Block(h, 2) + Block(h, 3) + Block(h, 4);
  }

  lemma BlankShows(h: seq<real>)
    requires h == Zeros(HISTORY)
    ensures Shows(h, [BLANK])
  {
    forall t, i | 0 <= t < TERMS && 0 <= i < 8 * WIDTHS[t] ensures Region([BLANK], t, FRAMES)[i] == 0.0 {
      RegionOfOne(BLANK, t, FRAMES, i);
    }
    forall t | 0 <= t < TERMS ensures Block(h, t) == Region([BLANK], t, FRAMES) {
    }
  }

  /** One term updated as `UpdateTerm` does shows the extended frame list. */
  lemma TermShows(before: seq<real>, after: seq<real>, frames: seq<Sample>, ready: bool, s: Sample, t: nat)
    requires |before| == |after| == HISTORY && t < TERMS && Fits(s) && frames != [] && AllFit(frames)
    requires Block(before, t) == Region(frames, t, FRAMES)
    requires ready ==> Block(after, t) == Block(before, t)[WIDTHS[t]..] + s[t]
    requires !ready ==> forall i :: 0 <= i < 8 * WIDTHS[t] ==> Block(after, t)[i] == s[t][i % WIDTHS[t]]
    ensures Block(after, t) == Region(Observing(frames, ready, s), t, FRAMES)
  {
    hide Region;
    if ready {
      WindowSlides(frames, s, t);
    } else {
      forall i | 0 <= i < 8 * WIDTHS[t] ensures Block(after, t)[i] == Region([s], t, FRAMES)[i] {
        RegionOfOne(s, t, FRAMES, i);
      }
    }
  }

  class Core {
    const cfg: Config
    const history: array<real>
    var previous: seq<real>
    var initial: seq<real>
    var completed: nat
    var ready: bool
    ghost var frames: seq<Sample>

    ghost predicate Valid()
      reads this, history
    {
      cfg.Valid() && |initial| == 31 && State().Valid() && Shows(history[..], frames)
    }

    function State(): Latched
      reads this
    {
      Latched(if ready then Some(initial) else None, previous, completed)
    }

    constructor (cfg: Config)
      requires cfg.Valid()
      ensures Valid() && this.cfg == cfg && State() == NOTHING && frames == [BLANK] && fresh(history)
    {
      this.cfg := cfg;
      history := new real[HISTORY](_ => 0.0);
      previous, initial, completed, ready := Zeros(31), Zeros(31), 0, false;
      frames := [BLANK];
      new;
      assert history[..] == Zeros(HISTORY);
      BlankShows(history[..]);
    }

    /** `observe`: the returned vector is the sliding window followed by the command. */
    method Observe(input: seq<real>) returns (r: seq<real>)
      requires Valid() && |input| == INPUTS
      modifies history, this`frames
      ensures Valid()
      ensures frames == Observing(old(frames), ready, Observed(cfg.narrow, cfg.defaults, previous, input))
      ensures r == Window(frames) + seq(3, j requires 0 <= j < 3 => cfg.narrow(input[68 + j]))
    {
      var sample := Observed(cfg.narrow, cfg.defaults, previous, input);
      hide Observed, Region, Window, WIDTHS, BASES;
      ghost var next := Observing(frames, ready, sample);
      for t := 0 to TERMS
        invariant frames == old(frames) && frames != [] && AllFit(frames)
        invariant forall k :: 0 <= k < t ==> Block(history[..], k) == Region(next, k, FRAMES)
        invariant forall k :: t <= k < TERMS ==> Block(history[..], k) == Region(frames, k, FRAMES)
      {
        ghost var before := history[..];
        UpdateTerm(history, t, ready, sample[t]);
        TermShows(before, history[..], frames, ready, sample, t);
        OtherBlocks(before, history[..], t);
      }
      frames := next;
      ShowsWindow(history[..], frames);
      r := history[..] + seq(3, j requires 0 <= j < 3 => cfg.narrow(input[68 + j]));
    }

    /** `latch`. A zero scale refuses the first latch and changes nothing a later call can see. */
    method Latch(raw: seq<real>, input: seq<real>) returns (r: Result<seq<real>, CoreFault>)
      requires Valid() && |raw| == 31 && |input| == INPUTS
      modifies this`previous, this`initial, this`completed, this`ready
      ensures Valid()
      ensures if !old(ready) && !ScaleUsable(cfg.scale) then r == Err(InvalidScale) && State() == old(State())
              else
                && State() == Latching(cfg, old(State()), raw, input[..31])
                && r == Ok(Affine(cfg.offset, cfg.scale, State().previous))
    {
      hide Mix, Smooth, Product, Shows;
      if !ready {
        var j := 0;
        while j < 31
          invariant 0 <= j <= 31 && |initial| == 31
          invariant !ready && completed == old(completed) && previous == old(previous)
          invariant forall k :: 0 <= k < j ==> Abs(cfg.scale[k]) > SCALE_FLOOR && initial[k] == (input[k] - cfg.offset[k]) / cfg.scale[k]
        {
          if Abs(cfg.scale[j]) <= SCALE_FLOOR {
            return Err(InvalidScale);
          }
          initial := initial[j := (input[j] - cfg.offset[j]) / cfg.scale[j]];
          j := j + 1;
        }
        assert initial == PoseAction(input[..31], cfg.offset, cfg.scale);
      }
      var alpha := 1.0;
      if completed < cfg.steps {
        completed := completed + 1;
        alpha := Smooth(completed as real / cfg.steps as real);
      }
      var target := [];
      ghost var from, count := initial, completed;
      for j := 0 to 31
        invariant |previous| == 31 && |target| == j
        invariant initial == from && completed == count && ready == old(ready) && |initial| == 31
        invariant forall k :: 0 <= k < j ==> previous[k] == Mix(alpha, initial[k], raw[k])
        invariant forall k :: 0 <= k < j ==> target[k] == cfg.offset[k] + Product(cfg.scale[k], previous[k])
      {
        previous := previous[j := Mix(alpha, initial[j], raw[j])];
        target := target + [cfg.offset[j] + Product(cfg.scale[j], previous[j])];
      }
      ready := true;
      assert previous == Blend(alpha, initial, raw);
      assert target == Affine(cfg.offset, cfg.scale, previous);
      return Ok(target);
    }
  }

  lemma OtherBlocks(before: seq<real>, after: seq<real>, t: nat)
    requires |before| == |after| == HISTORY && t < TERMS
    requires forall i :: 0 <= i < HISTORY && Disjointly(t, i) ==> after[i] == before[i]
    ensures forall k :: 0 <= k < TERMS && k != t ==> Block(after, k) == Block(before, k)
  {
    forall k, i | 0 <= k < TERMS && k != t && BASES[k] <= i < BASES[k] + 8 * WIDTHS[k] ensures Disjointly(t, i) {
    }
  }
}
