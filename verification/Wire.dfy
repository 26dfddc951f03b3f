/** Little-endian 64-bit words in byte buffers, and the double representation carried by
    them (native/src/imu_packet.hpp:33-35, native/src/policy_imu_client.hpp:23-27,
    native/src/policy_state_ipc.hpp:15-20). */
module Wire {
  import opened Prelude

  const WORD: nat := 0x1_0000_0000_0000_0000

  /** `k` bytes, least significant first. */
  function Le(v: nat, k: nat): (s: seq<Byte>)
    ensures |s| == k
  {
    if k == 0 then [] else [v % 256] + Le(v / 256, k - 1)
  }

  function Number(s: seq<Byte>): nat {
    if s == [] then 0 else Digit(s[0]) + 256 * Number(s[1..])
  }

  // A byte as an unbounded number.
  function Digit(b: Byte): nat { b }

  function Pow256(k: nat): nat {
    if k == 0 then 1 else 256 * Pow256(k - 1)
  }

  lemma {:induction false} NumberOfLe(v: nat, k: nat)
    requires v < Pow256(k)
    ensures Number(Le(v, k)) == v
  {
    if k > 0 {
      NumberOfLe(v / 256, k - 1);
    }
  }

  /** Eight bytes and 64-bit words are in bijection. */
  lemma {:induction false} LeOfNumber(s: seq<Byte>)
    ensures Le(Number(s), |s|) == s
    ensures Number(s) < Pow256(|s|)
  {
    if s != [] {
      LeOfNumber(s[1..]);
      assert Number(s) % 256 == Digit(s[0]) && Number(s) / 256 == Number(s[1..]);
    }
  }

  lemma EightBytes()
    ensures Pow256(8) == WORD
  {
    assert Pow256(2) == 65536;
    assert Pow256(4) == 65536 * 65536;
    assert Pow256(6) == 65536 * 65536 * 65536;
  }

  /** The 64-bit word at a byte offset. */
  function WordAt(p: seq<Byte>, offset: nat): nat
    requires offset + 8 <= |p|
  {
    Number(p[offset..offset + 8])
  }

  lemma WordAtHit(before: seq<Byte>, v: nat, after: seq<Byte>)
    requires v < WORD
    ensures WordAt(before + Le(v, 8) + after, |before|) == v
  {
    EightBytes();
    NumberOfLe(v, 8);
    assert (before + Le(v, 8) + after)[|before|..|before| + 8] == Le(v, 8);
  }

  /** `put64` / `ipc_put64`: eight bytes written in place, nothing else touched. */
  method Put64(p: array<Byte>, offset: nat, v: nat)
    requires offset + 8 <= p.Length
    modifies p
    ensures p[..] == old(p[..offset]) + Le(v, 8) + old(p[offset + 8..])
  {
    var w := v;
    hide Le;
    for i := 0 to 8
      invariant p[..offset] == old(p[..offset]) && p[offset + i..] == old(p[offset + i..])
      invariant p[offset..offset + i] + Le(w, 8 - i) == Le(v, 8)
    {
      ghost var done := p[offset..offset + i];
      LeStep(w, 8 - i);
      AppendOne(done, w % 256, Le(w / 256, 7 - i));
      p[offset + i] := w % 256;
      assert p[offset..offset + i + 1] == done + [w % 256];
      w := w / 256;
    }
    assert p[offset..offset + 8] == Le(v, 8);
    assert p[..] == p[..offset] + p[offset..offset + 8] + p[offset + 8..];
  }

  /** `memcpy` into a buffer that is being filled front to back. */
  method PutBytes(p: array<Byte>, offset: nat, bytes: seq<Byte>)
    requires offset + |bytes| <= p.Length
    modifies p
    ensures p[..offset + |bytes|] == old(p[..offset]) + bytes
    ensures p[offset + |bytes|..] == old(p[offset + |bytes|..])
  {
    for i := 0 to |bytes|
      invariant p[..offset + i] == old(p[..offset]) + bytes[..i]
      invariant p[offset + |bytes|..] == old(p[offset + |bytes|..])
    {
      p[offset + i] := bytes[i];
    }
  }

  /** The same write seen from a buffer that is being filled front to back. */
  method Append64(p: array<Byte>, offset: nat, v: nat)
    requires offset + 8 <= p.Length
    modifies p
    ensures p[..offset + 8] == old(p[..offset]) + Le(v, 8)
    ensures p[offset + 8..] == old(p[offset + 8..])
  {
    hide Le;
    Put64(p, offset, v);
  }

  /** Consecutive words written in a loop. */
  method AppendWords(p: array<Byte>, offset: nat, ws: seq<nat>)
    requires offset + 8 * |ws| <= p.Length
    modifies p
    ensures p[..offset + 8 * |ws|] == old(p[..offset]) + WordsOf(ws)
    ensures p[offset + 8 * |ws|..] == old(p[offset + 8 * |ws|..])
  {
    hide Le;
    for k := 0 to |ws|
      invariant p[..offset + 8 * k] == old(p[..offset]) + WordsOf(ws[..k])
      invariant p[offset + 8 * |ws|..] == old(p[offset + 8 * |ws|..])
    {
      ghost var before := p[..offset + 8 * k];
      ghost var rest := p[offset + 8 * |ws|..];
      Append64(p, offset + 8 * k, ws[k]);
      assert ws[..k + 1][..k] == ws[..k];
      assert p[offset + 8 * (k + 1)..][8 * (|ws| - k - 1)..] == rest;
    }
    assert ws[..|ws|] == ws;
  }

  lemma LeStep(v: nat, k: nat)
    requires k > 0
    ensures Le(v, k) == [v % 256] + Le(v / 256, k - 1)
  {
  }

  lemma AppendOne(a: seq<Byte>, b: Byte, c: seq<Byte>)
    ensures a + ([b] + c) == (a + [b]) + c
  {
  }

  /** `read_u64` / `ipc_u64`. */
  method Read64(p: seq<Byte>, offset: nat) returns (v: nat)
    requires offset + 8 <= |p|
    ensures v == WordAt(p, offset) && v < WORD
  {
    v := 0;
    var i := 8;
    while i > 0
      invariant 0 <= i <= 8
      invariant v == Number(p[offset + i..offset + 8])
    {
      i := i - 1;
      assert p[offset + i..offset + 8][1..] == p[offset + i + 1..offset + 8];
      v := Digit(p[offset + i]) + 256 * v;
    }
    LeOfNumber(p[offset..offset + 8]);
    EightBytes();
  }

  // ---- a run of words ------------------------------------------------------

  function WordsOf(ws: seq<nat>): (s: seq<Byte>)
    ensures |s| == 8 * |ws|
  {
    if ws == [] then [] else WordsOf(ws[..|ws| - 1]) + Le(ws[|ws| - 1], 8)
  }

  lemma {:induction false} WordsOfAt(before: seq<Byte>, ws: seq<nat>, after: seq<Byte>, k: nat)
    requires k < |ws| && ws[k] < WORD
    ensures WordAt(before + WordsOf(ws) + after, |before| + 8 * k) == ws[k]
  {
    var front, last := ws[..|ws| - 1], ws[|ws| - 1];
    assert before + WordsOf(ws) + after == before + WordsOf(front) + (Le(last, 8) + after);
    if k == |ws| - 1 {
      assert before + WordsOf(ws) + after == (before + WordsOf(front)) + Le(last, 8) + after;
      WordAtHit(before + WordsOf(front), last, after);
    } else {
      WordsOfAt(before, front, Le(last, 8) + after, k);
    }
  }

  // ---- doubles -------------------------------------------------------------

  /** How 64-bit words stand for numbers. `value` is None for NaN and the infinities. No law
      is assumed: a number the format cannot hold is simply not `Exact`. */
  datatype Ieee = Ieee(bits: real -> nat, value: nat -> Option<real>) {
    predicate Exact(x: real) { bits(x) < WORD && value(bits(x)) == Some(x) }
    predicate AllExact(xs: seq<real>) { forall i :: 0 <= i < |xs| ==> Exact(xs[i]) }

    /** The number that comes back when `x` is computed, stored and read is `x` up to rounding. */
    predicate Near(x: real, epsilon: real) {
      bits(x) < WORD && value(bits(x)).Some? && Abs(value(bits(x)).value - x) <= epsilon
    }
    predicate AllNear(xs: seq<real>, epsilon: real) { forall i :: 0 <= i < |xs| ==> Near(xs[i], epsilon) }

    /** What comes back of each number. */
    function Stored(xs: seq<real>): (r: seq<real>)
      ensures |r| == |xs|
      ensures forall i :: 0 <= i < |xs| && value(bits(xs[i])).Some? ==> r[i] == value(bits(xs[i])).value
    {
      seq(|xs|, i requires 0 <= i < |xs| => var v := value(bits(xs[i])); if v.Some? then v.value else xs[i])
    }

    function Bits(xs: seq<real>): (ws: seq<nat>)
      ensures |ws| == |xs| && forall i :: 0 <= i < |xs| ==> ws[i] == bits(xs[i])
    {
      if xs == [] then [] else Bits(xs[..|xs| - 1]) + [bits(xs[|xs| - 1])]
    }

    /** `count` doubles from a byte offset; None when one of them is not finite. */
    function ReadAll(p: seq<Byte>, offset: nat, count: nat): (r: Option<seq<real>>)
      requires offset + 8 * count <= |p|
      ensures r.Some? ==> |r.value| == count
    {
      if count == 0 then Some([])
      else
        var front := ReadAll(p, offset, count - 1);
        var last := value(WordAt(p, offset + 8 * (count - 1)));
        if front.None? || last.None? then None else Some(front.value + [last.value])
    }

    lemma {:induction false} ReadWords(p: seq<Byte>, offset: nat, xs: seq<real>, epsilon: real, count: nat)
      requires AllNear(xs, epsilon) && count <= |xs| && offset + 8 * count <= |p|
      requires forall k :: 0 <= k < count ==> WordAt(p, offset + 8 * k) == bits(xs[k])
      ensures ReadAll(p, offset, count) == Some(Stored(xs)[..count])
    {
      if count > 0 {
        hide WordAt;
        ReadWords(p, offset, xs, epsilon, count - 1);
        assert WordAt(p, offset + 8 * (count - 1)) == bits(xs[count - 1]);
        assert Near(xs[count - 1], epsilon);
        assert Stored(xs)[..count] == Stored(xs)[..count - 1] + [Stored(xs)[count - 1]];
      }
    }

    /** Doubles written as words come back as they were stored. */
    lemma ReadStored(before: seq<Byte>, xs: seq<real>, after: seq<Byte>, epsilon: real)
      requires AllNear(xs, epsilon)
      ensures ReadAll(before + WordsOf(Bits(xs)) + after, |before|, |xs|) == Some(Stored(xs))
      ensures forall i :: 0 <= i < |xs| ==> Abs(Stored(xs)[i] - xs[i]) <= epsilon
    {
      hide WordAt, WordsOf, Ieee.ReadAll;
      var p := before + WordsOf(Bits(xs)) + after;
      forall k | 0 <= k < |xs| ensures WordAt(p, |before| + 8 * k) == bits(xs[k]) {
        assert Near(xs[k], epsilon);
        WordsOfAt(before, Bits(xs), after, k);
      }
      ReadWords(p, |before|, xs, epsilon, |xs|);
      assert Stored(xs)[..|xs|] == Stored(xs);
      forall i | 0 <= i < |xs| ensures Abs(Stored(xs)[i] - xs[i]) <= epsilon {
        assert Near(xs[i], epsilon);
      }
    }

    /** Numbers the format holds exactly come back unchanged. */
    lemma ReadBack(before: seq<Byte>, xs: seq<real>, after: seq<Byte>)
      requires AllExact(xs)
      ensures ReadAll(before + WordsOf(Bits(xs)) + after, |before|, |xs|) == Some(xs)
    {
      hide WordAt, WordsOf, Ieee.ReadAll;
      forall i | 0 <= i < |xs| ensures Near(xs[i], 0.0) && Stored(xs)[i] == xs[i] {
        assert Exact(xs[i]);
      }
      ReadStored(before, xs, after, 0.0);
      assert Stored(xs) == xs;
    }
  }

  // A fixed-point format with 45 fractional bits around the middle of the word.
  const SCALE: real := 35184372088832.0
  const MIDDLE: nat := 0x4000_0000_0000_0000

  function FixedBits(x: real): nat {
    var w := (x * SCALE).Floor + MIDDLE;
    if w < 0 then 0 else w
  }

  const FIXED: Ieee := Ieee(FixedBits, w => Some((w - MIDDLE) as real / SCALE))

  /** Such formats exist: this one stores every number of the size that occurs to within 1e-13,
      and every multiple of its step exactly. */
  lemma FixedIsNear(x: real)
    requires -1000.0 <= x <= 1000.0
    ensures FIXED.Near(x, 0.0000000000001)
    ensures (x * SCALE).Floor as real == x * SCALE ==> FIXED.Exact(x)
  {
    var y := x * SCALE;
    var f := y.Floor;
    assert -40000000000000000.0 <= y <= 40000000000000000.0;
    assert FixedBits(x) == f + MIDDLE;
    var back := f as real / SCALE;
    assert back * SCALE == f as real;
    assert y - 1.0 < f as real <= y;
  }
}
