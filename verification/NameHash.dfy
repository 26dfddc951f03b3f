/** The 64-bit FNV-1a hashes that bind the motor and joint orders of both processes
    (native/src/policy_state_ipc.hpp:21-30, native/src/sprite_can_shadow.cpp:243-281). */
module NameHash {
  import opened Prelude

  type Name = seq<bv8>

  const OFFSET_BASIS: bv64 := 0xCBF2_9CE4_8422_2325
  const PRIME: bv64 := 0x0000_0100_0000_01B3

  function Times(h: bv64): bv64 { h * PRIME }

  function Mix(h: bv64, byte: bv8): bv64 {
    Times(h ^ (byte as bv64))
  }

  /** FNV-1a over a byte string. */
  function Fnv(h: bv64, bytes: seq<bv8>): bv64
    decreases |bytes|
  {
    if bytes == [] then h else Fnv(Mix(h, bytes[0]), bytes[1..])
  }

  /** A published value of the 64-bit FNV-1a hash: that of the one letter `a`. */
  lemma HashOfLetter()
    ensures Fnv(OFFSET_BASIS, [0x61]) == 0xAF63_DC4C_8601_EC8C
  {
    assert [0x61 as bv8][1..] == [];
    assert OFFSET_BASIS ^ 0x61 == 0xCBF2_9CE4_8422_2344;
    assert Times(0xCBF2_9CE4_8422_2344) == 0xAF63_DC4C_8601_EC8C;
    hide Times;
  }

  lemma {:induction false} FnvConcat(h: bv64, a: seq<bv8>, b: seq<bv8>)
    ensures Fnv(h, a + b) == Fnv(Fnv(h, a), b)
    decreases |a|
  {
    hide Mix, Times;
    if a == [] {
      assert a + b == b;
    } else {
      assert (a + b)[1..] == a[1..] + b;
      FnvConcat(Mix(h, a[0]), a[1..], b);
    }
  }

  /** A list of names as one byte string, every name closed by a zero byte. */
  function Serial(names: seq<Name>): seq<bv8> {
    if names == [] then [] else names[0] + [0] + Serial(names[1..])
  }

  datatype NameFault = InvalidNameOrder

  predicate NameOk(name: Name) { name != [] && 0 !in name }

  predicate NamesOk(names: seq<Name>) {
    && (forall i :: 0 <= i < |names| ==> NameOk(names[i]))
    && (forall i, j :: 0 <= i < j < |names| ==> names[i] != names[j])
  }

  /** The actor's hash: refuses empty, NUL-carrying and repeated names; the separator step
      multiplies without mixing a byte in. */
  method ActorNameHash(names: seq<Name>) returns (r: Result<bv64, NameFault>)
    ensures r == if NamesOk(names) then Ok(Fnv(OFFSET_BASIS, Serial(names))) else Err(InvalidNameOrder)
  {
    hide Mix, Times;
    var h := OFFSET_BASIS;
    var seen: set<Name> := {};
    assert names[0..] == names;
    for i := 0 to |names|
      invariant seen == set k | 0 <= k < i :: names[k]
      invariant NamesOk(names[..i])
      invariant Fnv(h, Serial(names[i..])) == Fnv(OFFSET_BASIS, Serial(names))
    {
      var name := names[i];
      if name == [] || 0 in name || name in seen {
        return Err(InvalidNameOrder);
      }
      seen := seen + {name};
      assert names[i..][1..] == names[i + 1..];
      FnvConcat(h, name + [0], Serial(names[i + 1..]));
      FnvConcat(h, name, [0]);
      h := HashBytes(h, name);
      MixZero(h);
      h := Times(h);
      FnvOne(name, i, names);
    }
    return Ok(h);
  }

  lemma FnvOne(name: Name, i: nat, names: seq<Name>)
    requires i < |names| && name == names[i]
    requires NamesOk(names[..i]) && NameOk(name) && forall k :: 0 <= k < i ==> names[k] != name
    ensures NamesOk(names[..i + 1])
  {
  }

  method HashBytes(h0: bv64, bytes: seq<bv8>) returns (h: bv64)
    ensures h == Fnv(h0, bytes)
  {
    hide Mix, Times;
    h := h0;
    for k := 0 to |bytes|
      invariant Fnv(h, bytes[k..]) == Fnv(h0, bytes)
    {
      assert bytes[k..][1..] == bytes[k + 1..];
      h := MixStep(h, bytes[k]);
    }
  }

  method MixStep(h: bv64, byte: bv8) returns (r: bv64)
    ensures r == Mix(h, byte)
  {
    hide Times;
    var x := h ^ (byte as bv64);
    r := Times(x);
  }

  lemma MixZero(h: bv64)
    ensures Times(h) == Mix(h, 0)
    ensures Fnv(h, [0]) == Mix(h, 0)
  {
    hide Times;
    assert h ^ 0 == h;
    assert (0 as bv8) as bv64 == 0;
    assert Fnv(h, [0]) == Fnv(Mix(h, 0), []);
  }

  /** The controller's hash: the separator step mixes an explicit zero, nothing is refused. */
  method ControllerNameHash(names: seq<Name>) returns (h: bv64)
    ensures h == Fnv(OFFSET_BASIS, Serial(names))
  {
    hide Mix, Times;
    h := OFFSET_BASIS;
    assert names[0..] == names;
    for i := 0 to |names|
      invariant Fnv(h, Serial(names[i..])) == Fnv(OFFSET_BASIS, Serial(names))
    {
      assert names[i..][1..] == names[i + 1..];
      FnvConcat(h, names[i] + [0], Serial(names[i + 1..]));
      FnvConcat(h, names[i], [0]);
      h := HashBytes(h, names[i]);
      MixZero(h);
      h := MixStep(h, 0);
    }
  }

  /** Where a name ends: the first zero byte. */
  function NameEnd(bytes: seq<bv8>): (k: nat)
    requires 0 in bytes
    ensures k < |bytes| && bytes[k] == 0 && 0 !in bytes[..k]
  {
    if bytes[0] == 0 then 0 else 1 + NameEnd(bytes[1..])
  }

  /** Why NUL bytes are refused: on the lists the actor accepts, the hashed byte string
      determines the names and their order. */
  lemma {:induction false} SerialInjective(a: seq<Name>, b: seq<Name>)
    requires forall i :: 0 <= i < |a| ==> 0 !in a[i]
    requires forall i :: 0 <= i < |b| ==> 0 !in b[i]
    requires Serial(a) == Serial(b)
    ensures a == b
  {
    if a != [] && b != [] {
      FirstName(a);
      FirstName(b);
      SerialInjective(a[1..], b[1..]);
      assert a == [a[0]] + a[1..] && b == [b[0]] + b[1..];
    }
  }

  lemma {:induction false} EndOfName(name: Name, rest: seq<bv8>)
    requires 0 !in name
    ensures 0 in name + [0] + rest && NameEnd(name + [0] + rest) == |name|
    decreases |name|
  {
    var s := name + [0] + rest;
    assert s[|name|] == 0;
    if name != [] {
      assert s[1..] == name[1..] + [0] + rest;
      EndOfName(name[1..], rest);
    }
  }

  lemma FirstName(names: seq<Name>)
    requires names != [] && 0 !in names[0]
    ensures var s := Serial(names);
            0 in s && s[..NameEnd(s)] == names[0] && s[NameEnd(s) + 1..] == Serial(names[1..])
  {
    EndOfName(names[0], Serial(names[1..]));
  }
}
