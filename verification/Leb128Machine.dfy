/** The LEB128 loops: writers that fill a buffer of the longest length, and readers that update a
    position, a shift and a result. */
module Leb128Machine {
  import opened Common
  import opened Leb128
  import opened Powers

  /** The loop invariant: what is in the buffer and what is to come make up the encoding, and fit. */
  ghost predicate Holds(done: seq<Byte>, rest: seq<Byte>, all: seq<Byte>, room: nat) {
    done + rest == all && |all| <= room
  }

  lemma OneMore(done: seq<Byte>, b: Byte, rest: seq<Byte>, all: seq<Byte>, room: nat)
    requires Holds(done, [b] + rest, all, room)
    ensures Holds(done + [b], rest, all, room) && |done| < room
  {
    assert done + ([b] + rest) == (done + [b]) + rest;
  }

  method Put(out: array<Byte>, i: nat, b: Byte)
    requires i < out.Length
    modifies out
    ensures out[..i + 1] == old(out[..i]) + [b]
  {
    out[i] := b;
  }

  /** The index never leaves the buffer. */
  method WriteUnsigned(bits: nat, out: array<Byte>, v: nat) returns (len: nat)
    requires bits >= 1 && v < Pow2(bits) && out.Length == MaxLen(bits)
    modifies out
    ensures len <= out.Length && out[..len] == Unsigned(v)
  {
    hide Pow2, MaxLen;
    UnsignedLength(v, bits);
    var value: nat, i := v, 0;
    assert out[..0] + Unsigned(v) == Unsigned(v);
    while value >= 0x80
      invariant i <= out.Length && Holds(out[..i], Unsigned(value), Unsigned(v), out.Length)
      decreases value
    {
      OneMore(out[..i], value % 128 + 128, Unsigned(value / 128), Unsigned(v), out.Length);
      Put(out, i, value % 128 + 128);
      value := value / 128;
      i := i + 1;
    }
    assert [value] == [value] + [];
    OneMore(out[..i], value, [], Unsigned(v), out.Length);
    Put(out, i, value);
    assert out[..i + 1] + [] == out[..i + 1];
    return i + 1;
  }

  method WriteSigned(bits: nat, out: array<Byte>, v: int) returns (len: nat)
    requires bits >= 1 && InWord(bits, v) && out.Length == MaxLen(bits)
    modifies out
    ensures len <= out.Length && out[..len] == Signed(v)
  {
    hide Pow2, MaxLen, IsLast;
    SignedLength(v, bits);
    var value, i := v, 0;
    assert out[..0] + Signed(v) == Signed(v);
    while !IsLast(value)
      invariant i <= out.Length && Holds(out[..i], Signed(value), Signed(v), out.Length)
      decreases if value < 0 then -value else value
    {
      LastRange(value);
      OneMore(out[..i], value % 128 + 128, Signed(value / 128), Signed(v), out.Length);
      Put(out, i, value % 128 + 128);
      value := value / 128;
      i := i + 1;
    }
    assert [value % 128] == [value % 128] + [];
    OneMore(out[..i], value % 128, [], Signed(v), out.Length);
    Put(out, i, value % 128);
    assert out[..i + 1] + [] == out[..i + 1];
    return i + 1;
  }

  ghost function Later(n: nat, r: Option<Taken>): Option<Taken> {
    if r.Some? then Some(Taken(r.value.value, n + r.value.len)) else None
  }

  /** `None` is a panic. */
  method ReadUnsignedLoop(bits: nat, s: seq<Byte>) returns (r: Option<Taken>)
    ensures r == ReadUnsigned(bits, s, 0, 0)
  {
    hide BitOr, Shifted;
    var result: nat, shift: nat, position := 0, 0, 0;
    assert s[0..] == s;
    while position < |s| && shift < bits
      invariant position <= |s|
      invariant ReadUnsigned(bits, s, 0, 0) == Later(position, ReadUnsigned(bits, s[position..], shift, result))
      decreases |s| - position
    {
      var byte := s[position];
      assert s[position..][1..] == s[position + 1..];
      position := position + 1;
      result := BitOr(result, Shifted(bits, byte, shift));
      if byte < 128 {
        return Some(Taken(result, position));
      }
      shift := shift + 7;
    }
    return None;
  }

  method ReadSignedLoop(bits: nat, s: seq<Byte>) returns (r: Option<Taken>)
    requires bits > 0
    ensures r == ReadSigned(bits, s, 0, 0)
  {
    hide BitOr, Shifted, SignExtended, AsSigned;
    var result: nat, shift: nat, position := 0, 0, 0;
    assert s[0..] == s;
    while position < |s| && shift < bits
      invariant position <= |s|
      invariant ReadSigned(bits, s, 0, 0) == Later(position, ReadSigned(bits, s[position..], shift, result))
      decreases |s| - position
    {
      var byte := s[position];
      assert s[position..][1..] == s[position + 1..];
      position := position + 1;
      result := BitOr(result, Shifted(bits, byte, shift));
      shift := shift + 7;
      if byte < 128 {
        return Some(Taken(AsSigned(bits, SignExtended(bits, result, shift, byte >= 64)), position));
      }
    }
    return None;
  }
}
