/** The decoder as it runs: characters are shifted up in a fixed array to make room, and the loops
    update the weight, the delta and the bias. */
module PunycodeMachine {
  import opened Common
  import Utf8
  import opened V0Parser
  import opened Punycode

  /** The closure of `try_small_punycode_decode`: shifting is insertion, and a full buffer refuses. */
  method InsertAt(out: array<char>, len: nat, i: nat, c: char) returns (ok: bool)
    requires i <= len <= out.Length
    modifies out
    ensures ok == (len < out.Length)
    ensures ok ==> out[..len + 1] == Insert(old(out[..len]), i, c)
    ensures !ok ==> out[..] == old(out[..])
  {
    if len == out.Length {
      return false;
    }
    var j := len;
    while j > i
      invariant i <= j <= len
      invariant forall x :: 0 <= x <= j && x < len ==> out[x] == old(out[x])
      invariant forall x :: j < x <= len ==> out[x] == old(out[x - 1])
    {
      out[j] := out[j - 1];
      j := j - 1;
    }
    out[i] := c;
    assert out[..len + 1] == Insert(old(out[..len]), i, c);
    return true;
  }

  /** The inner loop: one delta from position `pos` on. */
  method ReadOne(bytes: string, pos: nat, bias: nat) returns (r: Option<nat>, end: nat)
    requires pos <= |bytes|
    ensures pos <= end <= |bytes|
    ensures ReadDelta(bytes[pos..], 0, bias, 1, 0) == if r.None? then None else Some(Delta(r.value, bytes[end..]))
  {
    hide Threshold, Digit, Times;
    var k: nat, w: nat, delta: nat := 0, 1, 0;
    end := pos;
    while true
      invariant pos <= end <= |bytes|
      invariant ReadDelta(bytes[pos..], 0, bias, 1, 0) == ReadDelta(bytes[end..], k, bias, w, delta)
      decreases |bytes| - end
    {
      if end == |bytes| || Digit(bytes[end]).None? {
        return None, end;
      }
      k := k + BASE;
      var t, d := Threshold(k, bias), Digit(bytes[end]).value;
      assert bytes[end..][0] == bytes[end] && bytes[end..][1..] == bytes[end + 1..];
      end := end + 1;
      if Times(d, w) >= TWO_64 || delta + Times(d, w) >= TWO_64 {
        return None, end;
      }
      delta := delta + Times(d, w);
      if d < t {
        return Some(delta), end;
      }
      if Times(w, BASE - t) >= TWO_64 {
        return None, end;
      }
      w := Times(w, BASE - t);
    }
  }

  method AdaptBias(delta: nat, damp: nat, len: nat) returns (bias: nat)
    requires damp > 0 && len > 0
    ensures bias == Adapt(delta, damp, len)
  {
    hide Quotient;
    var d: nat, k: nat := Quotient(delta, damp), 0;
    d := d + Quotient(d, len);
    ghost var start := d;
    while d > (BASE - T_MIN) * T_MAX / 2
      invariant Scale(d, k) == Scale(start, 0)
      decreases d
    {
      d := d / (BASE - T_MIN);
      k := k + BASE;
    }
    bias := k + (BASE - T_MIN + 1) * d / (d + SKEW);
  }

  /** The ASCII fragment goes in first. */
  method InsertAscii(ascii: string, out: array<char>) returns (ok: bool)
    requires out.Length == SMALL_PUNYCODE_LEN
    modifies out
    ensures ok == (|ascii| <= out.Length)
    ensures ok ==> out[..|ascii|] == ascii
  {
    for len := 0 to |ascii|
      invariant len <= out.Length && out[..len] == ascii[..len]
    {
      var room := InsertAt(out, len, len, ascii[len]);
      if !room {
        return false;
      }
    }
    return true;
  }

  method TrySmallDecode(name: Ident) returns (r: Option<string>)
    ensures r == Decode(name)
  {
    hide ReadDelta, Adapt, Insert, Quotient, Remainder;
    var bytes := name.punycode;
    if bytes == "" {
      return None;
    }
    var out := new char[SMALL_PUNYCODE_LEN](_ => '\0');
    var fits := InsertAscii(name.ascii, out);
    if !fits {
      return None;
    }
    var len: nat, i: nat, n: nat, bias: nat, damp: nat := |name.ascii|, 0, INITIAL_N, INITIAL_BIAS, DAMP;
    var pos := 0;
    assert bytes[pos..] == bytes;
    while true
      invariant len <= out.Length && pos <= |bytes| && damp > 0
      invariant DecodeFrom(out[..len], i, n, bias, damp, bytes[pos..]) == Decode(name)
      decreases |bytes| - pos
    {
      var delta, end := ReadOne(bytes, pos, bias);
      if delta.None? {
        return None;
      }
      var at := i + delta.value;
      var m := n + Quotient(at, len + 1);
      if at >= TWO_64 || m >= TWO_64 || !Utf8.IsScalar(m) {
        return None;
      }
      var room := InsertAt(out, len, Remainder(at, len + 1), m as char);
      if !room {
        return None;
      }
      len := len + 1;
      if end == |bytes| {
        return Some(out[..len]);
      }
      bias := AdaptBias(delta.value, damp, len);
      i, n, damp, pos := Remainder(at, len) + 1, m, 2, end;
    }
  }
}
