/** LEB128 integers of any width, signed and unsigned: writers into a buffer of the longest length,
    and readers that accumulate shifted bits in a word of that width. */
module Leb128 {
  import opened Common
  import opened Division
  import opened Powers
  import Utf8

  type Byte = Utf8.Byte

  /** A value read, and how many bytes it took. */
  datatype Taken = Taken(value: int, len: nat)

  /** `max_leb128_len` */
  function MaxLen(bits: nat): nat {
    (bits + 6) / 7
  }

  // What is written ----------------------------------------------------------------------------

  function Unsigned(v: nat): (s: seq<Byte>)
    ensures s != []
  {
    if v < 0x80 then [v] else [v % 128 + 128] + Unsigned(v / 128)
  }

  /** Nothing but sign bits is left above this byte. */
  predicate IsLast(v: int) {
    (v / 128 == 0 && v % 128 < 64) || (v / 128 == -1 && v % 128 >= 64)
  }

  function Signed(v: int): (s: seq<Byte>)
    ensures s != []
    decreases if v < 0 then -v else v
  {
    if IsLast(v) then [v % 128] else [v % 128 + 128] + Signed(v / 128)
  }

  // What is read -------------------------------------------------------------------------------

  /** The seven bits of a byte, shifted into a word of `bits` bits: what is shifted out is lost. */
  function Shifted(bits: nat, b: Byte, shift: nat): nat {
    Pow2Positive(bits);
    b % 128 * Pow2(shift) % Pow2(bits)
  }

  function After(r: Option<Taken>): Option<Taken> {
    if r.Some? then Some(Taken(r.value.value, r.value.len + 1)) else None
  }

  /** The loop of the unsigned reader. It panics on a slice that ends too early, and on a shift that
      is not less than the width. */
  function ReadUnsigned(bits: nat, s: seq<Byte>, shift: nat, result: nat): (r: Option<Taken>)
    ensures r.Some? ==> 1 <= r.value.len <= |s|
    decreases |s|
  {
    if s == [] || shift >= bits then None
    else
      var r := BitOr(result, Shifted(bits, s[0], shift));
      if s[0] < 128 then Some(Taken(r, 1)) else After(ReadUnsigned(bits, s[1..], shift + 7, r))
  }

  /** The number that a word stands for in two's complement. */
  function AsSigned(bits: nat, w: nat): int
    requires bits > 0
  {
    if w < Pow2(bits - 1) then w else w - Pow2(bits)
  }

  /** Ones from `shift` up, unless the shift is past the end of the word. */
  function SignExtended(bits: nat, w: nat, shift: nat, negative: bool): nat {
    if shift < bits && negative then
      Pow2Monotone(shift, bits);
      BitOr(w, Pow2(bits) - Pow2(shift))
    else w
  }

  function ReadSigned(bits: nat, s: seq<Byte>, shift: nat, result: nat): (r: Option<Taken>)
    requires bits > 0
    ensures r.Some? ==> 1 <= r.value.len <= |s|
    decreases |s|
  {
    if s == [] || shift >= bits then None
    else
      var r := BitOr(result, Shifted(bits, s[0], shift));
      if s[0] >= 128 then After(ReadSigned(bits, s[1..], shift + 7, r))
      else Some(Taken(AsSigned(bits, SignExtended(bits, r, shift + 7, s[0] >= 64)), 1))
  }

  // Arithmetic ---------------------------------------------------------------------------------

  /** Without loss, the or adds the byte at its place. */
  lemma ShiftedAdds(bits: nat, b: Byte, shift: nat, result: nat)
    requires result < Pow2(shift) && b % 128 * Pow2(shift) < Pow2(bits)
    ensures BitOr(result, Shifted(bits, b, shift)) == result + b % 128 * Pow2(shift)
  {
    var x := b % 128 * Pow2(shift);
    Unique(x, Pow2(bits), 0, x);
    OrAdds(result, b % 128, shift);
  }

  lemma NextPlace(b: nat, p: nat, result: nat, q: int)
    requires result < p && b < 128
    ensures result + b * p < 128 * p
    ensures result + b * p + q * (128 * p) == result + (b + 128 * q) * p
  {
    assert (127 - b) * p >= 0;
    assert q * (128 * p) == 128 * q * p;
  }

  lemma Grows(x: nat, y: nat, p: nat)
    requires x <= y
    ensures 0 <= x * p <= y * p
  {
    assert (y - x) * p >= 0;
    assert x * p >= 0;
  }

  // Unsigned -----------------------------------------------------------------------------------

  lemma {:induction false} UnsignedRead(bits: nat, v: nat, shift: nat, result: nat, rest: seq<Byte>)
    requires result < Pow2(shift) && shift < bits && result + v * Pow2(shift) < Pow2(bits)
    ensures ReadUnsigned(bits, Unsigned(v) + rest, shift, result) ==
            Some(Taken(result + v * Pow2(shift), |Unsigned(v)|))
    decreases v
  {
    hide Shifted, BitOr, Pow2;
    var p, s := Pow2(shift), Unsigned(v) + rest;
    var b := v % 128;
    Grows(b, v, p);
    ShiftedAdds(bits, s[0], shift, result);
    if v >= 128 {
      var q := v / 128;
      assert s[1..] == Unsigned(q) + rest && s[0] % 128 == b;
      Pow2Seven(shift);
      NextPlace(b, p, result, q);
      Grows(128, v, p);
      StillInside(shift + 7, bits);
      UnsignedRead(bits, q, shift + 7, result + b * p, rest);
    }
  }

  lemma StillInside(n: nat, bits: nat)
    requires Pow2(n) < Pow2(bits)
    ensures n < bits
  {
    Pow2Monotone(bits, n);
  }

  lemma SevenBits(v: nat, n: nat)
    requires v < Pow2(n)
    ensures n <= 7 ==> v < 128
    ensures v >= 128 ==> n > 7
  {
    Pow2Monotone(n, 7);
    assert Pow2(7) == 128;
  }

  lemma {:induction false} UnsignedLength(v: nat, n: nat)
    requires n >= 1 && v < Pow2(n)
    ensures |Unsigned(v)| <= MaxLen(n)
    decreases v
  {
    if v >= 128 {
      SevenBits(v, n);
      Pow2Seven(n - 7);
      UnsignedLength(v / 128, n - 7);
    }
  }

  /** For every width and value, whatever follows: the reader returns the value and the length that
      was written, which the writer's buffer holds. */
  lemma UnsignedRoundTrip(bits: nat, v: nat, rest: seq<Byte>)
    requires bits >= 1 && v < Pow2(bits)
    ensures ReadUnsigned(bits, Unsigned(v) + rest, 0, 0) == Some(Taken(v, |Unsigned(v)|))
    ensures |Unsigned(v)| <= MaxLen(bits)
  {
    UnsignedRead(bits, v, 0, 0, rest);
    UnsignedLength(v, bits);
  }

  // Signed -------------------------------------------------------------------------------------

  lemma Half(bits: nat)
    requires bits > 0
    ensures Pow2(bits) == 2 * Pow2(bits - 1)
  {
  }

  lemma LastRange(v: int)
    ensures IsLast(v) <==> -64 <= v < 64
  {
  }

  lemma NegativeStep(v: int, p: nat)
    requires v < 0
    ensures v * p <= -(p as int)
  {
    assert (-v - 1) * p >= 0;
  }

  /** The product of the last byte, modulo the word. */
  lemma Wrapped(p: nat, m: nat, c: nat, d: nat, v: int, result: nat)
    requires p > 0 && m == c * p && 128 * p == d * m && 2 * p <= m && result < p
    requires v < 0 && 0 <= m + 2 * (result + v * p)
    ensures 0 <= v * p + m < m && v * p + m == (v + c) * p
    ensures (v + 128) * p == m * (d - 1) + (v * p + m)
  {
    NegativeStep(v, p);
    assert m * (d - 1) == d * m - m;
    assert (v + 128) * p == v * p + 128 * p;
    assert (v + c) * p == v * p + c * p;
  }

  lemma Cofactor(k: int, p: nat)
    requires p > 0 && k * p >= 0
    ensures k >= 0
  {
    if k < 0 {
      NegativeStep(k, p);
    }
  }

  /** The last byte of a negative number when the word ends inside it: the bits beyond are lost. */
  lemma LastTruncated(bits: nat, b: Byte, shift: nat, result: nat, v: int)
    requires result < Pow2(shift) && shift < bits <= shift + 7 && -64 <= v < 0 && b == v + 128
    requires 0 <= Pow2(bits) + 2 * (result + v * Pow2(shift))
    ensures BitOr(result, Shifted(bits, b, shift)) == result + v * Pow2(shift) + Pow2(bits)
  {
    hide Pow2, BitOr;
    var p, m := Pow2(shift), Pow2(bits);
    var c, d := Pow2(bits - shift), Pow2(shift + 7 - bits);
    Pow2Sum(bits - shift, shift);
    Pow2Sum(shift + 7 - bits, bits);
    Pow2Seven(shift);
    Pow2Positive(shift);
    Pow2Monotone(shift, bits);
    Wrapped(p, m, c, d, v, result);
    Unique((v + 128) * p, m, d - 1, v * p + m);
    Cofactor(v + c, p);
    OrAdds(result, v + c, shift);
  }

  lemma LastExtended(bits: nat, b: Byte, shift: nat, result: nat, v: int)
    requires result < Pow2(shift) && shift + 7 < bits && -64 <= v < 0 && b == v + 128
    ensures var r := BitOr(result, Shifted(bits, b, shift));
            SignExtended(bits, r, shift + 7, true) == result + v * Pow2(shift) + Pow2(bits)
  {
    hide Pow2, BitOr;
    var p := Pow2(shift);
    Pow2Seven(shift);
    Pow2Monotone(shift + 7, bits);
    NextPlace(b, p, result, 0);
    ShiftedAdds(bits, b, shift, result);
    var r := result + b * p;
    var k := Pow2(bits - shift - 7);
    Pow2Sum(bits - shift - 7, shift + 7);
    Pow2Positive(bits - shift - 7);
    assert Pow2(bits) - Pow2(shift + 7) == (k - 1) * Pow2(shift + 7) by {
      assert (k - 1) * Pow2(shift + 7) == k * Pow2(shift + 7) - Pow2(shift + 7);
    }
    OrAdds(r, k - 1, shift + 7);
    assert (v + 128) * p == v * p + 128 * p;
  }

  /** One byte that ends a number. */
  lemma LastRead(bits: nat, shift: nat, result: nat, v: int)
    requires result < Pow2(shift) && shift < bits && IsLast(v) && InWord(bits, result + v * Pow2(shift))
    ensures var r := BitOr(result, Shifted(bits, v % 128, shift));
            AsSigned(bits, SignExtended(bits, r, shift + 7, v % 128 >= 64)) == result + v * Pow2(shift)
  {
    hide BitOr, Pow2, Shifted;
    LastRange(v);
    Half(bits);
    var x := result + v * Pow2(shift);
    if v >= 0 {
      Grows(0, v, Pow2(shift));
      ShiftedAdds(bits, v, shift, result);
    } else {
      NegativeStep(v, Pow2(shift));
      if shift + 7 < bits {
        LastExtended(bits, v + 128, shift, result, v);
      } else {
        LastTruncated(bits, v + 128, shift, result, v);
      }
    }
  }

  ghost predicate InWord(bits: nat, x: int)
    requires bits > 0
  {
    -(Pow2(bits - 1) as int) <= x < Pow2(bits - 1)
  }

  /** A number with more bytes to come does not fill the word yet. */
  lemma MoreRoom(bits: nat, shift: nat, result: nat, v: int)
    requires result < Pow2(shift) && bits > 0 && !IsLast(v) && InWord(bits, result + v * Pow2(shift))
    ensures shift + 7 < bits
  {
    hide Pow2, IsLast;
    LastRange(v);
    Half(bits);
    Pow2Seven(shift);
    BeyondLast(v, Pow2(shift), result, Pow2(bits - 1));
    StillInside(shift + 7, bits);
  }

  lemma BeyondLast(v: int, p: nat, result: nat, h: nat)
    requires result < p && (v >= 64 || v <= -65) && -(h as int) <= result + v * p < h
    ensures 64 * p < h
  {
    if v >= 64 {
      Grows(64, v, p);
    } else {
      Grows(65, -v, p);
      assert (-v) * p == -(v * p);
    }
  }

  lemma {:induction false} SignedRead(bits: nat, v: int, shift: nat, result: nat, rest: seq<Byte>)
    requires result < Pow2(shift) && shift < bits && InWord(bits, result + v * Pow2(shift))
    ensures ReadSigned(bits, Signed(v) + rest, shift, result) ==
            Some(Taken(result + v * Pow2(shift), |Signed(v)|))
    decreases if v < 0 then -v else v
  {
    hide Shifted, BitOr, Pow2, AsSigned, SignExtended, IsLast, InWord;
    var p, s := Pow2(shift), Signed(v) + rest;
    if IsLast(v) {
      LastRead(bits, shift, result, v);
    } else {
      var b, q := v % 128, v / 128;
      assert s[1..] == Signed(q) + rest && s[0] % 128 == b;
      MoreRoom(bits, shift, result, v);
      Pow2Seven(shift);
      Pow2Monotone(shift + 7, bits);
      NextPlace(b, p, result, q);
      ShiftedAdds(bits, s[0], shift, result);
      LastRange(v);
      SignedRead(bits, q, shift + 7, result + b * p, rest);
    }
  }

  lemma {:induction false} SignedLength(v: int, n: nat)
    requires n >= 1 && InWord(n, v)
    ensures |Signed(v)| <= MaxLen(n)
    decreases if v < 0 then -v else v
  {
    LastRange(v);
    if !IsLast(v) {
      SevenSigned(v, n);
      Pow2Seven(n - 8);
      SignedLength(v / 128, n - 7);
    }
  }

  lemma SevenSigned(v: int, n: nat)
    requires n >= 1 && InWord(n, v) && !IsLast(v)
    ensures n > 7
  {
    LastRange(v);
    Pow2Monotone(n - 1, 6);
    assert Pow2(6) == 64;
  }

  /** For every width and value, whatever follows. */
  lemma SignedRoundTrip(bits: nat, v: int, rest: seq<Byte>)
    requires bits >= 1 && InWord(bits, v)
    ensures ReadSigned(bits, Signed(v) + rest, 0, 0) == Some(Taken(v, |Signed(v)|))
    ensures |Signed(v)| <= MaxLen(bits)
  {
    SignedRead(bits, v, 0, 0, rest);
    SignedLength(v, bits);
  }
}
