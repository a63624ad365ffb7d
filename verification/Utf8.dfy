/** UTF-8 as the Rust standard library encodes and validates it: the bytes of a key in the
    parser's string buffer, and `str::from_utf8` on a slice of that buffer. */
module Utf8 {
  import opened Common

  type Byte = b: int | 0 <= b < 256

  function EncodeChar(c: char): (bs: seq<Byte>)
    ensures 1 <= |bs| <= 4
  {
    var n := c as int;
    if n < 0x80 then [n]
    else if n < 0x800 then [0xC0 + n / 64, 0x80 + n % 64]
    else if n < 0x1_0000 then [0xE0 + n / 4096, 0x80 + n / 64 % 64, 0x80 + n % 64]
    else [0xF0 + n / 262144, 0x80 + n / 4096 % 64, 0x80 + n / 64 % 64, 0x80 + n % 64]
  }

  function Encode(s: string): seq<Byte> {
    if s == "" then [] else EncodeChar(s[0]) + Encode(s[1..])
  }

  /** Length announced by a leading byte; 0 for a byte that cannot lead. */
  function LeadLen(b: Byte): nat {
    if b < 0x80 then 1 else if b < 0xC0 then 0 else if b < 0xE0 then 2
    else if b < 0xF0 then 3 else if b < 0xF8 then 4 else 0
  }

  function CodePoint(bs: seq<Byte>): int
    requires 1 <= |bs| <= 4
  {
    if |bs| == 1 then bs[0]
    else if |bs| == 2 then Join(bs[0] as int - 0xC0, bs[1])
    else if |bs| == 3 then Join(Join(bs[0] as int - 0xE0, bs[1]), bs[2])
    else Join(Join(Join(bs[0] as int - 0xF0, bs[1]), bs[2]), bs[3])
  }

  /** Six more bits from a continuation byte. */
  function Join(high: int, b: Byte): int {
    high * 64 + (b as int - 0x80)
  }

  predicate IsScalar(n: int) {
    0 <= n < 0xD800 || 0xE000 <= n < 0x11_0000
  }

  /** `str::from_utf8`: every character must be the shortest encoding of a scalar value. */
  function Decode(bs: seq<Byte>): Option<string> {
    if bs == [] then Some("") else
      var k := LeadLen(bs[0]);
      if k == 0 || |bs| < k then None else
        var n := CodePoint(bs[..k]);
        if !IsScalar(n) || EncodeChar(n as char) != bs[..k] then None else
          match Decode(bs[k..])
          case None => None
          case Some(t) => Some([n as char] + t)
  }

  lemma EncodeCharDecodes(c: char)
    ensures LeadLen(EncodeChar(c)[0]) == |EncodeChar(c)|
    ensures CodePoint(EncodeChar(c)) == c as int
  {
    var n := c as int;
    if 0x800 <= n < 0x1_0000 {
      assert n / 64 / 64 == n / 4096;
    } else if 0x1_0000 <= n {
      assert n / 64 / 64 == n / 4096;
      assert n / 4096 / 64 == n / 262144;
    }
  }

  lemma {:induction false} DecodeEncode(s: string)
    ensures Decode(Encode(s)) == Some(s)
  {
    if s != "" {
      var c, bs := EncodeChar(s[0]), Encode(s);
      EncodeCharDecodes(s[0]);
      assert bs[..|c|] == c && bs[|c|..] == Encode(s[1..]);
      assert bs[0] == c[0];
      assert [s[0]] + s[1..] == s;
      DecodeEncode(s[1..]);
    }
  }

  /** Whatever decodes is the encoding of what it decodes to. */
  lemma {:induction false} EncodeDecode(bs: seq<Byte>)
    ensures Decode(bs).Some? ==> Encode(Decode(bs).value) == bs
  {
    hide EncodeChar, CodePoint, LeadLen, IsScalar;
    if bs != [] && Decode(bs).Some? {
      var k := LeadLen(bs[0]);
      var s := Decode(bs).value;
      EncodeDecode(bs[k..]);
      EncodeFirst(s, bs[..k], bs[k..]);
      assert bs == bs[..k] + bs[k..];
    }
  }

  lemma EncodeFirst(s: string, first: seq<Byte>, rest: seq<Byte>)
    requires s != "" && EncodeChar(s[0]) == first && Encode(s[1..]) == rest
    ensures Encode(s) == first + rest
  {
    hide EncodeChar;
  }

  lemma {:induction false} EncodeConcat(s: string, t: string)
    ensures Encode(s + t) == Encode(s) + Encode(t)
  {
    if s == "" {
      assert s + t == t;
    } else {
      assert (s + t)[0] == s[0] && (s + t)[1..] == s[1..] + t;
      EncodeConcat(s[1..], t);
    }
  }
}
