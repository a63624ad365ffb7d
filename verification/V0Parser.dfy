/** The scanner under the v0 demangler: positions in an ASCII symbol and the lexical productions
    of Rust RFC 2603. A failed scan leaves no position behind, since its caller drops the parser. */
module V0Parser {
  import opened Common
  import opened Decimals
  import Utf8

  const MAX_DEPTH: nat := 500

  datatype ParseError = Invalid | RecursedTooDeep

  datatype Pos = Pos(next: nat, depth: nat)

  datatype Scan<+T> = Got(value: T, at: Pos) | Bad(error: ParseError)

  datatype Ident = Ident(ascii: string, punycode: string) {
    predicate IsEmpty() {
      ascii == "" && punycode == ""
    }
  }

  /** A successful scan consumes at least `least` characters and leaves the depth alone. */
  ghost predicate Advances<T>(sym: string, at: Pos, r: Scan<T>, least: nat) {
    r.Got? ==> at.next + least <= r.at.next <= |sym| && r.at.depth == at.depth
  }

  function Bound(x: nat): (r: Option<nat>) {
    if x < TWO_64 then Some(x) else None
  }

  // Depth ------------------------------------------------------------------------------------

  function PushDepth(at: Pos): (r: Scan<()>) {
    if at.depth + 1 > MAX_DEPTH then Bad(RecursedTooDeep) else Got((), at.(depth := at.depth + 1))
  }

  function PopDepth(at: Pos): Pos
    requires at.depth > 0
  {
    at.(depth := at.depth - 1)
  }

  // Characters -------------------------------------------------------------------------------

  predicate Sees(sym: string, at: Pos, c: char) {
    at.next < |sym| && sym[at.next] == c
  }

  function Skip(at: Pos): Pos {
    at.(next := at.next + 1)
  }

  function Next(sym: string, at: Pos): (r: Scan<char>)
    ensures Advances(sym, at, r, 1)
    ensures r.Got? ==> r.at.next == at.next + 1 && Sees(sym, at, r.value)
  {
    if at.next < |sym| then Got(sym[at.next], Skip(at)) else Bad(Invalid)
  }

  predicate IsNibble(c: char) {
    IsDigit(c) || 'a' <= c <= 'f'
  }

  /** The nibbles up to the closing underscore. */
  function HexNibbles(sym: string, at: Pos): (r: Scan<string>)
    requires at.next <= |sym|
    ensures Advances(sym, at, r, 1)
    ensures r.Got? ==> forall i :: 0 <= i < |r.value| ==> IsNibble(r.value[i])
    decreases |sym| - at.next
  {
    if at.next == |sym| then Bad(Invalid)
    else if sym[at.next] == '_' then Got("", Skip(at))
    else if !IsNibble(sym[at.next]) then Bad(Invalid)
    else
      match HexNibbles(sym, Skip(at))
      case Bad(e) => Bad(e)
      case Got(rest, after) => Got([sym[at.next]] + rest, after)
  }

  // Numbers ----------------------------------------------------------------------------------

  function Digit62(c: char): (d: Option<nat>)
    ensures d.Some? ==> d.value < 62
  {
    if IsDigit(c) then Some(c as nat - '0' as nat)
    else if 'a' <= c <= 'z' then Some(10 + (c as nat - 'a' as nat))
    else if 'A' <= c <= 'Z' then Some(36 + (c as nat - 'A' as nat))
    else None
  }

  /** The loop of `integer_62`: digits onto `x`, up to the underscore. */
  function Digits62(sym: string, at: Pos, x: nat): (r: Scan<nat>)
    requires at.next <= |sym|
    ensures Advances(sym, at, r, 1)
    decreases |sym| - at.next
  {
    if Sees(sym, at, '_') then Got(x, Skip(at))
    else if at.next == |sym| || Digit62(sym[at.next]).None? then Bad(Invalid)
    else
      var y := x * 62 + Digit62(sym[at.next]).value;
      if y < TWO_64 then Digits62(sym, Skip(at), y) else Bad(Invalid)
  }

  function Succ(r: Scan<nat>): Scan<nat> {
    if r.Got? && r.value + 1 < TWO_64 then Got(r.value + 1, r.at) else Bad(Invalid)
  }

  function Integer62(sym: string, at: Pos): (r: Scan<nat>)
    requires at.next <= |sym|
    ensures Advances(sym, at, r, 1)
  {
    if Sees(sym, at, '_') then Got(0, Skip(at)) else Succ(Digits62(sym, at, 0))
  }

  function OptInteger62(sym: string, at: Pos, tag: char): (r: Scan<nat>)
    requires at.next <= |sym|
    ensures Advances(sym, at, r, 0)
  {
    if Sees(sym, at, tag) then Succ(Integer62(sym, Skip(at))) else Got(0, at)
  }

  function Disambiguator(sym: string, at: Pos): (r: Scan<nat>)
    requires at.next <= |sym|
    ensures Advances(sym, at, r, 0)
  {
    OptInteger62(sym, at, 's')
  }

  // Names ------------------------------------------------------------------------------------

  /** A special namespace is kept; an unspecified one is not. */
  function Namespace(sym: string, at: Pos): (r: Scan<Option<char>>)
    ensures Advances(sym, at, r, 1)
  {
    match Next(sym, at)
    case Bad(e) => Bad(e)
    case Got(c, after) =>
      if 'A' <= c <= 'Z' then Got(Some(c), after)
      else if 'a' <= c <= 'z' then Got(None, after)
      else Bad(Invalid)
  }

  /** The decimal length of an identifier, continued from `len`. */
  function Length(sym: string, at: Pos, len: nat): (r: Scan<nat>)
    requires at.next <= |sym|
    ensures Advances(sym, at, r, 0)
    decreases |sym| - at.next
  {
    if at.next == |sym| || !IsDigit(sym[at.next]) then Got(len, at)
    else
      var n := len * 10 + (sym[at.next] as nat - '0' as nat);
      if n < TWO_64 then Length(sym, Skip(at), n) else Bad(Invalid)
  }

  /** The position of the last underscore. */
  function LastUnderscore(s: string): (r: Option<nat>)
    ensures r.Some? ==> r.value < |s| && s[r.value] == '_'
  {
    if s == "" then None
    else if s[|s| - 1] == '_' then Some(|s| - 1)
    else LastUnderscore(s[..|s| - 1])
  }

  function SplitPunycode(s: string): Ident {
    match LastUnderscore(s)
    case Some(i) => Ident(s[..i], s[i + 1..])
    case None => Ident("", s)
  }

  /** The characters of an identifier of this length. */
  function Named(sym: string, at: Pos, len: nat, punycode: bool): (r: Scan<Ident>)
    requires at.next <= |sym|
    ensures Advances(sym, at, r, 0)
  {
    var start := if Sees(sym, at, '_') then at.next + 1 else at.next;
    if start + len > |sym| then Bad(Invalid)
    else
      var s, after := sym[start..start + len], at.(next := start + len);
      if !punycode then Got(Ident(s, ""), after)
      else if SplitPunycode(s).punycode == "" then Bad(Invalid)
      else Got(SplitPunycode(s), after)
  }

  function ScanIdent(sym: string, at: Pos): (r: Scan<Ident>)
    requires at.next <= |sym|
    ensures Advances(sym, at, r, 1)
  {
    var punycode := Sees(sym, at, 'u');
    var begin := if punycode then Skip(at) else at;
    if begin.next == |sym| || !IsDigit(sym[begin.next]) then Bad(Invalid)
    else
      var first := sym[begin.next] as nat - '0' as nat;
      match if first == 0 then Got(0, Skip(begin)) else Length(sym, Skip(begin), first)
      case Bad(e) => Bad(e)
      case Got(len, after) => Named(sym, after, len, punycode)
  }

  // Back references --------------------------------------------------------------------------

  /** Where a back reference leads: strictly before its own tag, one level deeper. */
  function Backref(sym: string, at: Pos): (r: Scan<Pos>)
    requires 0 < at.next <= |sym|
    ensures Advances(sym, at, r, 1)
    ensures r.Got? ==> r.value.next < at.next - 1 && r.value.depth == at.depth + 1 <= MAX_DEPTH
  {
    match Integer62(sym, at)
    case Bad(e) => Bad(e)
    case Got(i, after) =>
      if i >= at.next - 1 then Bad(Invalid)
      else
        match PushDepth(Pos(i, at.depth))
        case Bad(e) => Bad(e)
        case Got(_, target) => Got(target, after)
  }

  // Constants --------------------------------------------------------------------------------

  function Nibble(c: char): (d: nat)
    requires IsNibble(c)
    ensures d < 16
  {
    if IsDigit(c) then c as nat - '0' as nat else 10 + (c as nat - 'a' as nat)
  }

  predicate AllNibbles(s: string) {
    forall i :: 0 <= i < |s| ==> IsNibble(s[i])
  }

  function TrimZeros(s: string): (r: string)
    ensures AllNibbles(s) ==> AllNibbles(r)
    ensures r == "" || r[0] != '0'
  {
    if s != "" && s[0] == '0' then TrimZeros(s[1..]) else s
  }

  /** The number the nibbles spell, the most significant first. */
  function HexValue(s: string): nat
    requires AllNibbles(s)
  {
    if s == "" then 0 else HexValue(s[..|s| - 1]) * 16 + Nibble(s[|s| - 1])
  }

  /** `try_parse_uint`: at most sixteen nibbles after the leading zeros. */
  function ParseUint(s: string): Option<nat>
    requires AllNibbles(s)
  {
    var t := TrimZeros(s);
    if |t| > 16 then None else Some(HexValue(t))
  }

  function PairBytes(s: string): seq<Utf8.Byte>
    requires AllNibbles(s) && |s| % 2 == 0
  {
    if s == "" then [] else [Nibble(s[0]) * 16 + Nibble(s[1])] + PairBytes(s[2..])
  }

  /** `try_parse_str_chars` */
  function ParseChars(s: string): Option<string>
    requires AllNibbles(s)
  {
    if |s| % 2 != 0 then None
    else Utf8.Decode(PairBytes(s))
  }

  // A number is refused exactly when it does not fit 64 bits ----------------------------------

  function Pow16(n: nat): nat {
    if n == 0 then 1 else 16 * Pow16(n - 1)
  }

  lemma {:induction false} TrimmedValue(s: string)
    requires AllNibbles(s)
    ensures HexValue(TrimZeros(s)) == HexValue(s)
  {
    if s != "" && s[0] == '0' {
      TrimmedValue(s[1..]);
      LeadingNibble(s);
    }
  }

  lemma Shifted(d: nat, p: nat, v: nat, e: nat)
    requires v < p && e < 16
    ensures (d * p + v) * 16 + e == d * (16 * p) + (v * 16 + e)
    ensures v * 16 + e < 16 * p
  {
  }

  lemma {:induction false} LeadingNibble(s: string)
    requires AllNibbles(s) && s != ""
    ensures HexValue(s) == Nibble(s[0]) * Pow16(|s| - 1) + HexValue(s[1..])
    ensures HexValue(s[1..]) < Pow16(|s| - 1)
  {
    hide Nibble;
    if |s| == 1 {
      assert s[..0] == "" && s[1..] == "";
    } else {
      var init, tail := s[..|s| - 1], s[1..];
      LeadingNibble(init);
      assert tail[..|tail| - 1] == init[1..] && tail[|tail| - 1] == s[|s| - 1];
      assert HexValue(tail) == HexValue(init[1..]) * 16 + Nibble(s[|s| - 1]);
      Shifted(Nibble(s[0]), Pow16(|init| - 1), HexValue(init[1..]), Nibble(s[|s| - 1]));
    }
  }

  lemma {:induction false} Pow16Monotone(a: nat, b: nat)
    requires a <= b
    ensures Pow16(a) <= Pow16(b)
  {
    if a < b {
      Pow16Monotone(a, b - 1);
    }
  }

  lemma Pow16Sixteen()
    ensures Pow16(16) == TWO_64
  {
    assert Pow16(4) == 0x1_0000;
    assert Pow16(8) == 0x1_0000 * 0x1_0000;
    assert Pow16(12) == 0x1_0000 * 0x1_0000 * 0x1_0000;
  }

  lemma ScaledBounds(d: nat, p: nat, v: nat)
    requires 1 <= d <= 15 && v < p
    ensures p <= d * p + v < 16 * p
  {
  }

  lemma LeadingBounds(t: string)
    requires AllNibbles(t) && t != "" && t[0] != '0'
    ensures Pow16(|t| - 1) <= HexValue(t) < Pow16(|t|)
  {
    hide HexValue;
    LeadingNibble(t);
    ScaledBounds(Nibble(t[0]), Pow16(|t| - 1), HexValue(t[1..]));
  }

  lemma NibblesFit(t: string)
    requires AllNibbles(t) && t != "" && t[0] != '0'
    ensures |t| <= 16 <==> HexValue(t) < Pow16(16)
  {
    hide HexValue, Pow16;
    LeadingBounds(t);
    if |t| > 16 {
      Pow16Monotone(16, |t| - 1);
    } else {
      Pow16Monotone(|t|, 16);
    }
  }

  /** The sixteen-nibble test refuses exactly the numbers that do not fit 64 bits. */
  lemma UintExact(s: string)
    requires AllNibbles(s)
    ensures ParseUint(s) == Bound(HexValue(s))
  {
    hide Pow16;
    TrimmedValue(s);
    Pow16Sixteen();
    if TrimZeros(s) != "" {
      NibblesFit(TrimZeros(s));
    }
  }
}
