/** The scanning half of the JSON parser: whitespace, numbers, string literals, keywords.
    A scanner takes the unread input (current character first) and returns what it read
    with the input left over, or the error code it stops with. */
module JsonLexer {
  import opened Common
  import opened Decimals
  import opened JsonValue

  datatype Lex<+T> = Ok(value: T, rest: string) | Err(code: ErrorCode)

  datatype Event =
    | ObjectStart
    | ObjectEnd
    | ArrayStart
    | ArrayEnd
    | BooleanValue(b: bool)
    | I64Value(i: int)
    | U64Value(u: nat)
    | F64Value(f: Float)
    | StringValue(s: string)
    | NullValue
    | Error(code: ErrorCode)

  predicate At(s: string, c: char) {
    s != "" && s[0] == c
  }

  predicate IsSpace(c: char) {
    c == ' ' || c == '\n' || c == '\t' || c == '\r'
  }

  function SkipSpace(s: string): (r: string)
    ensures |r| <= |s|
    ensures r == "" || !IsSpace(r[0])
  {
    if s != "" && IsSpace(s[0]) then SkipSpace(s[1..]) else s
  }

  // Numbers ----------------------------------------------------------------------------------

  /** One digit of the u64 accumulator, with its wrap-around. */
  function Accumulate(accum: nat, c: char): (r: nat)
    requires IsDigit(c)
    ensures r < TWO_64
  {
    (accum * 10 + DigitValue(c)) % TWO_64
  }

  /** The digit loop of `parse_u64`. The overflow test compares with a value that stays 0,
      so only an accumulator that wraps to exactly 0 is rejected. */
  function ScanDigits(s: string, accum: nat): (r: Lex<nat>)
    requires accum < TWO_64
    ensures r.Ok? ==> |r.rest| <= |s| && r.value < TWO_64
    ensures r.Ok? && s != "" && IsDigit(s[0]) ==> |r.rest| < |s|
  {
    if s == "" || !IsDigit(s[0]) then Ok(accum, s)
    else
      var a := Accumulate(accum, s[0]);
      if a <= 0 then Err(InvalidNumber) else ScanDigits(s[1..], a)
  }

  function ParseU64(s: string): (r: Lex<nat>)
    ensures r.Ok? ==> |r.rest| < |s| && r.value < TWO_64
  {
    if At(s, '0') then
      if s[1..] != "" && IsDigit(s[1]) then Err(InvalidNumber) else Ok(0, s[1..])
    else if s != "" && IsDigit(s[0]) then ScanDigits(s, 0)
    else Err(InvalidNumber)
  }

  /** `(res as i64).wrapping_neg()`. */
  function NegateAsI64(n: nat): int
    requires n < TWO_64
  {
    if n < TWO_63 then 0 - n else if n == TWO_63 then n - TWO_64 else TWO_64 - n
  }

  /** A maximal run of digits. */
  function TakeDigits(s: string): (r: (string, string))
    ensures s == r.0 + r.1
    ensures forall i :: 0 <= i < |r.0| ==> IsDigit(r.0[i])
    ensures r.1 == "" || !IsDigit(r.1[0])
  {
    if s != "" && IsDigit(s[0]) then
      var (d, t) := TakeDigits(s[1..]); ([s[0]] + d, t)
    else ("", s)
  }

  function ParseDecimal(s: string): (r: Lex<string>)
    requires At(s, '.')
    ensures r.Ok? ==> |r.rest| < |s|
  {
    var (d, t) := TakeDigits(s[1..]);
    if d == "" then Err(InvalidNumber) else Ok(d, t)
  }

  function ParseExponent(s: string): (r: Lex<Exponent>)
    requires At(s, 'e') || At(s, 'E')
    ensures r.Ok? ==> |r.rest| < |s|
  {
    var t := s[1..];
    var neg := At(t, '-');
    var (d, u) := TakeDigits(if At(t, '+') || neg then t[1..] else t);
    if d == "" then Err(InvalidNumber) else Ok(Exponent(neg, d), u)
  }

  function ParseFloat(neg: bool, whole: nat, s: string): (r: Lex<Event>)
    requires At(s, '.') || At(s, 'e') || At(s, 'E')
    ensures r.Ok? ==> |r.rest| < |s|
  {
    var frac := if At(s, '.') then
                  match ParseDecimal(s)
                  case Err(e) => Err(e)
                  case Ok(d, t) => Ok(Some(d), t)
                else Ok(None, s);
    match frac
    case Err(e) => Err(e)
    case Ok(d, t) =>
      if At(t, 'e') || At(t, 'E') then
        match ParseExponent(t)
        case Err(e) => Err(e)
        case Ok(x, u) => Ok(F64Value(Float(neg, whole, d, Some(x))), u)
      else Ok(F64Value(Float(neg, whole, d, None)), t)
  }

  /** What `parse_number` does after the integer part. */
  function FinishNumber(neg: bool, res: nat, t: string): (r: Lex<Event>)
    requires res < TWO_64
    ensures r.Ok? ==> |r.rest| <= |t|
  {
    if At(t, '.') || At(t, 'e') || At(t, 'E') then ParseFloat(neg, res, t)
    else if neg then
      var v := NegateAsI64(res);
      if v > 0 then Err(InvalidNumber) else Ok(I64Value(v), t)
    else Ok(U64Value(res), t)
  }

  function ParseNumber(s: string): (r: Lex<Event>)
    ensures r.Ok? ==> |r.rest| < |s|
  {
    var neg := At(s, '-');
    match ParseU64(if neg then s[1..] else s)
    case Err(e) => Err(e)
    case Ok(res, t) => FinishNumber(neg, res, t)
  }

  // Strings ----------------------------------------------------------------------------------

  predicate IsHex(c: char) {
    IsDigit(c) || 'a' <= c <= 'f' || 'A' <= c <= 'F'
  }

  function HexValue(c: char): (v: nat)
    requires IsHex(c)
    ensures v < 16
  {
    if IsDigit(c) then DigitValue(c)
    else if 'a' <= c <= 'f' then 10 + (c as int - 'a' as int)
    else 10 + (c as int - 'A' as int)
  }

  function Hex4Value(h: string): (n: nat)
    requires |h| == 4 && forall i :: 0 <= i < 4 ==> IsHex(h[i])
    ensures n < 0x1_0000
  {
    ((HexValue(h[0]) * 16 + HexValue(h[1])) * 16 + HexValue(h[2])) * 16 + HexValue(h[3])
  }

  /** `decode_hex_escape`, on the input after the `u`. */
  function DecodeHexEscape(s: string): (r: Lex<nat>)
    ensures r.Ok? ==> r.value < 0x1_0000 && |r.rest| < |s|
  {
    if |s| >= 4 && IsHex(s[0]) && IsHex(s[1]) && IsHex(s[2]) && IsHex(s[3])
    then Ok(Hex4Value(s[..4]), s[4..])
    else Err(InvalidEscape)
  }

  predicate IsLowSurrogate(n: nat) {
    0xDC00 <= n <= 0xDFFF
  }

  predicate IsHighSurrogate(n: nat) {
    0xD800 <= n <= 0xDBFF
  }

  function JoinSurrogates(hi: nat, lo: nat): char
    requires IsHighSurrogate(hi) && IsLowSurrogate(lo)
  {
    ((hi - 0xD800) * 1024 + (lo - 0xDC00) + 0x1_0000) as char
  }

  function DecodeUnicodeEscape(s: string): (r: Lex<char>)
    ensures r.Ok? ==> |r.rest| < |s|
  {
    match DecodeHexEscape(s)
    case Err(e) => Err(e)
    case Ok(n, t) =>
      if IsLowSurrogate(n) then Err(LoneLeadingSurrogateInHexEscape)
      else if IsHighSurrogate(n) then
        if |t| >= 2 && t[0] == '\\' && t[1] == 'u' then
          match DecodeHexEscape(t[2..])
          case Err(e) => Err(e)
          case Ok(m, u) =>
            if IsLowSurrogate(m) then Ok(JoinSurrogates(n, m), u)
            else Err(LoneLeadingSurrogateInHexEscape)
        else Err(UnexpectedEndOfHexEscape)
      else Ok(n as char, t)
  }

  /** The one-letter escapes. */
  function ShortEscape(c: char): Option<char> {
    if c == '"' then Some('"')
    else if c == '\\' then Some('\\')
    else if c == '/' then Some('/')
    else if c == 'b' then Some(8 as char)
    else if c == 'f' then Some(12 as char)
    else if c == 'n' then Some('\n')
    else if c == 'r' then Some('\r')
    else if c == 't' then Some('\t')
    else None
  }

  /** An escape, on the input after the backslash. */
  function DecodeEscape(s: string): (r: Lex<char>)
    ensures r.Ok? ==> |r.rest| < |s|
  {
    if s == "" then Err(EOFWhileParsingString)
    else match ShortEscape(s[0])
      case Some(c) => Ok(c, s[1..])
      case None => if s[0] == 'u' then DecodeUnicodeEscape(s[1..]) else Err(InvalidEscape)
  }

  function Prepend(prefix: string, r: Lex<string>): Lex<string> {
    match r
    case Ok(v, rest) => Ok(prefix + v, rest)
    case Err(_) => r
  }

  /** `parse_str`, on the input after the opening quote. */
  function ParseStr(s: string): (r: Lex<string>)
    ensures r.Ok? ==> |r.rest| < |s|
    decreases |s|
  {
    if s == "" then Err(EOFWhileParsingString)
    else if s[0] == '"' then Ok("", s[1..])
    else if s[0] == '\\' then
      match DecodeEscape(s[1..])
      case Err(e) => Err(e)
      case Ok(c, t) => Prepend([c], ParseStr(t))
    else Prepend([s[0]], ParseStr(s[1..]))
  }

  // Values -----------------------------------------------------------------------------------

  function ParseIdent(s: string, ident: string, value: Event): (r: Lex<Event>)
    ensures r.Ok? ==> |r.rest| == |s| - |ident| && ident <= s
  {
    if ident <= s then Ok(value, s[|ident|..]) else Err(InvalidSyntax)
  }

  /** `parse_value`: a scalar, or the bracket that opens a container. */
  function ParseValue(s: string): (r: Lex<Event>)
    ensures r.Ok? ==> |r.rest| < |s| && !r.value.Error? && !r.value.ArrayEnd? && !r.value.ObjectEnd?
  {
    if s == "" then Err(EOFWhileParsingValue)
    else if s[0] == 'n' then ParseIdent(s, "null", NullValue)
    else if s[0] == 't' then ParseIdent(s, "true", BooleanValue(true))
    else if s[0] == 'f' then ParseIdent(s, "false", BooleanValue(false))
    else if IsDigit(s[0]) || s[0] == '-' then ParseNumber(s)
    else if s[0] == '"' then
      match ParseStr(s[1..])
      case Ok(v, rest) => Ok(StringValue(v), rest)
      case Err(e) => Err(e)
    else if s[0] == '[' then Ok(ArrayStart, s[1..])
    else if s[0] == '{' then Ok(ObjectStart, s[1..])
    else Err(InvalidSyntax)
  }
}
