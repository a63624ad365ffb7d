/** The text the two JSON encoders write for a float-free value. */
module JsonPrinter {
  import opened Common
  import opened Decimals
  import opened JsonValue
  import opened JsonLexer

  /** Without line breaks, or with them and so many spaces a level. */
  datatype Style = Dense | Indented(indent: nat)

  function IntText(i: int): string {
    if i < 0 then "-" + Decimal(-i) else Decimal(i)
  }

  function HexDigit(d: nat): char
    requires d < 16
  {
    if d < 10 then ('0' as int + d) as char else ('a' as int + d - 10) as char
  }

  /** The escape table of `escape_str`; `None` for a character written as it is. */
  function EscapeOf(c: char): Option<string> {
    if c == '"' then Some("\\\"")
    else if c == '\\' then Some("\\\\")
    else if c == 8 as char then Some("\\b")
    else if c == '\t' then Some("\\t")
    else if c == '\n' then Some("\\n")
    else if c == 12 as char then Some("\\f")
    else if c == '\r' then Some("\\r")
    else if c < 0x20 as char || c == 0x7F as char then
      Some("\\u00" + [HexDigit(c as int / 16), HexDigit(c as int % 16)])
    else None
  }

  function EscapedChar(c: char): string {
    match EscapeOf(c)
    case Some(e) => e
    case None => [c]
  }

  function Escaped(s: string): string {
    if s == "" then "" else EscapedChar(s[0]) + Escaped(s[1..])
  }

  function StrText(s: string): string {
    "\"" + (Escaped(s) + "\"")
  }

  function Spaces(n: nat): string {
    seq(n, i => ' ')
  }

  /** A line break followed by the indentation. */
  function Break(style: Style, level: nat): string {
    match style
    case Dense => ""
    case Indented(_) => "\n" + Spaces(level)
  }

  function Deeper(style: Style, level: nat): nat {
    if style.Indented? then level + style.indent else level
  }

  function Colon(style: Style): string {
    if style.Dense? then ":" else ": "
  }

  predicate FloatFree(v: Json) {
    match v
    case F64(_) => false
    case Array(vs) => forall i :: 0 <= i < |vs| ==> FloatFree(vs[i])
    case Object(ms) => forall i :: 0 <= i < |ms| ==> FloatFree(ms[i].value)
    case _ => true
  }

  function Print(v: Json, style: Style, level: nat): (s: string)
    requires FloatFree(v)
    decreases v, 1
  {
    match v
    case I64(i) => IntText(i)
    case U64(u) => Decimal(u)
    case String(s) => StrText(s)
    case Boolean(b) => if b then "true" else "false"
    case Null => "null"
    case Array(vs) => if vs == [] then "[]" else "[" + PrintElems(v, 0, style, level)
    case Object(ms) => if ms == [] then "{}" else "{" + PrintMembers(v, 0, style, level)
  }

  /** The elements from the `i`-th on, with the closing bracket. */
  function PrintElems(v: Json, i: nat, style: Style, level: nat): string
    requires FloatFree(v) && v.Array? && i < |v.elems|
    decreases v, 0, |v.elems| - i
  {
    var inner := Deeper(style, level);
    Break(style, inner) + (Print(v.elems[i], style, inner)
                           + (if i + 1 == |v.elems| then Break(style, level) + "]"
                              else "," + PrintElems(v, i + 1, style, level)))
  }

  /** The members from the `i`-th on, with the closing brace. */
  function PrintMembers(v: Json, i: nat, style: Style, level: nat): string
    requires FloatFree(v) && v.Object? && i < |v.members|
    decreases v, 0, |v.members| - i
  {
    var inner := Deeper(style, level);
    Break(style, inner) + (StrText(v.members[i].key) + (Colon(style) + (Print(v.members[i].value, style, inner)
                           + (if i + 1 == |v.members| then Break(style, level) + "}"
                              else "," + PrintMembers(v, i + 1, style, level)))))
  }

  function Compact(v: Json): string
    requires FloatFree(v)
  {
    Print(v, Dense, 0)
  }

  function Pretty(v: Json, indent: nat): string
    requires FloatFree(v)
  {
    Print(v, Indented(indent), 0)
  }
}
