/** Concrete syntax trees for JSON texts (RFC 8259 sections 2 to 7): an account of which texts there are
    (`Unparse`) and of what each of them denotes (`Meaning`), with tables of its own. */
module JsonGrammar {
  import opened Common
  import opened Decimals
  import opened JsonValue
  import Utf8

  // Lexemes ----------------------------------------------------------------------------------

  /** A number token. The exponent keeps its letter and sign as written. */
  datatype Number = Number(neg: bool, digits: string, fraction: Option<string>, exponent: Option<ExpLexeme>)

  datatype ExpLexeme = ExpLexeme(letter: char, sign: string, digits: string)

  /** One character of a string literal, as written. */
  datatype StrItem =
    | Plain(c: char)
    | Short(letter: char)
    | Hex(h: string)
    | Pair(hi: string, lo: string)

  /** Section 2: insignificant whitespace. */
  predicate IsBlank(c: char) {
    c == ' ' || c == '\t' || c == '\n' || c == '\r'
  }

  ghost predicate AllSpace(s: string) {
    forall i :: 0 <= i < |s| ==> IsBlank(s[i])
  }

  /** A hexadecimal digit, in either case. */
  function Hexit(c: char): (d: Option<nat>)
    ensures d.Some? ==> d.value < 16
  {
    if '0' <= c <= '9' then Some(c as nat - '0' as nat)
    else if 'a' <= c <= 'f' then Some(c as nat - 'a' as nat + 10)
    else if 'A' <= c <= 'F' then Some(c as nat - 'A' as nat + 10)
    else None
  }

  ghost predicate AllHex(s: string) {
    |s| == 4 && forall i :: 0 <= i < 4 ==> Hexit(s[i]).Some?
  }

  ghost function HexNumber(h: string): (n: nat)
    requires AllHex(h)
    ensures n < 0x1_0000
  {
    0x1000 * Hexit(h[0]).value + 0x100 * Hexit(h[1]).value + 0x10 * Hexit(h[2]).value + Hexit(h[3]).value
  }

  /** Section 7: the two-character escapes. */
  function EscapeMeaning(letter: char): Option<char> {
    match letter
    case '"' => Some('"')
    case '\\' => Some('\\')
    case '/' => Some('/')
    case 'b' => Some(0x08 as char)
    case 'f' => Some(0x0C as char)
    case 'n' => Some(0x0A as char)
    case 'r' => Some(0x0D as char)
    case 't' => Some(0x09 as char)
    case _ => None
  }

  /** Section 7: the two halves of a UTF-16 pair. */
  predicate IsHighUnit(n: nat) {
    0xD800 <= n < 0xDC00
  }

  predicate IsLowUnit(n: nat) {
    0xDC00 <= n < 0xE000
  }

  /** The character past the basic plane whose ten upper bits are in `hi` and ten lower bits in `lo`. */
  function PairChar(hi: nat, lo: nat): char
    requires IsHighUnit(hi) && IsLowUnit(lo)
  {
    (0x1_0000 + 0x400 * (hi - 0xD800) + (lo - 0xDC00)) as char
  }

  /** No leading zero, and no prefix that the 64-bit accumulator sees as 0. */
  ghost predicate WfDigits(s: string) {
    && AllDigits(s)
    && s != ""
    && (s == "0" || forall k :: 0 < k <= |s| ==> DecimalValue(s[..k]) % TWO_64 != 0)
  }

  ghost predicate WfNumber(n: Number) {
    && WfDigits(n.digits)
    && (n.fraction.Some? ==> n.fraction.value != "" && AllDigits(n.fraction.value))
    && (n.exponent.Some? ==> WfExponent(n.exponent.value))
    && (n.neg && n.fraction.None? && n.exponent.None? ==> DecimalValue(n.digits) % TWO_64 <= TWO_63)
  }

  ghost predicate WfExponent(x: ExpLexeme) {
    && (x.letter == 'e' || x.letter == 'E')
    && (x.sign == "" || x.sign == "+" || x.sign == "-")
    && x.digits != "" && AllDigits(x.digits)
  }

  ghost function SignText(neg: bool): string {
    if neg then "-" else ""
  }

  ghost function FractionText(f: Option<string>): string {
    if f.Some? then "." + f.value else ""
  }

  ghost function UnparseExponent(x: ExpLexeme): string {
    [x.letter] + (x.sign + x.digits)
  }

  ghost function ExponentText(x: Option<ExpLexeme>): string {
    if x.Some? then UnparseExponent(x.value) else ""
  }

  ghost function UnparseNumber(n: Number): string {
    SignText(n.neg) + (n.digits + (FractionText(n.fraction) + ExponentText(n.exponent)))
  }

  ghost function ExponentMeaning(x: Option<ExpLexeme>): Option<Exponent> {
    if x.Some? then Some(Exponent(x.value.sign == "-", x.value.digits)) else None
  }

  /** Integers are taken modulo 2^64; a literal with a fraction or an exponent is a float. */
  ghost function NumberMeaning(n: Number): Json
    requires WfNumber(n)
  {
    var v := DecimalValue(n.digits) % TWO_64;
    if n.fraction.Some? || n.exponent.Some? then F64(Float(n.neg, v, n.fraction, ExponentMeaning(n.exponent)))
    else if n.neg then I64(-(v as int))
    else U64(v)
  }

  ghost predicate WfItem(x: StrItem) {
    match x
    case Plain(c) => c != '"' && c != '\\'
    case Short(l) => EscapeMeaning(l).Some?
    case Hex(h) => AllHex(h) && !IsHighUnit(HexNumber(h)) && !IsLowUnit(HexNumber(h))
    case Pair(hi, lo) => AllHex(hi) && AllHex(lo) && IsHighUnit(HexNumber(hi)) && IsLowUnit(HexNumber(lo))
  }

  ghost function UnparseItem(x: StrItem): string {
    match x
    case Plain(c) => [c]
    case Short(l) => ['\\', l]
    case Hex(h) => "\\u" + h
    case Pair(hi, lo) => "\\u" + (hi + ("\\u" + lo))
  }

  ghost function ItemMeaning(x: StrItem): char
    requires WfItem(x)
  {
    match x
    case Plain(c) => c
    case Short(l) => EscapeMeaning(l).value
    case Hex(h) => HexNumber(h) as char
    case Pair(hi, lo) => PairChar(HexNumber(hi), HexNumber(lo))
  }

  ghost predicate WfItems(xs: seq<StrItem>) {
    forall i :: 0 <= i < |xs| ==> WfItem(xs[i])
  }

  ghost function UnparseItems(xs: seq<StrItem>): string {
    if xs == [] then "" else UnparseItem(xs[0]) + UnparseItems(xs[1..])
  }

  ghost function UnparseString(xs: seq<StrItem>): string {
    "\"" + (UnparseItems(xs) + "\"")
  }

  ghost function ItemsMeaning(xs: seq<StrItem>): string
    requires WfItems(xs)
  {
    if xs == [] then "" else [ItemMeaning(xs[0])] + ItemsMeaning(xs[1..])
  }

  // Trees ------------------------------------------------------------------------------------

  datatype Tree =
    | NullTree
    | BoolTree(b: bool)
    | NumTree(n: Number)
    | StrTree(items: seq<StrItem>)
    | EmptyArray(space: string)
    | ArrayTree(elems: Elems)
    | EmptyObject(space: string)
    | ObjectTree(entries: Entries)

  /** The elements of a non-empty array, each with the space around it. */
  datatype Elems = Elem(before: string, value: Tree, after: string, more: OptElems)

  datatype OptElems = NoElems | MoreElems(elems: Elems)

  /** The entries of a non-empty object. */
  datatype Entries =
    Entry(before: string, key: seq<StrItem>, preColon: string, postColon: string, value: Tree, after: string,
          more: OptEntries)

  datatype OptEntries = NoEntries | MoreEntries(entries: Entries)

  ghost predicate Wf(t: Tree) {
    match t
    case NullTree => true
    case BoolTree(_) => true
    case NumTree(n) => WfNumber(n)
    case StrTree(xs) => WfItems(xs)
    case EmptyArray(sp) => AllSpace(sp)
    case ArrayTree(es) => WfElems(es)
    case EmptyObject(sp) => AllSpace(sp)
    case ObjectTree(es) => WfEntries(es)
  }

  ghost predicate WfElems(es: Elems) {
    && AllSpace(es.before) && Wf(es.value) && AllSpace(es.after)
    && (es.more.MoreElems? ==> WfElems(es.more.elems))
  }

  ghost predicate WfEntries(es: Entries) {
    && AllSpace(es.before) && WfItems(es.key) && AllSpace(es.preColon) && AllSpace(es.postColon)
    && Wf(es.value) && AllSpace(es.after)
    && (es.more.MoreEntries? ==> WfEntries(es.more.entries))
  }

  ghost function Unparse(t: Tree): string {
    match t
    case NullTree => "null"
    case BoolTree(b) => if b then "true" else "false"
    case NumTree(n) => UnparseNumber(n)
    case StrTree(xs) => UnparseString(xs)
    case EmptyArray(sp) => "[" + sp + "]"
    case ArrayTree(es) => "[" + UnparseElems(es)
    case EmptyObject(sp) => "{" + sp + "}"
    case ObjectTree(es) => "{" + UnparseEntries(es)
  }

  ghost function UnparseElems(es: Elems): string {
    es.before + (Unparse(es.value) + (es.after + UnparseMoreElems(es.more)))
  }

  ghost function UnparseMoreElems(m: OptElems): string {
    match m
    case NoElems => "]"
    case MoreElems(es) => "," + UnparseElems(es)
  }

  ghost function UnparseEntries(es: Entries): string {
    es.before + (UnparseString(es.key) + (es.preColon + (":" + (es.postColon + (Unparse(es.value) + (es.after + UnparseMoreEntries(es.more)))))))
  }

  ghost function UnparseMoreEntries(m: OptEntries): string {
    match m
    case NoEntries => "}"
    case MoreEntries(es) => "," + UnparseEntries(es)
  }

  ghost function Meaning(t: Tree): Json
    requires Wf(t)
  {
    match t
    case NullTree => Null
    case BoolTree(b) => Boolean(b)
    case NumTree(n) => NumberMeaning(n)
    case StrTree(xs) => String(ItemsMeaning(xs))
    case EmptyArray(_) => Array([])
    case ArrayTree(es) => Array(ElemsMeaning(es))
    case EmptyObject(_) => Object([])
    case ObjectTree(es) => Object(EntriesMeaning(es, []))
  }

  ghost function ElemsMeaning(es: Elems): seq<Json>
    requires WfElems(es)
  {
    [Meaning(es.value)] + (if es.more.MoreElems? then ElemsMeaning(es.more.elems) else [])
  }

  /** Entries are inserted from left to right, a later one replacing an earlier one of the same key. */
  ghost function EntriesMeaning(es: Entries, ms: seq<Member>): seq<Member>
    requires WfEntries(es)
    decreases es
  {
    var now := Insert(ms, ItemsMeaning(es.key), Meaning(es.value));
    if es.more.MoreEntries? then EntriesMeaning(es.more.entries, now) else now
  }

  /** Every path of keys in the tree, below `used` bytes of keys, stays within `u16` offsets. */
  ghost predicate KeysFit(t: Tree, used: nat)
    requires Wf(t)
  {
    match t
    case ArrayTree(es) => ElemKeysFit(es, used)
    case ObjectTree(es) => EntryKeysFit(es, used)
    case _ => true
  }

  ghost predicate ElemKeysFit(es: Elems, used: nat)
    requires WfElems(es)
  {
    KeysFit(es.value, used) && (es.more.MoreElems? ==> ElemKeysFit(es.more.elems, used))
  }

  ghost predicate EntryKeysFit(es: Entries, used: nat)
    requires WfEntries(es)
  {
    var next := used + |Utf8.Encode(ItemsMeaning(es.key))|;
    && next <= 0xFFFF
    && KeysFit(es.value, next)
    && (es.more.MoreEntries? ==> EntryKeysFit(es.more.entries, used))
  }

  /** A whole text: a value with space around it. */
  datatype Text = Text(before: string, value: Tree, after: string)

  ghost predicate WfText(t: Text) {
    AllSpace(t.before) && Wf(t.value) && AllSpace(t.after)
  }

  ghost function UnparseText(t: Text): string {
    t.before + (Unparse(t.value) + t.after)
  }
}
