/** Reading undoes printing. Both encoders write texts of the grammar that mean the value printed,
    except that a non-negative I64 is read as a U64. */
module JsonRoundTrip {
  import opened Common
  import opened Decimals
  import opened JsonValue
  import opened JsonLexer
  import opened JsonGrammar
  import opened JsonPrinter
  import opened JsonStack
  import opened JsonBuilder
  import opened JsonComplete
  import opened JsonLexemes
  import Utf8

  /** Values an encoder can be given: 64-bit integers, map entries in key order. */
  ghost predicate InRange(v: Json) {
    match v
    case I64(i) => -TWO_63 <= i < TWO_63
    case U64(u) => u < TWO_64
    case F64(_) => false
    case Array(vs) => forall i :: 0 <= i < |vs| ==> InRange(vs[i])
    case Object(ms) => Sorted(ms) && forall i :: 0 <= i < |ms| ==> InRange(ms[i].value)
    case _ => true
  }

  lemma {:induction false} InRangeFloatFree(v: Json)
    requires InRange(v)
    ensures FloatFree(v)
  {
    match v
    case Array(vs) => forall i | 0 <= i < |vs| ensures FloatFree(vs[i]) { InRangeFloatFree(vs[i]); }
    case Object(ms) => forall i | 0 <= i < |ms| ensures FloatFree(ms[i].value) { InRangeFloatFree(ms[i].value); }
    case _ =>
  }

  /** What a printed value is read back as. */
  ghost function Normal(v: Json): Json {
    match v
    case I64(i) => if i < 0 then v else U64(i)
    case Array(vs) => Array(seq(|vs|, i requires 0 <= i < |vs| => Normal(vs[i])))
    case Object(ms) => Object(seq(|ms|, i requires 0 <= i < |ms| => Member(ms[i].key, Normal(ms[i].value))))
    case _ => v
  }

  /** Every path of keys in the value stays within 16-bit offsets. */
  ghost predicate KeyPathsFit(v: Json, used: nat) {
    match v
    case Array(vs) => forall i :: 0 <= i < |vs| ==> KeyPathsFit(vs[i], used)
    case Object(ms) =>
      forall i :: 0 <= i < |ms| ==>
                    && used + |Utf8.Encode(ms[i].key)| <= MAX_KEY_BYTES
                    && KeyPathsFit(ms[i].value, used + |Utf8.Encode(ms[i].key)|)
    case _ => true
  }

  // Lexemes ----------------------------------------------------------------------------------

  lemma DecimalWf(n: nat)
    requires n == 0 || (n % TWO_64 != 0 && n / 10 < TWO_64)
    ensures WfDigits(Decimal(n)) && DecimalValue(Decimal(n)) == n
  {
    DecimalDigits(n);
    var s := Decimal(n);
    if n > 0 {
      hide Decimal, DecimalValue;
      forall k | 0 < k <= |s| ensures DecimalValue(s[..k]) % TWO_64 != 0 {
        DecimalPrefixes(n, k);
        if k == |s| { assert s[..k] == s; }
      }
    }
  }

  ghost function IntNumber(i: int): Number {
    Number(i < 0, Decimal(if i < 0 then -i else i), None, None)
  }

  lemma IntNumberWf(i: int)
    requires -TWO_63 <= i < TWO_64
    ensures WfNumber(IntNumber(i)) && UnparseNumber(IntNumber(i)) == IntText(i)
    ensures NumberMeaning(IntNumber(i)) == if i < 0 then I64(i) else U64(i)
  {
    hide WfDigits, DecimalValue, Decimal;
    var n := IntNumber(i);
    DecimalWf(if i < 0 then -i else i);
    assert FractionText(n.fraction) + ExponentText(n.exponent) == "";
    assert n.digits + "" == n.digits;
  }

  ghost function ItemOf(c: char): StrItem {
    if c == '"' then Short('"')
    else if c == '\\' then Short('\\')
    else if c == 8 as char then Short('b')
    else if c == '\t' then Short('t')
    else if c == '\n' then Short('n')
    else if c == 12 as char then Short('f')
    else if c == '\r' then Short('r')
    else if c < 0x20 as char || c == 0x7F as char then Hex("00" + [HexDigit(c as int / 16), HexDigit(c as int % 16)])
    else Plain(c)
  }

  lemma ItemOfChar(c: char)
    ensures WfItem(ItemOf(c)) && UnparseItem(ItemOf(c)) == EscapedChar(c) && ItemMeaning(ItemOf(c)) == c
  {
    if ItemOf(c).Hex? {
      var h := ItemOf(c).h;
      assert Hexit(h[0]) == Some(0) && Hexit(h[1]) == Some(0);
      assert Hexit(h[2]) == Some(c as int / 16) && Hexit(h[3]) == Some(c as int % 16);
      assert EscapedChar(c) == "\\u" + h;
    }
  }

  ghost function ItemsOf(s: string): seq<StrItem> {
    if s == "" then [] else [ItemOf(s[0])] + ItemsOf(s[1..])
  }

  lemma {:induction false} ItemsOfString(s: string)
    ensures WfItems(ItemsOf(s)) && UnparseItems(ItemsOf(s)) == Escaped(s) && ItemsMeaning(ItemsOf(s)) == s
  {
    if s != "" {
      ItemOfChar(s[0]);
      ItemsOfString(s[1..]);
      assert ItemsOf(s)[1..] == ItemsOf(s[1..]);
      assert [s[0]] + s[1..] == s;
    }
  }

  lemma SpacesAllSpace(style: Style, level: nat)
    ensures AllSpace(Break(style, level))
  {
  }

  // Trees ------------------------------------------------------------------------------------

  /** The tree of the text an encoder writes. */
  ghost function TreeOf(v: Json, style: Style, level: nat): Tree
    decreases v, 1
  {
    match v
    case I64(i) => NumTree(IntNumber(i))
    case U64(u) => NumTree(IntNumber(u))
    case F64(_) => NullTree
    case String(s) => StrTree(ItemsOf(s))
    case Boolean(b) => BoolTree(b)
    case Null => NullTree
    case Array(vs) => if vs == [] then EmptyArray("") else ArrayTree(ElemsOf(v, 0, style, level))
    case Object(ms) => if ms == [] then EmptyObject("") else ObjectTree(EntriesOf(v, 0, style, level))
  }

  ghost function ElemsOf(v: Json, i: nat, style: Style, level: nat): Elems
    requires v.Array? && i < |v.elems|
    decreases v, 0, |v.elems| - i
  {
    var inner := Deeper(style, level);
    var last := i + 1 == |v.elems|;
    Elem(Break(style, inner), TreeOf(v.elems[i], style, inner), if last then Break(style, level) else "",
         if last then NoElems else MoreElems(ElemsOf(v, i + 1, style, level)))
  }

  ghost function EntriesOf(v: Json, i: nat, style: Style, level: nat): Entries
    requires v.Object? && i < |v.members|
    decreases v, 0, |v.members| - i
  {
    var inner := Deeper(style, level);
    var last := i + 1 == |v.members|;
    Entry(Break(style, inner), ItemsOf(v.members[i].key), "", if style.Dense? then "" else " ",
          TreeOf(v.members[i].value, style, inner), if last then Break(style, level) else "",
          if last then NoEntries else MoreEntries(EntriesOf(v, i + 1, style, level)))
  }

  ghost predicate Prints(v: Json, style: Style, level: nat)
    requires FloatFree(v)
  {
    && Wf(TreeOf(v, style, level))
    && Unparse(TreeOf(v, style, level)) == Print(v, style, level)
    && Meaning(TreeOf(v, style, level)) == Normal(v)
  }

  lemma {:induction false} PrintedTree(v: Json, style: Style, level: nat)
    requires InRange(v)
    ensures FloatFree(v) && Prints(v, style, level)
    decreases v, 1
  {
    hide Prints, Print, TreeOf, Unparse, Meaning, Normal;
    InRangeFloatFree(v);
    if v.Array? && v.elems != [] {
      PrintedElems(v, 0, style, level);
      ArrayPrinted(v, style, level);
    } else if v.Object? && v.members != [] {
      PrintedMembers(v, 0, style, level);
      ObjectPrinted(v, style, level);
    } else {
      PrintedLeaf(v, style, level);
    }
  }

  lemma ArrayPrinted(v: Json, style: Style, level: nat)
    requires FloatFree(v) && v.Array? && v.elems != []
    requires var es := ElemsOf(v, 0, style, level);
             WfElems(es) && UnparseElems(es) == PrintElems(v, 0, style, level) && ElemsMeaning(es) == Normal(v).elems[0..]
    ensures Prints(v, style, level)
  {
    hide ElemsOf, EntriesOf, WfElems, UnparseElems, PrintElems, ElemsMeaning;
    assert Normal(v).elems[0..] == Normal(v).elems;
  }

  lemma ObjectPrinted(v: Json, style: Style, level: nat)
    requires FloatFree(v) && v.Object? && v.members != []
    requires var es := EntriesOf(v, 0, style, level);
             && WfEntries(es) && UnparseEntries(es) == PrintMembers(v, 0, style, level)
             && EntriesMeaning(es, Normal(v).members[..0]) == Normal(v).members
    ensures Prints(v, style, level)
  {
    hide ElemsOf, EntriesOf, WfEntries, UnparseEntries, PrintMembers, EntriesMeaning;
    assert Normal(v).members[..0] == [];
  }

  lemma PrintedLeaf(v: Json, style: Style, level: nat)
    requires InRange(v) && FloatFree(v) && !(v.Array? && v.elems != []) && !(v.Object? && v.members != [])
    ensures Prints(v, style, level)
  {
    hide Decimal, IntNumber, NumberMeaning, UnparseNumber, WfNumber, ItemsOf, UnparseItems, ItemsMeaning, Escaped, WfItems;
    match v
    case I64(i) => IntNumberWf(i);
    case U64(u) => IntNumberWf(u);
    case String(s) => ItemsOfString(s);
    case _ =>
  }

  lemma {:induction false} PrintedElems(v: Json, i: nat, style: Style, level: nat)
    requires InRange(v) && FloatFree(v) && v.Array? && i < |v.elems|
    ensures WfElems(ElemsOf(v, i, style, level))
    ensures UnparseElems(ElemsOf(v, i, style, level)) == PrintElems(v, i, style, level)
    ensures ElemsMeaning(ElemsOf(v, i, style, level)) == Normal(v).elems[i..]
    decreases v, 0, |v.elems| - i
  {
    var inner := Deeper(style, level);
    PrintedTree(v.elems[i], style, inner);
    SpacesAllSpace(style, level);
    SpacesAllSpace(style, inner);
    var es := ElemsOf(v, i, style, level);
    var ns := Normal(v).elems;
    if i + 1 < |v.elems| {
      PrintedElems(v, i + 1, style, level);
      EmptyPrefix(UnparseMoreElems(es.more));
    }
    Uncons(ns, i);
  }

  lemma EmptyPrefix(s: string)
    ensures "" + s == s
  {
  }

  lemma Uncons<T>(s: seq<T>, i: nat)
    requires i < |s|
    ensures s[i..] == [s[i]] + s[i + 1..]
    ensures i + 1 == |s| ==> s[i..] == [s[i]]
  {
  }

  lemma {:induction false} PrintedMembers(v: Json, i: nat, style: Style, level: nat)
    requires InRange(v) && FloatFree(v) && v.Object? && i < |v.members|
    ensures WfEntries(EntriesOf(v, i, style, level))
    ensures UnparseEntries(EntriesOf(v, i, style, level)) == PrintMembers(v, i, style, level)
    ensures EntriesMeaning(EntriesOf(v, i, style, level), Normal(v).members[..i]) == Normal(v).members
    decreases v, 0, |v.members| - i
  {
    hide Insert, Less, EscapeOf, Unparse, UnparseEntries, Print;
    var inner := Deeper(style, level);
    var m := v.members[i];
    PrintedTree(m.value, style, inner);
    if i + 1 < |v.members| {
      PrintedMembers(v, i + 1, style, level);
    }
    MemberPrinted(v, i, style, level);
    MemberMeant(v, i, style, level);
  }

  lemma MemberPrinted(v: Json, i: nat, style: Style, level: nat)
    requires FloatFree(v) && v.Object? && i < |v.members|
    requires Prints(v.members[i].value, style, Deeper(style, level))
    requires i + 1 < |v.members| ==>
               var fs := EntriesOf(v, i + 1, style, level);
               WfEntries(fs) && UnparseEntries(fs) == PrintMembers(v, i + 1, style, level)
    ensures WfEntries(EntriesOf(v, i, style, level))
    ensures UnparseEntries(EntriesOf(v, i, style, level)) == PrintMembers(v, i, style, level)
  {
    ItemsOfString(v.members[i].key);
    SpacesAllSpace(style, level);
    SpacesAllSpace(style, Deeper(style, level));
    var es := EntriesOf(v, i, style, level);
    EmptyPrefix(UnparseMoreEntries(es.more));
    EntryText(es, Unparse(es.value) + (es.after + UnparseMoreEntries(es.more)), Colon(style));
  }

  lemma MemberMeant(v: Json, i: nat, style: Style, level: nat)
    requires InRange(v) && v.Object? && i < |v.members| && WfEntries(EntriesOf(v, i, style, level))
    requires Meaning(TreeOf(v.members[i].value, style, Deeper(style, level))) == Normal(v.members[i].value)
    requires i + 1 < |v.members| ==>
               EntriesMeaning(EntriesOf(v, i + 1, style, level), Normal(v).members[..i + 1]) == Normal(v).members
    ensures EntriesMeaning(EntriesOf(v, i, style, level), Normal(v).members[..i]) == Normal(v).members
  {
    var m, ns := v.members[i], Normal(v).members;
    ItemsOfString(m.key);
    Snoc(ns, i);
    InsertAtEnd(ns[..i], m.key, Normal(m.value));
  }

  lemma Snoc<T>(s: seq<T>, i: nat)
    requires i < |s|
    ensures s[..i + 1] == s[..i] + [s[i]]
    ensures i + 1 == |s| ==> s[..i + 1] == s
  {
  }

  lemma EntryText(es: Entries, val: string, colon: string)
    requires es.preColon == "" && colon == ":" + es.postColon
    requires val == Unparse(es.value) + (es.after + UnparseMoreEntries(es.more))
    ensures UnparseEntries(es) == es.before + (UnparseString(es.key) + (colon + val))
  {
    assert es.preColon + (":" + (es.postColon + val)) == colon + val;
  }

  // Key paths --------------------------------------------------------------------------------

  lemma {:induction false} TreeKeysFit(v: Json, style: Style, level: nat, used: nat)
    requires InRange(v) && KeyPathsFit(v, used) && Wf(TreeOf(v, style, level))
    ensures KeysFit(TreeOf(v, style, level), used)
    decreases v, 1
  {
    if v.Array? && v.elems != [] {
      ElemsKeysFit(v, 0, style, level, used);
    } else if v.Object? && v.members != [] {
      EntriesKeysFit(v, 0, style, level, used);
    }
  }

  lemma {:induction false} ElemsKeysFit(v: Json, i: nat, style: Style, level: nat, used: nat)
    requires v.Array? && i < |v.elems| && InRange(v) && KeyPathsFit(v, used) && WfElems(ElemsOf(v, i, style, level))
    ensures ElemKeysFit(ElemsOf(v, i, style, level), used)
    decreases v, 0, |v.elems| - i
  {
    TreeKeysFit(v.elems[i], style, Deeper(style, level), used);
    if i + 1 < |v.elems| {
      ElemsKeysFit(v, i + 1, style, level, used);
    }
  }

  lemma {:induction false} EntriesKeysFit(v: Json, i: nat, style: Style, level: nat, used: nat)
    requires v.Object? && i < |v.members| && InRange(v) && KeyPathsFit(v, used) && WfEntries(EntriesOf(v, i, style, level))
    ensures EntryKeysFit(EntriesOf(v, i, style, level), used)
    decreases v, 0, |v.members| - i
  {
    hide Utf8.Encode, UnparseItems, ItemsMeaning, Escaped, ItemsOf, WfItems;
    var m := v.members[i];
    ItemsOfString(m.key);
    TreeKeysFit(m.value, style, Deeper(style, level), used + |Utf8.Encode(m.key)|);
    if i + 1 < |v.members| {
      EntriesKeysFit(v, i + 1, style, level, used);
    }
  }

  // Theorems ---------------------------------------------------------------------------------

  /** `from_str` of either encoder's output gives the value back. */
  lemma RoundTrip(v: Json, style: Style)
    requires InRange(v) && KeyPathsFit(v, 0)
    ensures FloatFree(v) && FromStr(Print(v, style, 0)) == Done(Normal(v))
  {
    hide FromStr, Print, TreeOf, Unparse, Meaning, Normal, KeyPathsFit, InRange;
    PrintedTree(v, style, 0);
    TreeKeysFit(v, style, 0, 0);
    var t := Text("", TreeOf(v, style, 0), "");
    TextBuilt(t);
    assert UnparseText(t) == Print(v, style, 0);
  }

  lemma CompactRoundTrip(v: Json)
    requires InRange(v) && KeyPathsFit(v, 0)
    ensures FloatFree(v) && FromStr(Compact(v)) == Done(Normal(v))
  {
    hide FromStr;
    RoundTrip(v, Dense);
  }

  lemma PrettyRoundTrip(v: Json, indent: nat)
    requires InRange(v) && KeyPathsFit(v, 0)
    ensures FloatFree(v) && FromStr(Pretty(v, indent)) == Done(Normal(v))
  {
    hide FromStr;
    RoundTrip(v, Indented(indent));
  }

  /** An integer literal from 2^64 + 1 on is silently reduced. */
  lemma IntegerWraps(n: nat)
    requires TWO_64 < n < 2 * TWO_64
    ensures FromStr(Decimal(n)) == Done(U64(n - TWO_64))
  {
    hide FromStr, Decimal, WfDigits, DecimalValue;
    DecimalWf(n);
    var num := Number(false, Decimal(n), None, None);
    var t := Text("", NumTree(num), "");
    assert UnparseText(t) == Decimal(n);
    assert NumberMeaning(num) == U64(n - TWO_64);
    TextBuilt(t);
  }
}
