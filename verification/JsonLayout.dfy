/** The layout of the pretty text, as a formatter of JSON texts that knows nothing of values: it copies a compact
    text and breaks the line after every opening bracket and comma and before every closing bracket outside
    strings, indenting each line by the brackets open there. */
module JsonLayout {
  import opened Common
  import opened Decimals
  import opened JsonValue
  import opened JsonPrinter

  function Blanks(n: nat): string {
    if n == 0 then "" else " " + Blanks(n - 1)
  }

  /** A new line inside `depth` brackets. */
  function Line(depth: nat, indent: nat): string {
    "\n" + Blanks(indent * depth)
  }

  function LaidOut(s: string, depth: nat, indent: nat, quoted: bool): string
    decreases |s|
  {
    if s == "" then ""
    else if quoted then
      if s[0] == '\\' && |s| > 1 then s[..2] + LaidOut(s[2..], depth, indent, true)
      else [s[0]] + LaidOut(s[1..], depth, indent, s[0] != '"')
    else
      match s[0]
      case '[' => LaidOpen(s, ']', depth, indent)
      case '{' => LaidOpen(s, '}', depth, indent)
      case ',' => "," + (Line(depth, indent) + LaidOut(s[1..], depth, indent, false))
      case ':' => ": " + LaidOut(s[1..], depth, indent, false)
      case ']' => Line(Outside(depth), indent) + ("]" + LaidOut(s[1..], Outside(depth), indent, false))
      case '}' => Line(Outside(depth), indent) + ("}" + LaidOut(s[1..], Outside(depth), indent, false))
      case c => [c] + LaidOut(s[1..], depth, indent, c == '"')
  }

  /** An empty array or object stays on its line. */
  function LaidOpen(s: string, close: char, depth: nat, indent: nat): string
    requires s != ""
    decreases |s|, 0
  {
    if |s| > 1 && s[1] == close then s[..2] + LaidOut(s[2..], depth, indent, false)
    else [s[0]] + (Line(depth + 1, indent) + LaidOut(s[1..], depth + 1, indent, false))
  }

  function Outside(depth: nat): nat {
    if depth == 0 then 0 else depth - 1
  }

  // Characters -------------------------------------------------------------------------------

  lemma {:induction false} SameBlanks(n: nat)
    ensures Blanks(n) == Spaces(n)
  {
    if n > 0 {
      SameBlanks(n - 1);
      assert " " + Spaces(n - 1) == Spaces(n);
    }
  }

  lemma Broken(indent: nat, depth: nat)
    ensures Break(Indented(indent), indent * depth) == Line(depth, indent)
    ensures indent * (depth + 1) == indent * depth + indent
  {
    SameBlanks(indent * depth);
  }

  predicate Plain(c: char) {
    c != '[' && c != ']' && c != '{' && c != '}' && c != ',' && c != ':' && c != '"'
  }

  ghost predicate AllPlain(s: string) {
    forall i :: 0 <= i < |s| ==> Plain(s[i])
  }

  lemma {:induction false} PlainCopied(t: string, rest: string, depth: nat, indent: nat)
    requires AllPlain(t)
    ensures LaidOut(t + rest, depth, indent, false) == t + LaidOut(rest, depth, indent, false)
    decreases |t|
  {
    if t == "" {
      assert t + rest == rest;
    } else {
      assert (t + rest)[1..] == t[1..] + rest && (t + rest)[0] == t[0];
      PlainCopied(t[1..], rest, depth, indent);
      assert t == [t[0]] + t[1..];
    }
  }

  // Strings ----------------------------------------------------------------------------------

  lemma QuotedChar(c: char, rest: string, depth: nat, indent: nat)
    requires c != '"' && c != '\\'
    ensures LaidOut([c] + rest, depth, indent, true) == [c] + LaidOut(rest, depth, indent, true)
  {
    assert ([c] + rest)[1..] == rest;
  }

  lemma QuotedPair(c: char, rest: string, depth: nat, indent: nat)
    ensures LaidOut(['\\', c] + rest, depth, indent, true) == ['\\', c] + LaidOut(rest, depth, indent, true)
  {
    var s := ['\\', c] + rest;
    assert s[..2] == ['\\', c] && s[2..] == rest;
  }

  /** A control character, as a number of four digits. */
  lemma QuotedNumber(a: char, b: char, rest: string, depth: nat, indent: nat)
    requires a != '"' && a != '\\' && b != '"' && b != '\\'
    ensures LaidOut("\\u00" + [a, b] + rest, depth, indent, true) == "\\u00" + [a, b] + LaidOut(rest, depth, indent, true)
  {
    hide LaidOut;
    var r1 := [b] + rest;
    var r2 := [a] + r1;
    var r3 := ['0'] + r2;
    var r4 := ['0'] + r3;
    QuotedChar(b, rest, depth, indent);
    QuotedChar(a, r1, depth, indent);
    QuotedChar('0', r2, depth, indent);
    QuotedChar('0', r3, depth, indent);
    QuotedPair('u', r4, depth, indent);
    assert "\\u00" + [a, b] + rest == ['\\', 'u'] + r4;
  }

  lemma EscapeCopied(c: char, rest: string, depth: nat, indent: nat)
    ensures LaidOut(EscapedChar(c) + rest, depth, indent, true) == EscapedChar(c) + LaidOut(rest, depth, indent, true)
  {
    hide LaidOut, HexDigit;
    var e := EscapedChar(c);
    if EscapeOf(c).None? {
      QuotedChar(c, rest, depth, indent);
    } else if |e| == 2 {
      assert e == ['\\', e[1]];
      QuotedPair(e[1], rest, depth, indent);
    } else {
      DigitPlain(c as int / 16);
      DigitPlain(c as int % 16);
      QuotedNumber(HexDigit(c as int / 16), HexDigit(c as int % 16), rest, depth, indent);
    }
  }

  lemma DigitPlain(d: nat)
    requires d < 16
    ensures HexDigit(d) != '"' && HexDigit(d) != '\\'
  {
  }

  lemma {:induction false} EscapedCopied(s: string, rest: string, depth: nat, indent: nat)
    ensures LaidOut(Escaped(s) + rest, depth, indent, true) == Escaped(s) + LaidOut(rest, depth, indent, true)
    decreases |s|
  {
    hide LaidOut, EscapedChar;
    if s == "" {
      assert "" + rest == rest;
    } else {
      var first, more := EscapedChar(s[0]), Escaped(s[1..]);
      assert Escaped(s) + rest == first + (more + rest);
      EscapeCopied(s[0], more + rest, depth, indent);
      EscapedCopied(s[1..], rest, depth, indent);
    }
  }

  lemma StringCopied(s: string, rest: string, depth: nat, indent: nat)
    ensures LaidOut(StrText(s) + rest, depth, indent, false) == StrText(s) + LaidOut(rest, depth, indent, false)
  {
    hide Escaped;
    var tail := "\"" + rest;
    assert StrText(s) + rest == "\"" + (Escaped(s) + tail);
    assert ("\"" + (Escaped(s) + tail))[1..] == Escaped(s) + tail;
    EscapedCopied(s, tail, depth, indent);
    assert tail[1..] == rest;
  }

  // Values -----------------------------------------------------------------------------------

  lemma DigitsPlain(n: nat)
    ensures AllPlain(Decimal(n))
  {
    hide Decimal;
    DecimalDigits(n);
  }

  predicate Leaf(v: Json) {
    !(v.Array? && v.elems != []) && !(v.Object? && v.members != [])
  }

  lemma LeafLaidOut(v: Json, rest: string, depth: nat, indent: nat)
    requires FloatFree(v) && Leaf(v)
    ensures LaidOut(Print(v, Dense, 0) + rest, depth, indent, false) ==
            Print(v, Indented(indent), indent * depth) + LaidOut(rest, depth, indent, false)
  {
    hide LaidOut, Decimal, StrText, AllPlain;
    match v
    case I64(i) => IntPlain(i); PlainCopied(IntText(i), rest, depth, indent);
    case U64(u) => DigitsPlain(u); PlainCopied(Decimal(u), rest, depth, indent);
    case String(s) => StringCopied(s, rest, depth, indent);
    case Boolean(b) => WordsPlain(); PlainCopied(if b then "true" else "false", rest, depth, indent);
    case Null => WordsPlain(); PlainCopied("null", rest, depth, indent);
    case Array(_) => EmptyCopied('[', ']', rest, depth, indent);
    case Object(_) => EmptyCopied('{', '}', rest, depth, indent);
  }

  lemma IntPlain(i: int)
    ensures AllPlain(IntText(i))
  {
    hide Decimal;
    DigitsPlain(if i < 0 then -i else i);
  }

  lemma WordsPlain()
    ensures AllPlain("true") && AllPlain("false") && AllPlain("null")
  {
  }

  lemma EmptyCopied(open: char, close: char, rest: string, depth: nat, indent: nat)
    requires (open == '[' && close == ']') || (open == '{' && close == '}')
    ensures LaidOut([open, close] + rest, depth, indent, false) == [open, close] + LaidOut(rest, depth, indent, false)
  {
    var s := [open, close] + rest;
    assert s[..2] == [open, close] && s[2..] == rest;
  }

  /** What a text begins with. */
  lemma Begins(v: Json)
    requires FloatFree(v)
    ensures Print(v, Dense, 0) != "" && Print(v, Dense, 0)[0] != ']'
  {
    hide Escaped, Decimal;
    if v.U64? {
      DecimalDigits(v.u);
    } else if v.I64? {
      DecimalDigits(if v.i < 0 then -v.i else v.i);
    }
  }

  lemma OpenLaidOut(open: char, close: char, body: string, depth: nat, indent: nat)
    requires (open == '[' && close == ']') || (open == '{' && close == '}')
    requires body != "" && body[0] != close
    ensures LaidOut([open] + body, depth, indent, false) == [open] + (Line(depth + 1, indent) + LaidOut(body, depth + 1, indent, false))
  {
    assert ([open] + body)[1..] == body;
  }

  lemma CloseLaidOut(close: char, rest: string, depth: nat, indent: nat)
    requires close == ']' || close == '}'
    ensures LaidOut([close] + rest, depth + 1, indent, false) == Line(depth, indent) + ([close] + LaidOut(rest, depth, indent, false))
  {
    assert ([close] + rest)[1..] == rest;
  }

  lemma CommaLaidOut(rest: string, depth: nat, indent: nat)
    ensures LaidOut("," + rest, depth, indent, false) == "," + (Line(depth, indent) + LaidOut(rest, depth, indent, false))
    ensures LaidOut(":" + rest, depth, indent, false) == ": " + LaidOut(rest, depth, indent, false)
  {
    assert ("," + rest)[1..] == rest && (":" + rest)[1..] == rest;
  }

  lemma {:induction false} ValueLaidOut(v: Json, rest: string, depth: nat, indent: nat)
    requires FloatFree(v)
    ensures LaidOut(Print(v, Dense, 0) + rest, depth, indent, false) ==
            Print(v, Indented(indent), indent * depth) + LaidOut(rest, depth, indent, false)
    decreases v, 1
  {
    hide LaidOut, PrintElems, PrintMembers, Line;
    if Leaf(v) {
      LeafLaidOut(v, rest, depth, indent);
    } else if v.Array? {
      ElemsLaidOut(v, 0, rest, depth, indent);
      ElemsBegin(v, 0);
      Around('[', ']', PrintElems(v, 0, Dense, 0), PrintElems(v, 0, Indented(indent), indent * depth), rest, depth, indent);
    } else {
      MembersLaidOut(v, 0, rest, depth, indent);
      MembersBegin(v, 0);
      Around('{', '}', PrintMembers(v, 0, Dense, 0), PrintMembers(v, 0, Indented(indent), indent * depth), rest, depth, indent);
    }
  }

  lemma Around(open: char, close: char, body: string, shown: string, rest: string, depth: nat, indent: nat)
    requires (open == '[' && close == ']') || (open == '{' && close == '}')
    requires body != "" && body[0] != close
    requires Line(depth + 1, indent) + LaidOut(body + rest, depth + 1, indent, false) == shown + LaidOut(rest, depth, indent, false)
    ensures LaidOut([open] + body + rest, depth, indent, false) == [open] + shown + LaidOut(rest, depth, indent, false)
  {
    hide LaidOut, Line;
    OpenLaidOut(open, close, body + rest, depth, indent);
    assert [open] + body + rest == [open] + (body + rest);
    assert [open] + shown + LaidOut(rest, depth, indent, false) == [open] + (shown + LaidOut(rest, depth, indent, false));
  }

  lemma ElemsBegin(v: Json, i: nat)
    requires FloatFree(v) && v.Array? && i < |v.elems|
    ensures PrintElems(v, i, Dense, 0) != "" && PrintElems(v, i, Dense, 0)[0] != ']'
  {
    hide Print;
    Begins(v.elems[i]);
  }

  lemma MembersBegin(v: Json, i: nat)
    requires FloatFree(v) && v.Object? && i < |v.members|
    ensures PrintMembers(v, i, Dense, 0) != "" && PrintMembers(v, i, Dense, 0)[0] != '}'
  {
    hide Print, Escaped;
  }

  /** The text after an element: the rest of the list, or its end. */
  function ElemsRest(v: Json, i: nat, style: Style, level: nat): string
    requires FloatFree(v) && v.Array? && i < |v.elems|
  {
    if i + 1 == |v.elems| then Break(style, level) + "]" else "," + PrintElems(v, i + 1, style, level)
  }

  lemma ElemsDense(v: Json, i: nat, rest: string)
    requires FloatFree(v) && v.Array? && i < |v.elems|
    ensures PrintElems(v, i, Dense, 0) + rest == Print(v.elems[i], Dense, 0) + (ElemsRest(v, i, Dense, 0) + rest)
  {
    hide Print;
    var text, tail := Print(v.elems[i], Dense, 0), ElemsRest(v, i, Dense, 0);
    assert "" + (text + tail) + rest == text + (tail + rest);
  }

  lemma ElemsPretty(v: Json, i: nat, depth: nat, indent: nat, more: string)
    requires FloatFree(v) && v.Array? && i < |v.elems|
    ensures PrintElems(v, i, Indented(indent), indent * depth) + more ==
            Line(depth + 1, indent)
            + (Print(v.elems[i], Indented(indent), indent * (depth + 1)) + (ElemsRest(v, i, Indented(indent), indent * depth) + more))
  {
    hide Print, Line, Break;
    Broken(indent, depth + 1);
    Broken(indent, depth);
    var line, text, tail := Line(depth + 1, indent), Print(v.elems[i], Indented(indent), indent * (depth + 1)),
        ElemsRest(v, i, Indented(indent), indent * depth);
    assert line + (text + tail) + more == line + (text + (tail + more));
  }

  lemma {:induction false} ElemsRestLaidOut(v: Json, i: nat, rest: string, depth: nat, indent: nat)
    requires FloatFree(v) && v.Array? && i < |v.elems|
    ensures LaidOut(ElemsRest(v, i, Dense, 0) + rest, depth + 1, indent, false) ==
            ElemsRest(v, i, Indented(indent), indent * depth) + LaidOut(rest, depth, indent, false)
    decreases v, 0, |v.elems| - i, 0
  {
    hide LaidOut, PrintElems, Line;
    if i + 1 == |v.elems| {
      Broken(indent, depth);
      CloseLaidOut(']', rest, depth, indent);
      Tail1(Line(depth, indent), "]", LaidOut(rest, depth, indent, false));
      assert "" + "]" == "]" == [']'];
    } else {
      var body := PrintElems(v, i + 1, Dense, 0);
      ElemsLaidOut(v, i + 1, rest, depth, indent);
      CommaLaidOut(body + rest, depth + 1, indent);
      Tail1(",", body, rest);
      Tail1(",", PrintElems(v, i + 1, Indented(indent), indent * depth), LaidOut(rest, depth, indent, false));
    }
  }

  lemma Tail1(a: string, b: string, c: string)
    ensures a + b + c == a + (b + c)
  {
  }

  lemma {:induction false} ElemsLaidOut(v: Json, i: nat, rest: string, depth: nat, indent: nat)
    requires FloatFree(v) && v.Array? && i < |v.elems|
    ensures Line(depth + 1, indent) + LaidOut(PrintElems(v, i, Dense, 0) + rest, depth + 1, indent, false) ==
            PrintElems(v, i, Indented(indent), indent * depth) + LaidOut(rest, depth, indent, false)
    decreases v, 0, |v.elems| - i, 1
  {
    hide LaidOut, Print, PrintElems, Line, ElemsRest;
    ElemsDense(v, i, rest);
    ValueLaidOut(v.elems[i], ElemsRest(v, i, Dense, 0) + rest, depth + 1, indent);
    ElemsRestLaidOut(v, i, rest, depth, indent);
    ElemsPretty(v, i, depth, indent, LaidOut(rest, depth, indent, false));
  }

  /** The text after a member. */
  function MembersRest(v: Json, i: nat, style: Style, level: nat): string
    requires FloatFree(v) && v.Object? && i < |v.members|
  {
    if i + 1 == |v.members| then Break(style, level) + "}" else "," + PrintMembers(v, i + 1, style, level)
  }

  lemma MembersDense(v: Json, i: nat, rest: string)
    requires FloatFree(v) && v.Object? && i < |v.members|
    ensures PrintMembers(v, i, Dense, 0) + rest ==
            StrText(v.members[i].key) + (":" + (Print(v.members[i].value, Dense, 0) + (MembersRest(v, i, Dense, 0) + rest)))
  {
    hide Print, StrText;
    var key, text, tail := StrText(v.members[i].key), Print(v.members[i].value, Dense, 0), MembersRest(v, i, Dense, 0);
    Tail1(text, tail, rest);
    Tail1(":", text + tail, rest);
    Tail1(key, ":" + (text + tail), rest);
    assert "" + (key + (":" + (text + tail))) == key + (":" + (text + tail));
  }

  lemma MembersPretty(v: Json, i: nat, depth: nat, indent: nat, more: string)
    requires FloatFree(v) && v.Object? && i < |v.members|
    ensures PrintMembers(v, i, Indented(indent), indent * depth) + more ==
            Line(depth + 1, indent)
            + (StrText(v.members[i].key)
               + (": " + (Print(v.members[i].value, Indented(indent), indent * (depth + 1))
                          + (MembersRest(v, i, Indented(indent), indent * depth) + more))))
  {
    hide Print, StrText, Line, Break;
    Broken(indent, depth + 1);
    Broken(indent, depth);
    var line, key := Line(depth + 1, indent), StrText(v.members[i].key);
    var text, tail := Print(v.members[i].value, Indented(indent), indent * (depth + 1)), MembersRest(v, i, Indented(indent), indent * depth);
    Tail1(text, tail, more);
    Tail1(": ", text + tail, more);
    Tail1(key, ": " + (text + tail), more);
    Tail1(line, key + (": " + (text + tail)), more);
  }

  lemma {:induction false} MembersRestLaidOut(v: Json, i: nat, rest: string, depth: nat, indent: nat)
    requires FloatFree(v) && v.Object? && i < |v.members|
    ensures LaidOut(MembersRest(v, i, Dense, 0) + rest, depth + 1, indent, false) ==
            MembersRest(v, i, Indented(indent), indent * depth) + LaidOut(rest, depth, indent, false)
    decreases v, 0, |v.members| - i, 0
  {
    hide LaidOut, PrintMembers, Line;
    if i + 1 == |v.members| {
      Broken(indent, depth);
      CloseLaidOut('}', rest, depth, indent);
      Tail1(Line(depth, indent), "}", LaidOut(rest, depth, indent, false));
      assert "" + "}" == "}" == ['}'];
    } else {
      var body := PrintMembers(v, i + 1, Dense, 0);
      MembersLaidOut(v, i + 1, rest, depth, indent);
      CommaLaidOut(body + rest, depth + 1, indent);
      Tail1(",", body, rest);
      Tail1(",", PrintMembers(v, i + 1, Indented(indent), indent * depth), LaidOut(rest, depth, indent, false));
    }
  }

  lemma KeyLaidOut(key: string, rest: string, depth: nat, indent: nat)
    ensures LaidOut(StrText(key) + (":" + rest), depth, indent, false) == StrText(key) + (": " + LaidOut(rest, depth, indent, false))
  {
    hide LaidOut, StrText;
    StringCopied(key, ":" + rest, depth, indent);
    CommaLaidOut(rest, depth, indent);
  }

  lemma {:induction false} MembersLaidOut(v: Json, i: nat, rest: string, depth: nat, indent: nat)
    requires FloatFree(v) && v.Object? && i < |v.members|
    ensures Line(depth + 1, indent) + LaidOut(PrintMembers(v, i, Dense, 0) + rest, depth + 1, indent, false) ==
            PrintMembers(v, i, Indented(indent), indent * depth) + LaidOut(rest, depth, indent, false)
    decreases v, 0, |v.members| - i, 1
  {
    hide LaidOut, Print, PrintMembers, Line, MembersRest, StrText;
    var tail := MembersRest(v, i, Dense, 0) + rest;
    MembersDense(v, i, rest);
    KeyLaidOut(v.members[i].key, Print(v.members[i].value, Dense, 0) + tail, depth + 1, indent);
    ValueLaidOut(v.members[i].value, tail, depth + 1, indent);
    MembersRestLaidOut(v, i, rest, depth, indent);
    MembersPretty(v, i, depth, indent, LaidOut(rest, depth, indent, false));
  }

  /** The pretty text is the layout of the compact text. */
  lemma PrettyLaidOut(v: Json, indent: nat)
    requires FloatFree(v)
    ensures Pretty(v, indent) == LaidOut(Compact(v), 0, indent, false)
  {
    hide LaidOut, Print;
    ValueLaidOut(v, "", 0, indent);
    assert Print(v, Dense, 0) + "" == Print(v, Dense, 0);
    Nothing(indent);
    assert indent * 0 == 0;
    assert Print(v, Indented(indent), 0) + "" == Print(v, Indented(indent), 0);
  }

  lemma Nothing(indent: nat)
    ensures LaidOut("", 0, indent, false) == ""
  {
  }
}
