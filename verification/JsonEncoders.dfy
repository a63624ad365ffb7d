/** The two JSON encoders as they run on a JSON value: text appended to a writer, a flag for "inside
    a map key", and for the pretty one the current indentation. */
module JsonEncoders {
  import opened Common
  import opened Decimals
  import opened JsonValue
  import opened JsonPrinter

  /** `None` for a character that is copied; the loop of `escape_str` flushes runs of those. */
  method EscapeStr(v: string) returns (text: string)
    ensures text == StrText(v)
  {
    hide EscapeOf, Escaped;
    text := "\"";
    var start, i := 0, 0;
    while i < |v|
      invariant 0 <= start <= i <= |v|
      invariant forall k :: start <= k < i ==> EscapeOf(v[k]).None?
      invariant text + Escaped(v[start..]) == "\"" + Escaped(v)
    {
      var escaped := EscapeOf(v[i]);
      if escaped.Some? {
        Flushed(text, v, start, i);
        if start < i {
          text := text + v[start..i];
        }
        text := text + escaped.value;
        start := i + 1;
      }
      i := i + 1;
    }
    EscapedTail(v, start);
    assert text + "" == text;
    if start != |v| {
      text := text + v[start..];
    }
    Assoc("\"", Escaped(v), "\"");
    text := text + "\"";
  }

  /** After the last escape there is only text that is copied. */
  lemma EscapedTail(v: string, start: nat)
    requires start <= |v| && forall k :: start <= k < |v| ==> EscapeOf(v[k]).None?
    ensures Escaped(v[start..]) == v[start..]
    ensures start == |v| ==> v[start..] == ""
  {
    hide EscapeOf;
    var t := v[start..];
    EscapedRun(t, |t|);
    assert t[..|t|] == t && t[|t|..] == "";
  }

  /** Writing out a run and the escape that ends it. */
  lemma Flushed(text: string, v: string, start: nat, i: nat)
    requires start <= i < |v| && EscapeOf(v[i]).Some? && forall k :: start <= k < i ==> EscapeOf(v[k]).None?
    ensures text + Escaped(v[start..]) == text + v[start..i] + EscapeOf(v[i]).value + Escaped(v[i + 1..])
  {
    hide EscapeOf;
    var s := v[start..];
    EscapedRun(s, i - start);
    assert s[..i - start] == v[start..i] && s[i - start..] == v[i..];
    assert v[i..][1..] == v[i + 1..];
    assert Escaped(v[i..]) == EscapeOf(v[i]).value + Escaped(v[i + 1..]);
    Assoc(text, v[start..i], Escaped(v[i..]));
    Assoc(text + v[start..i], EscapeOf(v[i]).value, Escaped(v[i + 1..]));
  }

  /** A run of copied characters is escaped to itself. */
  lemma {:induction false} EscapedRun(s: string, n: nat)
    requires n <= |s| && forall k :: 0 <= k < n ==> EscapeOf(s[k]).None?
    ensures Escaped(s) == s[..n] + Escaped(s[n..])
  {
    hide EscapeOf;
    if n > 0 {
      EscapedRun(s[1..], n - 1);
      assert s[1..][n - 1..] == s[n..];
      assert s[..n] == [s[0]] + s[1..][..n - 1];
      assert EscapedChar(s[0]) == [s[0]];
    } else {
      assert s[..0] == "" && s[0..] == s;
    }
  }

  /** `spaces`, sixteen at a time. */
  method WriteSpaces(n: nat) returns (text: string)
    ensures text == Spaces(n)
  {
    var buf := Spaces(16);
    text := "";
    var left := n;
    while left >= |buf|
      invariant 0 <= left <= n && text + Spaces(left) == Spaces(n)
    {
      text := text + buf;
      left := left - |buf|;
    }
    if left > 0 {
      text := text + buf[..left];
    }
  }

  /** What follows the first `i` elements of an array. */
  ghost function ElemsLeft(v: Json, i: nat, style: Style, level: nat): string
    requires FloatFree(v) && v.Array? && i <= |v.elems|
  {
    if i == |v.elems| then Break(style, level) + "]"
    else (if i == 0 then "" else ",") + PrintElems(v, i, style, level)
  }

  ghost function MembersLeft(v: Json, i: nat, style: Style, level: nat): string
    requires FloatFree(v) && v.Object? && i <= |v.members|
  {
    if i == |v.members| then Break(style, level) + "}"
    else (if i == 0 then "" else ",") + PrintMembers(v, i, style, level)
  }

  /** The text of an array after its opening bracket, before and after the elements. */
  lemma ArrayText(w: string, v: Json, style: Style, level: nat)
    requires FloatFree(v) && v.Array? && (style.Dense? || v.elems != [])
    ensures w + "[" + ElemsLeft(v, 0, style, level) == w + Print(v, style, level)
    ensures ElemsLeft(v, |v.elems|, style, level) == Break(style, level) + "]"
  {
    hide PrintElems, Break;
    if v.elems == [] {
      assert Break(style, level) == "" by { DenseBreak(level); }
      assert w + "[" + ("" + "]") == w + "[]";
    } else {
      var e := PrintElems(v, 0, style, level);
      assert "" + e == e;
      Assoc(w, "[", e);
    }
  }

  lemma ObjectText(w: string, v: Json, style: Style, level: nat)
    requires FloatFree(v) && v.Object? && (style.Dense? || v.members != [])
    ensures w + "{" + MembersLeft(v, 0, style, level) == w + Print(v, style, level)
    ensures MembersLeft(v, |v.members|, style, level) == Break(style, level) + "}"
  {
    hide PrintMembers, Break;
    if v.members == [] {
      assert Break(style, level) == "" by { DenseBreak(level); }
      assert w + "{" + ("" + "}") == w + "{}";
    } else {
      var e := PrintMembers(v, 0, style, level);
      assert "" + e == e;
      Assoc(w, "{", e);
    }
  }

  lemma DenseBreak(level: nat)
    ensures Break(Dense, level) == "" && Deeper(Dense, level) == level && Colon(Dense) == ":"
  {
  }

  /** The separator before the `i`-th element or member. */
  function Separator(i: nat, style: Style, level: nat): string {
    (if i == 0 then "" else ",") + Break(style, Deeper(style, level))
  }

  lemma DenseSeparator(w: string, i: nat, level: nat)
    ensures w + Separator(i, Dense, level) == if i == 0 then w else w + ","
  {
    assert "," + "" == ",";
  }

  lemma Assoc(a: string, b: string, c: string)
    ensures a + b + c == a + (b + c)
  {
  }

  lemma ElemWritten(w: string, v: Json, i: nat, style: Style, level: nat)
    requires FloatFree(v) && v.Array? && i < |v.elems|
    ensures w + ElemsLeft(v, i, style, level) ==
            w + Separator(i, style, level) + Print(v.elems[i], style, Deeper(style, level)) + ElemsLeft(v, i + 1, style, level)
  {
    hide Print, Break;
    var sep, p, m := Separator(i, style, level), Print(v.elems[i], style, Deeper(style, level)), ElemsLeft(v, i + 1, style, level);
    assert m == if i + 1 == |v.elems| then Break(style, level) + "]" else "," + PrintElems(v, i + 1, style, level);
    Assoc(if i == 0 then "" else ",", Break(style, Deeper(style, level)), p + m);
    Assoc(w, sep, p + m);
    Assoc(w + sep, p, m);
  }

  lemma MemberWritten(w: string, v: Json, i: nat, style: Style, level: nat)
    requires FloatFree(v) && v.Object? && i < |v.members|
    ensures w + MembersLeft(v, i, style, level) ==
            w + Separator(i, style, level) + StrText(v.members[i].key) + Colon(style)
            + Print(v.members[i].value, style, Deeper(style, level)) + MembersLeft(v, i + 1, style, level)
  {
    hide StrText, Colon, Print, Break;
    var sep := Separator(i, style, level);
    var k, c := StrText(v.members[i].key), Colon(style);
    var p, m := Print(v.members[i].value, style, Deeper(style, level)), MembersLeft(v, i + 1, style, level);
    assert m == if i + 1 == |v.members| then Break(style, level) + "}" else "," + PrintMembers(v, i + 1, style, level);
    Assoc(if i == 0 then "" else ",", Break(style, Deeper(style, level)), k + (c + (p + m)));
    Regroup(w, sep, k, c, p, m);
  }

  lemma Regroup(w: string, sep: string, k: string, c: string, p: string, m: string)
    ensures w + (sep + (k + (c + (p + m)))) == w + sep + k + c + p + m
  {
    Assoc(w, sep, k + (c + (p + m)));
    Assoc(w + sep, k, c + (p + m));
    Assoc(w + sep + k, c, p + m);
    Assoc(w + sep + k + c, p, m);
  }

  /** A scalar that may stand in key position, where numbers are quoted. */
  predicate KeyLike(v: Json) {
    v.I64? || v.U64? || v.String?
  }

  function KeyText(v: Json): string
    requires KeyLike(v)
  {
    match v
    case I64(i) => "\"" + IntText(i) + "\""
    case U64(u) => "\"" + Decimal(u) + "\""
    case String(s) => StrText(s)
  }

  class Encoder {
    var writer: string
    var isEmittingMapKey: bool

    constructor ()
      ensures writer == "" && !isEmittingMapKey
    {
      writer, isEmittingMapKey := "", false;
    }

    method Write(s: string)
      modifies this`writer
      ensures writer == old(writer) + s
    {
      writer := writer + s;
    }

    /** A number, quoted in key position. */
    method EmitNumber(text: string)
      modifies this`writer
      ensures writer == old(writer) + if isEmittingMapKey then "\"" + text + "\"" else text
    {
      if isEmittingMapKey {
        Write("\"" + text + "\"");
      } else {
        Write(text);
      }
    }

    method EmitStr(s: string)
      modifies this`writer
      ensures writer == old(writer) + StrText(s)
    {
      var text := EscapeStr(s);
      Write(text);
    }

    /** `Json::encode`. In key position everything but numbers and strings is refused. */
    method Encode(v: Json) returns (ok: bool)
      requires FloatFree(v)
      modifies this
      ensures isEmittingMapKey == old(isEmittingMapKey)
      ensures !old(isEmittingMapKey) ==> ok && writer == old(writer) + Print(v, Dense, 0)
      ensures old(isEmittingMapKey) ==> ok == KeyLike(v)
      ensures old(isEmittingMapKey) ==> writer == old(writer) + if ok then KeyText(v) else ""
      decreases v, 1
    {
      ok := KeyLike(v) || !isEmittingMapKey;
      if !ok {
        return;
      }
      match v {
        case I64(i) => EmitNumber(IntText(i));
        case U64(u) => EmitNumber(Decimal(u));
        case String(s) => EmitStr(s);
        case Boolean(b) => Write(if b then "true" else "false");
        case Null => Write("null");
        case Array(_) => EncodeArray(v);
        case Object(_) => EncodeObject(v);
      }
    }

    method EncodeArray(v: Json)
      requires FloatFree(v) && v.Array? && !isEmittingMapKey
      modifies this
      ensures !isEmittingMapKey && writer == old(writer) + Print(v, Dense, 0)
      decreases v, 0, 0
    {
      hide Print, ElemsLeft, Break, Separator;
      var vs := v.elems;
      Write("[");
      ArrayText(old(writer), v, Dense, 0);
      DenseBreak(0);
      for i := 0 to |vs|
        invariant !isEmittingMapKey
        invariant writer + ElemsLeft(v, i, Dense, 0) == old(writer) + Print(v, Dense, 0)
      {
        ElemWritten(writer, v, i, Dense, 0);
        DenseSeparator(writer, i, 0);
        if i != 0 {
          Write(",");
        }
        var _ := Encode(vs[i]);
      }
      assert "" + "]" == "]";
      Write("]");
    }

    method EncodeObject(v: Json)
      requires FloatFree(v) && v.Object? && !isEmittingMapKey
      modifies this
      ensures !isEmittingMapKey && writer == old(writer) + Print(v, Dense, 0)
      decreases v, 0, 0
    {
      hide Print, MembersLeft, StrText, Break, Separator, Colon;
      var ms := v.members;
      Write("{");
      ObjectText(old(writer), v, Dense, 0);
      DenseBreak(0);
      for i := 0 to |ms|
        invariant !isEmittingMapKey
        invariant writer + MembersLeft(v, i, Dense, 0) == old(writer) + Print(v, Dense, 0)
      {
        MemberWritten(writer, v, i, Dense, 0);
        DenseSeparator(writer, i, 0);
        if i != 0 {
          Write(",");
        }
        isEmittingMapKey := true;
        EmitStr(ms[i].key);
        isEmittingMapKey := false;
        Write(":");
        var _ := Encode(ms[i].value);
      }
      assert "" + "}" == "}";
      Write("}");
    }
  }

  class PrettyEncoder {
    var writer: string
    var currIndent: nat
    var indent: nat
    var isEmittingMapKey: bool

    /** `new`, which starts with a width of 2, followed by `set_indent(width)`. */
    constructor (width: nat)
      ensures writer == "" && currIndent == 0 && indent == width && !isEmittingMapKey
    {
      writer, currIndent, indent, isEmittingMapKey := "", 0, width, false;
    }

    method Write(s: string)
      modifies this`writer
      ensures writer == old(writer) + s
    {
      writer := writer + s;
    }

    method WriteBreak()
      modifies this`writer
      ensures writer == old(writer) + Break(Indented(indent), currIndent)
    {
      var sp := WriteSpaces(currIndent);
      Write("\n");
      Write(sp);
    }

    method EmitNumber(text: string)
      modifies this`writer
      ensures writer == old(writer) + if isEmittingMapKey then "\"" + text + "\"" else text
    {
      if isEmittingMapKey {
        Write("\"" + text + "\"");
      } else {
        Write(text);
      }
    }

    method EmitStr(s: string)
      modifies this`writer
      ensures writer == old(writer) + StrText(s)
    {
      var text := EscapeStr(s);
      Write(text);
    }

    /** `Json::encode`. The indentation ends where it began. */
    method Encode(v: Json) returns (ok: bool)
      requires FloatFree(v)
      modifies this
      ensures isEmittingMapKey == old(isEmittingMapKey) && indent == old(indent) && currIndent == old(currIndent)
      ensures !old(isEmittingMapKey) ==> ok && writer == old(writer) + Print(v, Indented(indent), currIndent)
      ensures old(isEmittingMapKey) ==> ok == KeyLike(v)
      ensures old(isEmittingMapKey) ==> writer == old(writer) + if ok then KeyText(v) else ""
      decreases v, 1
    {
      ok := KeyLike(v) || !isEmittingMapKey;
      if !ok {
        return;
      }
      match v {
        case I64(i) => EmitNumber(IntText(i));
        case U64(u) => EmitNumber(Decimal(u));
        case String(s) => EmitStr(s);
        case Boolean(b) => Write(if b then "true" else "false");
        case Null => Write("null");
        case Array(_) => EncodeArray(v);
        case Object(_) => EncodeObject(v);
      }
    }

    /** A separator, with its line break. */
    method WriteSeparator(i: nat, ghost level: nat)
      requires currIndent == level + indent
      modifies this`writer
      ensures writer == old(writer) + Separator(i, Indented(indent), level)
    {
      if i != 0 {
        Write(",");
      }
      WriteBreak();
    }

    /** One element with the separator before it. */
    method EncodeElem(v: Json, i: nat, ghost level: nat)
      requires FloatFree(v) && v.Array? && i < |v.elems| && !isEmittingMapKey && currIndent == level + indent
      modifies this
      ensures !isEmittingMapKey && indent == old(indent) && currIndent == old(currIndent)
      ensures writer + ElemsLeft(v, i + 1, Indented(indent), level) == old(writer) + ElemsLeft(v, i, Indented(indent), level)
      decreases v, 0, 0
    {
      hide ElemsLeft, Separator, Print;
      ElemWritten(writer, v, i, Indented(indent), level);
      WriteSeparator(i, level);
      var _ := Encode(v.elems[i]);
    }

    method EncodeArray(v: Json)
      requires FloatFree(v) && v.Array? && !isEmittingMapKey
      modifies this
      ensures !isEmittingMapKey && indent == old(indent) && currIndent == old(currIndent)
      ensures writer == old(writer) + Print(v, Indented(indent), currIndent)
      decreases v, 0, 1
    {
      if |v.elems| == 0 {
        Write("[]");
        return;
      }
      hide ElemsLeft, Break, Print, FloatFree;
      ghost var style, level := Indented(indent), currIndent;
      ghost var all := writer + Print(v, style, level);
      ArrayText(writer, v, style, level);
      Write("[");
      currIndent := currIndent + indent;
      for i := 0 to |v.elems|
        invariant !isEmittingMapKey && indent == old(indent) && currIndent == level + indent
        invariant writer + ElemsLeft(v, i, style, level) == all
      {
        EncodeElem(v, i, level);
      }
      currIndent := currIndent - indent;
      Assoc(writer, Break(style, level), "]");
      WriteBreak();
      Write("]");
    }

    /** One member with the separator before it. */
    method EncodeMember(v: Json, i: nat, ghost level: nat)
      requires FloatFree(v) && v.Object? && i < |v.members| && !isEmittingMapKey && currIndent == level + indent
      modifies this
      ensures !isEmittingMapKey && indent == old(indent) && currIndent == old(currIndent)
      ensures writer + MembersLeft(v, i + 1, Indented(indent), level) == old(writer) + MembersLeft(v, i, Indented(indent), level)
      decreases v, 0, 0
    {
      hide MembersLeft, Separator, Print, StrText;
      MemberWritten(writer, v, i, Indented(indent), level);
      WriteSeparator(i, level);
      isEmittingMapKey := true;
      EmitStr(v.members[i].key);
      isEmittingMapKey := false;
      Write(": ");
      var _ := Encode(v.members[i].value);
    }

    method EncodeObject(v: Json)
      requires FloatFree(v) && v.Object? && !isEmittingMapKey
      modifies this
      ensures !isEmittingMapKey && indent == old(indent) && currIndent == old(currIndent)
      ensures writer == old(writer) + Print(v, Indented(indent), currIndent)
      decreases v, 0, 1
    {
      if |v.members| == 0 {
        Write("{}");
        return;
      }
      hide MembersLeft, Break, Print, FloatFree;
      ghost var style, level := Indented(indent), currIndent;
      ghost var all := writer + Print(v, style, level);
      ObjectText(writer, v, style, level);
      Write("{");
      currIndent := currIndent + indent;
      for i := 0 to |v.members|
        invariant !isEmittingMapKey && indent == old(indent) && currIndent == level + indent
        invariant writer + MembersLeft(v, i, style, level) == all
      {
        EncodeMember(v, i, level);
      }
      currIndent := currIndent - indent;
      Assoc(writer, Break(style, level), "}");
      WriteBreak();
      Write("}");
    }
  }
}
