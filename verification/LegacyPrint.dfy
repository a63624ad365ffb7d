/** Printing a legacy symbol: the escapes of an element undone, and the elements joined. */
module LegacyPrint {
  import opened Common
  import opened Decimals
  import opened V0Parser
  import opened Legacy
  import Utf8

  // Unescaping ---------------------------------------------------------------------------------

  function Find(s: string, stop: set<char>): (r: Option<nat>)
    ensures r.Some? ==> r.value < |s| && s[r.value] in stop && forall i :: 0 <= i < r.value ==> s[i] !in stop
    ensures r.None? ==> forall i :: 0 <= i < |s| ==> s[i] !in stop
  {
    if s == "" then None
    else if s[0] in stop then Some(0)
    else
      match Find(s[1..], stop)
      case None => None
      case Some(i) => Some(i + 1)
  }

  predicate IsControl(n: nat) {
    n < 0x20 || 0x7f <= n <= 0x9f
  }

  /** A code point in lower-case hexadecimal, of a character that is not a control character. */
  function CodePoint(digits: string): Option<char> {
    if digits == "" || !AllNibbles(digits) then None
    else
      var n := HexValue(digits);
      if Utf8.IsScalar(n) && !IsControl(n) then Some(n as char) else None
  }

  /** What stands between two dollar signs. */
  function Meaning(escape: string): Option<string> {
    if escape == "SP" then Some("@")
    else if escape == "BP" then Some("*")
    else if escape == "RF" then Some("&")
    else if escape == "LT" then Some("<")
    else if escape == "GT" then Some(">")
    else if escape == "LP" then Some("(")
    else if escape == "RP" then Some(")")
    else if escape == "C" then Some(",")
    else if escape != "" && escape[0] == 'u' then
      match CodePoint(escape[1..])
      case None => None
      case Some(c) => Some([c])
    else None
  }

  /** The loop over one element. What it cannot make out it prints as it is. */
  function Unescape(rest: string): string
    decreases |rest|
  {
    if rest == "" then ""
    else if rest[0] == '.' then
      if |rest| > 1 && rest[1] == '.' then "::" + Unescape(rest[2..]) else "." + Unescape(rest[1..])
    else if rest[0] == '$' then
      match Find(rest[1..], {'$'})
      case None => rest
      case Some(end) =>
        match Meaning(rest[1..1 + end])
        case None => rest
        case Some(t) => t + Unescape(rest[end + 2..])
    else
      match Find(rest, {'$', '.'})
      case None => rest
      case Some(i) => rest[..i] + Unescape(rest[i..])
  }

  /** An underscore in front of an escape is dropped. */
  function Element(part: string): string {
    Unescape(if |part| >= 2 && part[..2] == "_$" then part[1..] else part)
  }

  predicate IsHexDigit(c: char) {
    '0' <= c <= '9' || 'a' <= c <= 'f' || 'A' <= c <= 'F'
  }

  predicate IsRustHash(s: string) {
    s != "" && s[0] == 'h' && forall i :: 1 <= i < |s| ==> IsHexDigit(s[i])
  }

  /** Elements from the `i`-th on; the alternate form leaves out a hash at the end. */
  function Joined(parts: seq<string>, i: nat, alternate: bool): string
    requires i <= |parts|
    decreases |parts| - i
  {
    if i == |parts| || (alternate && i + 1 == |parts| && IsRustHash(parts[i])) then ""
    else (if i == 0 then "" else "::") + Element(parts[i]) + Joined(parts, i + 1, alternate)
  }

  datatype Symbol = Symbol(inner: string, elements: nat, suffix: string)

  function Inner(s: string): Option<string> {
    if |s| >= 3 && s[..3] == "_ZN" then Some(s[3..])
    else if |s| >= 2 && s[..2] == "ZN" then Some(s[2..])
    else if |s| >= 4 && s[..4] == "__ZN" then Some(s[4..])
    else None
  }

  predicate IsAscii(s: string) {
    forall i :: 0 <= i < |s| ==> s[i] < 128 as char
  }

  function Demangle(s: string): Option<Symbol> {
    match Inner(s)
    case None => None
    case Some(inner) =>
      if !IsAscii(inner) then None
      else
        match Count(inner)
        case None => None
        case Some(c) => Some(Symbol(inner, c.elements, c.rest))
  }

  /** What is displayed; `None` is a panic. */
  function Display(d: Symbol, alternate: bool): Option<string> {
    match Split(d.inner, d.elements)
    case None => None
    case Some(p) => Some(Joined(p.parts, 0, alternate))
  }

  /** No accepted symbol makes the printing scan leave the string. */
  lemma DisplayTotal(s: string, alternate: bool)
    requires Demangle(s).Some?
    ensures Display(Demangle(s).value, alternate).Some?
  {
    ScansAgree(Demangle(s).value.inner);
  }

  // Escaping -----------------------------------------------------------------------------------

  predicate IsPlain(c: char) {
    'a' <= c <= 'z' || 'A' <= c <= 'Z' || '0' <= c <= '9' || c == '_'
  }

  function NibbleChar(d: nat): (c: char)
    requires d < 16
    ensures IsNibble(c) && Nibble(c) == d
  {
    if d < 10 then ('0' as int + d) as char else ('a' as int + (d - 10)) as char
  }

  function HexText(n: nat): (s: string)
    ensures s != "" && AllNibbles(s) && HexValue(s) == n
  {
    if n < 16 then
      var s := [NibbleChar(n)];
      assert s[..0] == "";
      s
    else
      var t := HexText(n / 16);
      var s := t + [NibbleChar(n % 16)];
      assert s[..|s| - 1] == t;
      s
  }

  /** How the compiler writes a character that a symbol cannot hold. */
  function EscapeChar(c: char): string {
    if IsPlain(c) then [c]
    else "$" + Code(c) + "$"
  }

  function Code(c: char): string {
    match c
    case '@' => "SP"
    case '*' => "BP"
    case '&' => "RF"
    case '<' => "LT"
    case '>' => "GT"
    case '(' => "LP"
    case ')' => "RP"
    case ',' => "C"
    case _ => "u" + HexText(c as nat)
  }

  function Escape(s: string): string {
    if s == "" then "" else EscapeChar(s[0]) + Escape(s[1..])
  }

  lemma CodeMeans(c: char)
    requires !IsControl(c as nat)
    ensures Meaning(Code(c)) == Some([c]) && '$' !in Code(c)
  {
    hide HexText;
    if c !in "@*&<>()," { HexMeans(c); }
  }

  lemma {:induction false} FindAt(a: string, c: char, b: string, stop: set<char>)
    requires c in stop && forall i :: 0 <= i < |a| ==> a[i] !in stop
    ensures Find(a + [c] + b, stop) == Some(|a|)
  {
    if a != "" {
      assert (a + [c] + b)[1..] == a[1..] + [c] + b;
      FindAt(a[1..], c, b, stop);
    }
  }

  lemma FindStep(c: char, t: string, stop: set<char>)
    requires c !in stop
    ensures Find([c] + t, stop) ==
            match Find(t, stop)
            case None => None
            case Some(i) => Some(i + 1)
  {
    assert ([c] + t)[1..] == t;
  }

  /** Plain text is copied up to the next special character, if there is one. */
  lemma PlainRun(t: string)
    requires t != "" && t[0] != '$' && t[0] != '.'
    ensures Unescape(t) ==
            match Find(t, {'$', '.'})
            case None => t
            case Some(i) => t[..i] + Unescape(t[i..])
  {
  }

  lemma FrontMoved(c: char, t: string, i: nat, u: string)
    requires i <= |t|
    ensures ([c] + t)[i + 1..] == t[i..] && ([c] + t)[..i + 1] + u == [c] + (t[..i] + u)
  {
  }

  /** A plain character is printed in front of whatever the rest is. */
  lemma PlainFirst(c: char, t: string)
    requires IsPlain(c)
    ensures Unescape([c] + t) == [c] + Unescape(t)
  {
    hide Find, Unescape;
    var s := [c] + t;
    FindStep(c, t, {'$', '.'});
    PlainRun(s);
    var found := Find(t, {'$', '.'});
    if found.None? {
      if t != "" {
        PlainRun(t);
      } else {
        NothingLeft();
      }
    } else if found.value == 0 {
      FrontMoved(c, t, 0, Unescape(t));
      assert t[0..] == t && t[..0] + Unescape(t) == Unescape(t);
    } else {
      var i := found.value;
      PlainRun(t);
      FrontMoved(c, t, i, Unescape(t[i..]));
    }
  }

  lemma NothingLeft()
    ensures Unescape("") == ""
  {
  }

  lemma EscapeFirst(c: char, t: string)
    requires !IsPlain(c) && !IsControl(c as nat)
    ensures Unescape(EscapeChar(c) + t) == [c] + Unescape(t)
  {
    hide Unescape, Code, Meaning;
    CodeMeans(c);
    EscapeShown(Code(c), [c], t);
  }

  lemma EscapePlain(c: char)
    ensures EscapeChar(c) != ""
    ensures IsPlain(c) ==> EscapeChar(c) == [c]
    ensures !IsPlain(c) ==> EscapeChar(c)[0] == '$'
  {
  }

  predicate NoControl(s: string) {
    forall i :: 0 <= i < |s| ==> !IsControl(s[i] as nat)
  }

  /** The escape of a control character, and whatever follows, is printed as it is. */
  lemma ControlFirst(c: char, t: string)
    requires IsControl(c as nat)
    ensures Unescape(EscapeChar(c) + t) == EscapeChar(c) + t
  {
    var h := HexText(c as nat);
    var e := "u" + h;
    ControlCode(c, h);
    hide Find, Code, Meaning, HexText, EscapeChar;
    NibblesPlain(h);
    var s := "$" + e + "$" + t;
    assert s[1..] == e + ['$'] + t;
    FindAt(e, '$', t, {'$'});
    assert s[1..1 + |e|] == e;
  }

  lemma ControlCode(c: char, h: string)
    requires IsControl(c as nat) && h == HexText(c as nat)
    ensures EscapeChar(c) == "$" + ("u" + h) + "$" && Meaning("u" + h) == None
  {
    hide HexText, HexValue, Meaning;
    CodeMeaning(h);
    ControlNotPlain(c);
  }

  lemma CodeMeaning(h: string)
    ensures Meaning("u" + h) == match CodePoint(h)
                                case None => None
                                case Some(c) => Some([c])
  {
    hide CodePoint;
    var e := "u" + h;
    assert e[0] == 'u' && e[1..] == h;
    assert "SP"[0] != 'u' && "BP"[0] != 'u' && "RF"[0] != 'u' && "LT"[0] != 'u';
    assert "GT"[0] != 'u' && "LP"[0] != 'u' && "RP"[0] != 'u' && "C"[0] != 'u';
  }

  /** Unescaping, by the first character. */
  lemma UnescapeTurn(s: string, t: string)
    requires s != ""
    ensures if IsControl(s[0] as nat) then !(s <= Unescape(Escape(s) + t))
            else Unescape(Escape(s) + t) == [s[0]] + Unescape(Escape(s[1..]) + t)
  {
    hide Unescape, EscapeChar, IsControl;
    var c, rest := s[0], Escape(s[1..]) + t;
    assert Escape(s) + t == EscapeChar(c) + rest;
    EscapePlain(c);
    if IsControl(c as nat) {
      ControlFirst(c, rest);
      ControlNotPlain(c);
      assert (EscapeChar(c) + rest)[0] == '$';
    } else if IsPlain(c) {
      PlainFirst(c, rest);
    } else {
      EscapeFirst(c, rest);
    }
  }

  lemma ControlSplit(s: string)
    requires s != ""
    ensures NoControl(s) <==> !IsControl(s[0] as nat) && NoControl(s[1..])
  {
    hide IsControl;
    forall i | 1 <= i < |s| ensures s[i] == s[1..][i - 1] {
    }
  }

  /** Unescaping undoes escaping, whatever follows, up to a control character. */
  lemma {:induction false} UnescapeRun(s: string, t: string)
    ensures if NoControl(s) then Unescape(Escape(s) + t) == s + Unescape(t) else !(s <= Unescape(Escape(s) + t))
  {
    hide Unescape, Escape, NoControl, IsControl;
    if s == "" {
      NothingEscaped();
      assert "" + t == t && "" + Unescape(t) == Unescape(t);
    } else {
      UnescapeRun(s[1..], t);
      UnescapeTurn(s, t);
      ControlSplit(s);
      PrefixSplit(s, Unescape(Escape(s[1..]) + t));
      assert s == [s[0]] + s[1..];
      assert [s[0]] + (s[1..] + Unescape(t)) == s + Unescape(t);
    }
  }

  lemma PrefixSplit(s: string, u: string)
    requires s != ""
    ensures s <= [s[0]] + u <==> s[1..] <= u
  {
    assert s == [s[0]] + s[1..];
    if s <= [s[0]] + u {
      assert ([s[0]] + u)[..|s|] == [s[0]] + u[..|s| - 1];
    }
  }

  /** Unescaping undoes escaping if and only if the text has no control character. */
  lemma UnescapeEscape(s: string)
    ensures Unescape(Escape(s)) == s <==> NoControl(s)
  {
    hide Unescape, Escape, NoControl;
    UnescapeRun(s, "");
    NothingEscaped();
    assert Escape(s) + "" == Escape(s) && s + "" == s;
  }

  /** Two dots are two colons, and one dot is a dot. */
  lemma DotsShown(t: string)
    ensures Unescape(".." + t) == "::" + Unescape(t)
    ensures t == "" || t[0] != '.' ==> Unescape("." + t) == "." + Unescape(t)
  {
    assert (".." + t)[2..] == t && ("." + t)[1..] == t;
    assert t != "" ==> ("." + t)[1] == t[0];
  }

  /** The escapes, by name. */
  lemma EscapesShown(t: string)
    ensures Unescape("$SP$" + t) == "@" + Unescape(t) && Unescape("$BP$" + t) == "*" + Unescape(t)
    ensures Unescape("$RF$" + t) == "&" + Unescape(t) && Unescape("$LT$" + t) == "<" + Unescape(t)
    ensures Unescape("$GT$" + t) == ">" + Unescape(t) && Unescape("$LP$" + t) == "(" + Unescape(t)
    ensures Unescape("$RP$" + t) == ")" + Unescape(t) && Unescape("$C$" + t) == "," + Unescape(t)
  {
    hide Unescape;
    EscapeShown("SP", "@", t);
    EscapeShown("BP", "*", t);
    EscapeShown("RF", "&", t);
    EscapeShown("LT", "<", t);
    EscapeShown("GT", ">", t);
    EscapeShown("LP", "(", t);
    EscapeShown("RP", ")", t);
    EscapeShown("C", ",", t);
    assert "$" + "SP" + "$" == "$SP$" && "$" + "BP" + "$" == "$BP$" && "$" + "RF" + "$" == "$RF$" && "$" + "LT" + "$" == "$LT$";
    assert "$" + "GT" + "$" == "$GT$" && "$" + "LP" + "$" == "$LP$" && "$" + "RP" + "$" == "$RP$" && "$" + "C" + "$" == "$C$";
  }

  lemma EscapeShown(code: string, shown: string, t: string)
    requires Meaning(code) == Some(shown) && '$' !in code
    ensures Unescape("$" + code + "$" + t) == shown + Unescape(t)
  {
    hide Find, Meaning;
    var s := "$" + code + "$" + t;
    assert s[1..] == code + ['$'] + t;
    FindAt(code, '$', t, {'$'});
    assert s[1..1 + |code|] == code && s[|code| + 2..] == t;
  }

  /** A code point in lower-case hexadecimal, unless it is that of a control character. */
  lemma CodePointShown(c: char, t: string)
    requires !IsControl(c as nat)
    ensures Unescape("$u" + HexText(c as nat) + "$" + t) == [c] + Unescape(t)
  {
    hide Unescape, HexText;
    var h := HexText(c as nat);
    HexMeans(c);
    EscapeShown("u" + h, [c], t);
    assert "$" + ("u" + h) + "$" + t == "$u" + h + "$" + t;
  }

  lemma HexMeans(c: char)
    requires !IsControl(c as nat)
    ensures Meaning("u" + HexText(c as nat)) == Some([c])
    ensures '$' !in "u" + HexText(c as nat)
  {
    hide HexText, HexValue, IsControl, Meaning;
    var h := HexText(c as nat);
    CodeMeaning(h);
    NibblesPlain(h);
  }

  lemma NibblesPlain(h: string)
    requires AllNibbles(h)
    ensures '$' !in "u" + h
  {
    var e := "u" + h;
    forall i | 0 <= i < |e| ensures e[i] != '$' {
      if i > 0 { assert IsNibble(h[i - 1]); }
    }
  }

  lemma ControlNotPlain(c: char)
    requires IsControl(c as nat)
    ensures !IsPlain(c) && c != '$'
  {
  }

  // Names --------------------------------------------------------------------------------------

  /** A name is a list of segments, as in the path of a trait. */
  type Name = n: seq<string> | n != [] witness [""]

  /** The segments escaped and joined by two dots. */
  function Dotted(name: Name): string
    decreases |name|
  {
    if |name| == 1 then Escape(name[0]) else Escape(name[0]) + (".." + Dotted(name[1..]))
  }

  /** The segments joined by two colons. */
  function Coloned(name: Name): string
    decreases |name|
  {
    if |name| == 1 then name[0] else name[0] + ("::" + Coloned(name[1..]))
  }

  predicate NoControls(name: Name) {
    forall i :: 0 <= i < |name| ==> NoControl(name[i])
  }

  lemma ControlsSplit(name: Name)
    requires |name| > 1
    ensures NoControls(name) <==> NoControl(name[0]) && NoControls(name[1..])
  {
    hide NoControl;
    forall i | 1 <= i < |name| ensures name[i] == name[1..][i - 1] {
    }
  }

  /** Segments joined by dots are displayed joined by colons if and only if none has a control character. */
  lemma {:induction false} DottedShown(name: Name)
    ensures Unescape(Dotted(name)) == Coloned(name) <==> NoControls(name)
    decreases |name|
  {
    hide Unescape, Escape, NoControl;
    var s := name[0];
    if |name| == 1 {
      UnescapeEscape(s);
    } else {
      var rest := ".." + Dotted(name[1..]);
      DottedShown(name[1..]);
      ControlsSplit(name);
      UnescapeRun(s, rest);
      DotsShown(Dotted(name[1..]));
      AfterSegment(s, Unescape(Dotted(name[1..])), Coloned(name[1..]));
    }
  }

  lemma AfterSegment(s: string, a: string, b: string)
    ensures s + ("::" + a) == s + ("::" + b) <==> a == b
    ensures s <= s + ("::" + b)
  {
    assert (s + ("::" + a))[|s| + 2..] == a && (s + ("::" + b))[|s| + 2..] == b;
  }

  // Whole symbols ------------------------------------------------------------------------------

  /** A name as an element: an escape is not the first thing in a symbol. */
  function PartOf(name: Name): string {
    if name[0] != "" && !IsPlain(name[0][0]) then "_" + Dotted(name) else Dotted(name)
  }

  /** A name that is displayed as itself: no control character, and no underscore in front of an escape,
      which would be taken for the one that `PartOf` puts there. */
  predicate Readable(name: Name) {
    NoControls(name) && (|name[0]| >= 2 && name[0][0] == '_' ==> IsPlain(name[0][1]))
  }

  lemma EscapeStart(s: string)
    requires s != ""
    ensures Escape(s) != "" && (IsPlain(s[0]) ==> Escape(s)[0] == s[0])
    ensures !IsPlain(s[0]) ==> Escape(s)[0] == '$'
    ensures IsPlain(s[0]) ==> Escape(s)[1..] == Escape(s[1..])
  {
    EscapePlain(s[0]);
  }

  /** How a name starts: with its first segment, and what follows it. */
  lemma DottedStart(name: Name) returns (rest: string)
    ensures Dotted(name) == Escape(name[0]) + rest
    ensures rest == "" || rest[0] == '.'
    ensures rest == "" <==> |name| == 1
    ensures name[0] <= Coloned(name) && (|name| == 1 ==> Coloned(name) == name[0])
    ensures |name| > 1 ==> |Coloned(name)| > |name[0]| && Coloned(name)[|name[0]|] == ':'
  {
    rest := if |name| == 1 then "" else ".." + Dotted(name[1..]);
    if |name| == 1 { assert Escape(name[0]) + "" == Escape(name[0]); }
  }

  /** An element is displayed as the name it was made of if and only if the name is readable. */
  lemma ElementExact(name: Name)
    ensures Element(PartOf(name)) == Coloned(name) <==> Readable(name)
  {
    hide Unescape, Escape, NoControls, Dotted, Coloned;
    DottedShown(name);
    var rest := DottedStart(name);
    var s, p := name[0], PartOf(name);
    if s == "" {
      NothingEscaped();
      assert p == rest;
      assert |p| >= 2 ==> p[..2][0] == p[0];
    } else {
      EscapeStart(s);
      if !IsPlain(s[0]) {
        assert p[..2] == "_$" && p[1..] == Dotted(name);
      } else if |s| >= 2 {
        EscapeStart(s[1..]);
        assert p[1] == Escape(s)[1..][0];
        assert p[..2][0] == p[0] && p[..2][1] == p[1];
        if s[0] == '_' && !IsPlain(s[1]) {
          assert p[..2] == "_$" && p[1..] == Escape(s[1..]) + rest;
          UnderscoreLost(s, rest);
          assert Coloned(name)[0] == '_';
        }
      } else {
        OneLetter(s);
        assert |p| >= 2 ==> p[1] == '.' && p[..2][1] == p[1];
      }
    }
  }

  lemma NothingEscaped()
    ensures Escape("") == "" && Unescape("") == "" && NoControl("")
  {
  }

  /** What an underscore in front of an escape is taken for. */
  lemma UnderscoreLost(s: string, rest: string)
    requires |s| >= 2 && s[0] == '_' && !IsPlain(s[1])
    ensures Unescape(Escape(s[1..]) + rest) != "" && Unescape(Escape(s[1..]) + rest)[0] != '_'
  {
    hide Unescape, EscapeChar, IsControl;
    var c, t := s[1], Escape(s[1..][1..]) + rest;
    EscapePlain(c);
    assert Escape(s[1..]) + rest == EscapeChar(c) + t;
    if IsControl(c as nat) {
      ControlFirst(c, t);
      assert (EscapeChar(c) + t)[0] == '$';
    } else {
      EscapeFirst(c, t);
    }
  }

  /** The first character of an element. */
  lemma PartStart(name: Name)
    ensures PartOf(name) == "" <==> Coloned(name) == ""
    ensures Coloned(name) != "" ==> (IsDigit(PartOf(name)[0]) <==> IsDigit(Coloned(name)[0]))
  {
    hide Escape, Dotted, Coloned;
    var rest := DottedStart(name);
    if name[0] == "" {
      NothingEscaped();
    } else {
      EscapeStart(name[0]);
    }
  }

  lemma OneLetter(s: string)
    requires |s| == 1 && IsPlain(s[0])
    ensures Escape(s) == s
  {
    assert s[1..] == "";
  }

  function PartsOf(names: seq<Name>): seq<string> {
    seq(|names|, i requires 0 <= i < |names| => PartOf(names[i]))
  }

  /** Names joined as a path. */
  function Path(names: seq<Name>, i: nat): string
    requires i <= |names|
    decreases |names| - i
  {
    if i == |names| then "" else (if i == 0 then "" else "::") + Coloned(names[i]) + Path(names, i + 1)
  }

  /** None starts with a digit, and only the last can be empty. */
  ghost predicate NamesApart(names: seq<Name>) {
    forall k :: 0 <= k < |names| ==>
                  var n := Coloned(names[k]); if n == "" then k + 1 == |names| else !IsDigit(n[0])
  }

  lemma PartsApart(names: seq<Name>)
    ensures Apart(PartsOf(names)) <==> NamesApart(names)
  {
    hide PartOf, Coloned;
    forall k | 0 <= k < |names|
      ensures PartsOf(names)[k] == "" <==> Coloned(names[k]) == ""
      ensures Coloned(names[k]) != "" ==> (IsDigit(PartsOf(names)[k][0]) <==> IsDigit(Coloned(names[k])[0]))
    {
      PartStart(names[k]);
    }
  }

  /** A hash: the letter h and hexadecimal digits of either case. */
  ghost predicate IsHash(s: string) {
    s != "" && s[0] == 'h' && forall c :: c in s[1..] ==> c in "0123456789abcdefABCDEF"
  }

  lemma HashExact(s: string)
    ensures IsRustHash(s) <==> IsHash(s)
  {
    if s != "" {
      forall i | 1 <= i < |s| ensures s[i] in s[1..] && (IsHexDigit(s[i]) <==> s[i] in "0123456789abcdefABCDEF") {
        assert s[i] == s[1..][i - 1];
        HexDigitExact(s[i]);
      }
      forall c | c in s[1..] ensures exists i :: 1 <= i < |s| && s[i] == c {
        var j :| 0 <= j < |s[1..]| && s[1..][j] == c;
        assert s[j + 1] == c;
      }
    }
  }

  lemma HexDigitExact(c: char)
    ensures IsHexDigit(c) <==> c in "0123456789abcdefABCDEF"
  {
    var ds := "0123456789abcdefABCDEF";
    if IsHexDigit(c) {
      var i := if c <= '9' then c as int - '0' as int else if c >= 'a' then c as int - 'a' as int + 10 else c as int - 'A' as int + 16;
      assert ds[i] == c;
    }
  }

  /** The names displayed: the alternate form leaves out a hash at the end. */
  ghost function Displayed(names: seq<Name>, alternate: bool): seq<Name> {
    var n := |names|;
    if alternate && n > 0 && IsHash(PartOf(names[n - 1])) then names[..n - 1] else names
  }

  lemma {:induction false} JoinedBack(names: seq<Name>, i: nat, alternate: bool)
    requires i <= |Displayed(names, alternate)| && forall k :: 0 <= k < |names| ==> Readable(names[k])
    ensures Joined(PartsOf(names), i, alternate) == Path(Displayed(names, alternate), i)
    decreases |names| - i
  {
    hide Element, PartOf, Readable, IsRustHash, IsHash, Coloned;
    if names != [] { HashExact(PartOf(names[|names| - 1])); }
    if i < |Displayed(names, alternate)| {
      ElementExact(names[i]);
      JoinedBack(names, i + 1, alternate);
    }
  }

  lemma {:induction false} EscapeAscii(name: string)
    ensures IsAscii(Escape(name))
  {
    if name != "" {
      EscapeAscii(name[1..]);
      CharAscii(name[0]);
    }
  }

  lemma {:induction false} DottedAscii(name: Name)
    ensures IsAscii(Dotted(name))
    decreases |name|
  {
    hide Escape;
    EscapeAscii(name[0]);
    if |name| > 1 { DottedAscii(name[1..]); }
  }

  lemma PartAscii(name: Name)
    ensures IsAscii(PartOf(name))
  {
    hide Dotted;
    DottedAscii(name);
  }

  lemma CharAscii(c: char)
    ensures IsAscii(EscapeChar(c))
  {
    if c !in "@*&<>()," && !IsPlain(c) {
      var h := HexText(c as nat);
      assert forall i :: 0 <= i < |h| ==> IsNibble(h[i]);
      assert EscapeChar(c) == "$u" + h + "$";
    }
  }

  lemma {:induction false} MangledAscii(es: seq<string>)
    requires forall k :: 0 <= k < |es| ==> IsAscii(es[k])
    ensures IsAscii(Mangled(es))
  {
    if es != [] {
      DecimalDigits(|es[0]|);
      DigitsAscii(Decimal(|es[0]|));
      MangledAscii(es[1..]);
    }
  }

  lemma DigitsAscii(ds: string)
    requires AllDigits(ds)
    ensures IsAscii(ds)
  {
    forall i | 0 <= i < |ds| ensures ds[i] < 128 as char {
      assert IsDigit(ds[i]);
    }
  }

  /** The symbol of these names is accepted with as many elements, and each is displayed as its name. */
  ghost predicate NamesBack(names: seq<Name>) {
    ReadsBack(PartsOf(names)) && forall k :: 0 <= k < |names| ==> Element(PartOf(names[k])) == Coloned(names[k])
  }

  /** That is so if and only if the names stay apart and each is readable. */
  lemma NamesExact(names: seq<Name>)
    requires forall k :: 0 <= k < |names| ==> |PartOf(names[k])| < TWO_64
    ensures NamesBack(names) <==> NamesApart(names) && forall k :: 0 <= k < |names| ==> Readable(names[k])
  {
    hide Element, PartOf, Readable, ReadsBack, Apart, NamesApart, Coloned;
    MangleRoundTrip(PartsOf(names));
    PartsApart(names);
    forall k | 0 <= k < |names| ensures Element(PartOf(names[k])) == Coloned(names[k]) <==> Readable(names[k]) {
      ElementExact(names[k]);
    }
  }

  /** A path of names, mangled and prefixed, is accepted and displayed as that path, in either form. */
  lemma PathRoundTrip(names: seq<Name>, alternate: bool)
    requires forall k :: 0 <= k < |names| ==> |PartOf(names[k])| < TWO_64
    requires NamesApart(names) && forall k :: 0 <= k < |names| ==> Readable(names[k])
    ensures var s := "_ZN" + Mangled(PartsOf(names));
            && Demangle(s) == Some(Symbol(Mangled(PartsOf(names)), |names|, ""))
            && Display(Demangle(s).value, alternate) == Some(Path(Displayed(names, alternate), 0))
  {
    hide Mangled, Joined, Element, PartOf, Readable, Count, Split, Escape, NamesApart, Apart;
    var ps := PartsOf(names);
    forall k | 0 <= k < |ps| ensures IsAscii(ps[k]) {
      PartAscii(names[k]);
    }
    MangledAscii(ps);
    PartsApart(names);
    ApartReads(ps);
    JoinedBack(names, 0, alternate);
    var s := "_ZN" + Mangled(ps);
    assert s[..3] == "_ZN" && s[3..] == Mangled(ps);
  }
}
