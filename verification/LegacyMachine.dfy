/** The loops of the legacy demangler: an iterator moved over the characters, slices that are cut
    shorter, and text written piece by piece. */
module LegacyMachine {
  import opened Common
  import opened Decimals
  import opened V0Parser
  import opened Legacy
  import opened LegacyPrint

  /** The digits the text starts with and the number they spell; an overflow, or the end of the text
      right after them, is an error. */
  method ReadLength(t: string) returns (len: Option<nat>, d: nat)
    ensures var v := DecimalValue(t[..DigitRun(t)]);
            && (len.Some? <==> v < TWO_64 && DigitRun(t) < |t|)
            && (len.Some? ==> len.value == v && d == DigitRun(t))
  {
    hide DigitRun;
    ghost var run := DigitRun(t);
    var v: nat := 0;
    d := 0;
    while d < |t| && IsDigit(t[d])
      invariant d <= run
      invariant AllDigits(t[..d]) && v == DecimalValue(t[..d]) < TWO_64
    {
      assert t[..d + 1][..d] == t[..d];
      assert d < run;
      Larger(t, d + 1, run);
      v := v * 10 + (t[d] as nat - '0' as nat);
      d := d + 1;
      if v >= TWO_64 {
        return None, d;
      }
    }
    DigitsUpto(t, d);
    return if d < |t| then Some(v) else None, d;
  }

  lemma DigitsUpto(t: string, d: nat)
    requires d <= |t|
    ensures d < DigitRun(t) ==> IsDigit(t[d])
  {
    hide DigitRun;
    if d < DigitRun(t) {
      assert t[..DigitRun(t)][d] == t[d];
    }
  }

  /** More digits never make a number smaller. */
  lemma {:induction false} Larger(s: string, j: nat, d: nat)
    requires j <= d <= |s| && AllDigits(s[..d])
    ensures AllDigits(s[..j]) && DecimalValue(s[..j]) <= DecimalValue(s[..d])
    decreases d - j
  {
    if j < d {
      assert s[..d][..d - 1] == s[..d - 1];
      Larger(s, j, d - 1);
    }
  }

  ghost function Plus(n: nat, r: Option<Counted>): Option<Counted> {
    if r.Some? then Some(Counted(n + r.value.elements, r.value.rest)) else None
  }

  /** The validating scan. */
  method CountElements(s: string) returns (r: Option<Counted>)
    ensures r == Count(s)
  {
    hide Count, DigitRun, DecimalValue;
    var t, elements: nat := s, 0;
    while t != "" && t[0] != 'E'
      invariant Plus(elements, Count(t)) == Count(s)
      decreases |t|
    {
      CountTurn(t);
      var len, d := ReadLength(t);
      if len.None? || d == 0 || d + len.value >= |t| {
        return None;
      }
      t, elements := t[d + len.value..], elements + 1;
    }
    CountEnd(t);
    return if t == "" then None else Some(Counted(elements, t[1..]));
  }

  /** One element of the scan. */
  lemma CountTurn(t: string)
    requires t != "" && t[0] != 'E'
    ensures var d := DigitRun(t);
            var len := DecimalValue(t[..d]);
            Count(t) == if d == 0 || len >= TWO_64 || d + len >= |t| then None
                        else Plus(1, Count(t[d + len..]))
  {
    hide DigitRun, DecimalValue;
  }

  lemma CountEnd(t: string)
    ensures t == "" ==> Count(t) == None
    ensures t != "" && t[0] == 'E' ==> Count(t) == Some(Counted(0, t[1..]))
  {
  }

  method FindFirst(s: string, stop: set<char>) returns (r: Option<nat>)
    ensures r == Find(s, stop)
  {
    ghost var answer := Find(s, stop);
    for i := 0 to |s|
      invariant forall k :: 0 <= k < i ==> s[k] !in stop
    {
      if s[i] in stop {
        return Some(i);
      }
    }
    return None;
  }

  /** What one turn of the loop writes, and what it leaves; a turn that leaves everything is the last. */
  function Turn(rest: string): (r: (string, string))
    ensures r.1 == rest || |r.1| < |rest|
  {
    if rest == "" then ("", rest)
    else if rest[0] == '.' then
      if |rest| > 1 && rest[1] == '.' then ("::", rest[2..]) else (".", rest[1..])
    else if rest[0] == '$' then
      match Find(rest[1..], {'$'})
      case None => ("", rest)
      case Some(end) =>
        match Meaning(rest[1..1 + end])
        case None => ("", rest)
        case Some(t) => (t, rest[end + 2..])
    else
      match Find(rest, {'$', '.'})
      case None => ("", rest)
      case Some(i) => (rest[..i], rest[i..])
  }

  lemma TurnUnescapes(rest: string)
    ensures Unescape(rest) == if Turn(rest).1 == rest then rest else Turn(rest).0 + Unescape(Turn(rest).1)
  {
    hide Find, Meaning;
  }

  method TakeTurn(rest: string) returns (text: string, left: string)
    ensures (text, left) == Turn(rest)
  {
    hide Find, Meaning;
    if rest == "" {
      return "", rest;
    } else if rest[0] == '.' {
      if |rest| > 1 && rest[1] == '.' {
        return "::", rest[2..];
      }
      return ".", rest[1..];
    } else if rest[0] == '$' {
      var end := FindFirst(rest[1..], {'$'});
      if end.None? {
        return "", rest;
      }
      var t := Meaning(rest[1..1 + end.value]);
      if t.None? {
        return "", rest;
      }
      return t.value, rest[end.value + 2..];
    }
    var i := FindFirst(rest, {'$', '.'});
    if i.None? {
      return "", rest;
    }
    return rest[..i.value], rest[i.value..];
  }

  /** The unescape loop: every turn but the last cuts `rest` shorter. */
  method WriteElement(part: string) returns (out: string)
    ensures out == Element(part)
  {
    hide Turn, Unescape;
    var rest := if |part| >= 2 && part[..2] == "_$" then part[1..] else part;
    ghost var whole := Unescape(rest);
    out := "";
    assert out + whole == whole;
    while true
      invariant out + Unescape(rest) == whole
      decreases |rest|
    {
      TurnUnescapes(rest);
      var text, left := TakeTurn(rest);
      if left == rest {
        return out + rest;
      }
      assert out + (text + Unescape(left)) == (out + text) + Unescape(left);
      out, rest := out + text, left;
    }
  }

  /** One step of the printing scan: the next element and what follows it. */
  method TakePart(inner: string, ghost n: nat) returns (part: string, left: string)
    requires n > 0 && Split(inner, n).Some?
    ensures part == Split(inner, n).value.parts[0]
    ensures Split(left, n - 1) == Some(Parts(Split(inner, n).value.parts[1..], Split(inner, n).value.rest))
  {
    hide Split, DigitRun, DecimalValue;
    SplitHead(inner, n);
    var len, run := ReadLength(inner);
    return inner[run..run + len.value], inner[run + len.value..];
  }

  lemma Written(out: string, sep: string, text: string, tail: string)
    ensures (out + sep + text) + tail == out + (sep + text + tail) && out + "" == out && "" + tail == tail
  {
  }

  /** `Display::fmt`: the printing scan over the elements, each written as it is found. The slices are
      taken only inside the string, as the agreement of the two scans shows. */
  method Format(d: Symbol, alternate: bool) returns (out: string)
    requires Count(d.inner) == Some(Counted(d.elements, d.suffix))
    ensures Display(d, alternate) == Some(out)
  {
    hide Count, Split, Joined, Element, IsRustHash;
    ScansAgree(d.inner);
    ghost var parts, end := Split(d.inner, d.elements).value.parts, Split(d.inner, d.elements).value.rest;
    ghost var all := Joined(parts, 0, alternate);
    var inner := d.inner;
    out := "";
    assert parts[0..] == parts;
    Written("", "", "", all);
    for i := 0 to d.elements
      invariant Split(inner, d.elements - i) == Some(Parts(parts[i..], end))
      invariant out + Joined(parts, i, alternate) == all
    {
      var part, left := TakePart(inner, d.elements - i);
      assert parts[i..][0] == parts[i] && parts[i..][1..] == parts[i + 1..];
      JoinedTurn(parts, i, alternate);
      inner := left;
      var sep := if i == 0 then "" else "::";
      if alternate && i + 1 == d.elements && IsRustHash(part) {
        Written(out, sep, "", "");
        return;
      }
      var text := WriteElement(part);
      Written(out, sep, text, Joined(parts, i + 1, alternate));
      out := out + sep + text;
    }
    JoinedEnd(parts, alternate);
    Written(out, "", "", "");
  }

  lemma JoinedTurn(parts: seq<string>, i: nat, alternate: bool)
    requires i < |parts|
    ensures Joined(parts, i, alternate) ==
            if alternate && i + 1 == |parts| && IsRustHash(parts[i]) then ""
            else (if i == 0 then "" else "::") + Element(parts[i]) + Joined(parts, i + 1, alternate)
  {
  }

  lemma JoinedEnd(parts: seq<string>, alternate: bool)
    ensures Joined(parts, |parts|, alternate) == ""
  {
  }
}
