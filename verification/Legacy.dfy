/** The legacy demangler: a scan that validates a symbol and counts its elements, a second scan that
    splits it again when it is printed, and the loop that undoes the escapes of one element. */
module Legacy {
  import opened Common
  import opened Decimals
  import opened V0Parser

  // Numbers ------------------------------------------------------------------------------------

  /** How many digits the text starts with. */
  function DigitRun(s: string): (d: nat)
    ensures d <= |s| && AllDigits(s[..d]) && (d < |s| ==> !IsDigit(s[d]))
  {
    if s == "" || !IsDigit(s[0]) then 0
    else
      var d := DigitRun(s[1..]);
      assert s[..d + 1] == [s[0]] + s[1..][..d];
      d + 1
  }

  // The two scans ------------------------------------------------------------------------------

  datatype Counted = Counted(elements: nat, rest: string)

  /** The validating scan. It needs a character after every number and after every element. */
  function Count(s: string): (r: Option<Counted>)
    decreases |s|
  {
    if s == "" then None
    else if s[0] == 'E' then Some(Counted(0, s[1..]))
    else
      var d := DigitRun(s);
      var len := DecimalValue(s[..d]);
      if d == 0 || len >= TWO_64 || d + len >= |s| then None
      else
        match Count(s[d + len..])
        case None => None
        case Some(c) => Some(Counted(c.elements + 1, c.rest))
  }

  datatype Parts = Parts(parts: seq<string>, rest: string)

  /** The printing scan for a number of elements; `None` is a panic. */
  function Split(s: string, n: nat): (r: Option<Parts>)
    ensures r.Some? ==> |r.value.parts| == n
    decreases n
  {
    if n == 0 then Some(Parts([], s))
    else
      var d := DigitRun(s);
      var len := DecimalValue(s[..d]);
      if d == 0 || d == |s| || len >= TWO_64 || d + len > |s| then None
      else
        match Split(s[d + len..], n - 1)
        case None => None
        case Some(p) => Some(Parts([s[d..d + len]] + p.parts, p.rest))
  }

  /** An accepted symbol is split into exactly the elements that were counted, up to its `E`, without
      leaving the string. */
  lemma {:induction false} ScansAgree(s: string)
    requires Count(s).Some?
    ensures var c := Count(s).value;
            && Split(s, c.elements).Some?
            && Split(s, c.elements).value.rest == "E" + c.rest
    decreases |s|
  {
    if s[0] == 'E' {
      assert s == "E" + s[1..];
    } else {
      var d := DigitRun(s);
      ScansAgree(s[d + DecimalValue(s[..d])..]);
    }
  }

  // Mangling -----------------------------------------------------------------------------------

  function Item(e: string): string {
    Decimal(|e|) + e
  }

  function Mangled(es: seq<string>): string {
    if es == [] then "E" else Item(es[0]) + Mangled(es[1..])
  }

  /** The elements that stay apart: none starts with a digit, and only the last can be empty. */
  ghost predicate Apart(es: seq<string>) {
    forall k :: 0 <= k < |es| ==> if es[k] == "" then k + 1 == |es| else !IsDigit(es[k][0])
  }

  /** The symbol is accepted with these elements and nothing after them. */
  ghost predicate ReadsBack(es: seq<string>) {
    && Count(Mangled(es)) == Some(Counted(|es|, ""))
    && Split(Mangled(es), |es|) == Some(Parts(es, "E"))
  }

  /** Digits in front of something that is none. */
  lemma {:induction false} RunOf(ds: string, t: string)
    requires AllDigits(ds) && (t == "" || !IsDigit(t[0]))
    ensures DigitRun(ds + t) == |ds| && (ds + t)[..|ds|] == ds
  {
    if ds == "" {
      assert ds + t == t;
    } else {
      assert (ds + t)[1..] == ds[1..] + t;
      RunOf(ds[1..], t);
    }
  }

  lemma MangledStart(es: seq<string>)
    ensures Mangled(es) != ""
    ensures es != [] ==> IsDigit(Mangled(es)[0])
    ensures es == [] ==> Mangled(es) == "E"
  {
    if es != [] {
      DecimalDigits(|es[0]|);
    }
  }

  /** The first element of a mangled list, when it stays apart from the next. */
  lemma FirstItem(e: string, t: string)
    requires |e| < TWO_64 && t != "" && (if e == "" then !IsDigit(t[0]) else !IsDigit(e[0]))
    ensures var s := Item(e) + t;
            var d := DigitRun(s);
            && d > 0 && s[0] != 'E' && DecimalValue(s[..d]) == |e| && d + |e| < |s|
            && s[d..d + |e|] == e && s[d + |e|..] == t
  {
    var ds := Decimal(|e|);
    DecimalDigits(|e|);
    var s := Item(e) + t;
    assert s == ds + (e + t);
    RunOf(ds, e + t);
    assert s[|ds|..|ds| + |e|] == e && s[|ds| + |e|..] == t;
  }

  /** Enough: elements that stay apart are read back. */
  lemma {:induction false} ApartReads(es: seq<string>)
    requires Apart(es) && forall k :: 0 <= k < |es| ==> |es[k]| < TWO_64
    ensures ReadsBack(es)
    decreases |es|
  {
    if es == [] {
      assert "E"[1..] == "";
    } else {
      var e, r := es[0], es[1..];
      MangledStart(r);
      ApartReads(r);
      FirstItem(e, Mangled(r));
      assert es == [e] + r;
      ReadsCons(e, r);
    }
  }

  lemma ReadsCons(e: string, r: seq<string>)
    requires ReadsBack(r) && |e| < TWO_64
    requires var s := Item(e) + Mangled(r);
             var d := DigitRun(s);
             && d > 0 && s[0] != 'E' && DecimalValue(s[..d]) == |e| && d + |e| < |s|
             && s[d..d + |e|] == e && s[d + |e|..] == Mangled(r)
    ensures ReadsBack([e] + r)
  {
    hide DigitRun, DecimalValue, Item;
    var es := [e] + r;
    assert es[1..] == r && es[0] == e;
    var s := Item(e) + Mangled(r);
    assert Mangled(es) == s;
    assert Count(s) == Some(Counted(|r| + 1, ""));
    assert Split(s, |es|) == Some(Parts([e] + r, "E"));
  }

  // Needed as well -------------------------------------------------------------------------------

  function Pow10(n: nat): nat {
    if n == 0 then 1 else 10 * Pow10(n - 1)
  }

  lemma {:induction false} ValueBound(ds: string)
    requires AllDigits(ds)
    ensures DecimalValue(ds) < Pow10(|ds|)
  {
    if ds != "" {
      ValueBound(ds[..|ds| - 1]);
    }
  }

  lemma {:induction false} DecimalShort(v: nat, n: nat)
    requires v < Pow10(n) && n > 0
    ensures |Decimal(v)| <= n
    decreases n
  {
    if v >= 10 {
      if n > 1 {
        DecimalShort(v / 10, n - 1);
      }
    }
  }

  /** No number is written with fewer digits than its decimal form. */
  lemma RunLong(ds: string)
    requires AllDigits(ds) && ds != ""
    ensures |Decimal(DecimalValue(ds))| <= |ds|
  {
    ValueBound(ds);
    DecimalShort(DecimalValue(ds), |ds|);
  }

  /** The text that was split is at least as long as the mangling of what it was split into. */
  lemma {:induction false} SplitLong(s: string, n: nat)
    requires Split(s, n).Some?
    ensures var p := Split(s, n).value;
            |p.rest| <= |s| && |s| - |p.rest| >= |Mangled(p.parts)| - 1
    decreases n
  {
    if n > 0 {
      var d := DigitRun(s);
      var len := DecimalValue(s[..d]);
      SplitLong(s[d + len..], n - 1);
      var p, q := Split(s, n).value, Split(s[d + len..], n - 1).value;
      RunLong(s[..d]);
      assert p.parts[1..] == q.parts && |p.parts[0]| == len;
    }
  }

  /** What the first step of the printing scan finds. */
  lemma SplitHead(s: string, n: nat)
    requires n > 0 && Split(s, n).Some?
    ensures var d := DigitRun(s);
            var len := DecimalValue(s[..d]);
            var p := Split(s, n).value;
            && 0 < d < |s| && len < TWO_64 && d + len <= |s| && p.parts[0] == s[d..d + len]
            && Split(s[d + len..], n - 1) == Some(Parts(p.parts[1..], p.rest))
  {
  }

  /** An empty element that is not the last would run into the next number. */
  lemma FirstNotEmpty(es: seq<string>)
    requires ReadsBack(es) && |es| > 1
    ensures es[0] != ""
  {
    hide Count, Split;
    var s, t := Mangled(es), Mangled(es[1..]);
    var d := DigitRun(s);
    SplitHead(s, |es|);
    SplitLong(s[d + DecimalValue(s[..d])..], |es| - 1);
    MangledStart(es[1..]);
    if es[0] == "" {
      EmptyFirst(es);
      assert false;
    }
  }

  lemma EmptyFirst(es: seq<string>)
    requires |es| > 1 && es[0] == ""
    ensures DigitRun(Mangled(es)) >= 2 && |Mangled(es)| == 1 + |Mangled(es[1..])|
  {
    var s, t := Mangled(es), Mangled(es[1..]);
    MangledStart(es[1..]);
    assert s == "0" + t;
    assert s[1..] == t;
  }

  /** What is left after a first element that stays apart. */
  lemma ReadsRest(es: seq<string>)
    requires ReadsBack(es) && es != [] && es[0] != "" && !IsDigit(es[0][0]) && |es[0]| < TWO_64
    ensures ReadsBack(es[1..])
  {
    hide DigitRun, DecimalValue;
    MangledStart(es[1..]);
    FirstItem(es[0], Mangled(es[1..]));
    SplitHead(Mangled(es), |es|);
  }

  /** Needed: a list that is read back stays apart. */
  lemma {:induction false} ReadsApart(es: seq<string>)
    requires ReadsBack(es)
    ensures Apart(es)
    decreases |es|
  {
    hide Count, Split, Mangled, DecimalValue;
    if es != [] {
      SplitHead(Mangled(es), |es|);
      if |es| > 1 {
        FirstNotEmpty(es);
      }
      if es[0] != "" {
        ReadsRest(es);
        ReadsApart(es[1..]);
        forall k | 0 < k < |es| && es[k] == "" ensures k + 1 == |es| {
          assert es[1..][k - 1] == es[k];
        }
        forall k | 0 < k < |es| && es[k] != "" ensures !IsDigit(es[k][0]) {
          assert es[1..][k - 1] == es[k];
        }
      }
    }
  }

  /** A list of elements survives mangling exactly when they stay apart: none starts with a digit, and
      none but the last is empty. */
  lemma MangleRoundTrip(es: seq<string>)
    requires forall k :: 0 <= k < |es| ==> |es[k]| < TWO_64
    ensures ReadsBack(es) <==> Apart(es)
  {
    if Apart(es) {
      ApartReads(es);
    }
    if ReadsBack(es) {
      ReadsApart(es);
    }
  }
}
