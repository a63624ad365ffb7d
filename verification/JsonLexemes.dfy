/** The scanners read exactly the lexemes of the grammar: each well-formed lexeme is read back to
    its meaning whatever follows it, and whatever a scanner accepts is such a lexeme. */
module JsonLexemes {
  import opened Common
  import opened Decimals
  import opened JsonValue
  import opened JsonLexer
  import opened JsonGrammar

  ghost function ScalarEvent(j: Json): Event {
    match j
    case Null => NullValue
    case Boolean(b) => BooleanValue(b)
    case I64(i) => I64Value(i)
    case U64(u) => U64Value(u)
    case F64(f) => F64Value(f)
    case String(s) => StringValue(s)
    case Array(_) => ArrayStart
    case Object(_) => ObjectStart
  }

  // Space ------------------------------------------------------------------------------------

  lemma {:induction false} SpaceSkipped(sp: string, r: string)
    requires AllSpace(sp)
    ensures SkipSpace(sp + r) == SkipSpace(r)
  {
    if sp == "" {
      assert sp + r == r;
    } else {
      assert (sp + r)[1..] == sp[1..] + r;
      SpaceSkipped(sp[1..], r);
    }
  }

  lemma {:induction false} SpaceSplit(s: string) returns (sp: string)
    ensures AllSpace(sp) && s == sp + SkipSpace(s)
  {
    if s != "" && IsSpace(s[0]) {
      var t := SpaceSplit(s[1..]);
      sp := [s[0]] + t;
      assert s == [s[0]] + s[1..];
    } else {
      sp := "";
    }
  }

  // Numbers ----------------------------------------------------------------------------------

  /** What may follow a number so that it is read no further. */
  predicate EndsNumber(r: string) {
    r == "" || (!IsDigit(r[0]) && r[0] != '.' && r[0] != 'e' && r[0] != 'E')
  }

  lemma {:induction false} DigitsTaken(d: string, r: string)
    requires AllDigits(d) && (r == "" || !IsDigit(r[0]))
    ensures TakeDigits(d + r) == (d, r)
  {
    if d == "" {
      assert d + r == r;
    } else {
      assert (d + r)[1..] == d[1..] + r;
      DigitsTaken(d[1..], r);
      assert d == [d[0]] + d[1..];
    }
  }

  lemma AccumulateIsModular(v: nat, c: char)
    requires IsDigit(c)
    ensures Accumulate(v % TWO_64, c) == (v * 10 + DigitValue(c)) % TWO_64
  {
    var q, r, d := v / TWO_64, v % TWO_64, DigitValue(c);
    assert v * 10 + d == (r * 10 + d) + TWO_64 * (10 * q);
  }

  ghost predicate NonZeroPrefixes(done: string, d: string)
    requires AllDigits(done) && AllDigits(d)
  {
    forall k :: 0 < k <= |d| ==> DecimalValue(done + d[..k]) % TWO_64 != 0
  }

  /** Moving one digit over to the part already read. */
  lemma PrefixesShift(done: string, c: char, d: string)
    requires AllDigits(done) && IsDigit(c) && AllDigits(d)
    ensures AllDigits(done + [c]) && AllDigits([c] + d)
    ensures NonZeroPrefixes(done, [c] + d) <==>
            DecimalValue(done + [c]) % TWO_64 != 0 && NonZeroPrefixes(done + [c], d)
  {
    hide DecimalValue;
    var e := [c] + d;
    assert e[..1] == [c];
    assert forall k :: 0 < k <= |d| ==> done + e[..k + 1] == done + [c] + d[..k];
    if DecimalValue(done + [c]) % TWO_64 != 0 && NonZeroPrefixes(done + [c], d) {
      forall k | 0 < k <= |e| ensures DecimalValue(done + e[..k]) % TWO_64 != 0 {
        if k > 1 { assert done + e[..k - 1 + 1] == done + [c] + d[..k - 1]; }
      }
    }
  }

  /** The accumulator loop, for every input and every digits already read. */
  lemma {:induction false} ScanDigitsExact(done: string, s: string)
    requires AllDigits(done)
    ensures var (d, t) := TakeDigits(s);
            ScanDigits(s, DecimalValue(done) % TWO_64) ==
            if NonZeroPrefixes(done, d) then Ok(DecimalValue(done + d) % TWO_64, t) else Err(InvalidNumber)
    decreases |s|
  {
    hide NonZeroPrefixes;
    if s == "" || !IsDigit(s[0]) {
      assert done + "" == done;
      NoPrefixes(done);
    } else {
      var c, d := s[0], TakeDigits(s[1..]).0;
      var done' := done + [c];
      assert done'[..|done'| - 1] == done;
      AccumulateIsModular(DecimalValue(done), c);
      assert done + ([c] + d) == done' + d;
      PrefixesShift(done, c, d);
      if DecimalValue(done') % TWO_64 != 0 {
        ScanDigitsExact(done', s[1..]);
      }
    }
  }

  lemma NoPrefixes(done: string)
    requires AllDigits(done)
    ensures NonZeroPrefixes(done, "")
  {
  }

  lemma PrefixesFromEmpty(d: string)
    requires AllDigits(d)
    ensures NonZeroPrefixes("", d) <==> forall k :: 0 < k <= |d| ==> DecimalValue(d[..k]) % TWO_64 != 0
  {
    assert forall k :: 0 < k <= |d| ==> "" + d[..k] == d[..k];
  }

  lemma FirstDigit(d: string)
    requires WfDigits(d)
    ensures d == "0" || d[0] != '0'
  {
    assert d[..1] == [d[0]];
    assert DecimalValue(d[..1]) == DecimalValue(d[..1][..0]) * 10 + DigitValue(d[0]);
  }

  lemma ZeroValue()
    ensures DecimalValue("0") == 0
  {
    assert "0"[..0] == "";
  }

  lemma U64Read(d: string, r: string)
    requires WfDigits(d) && (r == "" || !IsDigit(r[0]))
    ensures ParseU64(d + r) == Ok(DecimalValue(d) % TWO_64, r)
  {
    hide ScanDigits, TakeDigits, DecimalValue;
    var s := d + r;
    FirstDigit(d);
    if d == "0" {
      assert s[1..] == r;
      ZeroValue();
    } else {
      DigitsTaken(d, r);
      PrefixesFromEmpty(d);
      ScanDigitsExact("", s);
      ScanStart(s);
      assert "" + d == d;
    }
  }

  lemma ScanStart(s: string)
    ensures ScanDigits(s, DecimalValue("") % TWO_64) == ScanDigits(s, 0)
  {
  }

  lemma U64Sound(s: string) returns (d: string)
    requires ParseU64(s).Ok?
    ensures WfDigits(d) && s == d + ParseU64(s).rest
    ensures ParseU64(s).value == DecimalValue(d) % TWO_64
  {
    hide ScanDigits, TakeDigits, DecimalValue, NonZeroPrefixes;
    if s[0] == '0' {
      d := "0";
      ZeroValue();
      assert s == "0" + s[1..];
    } else {
      ScanDigitsExact("", s);
      ScanStart(s);
      d := TakeDigits(s).0;
      PrefixesFromEmpty(d);
      assert "" + d == d;
      assert s[0] == d[0] by { TakesFirst(s); }
    }
  }

  lemma TakesFirst(s: string)
    requires s != "" && IsDigit(s[0])
    ensures TakeDigits(s).0 != "" && TakeDigits(s).0[0] == s[0]
  {
  }

  lemma ExponentSplit(x: ExpLexeme, r: string)
    ensures UnparseExponent(x) + r == [x.letter] + (x.sign + (x.digits + r))
  {
  }

  lemma NumberSplit(n: Number, r: string)
    ensures UnparseNumber(n) + r == SignText(n.neg) + (n.digits + (FractionText(n.fraction) + (ExponentText(n.exponent) + r)))
  {
  }

  lemma ExponentRead(x: ExpLexeme, r: string)
    requires WfExponent(x) && EndsNumber(r)
    ensures ParseExponent(UnparseExponent(x) + r) == Ok(Exponent(x.sign == "-", x.digits), r)
  {
    var u := x.digits + r;
    var t := x.sign + u;
    ExponentSplit(x, r);
    assert ([x.letter] + t)[1..] == t;
    assert t[|x.sign|..] == u;
    DigitsTaken(x.digits, r);
  }

  lemma ExponentSound(s: string) returns (x: ExpLexeme)
    requires (At(s, 'e') || At(s, 'E')) && ParseExponent(s).Ok?
    ensures WfExponent(x) && s == UnparseExponent(x) + ParseExponent(s).rest
    ensures ParseExponent(s).value == Exponent(x.sign == "-", x.digits)
  {
    hide TakeDigits, UnparseExponent;
    var t := s[1..];
    var signed := At(t, '+') || At(t, '-');
    var u := if signed then t[1..] else t;
    var sign := if signed then t[..1] else "";
    assert t == sign + u;
    var (d, r) := TakeDigits(u);
    x := ExpLexeme(s[0], sign, d);
    ExponentSplit(x, r);
    assert s == [s[0]] + t;
  }

  lemma ExponentTail(exp: Option<ExpLexeme>, r: string)
    requires exp.Some? ==> WfExponent(exp.value)
    requires EndsNumber(r)
    ensures var s := ExponentText(exp) + r;
            && (s == "" || (!IsDigit(s[0]) && s[0] != '.'))
            && ((At(s, 'e') || At(s, 'E')) <==> exp.Some?)
            && (exp.Some? ==> ParseExponent(s) == Ok(ExponentMeaning(exp).value, r))
            && (exp.None? ==> s == r)
  {
    if exp.Some? {
      ExponentRead(exp.value, r);
    }
  }

  lemma DecimalRead(d: string, r: string)
    requires d != "" && AllDigits(d) && (r == "" || !IsDigit(r[0]))
    ensures At("." + d + r, '.') && ParseDecimal("." + d + r) == Ok(d, r)
  {
    assert ("." + d + r)[1..] == d + r;
    DigitsTaken(d, r);
  }

  lemma FloatRead(neg: bool, whole: nat, frac: Option<string>, exp: Option<ExpLexeme>, r: string)
    requires frac.Some? || exp.Some?
    requires frac.Some? ==> frac.value != "" && AllDigits(frac.value)
    requires exp.Some? ==> WfExponent(exp.value)
    requires EndsNumber(r)
    ensures var s := FractionText(frac) + (ExponentText(exp) + r);
            && (At(s, '.') || At(s, 'e') || At(s, 'E'))
            && ParseFloat(neg, whole, s) == Ok(F64Value(Float(neg, whole, frac, ExponentMeaning(exp))), r)
  {
    var tail := ExponentText(exp) + r;
    var s := FractionText(frac) + tail;
    ExponentTail(exp, r);
    if frac.Some? {
      DecimalRead(frac.value, tail);
    } else {
      assert s == tail;
    }
  }

  lemma NumberRead(n: Number, r: string)
    requires WfNumber(n) && EndsNumber(r)
    ensures ParseNumber(UnparseNumber(n) + r) == Ok(ScalarEvent(NumberMeaning(n)), r)
    ensures var s := UnparseNumber(n) + r; IsDigit(s[0]) || s[0] == '-'
  {
    var tail := FractionText(n.fraction) + (ExponentText(n.exponent) + r);
    var body := n.digits + tail;
    var s := SignText(n.neg) + body;
    NumberSplit(n, r);
    assert s[|SignText(n.neg)|..] == body;
    assert body[0] == n.digits[0];
    TailRead(n, r);
    U64Read(n.digits, tail);
  }

  lemma TailRead(n: Number, r: string)
    requires WfNumber(n) && EndsNumber(r)
    ensures var t := FractionText(n.fraction) + (ExponentText(n.exponent) + r);
            && (t == "" || !IsDigit(t[0]))
            && FinishNumber(n.neg, DecimalValue(n.digits) % TWO_64, t) == Ok(ScalarEvent(NumberMeaning(n)), r)
  {
    if n.fraction.Some? || n.exponent.Some? {
      FloatRead(n.neg, DecimalValue(n.digits) % TWO_64, n.fraction, n.exponent, r);
    } else {
      assert FractionText(n.fraction) + (ExponentText(n.exponent) + r) == r;
    }
  }

  lemma FloatSound(neg: bool, whole: nat, s: string) returns (frac: Option<string>, exp: Option<ExpLexeme>)
    requires At(s, '.') || At(s, 'e') || At(s, 'E')
    requires ParseFloat(neg, whole, s).Ok?
    ensures frac.Some? || exp.Some?
    ensures frac.Some? ==> frac.value != "" && AllDigits(frac.value)
    ensures exp.Some? ==> WfExponent(exp.value)
    ensures s == FractionText(frac) + (ExponentText(exp) + ParseFloat(neg, whole, s).rest)
    ensures ParseFloat(neg, whole, s).value == F64Value(Float(neg, whole, frac, ExponentMeaning(exp)))
  {
    var t := s;
    frac, exp := None, None;
    if At(s, '.') {
      frac, t := Some(ParseDecimal(s).value), ParseDecimal(s).rest;
      assert s == "." + s[1..];
      assert s == "." + (frac.value + t);
    }
    assert s == FractionText(frac) + t;
    if At(t, 'e') || At(t, 'E') {
      var x := ExponentSound(t);
      exp := Some(x);
    }
    assert t == ExponentText(exp) + ParseFloat(neg, whole, s).rest;
  }

  lemma TailSound(neg: bool, d: string, t: string) returns (n: Number)
    requires WfDigits(d)
    requires FinishNumber(neg, DecimalValue(d) % TWO_64, t).Ok?
    ensures WfNumber(n) && n.neg == neg && n.digits == d
    ensures var f := FinishNumber(neg, DecimalValue(d) % TWO_64, t);
            && t == FractionText(n.fraction) + (ExponentText(n.exponent) + f.rest)
            && f.value == ScalarEvent(NumberMeaning(n))
  {
    hide ParseFloat, DecimalValue, WfExponent;
    if At(t, '.') || At(t, 'e') || At(t, 'E') {
      var frac, exp := FloatSound(neg, DecimalValue(d) % TWO_64, t);
      n := Number(neg, d, frac, exp);
    } else {
      n := Number(neg, d, None, None);
      assert FractionText(n.fraction) + (ExponentText(n.exponent) + t) == t;
    }
  }

  lemma NumberSound(s: string) returns (n: Number)
    requires ParseNumber(s).Ok?
    ensures WfNumber(n) && s == UnparseNumber(n) + ParseNumber(s).rest
    ensures ParseNumber(s).value == ScalarEvent(NumberMeaning(n))
  {
    var neg := At(s, '-');
    var body := if neg then s[1..] else s;
    assert s == SignText(neg) + body;
    var d := U64Sound(body);
    n := TailSound(neg, d, ParseU64(body).rest);
    NumberSplit(n, ParseNumber(s).rest);
  }

  // Strings ----------------------------------------------------------------------------------

  lemma HexRead(h: string, r: string)
    requires AllHex(h)
    ensures DecodeHexEscape(h + r) == Ok(HexNumber(h), r)
  {
    assert (h + r)[..4] == h && (h + r)[4..] == r;
  }

  lemma HexItemRead(h: string, r: string)
    requires AllHex(h) && !IsHighUnit(HexNumber(h)) && !IsLowUnit(HexNumber(h))
    ensures DecodeUnicodeEscape(h + r) == Ok(HexNumber(h) as char, r)
  {
    hide HexNumber;
    HexRead(h, r);
  }

  lemma PairRead(hi: string, lo: string, r: string)
    requires AllHex(hi) && AllHex(lo) && IsHighUnit(HexNumber(hi)) && IsLowUnit(HexNumber(lo))
    ensures DecodeUnicodeEscape(hi + ("\\u" + (lo + r))) == Ok(PairChar(HexNumber(hi), HexNumber(lo)), r)
  {
    hide HexNumber;
    var t := "\\u" + (lo + r);
    HexRead(hi, t);
    assert t[2..] == lo + r;
    HexRead(lo, r);
  }

  /** The text of an escape after its backslash. */
  ghost function EscapeTail(x: StrItem, r: string): string
    requires !x.Plain?
  {
    match x
    case Short(l) => [l] + r
    case Hex(h) => "u" + (h + r)
    case Pair(hi, lo) => "u" + (hi + ("\\u" + (lo + r)))
  }

  lemma EscapeText(x: StrItem, r: string)
    requires !x.Plain?
    ensures UnparseItem(x) + r == "\\" + EscapeTail(x, r)
  {
    match x
    case Short(l) =>
    case Hex(h) => assert ("\\u" + h) + r == "\\" + ("u" + (h + r));
    case Pair(hi, lo) =>
      assert ("\\u" + lo) + r == "\\u" + (lo + r);
      assert (hi + ("\\u" + lo)) + r == hi + (("\\u" + lo) + r);
      assert ("\\u" + (hi + ("\\u" + lo))) + r == "\\" + ("u" + ((hi + ("\\u" + lo)) + r));
  }

  lemma EscapeTailRead(x: StrItem, r: string)
    requires WfItem(x) && !x.Plain?
    ensures DecodeEscape(EscapeTail(x, r)) == Ok(ItemMeaning(x), r)
  {
    hide DecodeUnicodeEscape, HexNumber, PairChar;
    var s := EscapeTail(x, r);
    match x
    case Short(l) =>
      assert s[1..] == r;
    case Hex(h) =>
      assert s[1..] == h + r;
      HexItemRead(h, r);
    case Pair(hi, lo) =>
      assert s[1..] == hi + ("\\u" + (lo + r));
      PairRead(hi, lo, r);
  }

  lemma EscapeRead(x: StrItem, r: string)
    requires WfItem(x) && !x.Plain?
    ensures UnparseItem(x)[0] == '\\'
    ensures DecodeEscape((UnparseItem(x) + r)[1..]) == Ok(ItemMeaning(x), r)
  {
    hide DecodeEscape, EscapeTail, ItemMeaning;
    EscapeText(x, r);
    EscapeTailRead(x, r);
    assert ("\\" + EscapeTail(x, r))[1..] == EscapeTail(x, r);
  }

  lemma {:induction false} StrRead(xs: seq<StrItem>, r: string)
    requires WfItems(xs)
    ensures ParseStr(UnparseItems(xs) + ("\"" + r)) == Ok(ItemsMeaning(xs), r)
  {
    var q := "\"" + r;
    if xs == [] {
      assert UnparseItems(xs) + q == q;
      assert q[1..] == r;
    } else {
      var tail := UnparseItems(xs[1..]) + q;
      var s := UnparseItem(xs[0]) + tail;
      assert UnparseItems(xs) + q == s;
      StrRead(xs[1..], r);
      if xs[0].Plain? {
        assert s[1..] == tail;
      } else {
        EscapeRead(xs[0], tail);
      }
    }
  }

  lemma HexSound(s: string) returns (h: string)
    requires DecodeHexEscape(s).Ok?
    ensures AllHex(h) && s == h + DecodeHexEscape(s).rest && DecodeHexEscape(s).value == HexNumber(h)
  {
    h := s[..4];
  }

  lemma EscapeSound(s: string) returns (x: StrItem)
    requires DecodeEscape(s).Ok?
    ensures WfItem(x) && ItemMeaning(x) == DecodeEscape(s).value
    ensures "\\" + s == UnparseItem(x) + DecodeEscape(s).rest
  {
    if ShortEscape(s[0]).Some? {
      x := Short(s[0]);
      assert s == [s[0]] + s[1..];
    } else {
      var t := s[1..];
      assert s == "u" + t;
      var h := HexSound(t);
      var n, u := DecodeHexEscape(t).value, DecodeHexEscape(t).rest;
      if IsHighSurrogate(n) {
        assert u == "\\u" + u[2..];
        var lo := HexSound(u[2..]);
        x := Pair(h, lo);
      } else {
        x := Hex(h);
      }
    }
  }

  lemma {:induction false} StrSound(s: string) returns (xs: seq<StrItem>)
    requires ParseStr(s).Ok?
    ensures WfItems(xs) && ItemsMeaning(xs) == ParseStr(s).value
    ensures s == UnparseItems(xs) + ("\"" + ParseStr(s).rest)
    decreases |s|
  {
    hide DecodeEscape;
    assert s == [s[0]] + s[1..];
    if s[0] == '"' {
      xs := [];
    } else if s[0] == '\\' {
      var x := EscapeSound(s[1..]);
      var ys := StrSound(DecodeEscape(s[1..]).rest);
      xs := [x] + ys;
      assert xs[1..] == ys;
    } else {
      var ys := StrSound(s[1..]);
      xs := [Plain(s[0])] + ys;
      assert xs[1..] == ys;
    }
  }

  // Scalars ----------------------------------------------------------------------------------

  ghost predicate IsScalarTree(t: Tree) {
    t.NullTree? || t.BoolTree? || t.NumTree? || t.StrTree?
  }

  /** A quoted string, as a value or as a key. */
  lemma QuotedRead(xs: seq<StrItem>, r: string)
    requires WfItems(xs)
    ensures var s := UnparseString(xs) + r; At(s, '"') && ParseStr(s[1..]) == Ok(ItemsMeaning(xs), r)
  {
    assert (UnparseString(xs) + r)[1..] == UnparseItems(xs) + ("\"" + r);
    StrRead(xs, r);
  }

  lemma QuotedSound(s: string) returns (xs: seq<StrItem>)
    requires At(s, '"') && ParseStr(s[1..]).Ok?
    ensures WfItems(xs) && s == UnparseString(xs) + ParseStr(s[1..]).rest
    ensures ItemsMeaning(xs) == ParseStr(s[1..]).value
  {
    hide ParseStr, UnparseItems, ItemsMeaning, WfItems;
    xs := StrSound(s[1..]);
    var r := ParseStr(s[1..]).rest;
    assert s == "\"" + (UnparseItems(xs) + ("\"" + r));
    assert UnparseString(xs) + r == "\"" + (UnparseItems(xs) + ("\"" + r));
  }

  lemma ScalarRead(t: Tree, r: string)
    requires Wf(t) && IsScalarTree(t) && (t.NumTree? ==> EndsNumber(r))
    ensures ParseValue(Unparse(t) + r) == Ok(ScalarEvent(Meaning(t)), r)
  {
    hide ParseNumber, ParseStr, UnparseNumber, NumberMeaning, UnparseString, ItemsMeaning, WfNumber, WfItems;
    var s := Unparse(t) + r;
    match t
    case NullTree => assert s[4..] == r;
    case BoolTree(b) => assert s[if b then 4 else 5..] == r;
    case NumTree(n) => NumberRead(n, r);
    case StrTree(xs) => QuotedRead(xs, r);
  }

  lemma ScalarSound(s: string) returns (t: Tree)
    requires ParseValue(s).Ok? && !ParseValue(s).value.ArrayStart? && !ParseValue(s).value.ObjectStart?
    ensures Wf(t) && IsScalarTree(t) && s == Unparse(t) + ParseValue(s).rest
    ensures ParseValue(s).value == ScalarEvent(Meaning(t))
  {
    if s[0] == '"' {
      var xs := QuotedSound(s);
      t := StrTree(xs);
    } else if IsDigit(s[0]) || s[0] == '-' {
      var n := NumberSound(s);
      t := NumTree(n);
    } else {
      t := KeywordSound(s);
    }
  }

  lemma KeywordSound(s: string) returns (t: Tree)
    requires ParseValue(s).Ok? && !ParseValue(s).value.ArrayStart? && !ParseValue(s).value.ObjectStart?
    requires s[0] != '"' && !IsDigit(s[0]) && s[0] != '-'
    ensures Wf(t) && (t.NullTree? || t.BoolTree?) && s == Unparse(t) + ParseValue(s).rest
    ensures ParseValue(s).value == ScalarEvent(Meaning(t))
  {
    t := if s[0] == 'n' then NullTree else BoolTree(s[0] == 't');
  }
}
