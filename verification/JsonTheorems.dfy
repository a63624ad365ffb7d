/** The language and the meaning of the JSON reader, for every input text. */
module JsonTheorems {
  import opened Common
  import opened Decimals
  import opened JsonValue
  import opened JsonLexer
  import opened JsonGrammar
  import opened JsonLexemes
  import opened JsonStack
  import opened JsonParser
  import opened JsonBuilder
  import opened JsonComplete
  import opened JsonSound
  import Utf8

  /** Soundness: an accepted text is well-formed, and the value built is the meaning of its tree with
      the keys read off the stack, which within the key limit is the tree itself. No object with a
      trailing comma is among the trees, so none is accepted at any depth. */
  lemma TextSound(text: string) returns (t: Text)
    requires FromStr(text).Done?
    ensures WfText(t) && text == UnparseText(t)
    ensures Read(t.value, EMPTY).Some? && FromStr(text).value == Meaning(Read(t.value, EMPTY).value)
    ensures KeysFit(t.value, 0) ==> FromStr(text).value == Meaning(t.value)
  {
    t := TextParsed(text);
    TextRead(t);
    if KeysFit(t.value, 0) { FitRead(t.value, EMPTY); }
  }

  lemma TextParsed(text: string) returns (t: Text)
    requires FromStr(text).Done?
    ensures WfText(t) && text == UnparseText(t)
  {
    hide BuildValue, ValueAt, Unparse, KeysFit, Meaning, Wf, SkipSpace, AllSpace;
    var before := SpaceSplit(text);
    var s := SkipSpace(text);
    var x := ValueAt(s, EMPTY, ParseBeforeFinish);
    assert Next(Start(text)) == (Some(x.0), x.1);
    var r := BuildValue(Some(x.0), x.1);
    var v := ValueSound(s, EMPTY);
    var after := SpaceSplit(r.1.rest);
    assert r.1.rest == after;
    t := Text(before, v, after);
  }

  /** Every key path of every reading of the text fits in 16-bit offsets. */
  ghost predicate TextFits(text: string) {
    forall t: Text :: WfText(t) && UnparseText(t) == text ==> KeysFit(t.value, 0)
  }

  ghost predicate Denotes(text: string, v: Json) {
    exists t: Text :: WfText(t) && UnparseText(t) == text && Meaning(t.value) == v
  }

  /** What the text denotes when every key is the one that comes back off the stack. */
  ghost predicate DenotesAsRead(text: string, v: Json) {
    exists t: Text :: WfText(t) && UnparseText(t) == text && Means(Read(t.value, EMPTY)) == Some(v)
  }

  /** The reader returns `v` exactly when `v` is what the text denotes, its keys as the stack gives
      them back; within the key limit those are the keys of the text. */
  lemma ReaderExact(text: string, v: Json)
    ensures FromStr(text) == Done(v) <==> DenotesAsRead(text, v)
    ensures TextFits(text) ==> (FromStr(text) == Done(v) <==> Denotes(text, v))
  {
    hide FromStr;
    if FromStr(text) == Done(v) {
      var t := TextSound(text);
    }
    if DenotesAsRead(text, v) {
      var t: Text :| WfText(t) && UnparseText(t) == text && Means(Read(t.value, EMPTY)) == Some(v);
      TextRead(t);
    }
    if TextFits(text) && Denotes(text, v) {
      var t: Text :| WfText(t) && UnparseText(t) == text && Meaning(t.value) == v;
      TextBuilt(t);
    }
  }

  // A limit a caller can check ---------------------------------------------------------------

  lemma ItemBytes(x: StrItem)
    requires WfItem(x)
    ensures |Utf8.EncodeChar(ItemMeaning(x))| <= |UnparseItem(x)| || x.Plain?
  {
  }

  lemma {:induction false} BytesAtLeastChars(s: string)
    ensures |s| <= |Utf8.Encode(s)|
  {
    if s != "" { BytesAtLeastChars(s[1..]); }
  }

  lemma {:induction false} StringBytes(xs: seq<StrItem>)
    requires WfItems(xs)
    ensures |Utf8.Encode(ItemsMeaning(xs))| <= |Utf8.Encode(UnparseItems(xs))|
  {
    if xs != [] {
      var a, b := UnparseItem(xs[0]), UnparseItems(xs[1..]);
      Utf8.EncodeConcat(a, b);
      StringBytes(xs[1..]);
      ItemBytes(xs[0]);
      BytesAtLeastChars(a);
      var m := ItemsMeaning(xs);
      assert m[0] == ItemMeaning(xs[0]) && m[1..] == ItemsMeaning(xs[1..]);
      if xs[0].Plain? {
        assert a[1..] == "";
        assert Utf8.Encode(a) == Utf8.EncodeChar(a[0]) + Utf8.Encode("");
      }
    }
  }

  lemma PartBytes(a: string, b: string, c: string)
    ensures |Utf8.Encode(b)| <= |Utf8.Encode(a + (b + c))|
    ensures |Utf8.Encode(c)| <= |Utf8.Encode(a + (b + c))|
    ensures |Utf8.Encode(a + (b + c))| == |Utf8.Encode(a)| + |Utf8.Encode(b)| + |Utf8.Encode(c)|
  {
    Utf8.EncodeConcat(b, c);
    Utf8.EncodeConcat(a, b + c);
  }

  lemma {:induction false} BytesBoundKeys(t: Tree, used: nat)
    requires Wf(t) && used + |Utf8.Encode(Unparse(t))| <= MAX_KEY_BYTES
    ensures KeysFit(t, used)
    decreases t
  {
    match t
    case ArrayTree(es) =>
      Utf8.EncodeConcat("[", UnparseElems(es));
      BytesBoundElems(es, used);
    case ObjectTree(es) =>
      Utf8.EncodeConcat("{", UnparseEntries(es));
      BytesBoundEntries(es, used);
    case _ =>
  }

  lemma {:induction false} BytesBoundElems(es: Elems, used: nat)
    requires WfElems(es) && used + |Utf8.Encode(UnparseElems(es))| <= MAX_KEY_BYTES
    ensures ElemKeysFit(es, used)
    decreases es
  {
    hide Utf8.Encode;
    var rest := es.after + UnparseMoreElems(es.more);
    PartBytes(es.before, Unparse(es.value), rest);
    BytesBoundKeys(es.value, used);
    if es.more.MoreElems? {
      PartBytes(es.after, ",", UnparseElems(es.more.elems));
      BytesBoundElems(es.more.elems, used);
    }
  }

  lemma {:induction false} BytesBoundEntries(es: Entries, used: nat)
    requires WfEntries(es) && used + |Utf8.Encode(UnparseEntries(es))| <= MAX_KEY_BYTES
    ensures EntryKeysFit(es, used)
    decreases es
  {
    hide Utf8.Encode;
    var more := es.after + UnparseMoreEntries(es.more);
    var val := Unparse(es.value) + more;
    var colon := ":" + (es.postColon + val);
    PartBytes(es.before, UnparseString(es.key), es.preColon + colon);
    PartBytes("\"", UnparseItems(es.key), "\"");
    StringBytes(es.key);
    PartBytes(es.preColon, ":", es.postColon + val);
    PartBytes(es.postColon, Unparse(es.value), more);
    BytesBoundKeys(es.value, used + |Utf8.Encode(ItemsMeaning(es.key))|);
    if es.more.MoreEntries? {
      PartBytes(es.after, ",", UnparseEntries(es.more.entries));
      BytesBoundEntries(es.more.entries, used);
    }
  }

  /** Any text of at most 65535 bytes is within the key limit. */
  lemma ShortTextFits(text: string)
    requires |Utf8.Encode(text)| <= MAX_KEY_BYTES
    ensures TextFits(text)
  {
    forall t: Text | WfText(t) && UnparseText(t) == text ensures KeysFit(t.value, 0) {
      PartBytes(t.before, Unparse(t.value), t.after);
      BytesBoundKeys(t.value, 0);
    }
  }

  // Integers ---------------------------------------------------------------------------------

  lemma {:induction false} PrefixBelow(d: string, k: nat)
    requires AllDigits(d) && d != "" && d[0] != '0' && 0 < k <= |d|
    ensures 0 < DecimalValue(d[..k]) <= DecimalValue(d)
  {
    assert d[..|d|] == d;
    if k < |d| {
      var e := d[..|d| - 1];
      assert e[..k] == d[..k];
      PrefixBelow(e, k);
    } else if k > 1 {
      PrefixBelow(d[..k - 1], 1);
    }
  }

  lemma FitsWf(d: string)
    requires AllDigits(d) && d != "" && (d == "0" || d[0] != '0') && DecimalValue(d) < TWO_64
    ensures WfDigits(d)
  {
    if d != "0" {
      forall k | 0 < k <= |d| ensures DecimalValue(d[..k]) % TWO_64 != 0 {
        PrefixBelow(d, k);
      }
    }
  }

  lemma ReadIntegers(text: string)
    ensures forall v: nat :: FromStr(text) == Done(U64(v)) ==> v < TWO_64
    ensures forall v :: FromStr(text) == Done(I64(v)) ==> v >= -TWO_63
  {
    hide FromStr;
    if FromStr(text).Done? {
      var t := TextSound(text);
      IntegerMeanings(Read(t.value, EMPTY).value);
    }
  }

  lemma IntegerMeanings(t: Tree)
    requires Wf(t)
    ensures Meaning(t).U64? ==> Meaning(t).u < TWO_64
    ensures Meaning(t).I64? ==> Meaning(t).i >= -TWO_63
  {
  }

  /** An integer literal is read as the number it denotes if and only if that number fits: below 2^64
      without a sign, down to -2^63 with one. All others wrap or are refused. */
  lemma IntegerExact(d: string)
    requires AllDigits(d) && d != "" && (d == "0" || d[0] != '0')
    ensures FromStr(d) == Done(U64(DecimalValue(d))) <==> DecimalValue(d) < TWO_64
    ensures FromStr("-" + d) == Done(I64(0 - DecimalValue(d))) <==> DecimalValue(d) <= TWO_63
  {
    hide FromStr, WfDigits, DecimalValue, AllDigits;
    ReadIntegers(d);
    ReadIntegers("-" + d);
    if DecimalValue(d) < TWO_64 {
      FitsWf(d);
      IntegerRead(d, false);
      assert "" + d == d;
      if DecimalValue(d) <= TWO_63 { IntegerRead(d, true); }
    }
  }

  lemma IntegerRead(d: string, neg: bool)
    requires WfDigits(d) && DecimalValue(d) < TWO_64 && (neg ==> DecimalValue(d) <= TWO_63)
    ensures FromStr(SignText(neg) + d) == Done(if neg then I64(0 - DecimalValue(d)) else U64(DecimalValue(d)))
  {
    hide FromStr, WfDigits, DecimalValue;
    var t := Text("", NumTree(Number(neg, d, None, None)), "");
    assert UnparseText(t) == SignText(neg) + d;
    TextBuilt(t);
  }
}
