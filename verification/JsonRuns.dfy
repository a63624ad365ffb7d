/** Facts about whole runs of the parser: the events of a text, and the key stack on the way. */
module JsonRuns {
  import opened Common
  import opened JsonValue
  import opened JsonLexer
  import opened JsonGrammar
  import opened JsonLexemes
  import opened JsonStack
  import opened JsonParser
  import opened JsonBuilder
  import opened JsonComplete
  import opened JsonTheorems
  import Utf8

  // Events -----------------------------------------------------------------------------------

  /** The balanced event sequence of a tree. */
  ghost function Linear(t: Tree): seq<Event>
    requires Wf(t)
  {
    match t
    case EmptyArray(_) => [ArrayStart, ArrayEnd]
    case ArrayTree(es) => [ArrayStart] + LinearElems(es)
    case EmptyObject(_) => [ObjectStart, ObjectEnd]
    case ObjectTree(es) => [ObjectStart] + LinearEntries(es)
    case _ => [ScalarEvent(Meaning(t))]
  }

  ghost function LinearElems(es: Elems): seq<Event>
    requires WfElems(es)
  {
    Linear(es.value) + (if es.more.MoreElems? then LinearElems(es.more.elems) else [ArrayEnd])
  }

  ghost function LinearEntries(es: Entries): seq<Event>
    requires WfEntries(es)
  {
    Linear(es.value) + (if es.more.MoreEntries? then LinearEntries(es.more.entries) else [ObjectEnd])
  }

  /** From this step on: the event and all that follow. */
  ghost function From(x: (Event, Cursor)): seq<Event> {
    if Inv(x.1) then [x.0] + Events(x.1) else []
  }

  /** All events after a value. */
  ghost function EventsAfter(r: string, st: Stack): seq<Event>
  {
    Events(Cursor(r, st, Resume(st)))
  }

  lemma FromIs(ev: Event, r: string, st: Stack)
    ensures From((ev, Cursor(r, st, Resume(st)))) == [ev] + EventsAfter(r, st)
  {
    hide Events;
  }

  lemma EventsStep(c: Cursor, x: (Event, Cursor))
    requires Inv(c) && Inv(x.1) && Next(c) == (Some(x.0), x.1)
    ensures Events(c) == From(x)
  {
    hide Next;
  }

  lemma {:induction false} ValueEvents(t: Tree, st: Stack, r: string)
    requires Wf(t) && (t.NumTree? ==> EndsNumber(r))
    ensures From(ValueAt(Unparse(t) + r, st, Resume(st))) == Linear(t) + EventsAfter(r, Left(t, st))
    decreases t
  {
    hide Next, Events, UnparseElems, UnparseEntries, ElemsStart, EntriesStart, Meaning, LeftElems, LeftEntries;
    match t
    case ArrayTree(es) =>
      ArrayOpened(es, st, r);
      var x := ElemsStart(es, st, 0, r);
      EventsStep(Cursor(UnparseElems(es) + r, st, ParseArray(true)), x);
      ElemsEvents(es, st, 0, r);
      Assoc([ArrayStart], LinearElems(es), EventsAfter(r, Left(t, st)));
    case ObjectTree(es) =>
      ObjectOpened(es, st, r);
      var x := EntriesStart(es, st, true, r);
      EventsStep(Cursor(UnparseEntries(es) + r, st, ParseObject(true)), x);
      EntriesEvents(es, st, true, r);
      Assoc([ObjectStart], LinearEntries(es), EventsAfter(r, Left(t, st)));
    case EmptyArray(_) => EmptyEvents(t, st, r);
    case EmptyObject(_) => EmptyEvents(t, st, r);
    case _ => ScalarEvents(t, st, r);
  }

  lemma ScalarEvents(t: Tree, st: Stack, r: string)
    requires Wf(t) && IsScalarTree(t) && (t.NumTree? ==> EndsNumber(r))
    ensures From(ValueAt(Unparse(t) + r, st, Resume(st))) == Linear(t) + EventsAfter(r, st)
  {
    hide ParseValue, Unparse, Events;
    ScalarRead(t, r);
  }

  lemma EmptyEvents(t: Tree, st: Stack, r: string)
    requires Wf(t) && (t.EmptyArray? || t.EmptyObject?)
    ensures From(ValueAt(Unparse(t) + r, st, Resume(st))) == Linear(t) + EventsAfter(r, st)
  {
    hide Next, Events, ValueAt, Unparse;
    EmptyOpened(t, st, r);
    var x := ValueAt(Unparse(t) + r, st, Resume(st));
    var close := if t.EmptyArray? then ArrayEnd else ObjectEnd;
    EventsStep(x.1, (close, Cursor(r, st, Resume(st))));
    FromIs(close, r, st);
  }

  lemma {:induction false} ElemsEvents(es: Elems, st: Stack, i: nat, r: string)
    requires WfElems(es)
    ensures From(ElemsStart(es, st, i, r)) == LinearElems(es) + EventsAfter(r, LeftElems(es, st, i))
    decreases es
  {
    hide Next, Events, Unparse, UnparseElems, From, ValueAt, SkipSpace, LinearEntries, ElemsMeaning, Pop, PushIndex, Left;
    var here, rest := PushIndex(st, i), AfterElem(es, r);
    var left := Left(es.value, here);
    var last := EventsAfter(r, LeftElems(es, st, i));
    PopsIndex(here, st, i);
    PopsIndex(left, st, i);
    ElemStarts(es, r);
    AfterElemSkips(es, r);
    ValueEvents(es.value, here, rest);
    AfterElemStep(es, Pop(left), i, r);
    var d := Cursor(rest, left, ParseArrayComma);
    if es.more.MoreElems? {
      var fs := es.more.elems;
      EventsStep(d, ElemsStart(fs, Pop(left), AsU32(i + 1), r));
      ElemsEvents(fs, Pop(left), AsU32(i + 1), r);
      Assoc(Linear(es.value), LinearElems(fs), last);
    } else {
      EventsStep(d, (ArrayEnd, Cursor(r, Pop(left), Resume(Pop(left)))));
      FromIs(ArrayEnd, r, Pop(left));
      Assoc(Linear(es.value), [ArrayEnd], last);
    }
  }

  lemma {:induction false} EntriesEvents(es: Entries, st: Stack, first: bool, r: string)
    requires WfEntries(es)
    ensures From(EntriesStart(es, st, first, r)) == LinearEntries(es) + EventsAfter(r, LeftEntries(es, st))
    decreases es
  {
    hide Next, Events, Unparse, UnparseEntries, PushKey, Pop, Left, From, EntriesStart, ValueAt, SkipSpace, ItemsMeaning;
    var here, rest := PushKey(st, ItemsMeaning(es.key)), AfterEntry(es, r);
    var left := Left(es.value, here);
    var last := EventsAfter(r, LeftEntries(es, st));
    KeyOnTop(st, ItemsMeaning(es.key));
    KeyStep(es, st, first, r);
    AfterEntrySkips(es, r);
    ValueEvents(es.value, here, rest);
    AfterEntryStep(es, left, r);
    var d := Cursor(rest, left, ParseObjectComma);
    if es.more.MoreEntries? {
      var fs := es.more.entries;
      EventsStep(d, EntriesStart(fs, Pop(left), false, r));
      EntriesEvents(fs, Pop(left), false, r);
      Assoc(Linear(es.value), LinearEntries(fs), last);
    } else {
      EventsStep(d, (ObjectEnd, Cursor(r, Pop(left), Resume(Pop(left)))));
      FromIs(ObjectEnd, r, Pop(left));
      Assoc(Linear(es.value), [ObjectEnd], last);
    }
  }

  /** The parser alone, driven to its end on a well-formed text, emits the events of its tree. */
  lemma TextEvents(t: Text)
    requires WfText(t)
    ensures Events(Start(UnparseText(t))) == Linear(t.value)
  {
    hide Left, Linear, Unparse;
    SkipToValue(t.before, t.value, t.after);
    if t.after != "" { assert IsSpace(t.after[0]); }
    var x := ValueAt(Unparse(t.value) + t.after, EMPTY, ParseBeforeFinish);
    EventsStep(Start(UnparseText(t)), x);
    ValueEvents(t.value, EMPTY, t.after);
    SpaceSkipped(t.after, "");
    assert t.after + "" == t.after;
    assert Events(Cursor(t.after, Left(t.value, EMPTY), ParseBeforeFinish)) == [];
  }

  /** Reading the keys off the stack changes no event. */
  lemma {:induction false} ReadEvents(t: Tree, st: Stack)
    requires Wf(t) && Read(t, st).Some?
    ensures Linear(Read(t, st).value) == Linear(t)
    decreases t
  {
    match t
    case ArrayTree(es) => ReadElemsEvents(es, st, 0);
    case ObjectTree(es) => ReadEntriesEvents(es, st);
    case _ =>
  }

  lemma {:induction false} ReadElemsEvents(es: Elems, st: Stack, i: nat)
    requires WfElems(es) && ReadElems(es, st, i).Some?
    ensures LinearElems(ReadElems(es, st, i).value) == LinearElems(es)
    decreases es
  {
    var here := PushIndex(st, i);
    ReadEvents(es.value, here);
    if es.more.MoreElems? {
      ReadElemsEvents(es.more.elems, Pop(Left(es.value, here)), AsU32(i + 1));
    }
  }

  lemma {:induction false} ReadEntriesEvents(es: Entries, st: Stack)
    requires WfEntries(es) && ReadEntries(es, st).Some?
    ensures LinearEntries(ReadEntries(es, st).value) == LinearEntries(es)
    decreases es
  {
    hide KeyRead, ItemsMeaning;
    var here := PushKey(st, ItemsMeaning(es.key));
    ReadEvents(es.value, here);
    if es.more.MoreEntries? {
      ReadEntriesEvents(es.more.entries, Pop(Left(es.value, here)));
    }
  }

  /** Whenever `build` succeeds, the parser's whole event sequence is the balanced linearisation of a
      tree that merges to the value built: the tree of the text, with the keys as the stack gives them
      back, and within the key limit the tree of the text itself. */
  lemma BuilderSound(text: string) returns (t: Text, u: Tree)
    requires FromStr(text).Done?
    ensures WfText(t) && text == UnparseText(t)
    ensures Wf(u) && Read(t.value, EMPTY) == Some(u)
    ensures Events(Start(text)) == Linear(u) == Linear(t.value)
    ensures FromStr(text) == Done(Meaning(u))
    ensures KeysFit(t.value, 0) ==> u == t.value
  {
    hide FromStr;
    t := TextSound(text);
    u := Read(t.value, EMPTY).value;
    TextEvents(t);
    ReadEvents(t.value, EMPTY);
    if KeysFit(t.value, 0) { FitRead(t.value, EMPTY); }
  }

  // A trailing comma ---------------------------------------------------------------------------

  /** An object in an array that is never closed, with a comma before its brace. */
  function TrailingComma(): string {
    "[{\"a\":null,}"
  }

  lemma TrailingKey(st: Stack)
    ensures ObjectStep("\"a\":null,}", st, true) == (NullValue, Cursor(",}", PushKey(st, "a"), ParseObjectComma))
  {
    hide PushKey, ParseStr;
    var key := [Plain('a')];
    assert key[1..] == [];
    assert UnparseItems(key) == "a" && UnparseString(key) == "\"a\"" && ItemsMeaning(key) == "a";
    QuotedRead(key, ":null,}");
    assert "\"a\"" + ":null,}" == "\"a\":null,}";
    assert ":null,}"[1..] == "null,}";
    assert "null" <= "null,}" && "null,}"[4..] == ",}";
    assert ParseValue("null,}") == Ok(NullValue, ",}");
  }

  /** The brace after the comma pops the index of the array along with the key. */
  lemma TrailingBrace(st: Stack)
    requires LastIsKey(st) && |st.elems| == 2
    ensures var d := Next(Cursor(",}", st, ParseObjectComma));
            d.0 == Some(ObjectEnd) && d.1.rest == "" && d.1.state == ParseBeforeFinish
  {
    assert ",}"[1..] == "}" && "}"[1..] == "";
  }

  /** The steps up to the value. */
  lemma TrailingSteps(entry: string, obj: string)
    requires entry == "\"a\":null,}" && obj == "{" + entry
    ensures Next(Start("[" + obj)) == (Some(ArrayStart), Cursor(obj, EMPTY, ParseArray(true)))
    ensures Next(Cursor(obj, EMPTY, ParseArray(true))) ==
            (Some(ObjectStart), Cursor(entry, PushIndex(EMPTY, 0), ParseObject(true)))
  {
    hide ValueAt;
    OpenStep(EMPTY, obj);
    OpenStep(PushIndex(EMPTY, 0), entry);
  }

  lemma TrailingValue(entry: string, st: Stack)
    requires entry == "\"a\":null,}"
    ensures Next(Cursor(entry, st, ParseObject(true))) ==
            (Some(NullValue), Cursor(",}", PushKey(st, "a"), ParseObjectComma))
  {
    hide ObjectStep, PushKey;
    TrailingKey(st);
  }

  /** The parser takes it for the end of the object and of the text: it emits an object end and no error,
      though the text is none, and the array has no end. */
  lemma TrailingCommaEvents()
    ensures Events(Start(TrailingComma())) == [ArrayStart, ObjectStart, NullValue, ObjectEnd]
    ensures !FromStr(TrailingComma()).Done?
  {
    hide PushKey, Next, FromStr, Events;
    var entry, obj, text := "\"a\":null,}", "{\"a\":null,}", TrailingComma();
    assert text == "[" + obj && obj == "{" + entry;
    var index := PushIndex(EMPTY, 0);
    var st := PushKey(index, "a");
    TrailingSteps(entry, obj);
    TrailingValue(entry, index);
    KeyOnTop(index, "a");
    TrailingDepth(index, "a");
    TrailingBrace(st);
    var c1, c2 := Cursor(obj, EMPTY, ParseArray(true)), Cursor(entry, index, ParseObject(true));
    var c3 := Cursor(",}", st, ParseObjectComma);
    var c4 := Next(c3).1;
    EventsStep(Start(text), (ArrayStart, c1));
    EventsStep(c1, (ObjectStart, c2));
    EventsStep(c2, (NullValue, c3));
    EventsStep(c3, (ObjectEnd, c4));
    NoMoreEvents(c4);
    TrailingRefused();
  }

  lemma TrailingDepth(st: Stack, key: string)
    ensures |PushKey(st, key).elems| == |st.elems| + 1
  {
  }

  lemma NoMoreEvents(c: Cursor)
    requires Inv(c) && c.state == ParseBeforeFinish && c.rest == ""
    ensures Events(c) == []
  {
  }

  /** Its events are those of no tree, so it is not accepted. */
  lemma TrailingRefused()
    requires Events(Start(TrailingComma())) == [ArrayStart, ObjectStart, NullValue, ObjectEnd]
    ensures !FromStr(TrailingComma()).Done?
  {
    hide FromStr, Events;
    if FromStr(TrailingComma()).Done? {
      var t, u := BuilderSound(TrailingComma());
      LinearEnds(u);
    }
  }

  /** The events of an array end with the end of an array. */
  lemma {:induction false} LinearEnds(t: Tree)
    requires Wf(t)
    ensures Linear(t) != []
    ensures Linear(t)[0] == ArrayStart ==> Linear(t)[|Linear(t)| - 1] == ArrayEnd
  {
    match t
    case ArrayTree(es) => ElemsEnd(es);
    case _ =>
  }

  lemma {:induction false} ElemsEnd(es: Elems)
    requires WfElems(es)
    ensures LinearElems(es) != [] && LinearElems(es)[|LinearElems(es)| - 1] == ArrayEnd
  {
    hide Linear;
    if es.more.MoreElems? { ElemsEnd(es.more.elems); }
  }

  // The key stack ----------------------------------------------------------------------------

  ghost function EncodedAll(es: seq<Element>): seq<Packed> {
    seq(|es|, i requires 0 <= i < |es| => Encoded(es[i]))
  }

  /** What `next` keeps: either 65536 bytes of the buffer are lost for good, or it holds exactly the
      keys on the stack. */
  ghost predicate Keeps(s: Stack, es: seq<Element>) {
    |es| == |s.elems| && (SizesFit(s, 0x1_0000) || (SizesFit(s, 0) && Represents(s, es)))
  }

  lemma PushKeyRep(s: Stack, es: seq<Element>, key: string)
    requires Keeps(s, es)
    ensures Keeps(PushKey(s, key), es + [Key(key)])
  {
    hide Utf8.Encode, IsPacked, SizesFit;
    if SizesFit(s, 0x1_0000) {
      OperationsKeepSizes(s, 0x1_0000, key, 0);
    } else if |Utf8.Encode(key)| > MAX_KEY_BYTES {
      LongKeySpares(s, key);
    } else {
      OperationsKeepSizes(s, 0, key, 0);
      PushBytesPacked(s, EncodedAll(es), Utf8.Encode(key));
      assert EncodedAll(es + [Key(key)]) == EncodedAll(es) + [PackedKey(Utf8.Encode(key))];
    }
  }

  lemma PushIndexRep(s: Stack, es: seq<Element>, i: nat)
    requires Keeps(s, es)
    ensures Keeps(PushIndex(s, i), es + [Index(i)])
  {
    hide IsPacked, SizesFit;
    if SizesFit(s, 0x1_0000) {
      OperationsKeepSizes(s, 0x1_0000, "", i);
    } else {
      OperationsKeepSizes(s, 0, "", i);
      PushIndexPacked(s, EncodedAll(es), i);
      assert EncodedAll(es + [Index(i)]) == EncodedAll(es) + [PackedIndex(i)];
    }
  }

  ghost function Popped(es: seq<Element>): seq<Element> {
    if es == [] then [] else es[..|es| - 1]
  }

  ghost function Bumped(es: seq<Element>): seq<Element> {
    if es == [] || es[|es| - 1].Key? then es
    else es[..|es| - 1] + [Index(AsU32(es[|es| - 1].index + 1))]
  }

  lemma PopRep(s: Stack, es: seq<Element>)
    requires Keeps(s, es) && !IsEmpty(s)
    ensures Keeps(Pop(s), Popped(es))
  {
    hide IsPacked, SizesFit;
    if SizesFit(s, 0x1_0000) {
      OperationsKeepSizes(s, 0x1_0000, "", 0);
    } else {
      OperationsKeepSizes(s, 0, "", 0);
      RepresentedLength(s, es);
      PopPacked(s, EncodedAll(es));
      assert EncodedAll(Popped(es)) == EncodedAll(es)[..|es| - 1];
    }
  }

  lemma BumpRep(s: Stack, es: seq<Element>)
    requires Keeps(s, es) && LastIsIndex(s)
    ensures Keeps(BumpIndex(s), Bumped(es))
  {
    hide IsPacked, SizesFit, Utf8.Encode;
    if SizesFit(s, 0x1_0000) {
      OperationsKeepSizes(s, 0x1_0000, "", 0);
    } else {
      OperationsKeepSizes(s, 0, "", 0);
      RepresentedLength(s, es);
      BumpPacked(s, EncodedAll(es));
      var n := |es| - 1;
      var e := Index(AsU32(es[n].index + 1));
      assert EncodedAll(es[..n] + [e]) == EncodedAll(es)[..n] + [PackedIndex(e.index)];
    }
  }

  // The path of keys and indices ---------------------------------------------------------------

  /** What one call of `next` does to the path it is at: an index is pushed at the start of an array and
      counted up at a comma, a key is pushed as it was spelled, and a closing bracket pops. */
  ghost function Track(c: Cursor, path: seq<Element>): seq<Element> {
    var s := SkipSpace(c.rest);
    match c.state
    case ParseArray(first) => if first && !At(s, ']') then path + [Index(0)] else path
    case ParseArrayComma => if At(s, ',') then Bumped(path) else if At(s, ']') then Popped(path) else path
    case ParseObject(first) => TrackEntry(s, first, path)
    case ParseObjectComma =>
      if At(s, ',') then TrackEntry(SkipSpace(s[1..]), false, Popped(path)) else Popped(path)
    case _ => path
  }

  /** At an entry of an object, or its end. A closing brace after a comma pops the parent as well. */
  ghost function TrackEntry(s: string, first: bool, path: seq<Element>): seq<Element> {
    if At(s, '}') then if first then path else Popped(path)
    else if At(s, '"') && ParseStr(s[1..]).Ok? && At(SkipSpace(ParseStr(s[1..]).rest), ':')
      then path + [Key(ParseStr(s[1..]).value)]
    else path
  }

  /** Each call of `next` keeps the packed representation of the path, whichever branch it takes. */
  lemma NextKeepsStack(c: Cursor, path: seq<Element>)
    requires Inv(c) && Keeps(c.stack, path)
    ensures Keeps(Next(c).1.stack, Track(c, path))
  {
    hide Keeps, Pop, PushKey, PushIndex, BumpIndex, TrackEntry;
    var s, st := SkipSpace(c.rest), c.stack;
    match c.state
    case ParseArray(first) =>
      if first && !At(s, ']') { PushIndexRep(st, path, 0); }
    case ParseArrayComma =>
      if At(s, ',') {
        BumpRep(st, path);
      } else if At(s, ']') {
        PopRep(st, path);
      }
    case ParseObject(first) =>
      ObjectStepKeepsStack(s, st, first, path);
    case ParseObjectComma =>
      PopRep(st, path);
      if At(s, ',') {
        ObjectStepKeepsStack(SkipSpace(s[1..]), Pop(st), false, Popped(path));
      }
    case _ =>
  }

  lemma ObjectStepKeepsStack(s: string, st: Stack, first: bool, path: seq<Element>)
    requires Keeps(st, path)
    ensures Keeps(ObjectStep(s, st, first).1.stack, TrackEntry(s, first, path))
  {
    assert IsEmpty(st) <==> path == [];
    hide Keeps, Pop, PushKey;
    if At(s, '}') {
      if !first && !IsEmpty(st) { PopRep(st, path); }
    } else if At(s, '"') && ParseStr(s[1..]).Ok? && At(SkipSpace(ParseStr(s[1..]).rest), ':') {
      PushKeyRep(st, path, ParseStr(s[1..]).value);
    }
  }

  /** The parser after `n` calls of `next`. */
  ghost function After(c: Cursor, n: nat): (d: Cursor)
    requires Inv(c)
    ensures Inv(d)
    decreases n
  {
    if n == 0 then c else Next(After(c, n - 1)).1
  }

  lemma EmptyKeeps()
    ensures Keeps(EMPTY, [])
  {
    assert EncodedAll([]) == [];
  }

  /** The path after `n` calls of `next` on a text. */
  ghost function Path(text: string, n: nat): seq<Element> {
    if n == 0 then [] else Track(After(Start(text), n - 1), Path(text, n - 1))
  }

  lemma {:induction false} ReachableKeeps(text: string, n: nat)
    ensures Keeps(After(Start(text), n).stack, Path(text, n))
    decreases n
  {
    hide Next, Keeps, Track;
    if n == 0 {
      EmptyKeeps();
    } else {
      ReachableKeeps(text, n - 1);
      NextKeepsStack(After(Start(text), n - 1), Path(text, n - 1));
    }
  }

  /** In every reachable state the stack is as long as the path. Where its buffer takes at most 65535
      bytes, whatever it took before, the buffer is the concatenation of the keys of the path, and every
      entry, the top included, reads back as the key or index of the path at its place. */
  lemma ReachableStack(text: string, n: nat)
    ensures var st, path := After(Start(text), n).stack, Path(text, n);
            && |st.elems| == |path|
            && (|st.buffer| <= MAX_KEY_BYTES ==>
                  && Represents(st, path)
                  && (forall i :: 0 <= i < |path| ==> Get(st, i) == Some(path[i]))
                  && (path != [] ==> Top(st) == Some(path[|path| - 1])))
  {
    hide Next, Get, Top, After, Path, Represents;
    ReachableKeeps(text, n);
    var st, path := After(Start(text), n).stack, Path(text, n);
    if |st.buffer| <= MAX_KEY_BYTES {
      forall i | 0 <= i < |path| ensures Get(st, i) == Some(path[i]) {
        RepresentedElement(st, path, i);
      }
      if path != [] { RepresentedElement(st, path, |path| - 1); }
    }
  }

  /** Truncating the buffer never underflows: the sizes on the stack always fit in it. */
  lemma ReachableSizes(text: string, n: nat)
    ensures SizesFit(After(Start(text), n).stack, 0)
  {
    hide After, Path, Represents;
    ReachableKeeps(text, n);
  }
}
