/** Every well-formed text is accepted with its meaning. */
module JsonComplete {
  import opened Common
  import opened Decimals
  import opened JsonValue
  import Utf8
  import opened JsonLexer
  import opened JsonGrammar
  import opened JsonLexemes
  import opened JsonStack
  import opened JsonParser
  import opened JsonBuilder

  /** A value starts with a character that is neither space nor a closing bracket. */
  lemma UnparseStarts(t: Tree)
    requires Wf(t)
    ensures Unparse(t) != ""
    ensures var c := Unparse(t)[0]; !IsSpace(c) && c != ']' && c != '}' && c != ',' && c != ':'
  {
    if t.NumTree? {
      NumberSplit(t.n, "");
      assert UnparseNumber(t.n) + "" == UnparseNumber(t.n);
      assert IsDigit(t.n.digits[0]);
    }
  }

  lemma SkipToValue(sp: string, t: Tree, r: string)
    requires AllSpace(sp) && Wf(t)
    ensures SkipSpace(sp + (Unparse(t) + r)) == Unparse(t) + r
  {
    SpaceSkipped(sp, Unparse(t) + r);
    UnparseStarts(t);
  }

  lemma SkipTo(sp: string, c: char, r: string)
    requires AllSpace(sp) && !IsSpace(c)
    ensures SkipSpace(sp + ([c] + r)) == [c] + r
  {
    SpaceSkipped(sp, [c] + r);
  }

  lemma SpaceEndsNumber(sp: string, c: char, r: string)
    requires AllSpace(sp) && (c == ',' || c == ']' || c == '}')
    ensures EndsNumber(sp + ([c] + r))
  {
    if sp != "" { assert IsSpace(sp[0]); }
  }

  // Re-association of texts ------------------------------------------------------------------

  ghost function AfterElem(es: Elems, r: string): string {
    es.after + (UnparseMoreElems(es.more) + r)
  }

  lemma ElemsText(es: Elems, r: string)
    ensures UnparseElems(es) + r == es.before + (Unparse(es.value) + AfterElem(es, r))
  {
  }

  ghost function AfterEntry(es: Entries, r: string): string {
    es.after + (UnparseMoreEntries(es.more) + r)
  }

  ghost function AfterKey(es: Entries, r: string): string {
    es.preColon + (":" + (es.postColon + (Unparse(es.value) + AfterEntry(es, r))))
  }

  lemma AfterKeyText(es: Entries, r: string)
    ensures es.preColon + (":" + (es.postColon + (Unparse(es.value) + (es.after + UnparseMoreEntries(es.more))))) + r
            == AfterKey(es, r)
  {
    var a, b := es.after, UnparseMoreEntries(es.more);
    var v := Unparse(es.value);
    assert (v + (a + b)) + r == v + (a + (b + r));
    assert (es.postColon + (v + (a + b))) + r == es.postColon + ((v + (a + b)) + r);
    assert (":" + (es.postColon + (v + (a + b)))) + r == ":" + ((es.postColon + (v + (a + b))) + r);
  }

  lemma EntriesText(es: Entries, r: string)
    ensures UnparseEntries(es) + r == es.before + (UnparseString(es.key) + AfterKey(es, r))
  {
    var k := es.preColon + (":" + (es.postColon + (Unparse(es.value) + (es.after + UnparseMoreEntries(es.more)))));
    AfterKeyText(es, r);
    assert UnparseEntries(es) == es.before + (UnparseString(es.key) + k);
    assert (es.before + (UnparseString(es.key) + k)) + r == es.before + (UnparseString(es.key) + (k + r));
  }

  lemma MoreElemsText(m: OptElems, r: string)
    ensures UnparseMoreElems(m) + r == if m.NoElems? then "]" + r else "," + (UnparseElems(m.elems) + r)
  {
  }

  lemma MoreEntriesText(m: OptEntries, r: string)
    ensures UnparseMoreEntries(m) + r == if m.NoEntries? then "}" + r else "," + (UnparseEntries(m.entries) + r)
  {
  }

  /** The step that reads the start of the first of some elements, at index `i`. */
  ghost function ElemsStart(es: Elems, st: Stack, i: nat, r: string): (x: (Event, Cursor))
    ensures Inv(x.1)
  {
    ValueAt(SkipSpace(UnparseElems(es) + r), PushIndex(st, i), ParseArrayComma)
  }

  /** The step that reads the first of some entries up to the start of its value. */
  ghost function EntriesStart(es: Entries, st: Stack, first: bool, r: string): (x: (Event, Cursor))
    ensures Inv(x.1)
  {
    ObjectStep(SkipSpace(UnparseEntries(es) + r), st, first)
  }

  // Steps ------------------------------------------------------------------------------------

  /** The step that opens a container. */
  lemma OpenStep(st: Stack, body: string)
    ensures ValueAt("[" + body, st, Resume(st)) == (ArrayStart, Cursor(body, st, ParseArray(true)))
    ensures ValueAt("{" + body, st, Resume(st)) == (ObjectStart, Cursor(body, st, ParseObject(true)))
  {
    assert ("[" + body)[1..] == body && ("{" + body)[1..] == body;
  }

  lemma AfterElemSkips(es: Elems, r: string)
    requires WfElems(es)
    ensures EndsNumber(AfterElem(es, r))
    ensures SkipSpace(AfterElem(es, r)) ==
            if es.more.NoElems? then "]" + r else "," + (UnparseElems(es.more.elems) + r)
  {
    MoreElemsText(es.more, r);
    var c := if es.more.NoElems? then ']' else ',';
    var tail := if es.more.NoElems? then r else UnparseElems(es.more.elems) + r;
    SpaceEndsNumber(es.after, c, tail);
    SkipTo(es.after, c, tail);
  }

  /** The step after an array element. */
  lemma AfterElemStep(es: Elems, st: Stack, i: nat, r: string)
    requires WfElems(es)
    ensures var next := Next(Cursor(AfterElem(es, r), PushIndex(st, i), ParseArrayComma));
            match es.more
            case NoElems => next == (Some(ArrayEnd), Cursor(r, st, Resume(st)))
            case MoreElems(fs) =>
              var v := ElemsStart(fs, st, AsU32(i + 1), r);
              next == (Some(v.0), v.1)
  {
    AfterElemSkips(es, r);
    if es.more.NoElems? {
      assert ("]" + r)[1..] == r;
      PopPushIndex(st, i);
    } else {
      var tail := UnparseElems(es.more.elems) + r;
      assert ("," + tail)[1..] == tail;
      BumpPushIndex(st, i);
      ElemStarts(es.more.elems, r);
    }
  }

  lemma ElemStarts(es: Elems, r: string)
    requires WfElems(es)
    ensures SkipSpace(UnparseElems(es) + r) == Unparse(es.value) + AfterElem(es, r)
    ensures !At(SkipSpace(UnparseElems(es) + r), ']')
  {
    ElemsText(es, r);
    SkipToValue(es.before, es.value, AfterElem(es, r));
    UnparseStarts(es.value);
  }

  /** The step that reads a key and the start of its value. */
  lemma KeyStep(es: Entries, st: Stack, first: bool, r: string)
    requires WfEntries(es)
    ensures EntriesStart(es, st, first, r) ==
            ValueAt(Unparse(es.value) + AfterEntry(es, r), PushKey(st, ItemsMeaning(es.key)), ParseObjectComma)
  {
    hide ValueAt, PushKey, Unparse, UnparseString, ParseStr, SkipSpace, ItemsMeaning, AfterEntry;
    var value := Unparse(es.value) + AfterEntry(es, r);
    var k := AfterKey(es, r);
    var s := UnparseString(es.key) + k;
    EntriesText(es, r);
    QuotedRead(es.key, k);
    SkipToChar(es.before, s);
    SkipTo(es.preColon, ':', es.postColon + value);
    assert (":" + (es.postColon + value))[1..] == es.postColon + value;
    SkipToValue(es.postColon, es.value, AfterEntry(es, r));
  }

  lemma SkipToChar(sp: string, s: string)
    requires AllSpace(sp) && s != "" && !IsSpace(s[0])
    ensures SkipSpace(sp + s) == s
  {
    SpaceSkipped(sp, s);
  }

  lemma AfterEntrySkips(es: Entries, r: string)
    requires WfEntries(es)
    ensures EndsNumber(AfterEntry(es, r))
    ensures SkipSpace(AfterEntry(es, r)) ==
            if es.more.NoEntries? then "}" + r else "," + (UnparseEntries(es.more.entries) + r)
  {
    MoreEntriesText(es.more, r);
    var c := if es.more.NoEntries? then '}' else ',';
    var tail := if es.more.NoEntries? then r else UnparseEntries(es.more.entries) + r;
    SpaceEndsNumber(es.after, c, tail);
    SkipTo(es.after, c, tail);
  }

  /** The step after an object entry. */
  lemma AfterEntryStep(es: Entries, here: Stack, r: string)
    requires WfEntries(es) && LastIsKey(here)
    ensures var next := Next(Cursor(AfterEntry(es, r), here, ParseObjectComma));
            match es.more
            case NoEntries => next == (Some(ObjectEnd), Cursor(r, Pop(here), Resume(Pop(here))))
            case MoreEntries(fs) =>
              var v := EntriesStart(fs, Pop(here), false, r);
              next == (Some(v.0), v.1)
  {
    hide ObjectStep, Pop;
    AfterEntrySkips(es, r);
    if es.more.NoEntries? {
      assert ("}" + r)[1..] == r;
    } else {
      var tail := UnparseEntries(es.more.entries) + r;
      assert ("," + tail)[1..] == tail;
    }
  }

  // What is left of the stack, and what is read off it -----------------------------------------

  /** The stack after a value: the elements from before, and what its keys left of the buffer. */
  ghost function Left(t: Tree, st: Stack): (r: Stack)
    requires Wf(t)
    ensures r.elems == st.elems
    decreases t
  {
    match t
    case ArrayTree(es) => LeftElems(es, st, 0)
    case ObjectTree(es) => LeftEntries(es, st)
    case _ => st
  }

  ghost function LeftElems(es: Elems, st: Stack, i: nat): (r: Stack)
    requires WfElems(es)
    ensures r.elems == st.elems
    decreases es
  {
    var now := Pop(Left(es.value, PushIndex(st, i)));
    if es.more.MoreElems? then LeftElems(es.more.elems, now, AsU32(i + 1)) else now
  }

  ghost function LeftEntries(es: Entries, st: Stack): (r: Stack)
    requires WfEntries(es)
    ensures r.elems == st.elems
    decreases es
  {
    var now := Pop(Left(es.value, PushKey(st, ItemsMeaning(es.key))));
    if es.more.MoreEntries? then LeftEntries(es.more.entries, now) else now
  }

  /** Items that spell a string. */
  ghost function Spelling(s: string): seq<StrItem> {
    if s == "" then []
    else [if s[0] == '"' || s[0] == '\\' then Short(s[0]) else Plain(s[0])] + Spelling(s[1..])
  }

  lemma {:induction false} SpellingMeans(s: string)
    ensures WfItems(Spelling(s)) && ItemsMeaning(Spelling(s)) == s
  {
    if s != "" {
      SpellingMeans(s[1..]);
      assert Spelling(s)[1..] == Spelling(s[1..]);
      assert [s[0]] + s[1..] == s;
    }
  }

  /** The items of a key, or of what the stack gives back instead of it. */
  ghost function KeyRead(key: seq<StrItem>, here: Stack): (r: Option<seq<StrItem>>)
    requires WfItems(key)
    ensures r.Some? ==> WfItems(r.value) && TopKey(here) == Some(ItemsMeaning(r.value))
    ensures r.None? ==> TopKey(here).None?
  {
    match TopKey(here)
    case None => None
    case Some(k) => SpellingMeans(k); Some(if k == ItemsMeaning(key) then key else Spelling(k))
  }

  /** The tree with the keys read off the stack; `None` where reading one panics. */
  ghost function Read(t: Tree, st: Stack): (r: Option<Tree>)
    requires Wf(t)
    ensures r.Some? ==> Wf(r.value)
    decreases t
  {
    match t
    case ArrayTree(es) =>
      var fs := ReadElems(es, st, 0);
      if fs.None? then None else Some(ArrayTree(fs.value))
    case ObjectTree(es) =>
      var fs := ReadEntries(es, st);
      if fs.None? then None else Some(ObjectTree(fs.value))
    case _ => Some(t)
  }

  ghost function ReadElems(es: Elems, st: Stack, i: nat): (r: Option<Elems>)
    requires WfElems(es)
    ensures r.Some? ==> WfElems(r.value)
    decreases es
  {
    var here := PushIndex(st, i);
    var v := Read(es.value, here);
    if v.None? then None
    else if es.more.NoElems? then Some(es.(value := v.value))
    else
      var fs := ReadElems(es.more.elems, Pop(Left(es.value, here)), AsU32(i + 1));
      if fs.None? then None else Some(es.(value := v.value, more := MoreElems(fs.value)))
  }

  ghost function ReadEntries(es: Entries, st: Stack): (r: Option<Entries>)
    requires WfEntries(es)
    ensures r.Some? ==> WfEntries(r.value)
    decreases es
  {
    var here := PushKey(st, ItemsMeaning(es.key));
    var k := KeyRead(es.key, here);
    var v := Read(es.value, here);
    if k.None? || v.None? then None
    else if es.more.NoEntries? then Some(es.(key := k.value, value := v.value))
    else
      var fs := ReadEntries(es.more.entries, Pop(Left(es.value, here)));
      if fs.None? then None
      else Some(es.(key := k.value, value := v.value, more := MoreEntries(fs.value)))
  }

  // Values -----------------------------------------------------------------------------------

  /** What the builder returns for a value: the meaning of the tree read, or a panic. */
  ghost predicate Returns(x: (Outcome, Cursor), v: Option<Json>, st: Stack, r: string) {
    match v
    case Some(m) => x == (Done(m), Cursor(r, st, Resume(st)))
    case None => x.0 == Panicked
  }

  ghost function Means(t: Option<Tree>): Option<Json>
    requires t.Some? ==> Wf(t.value)
  {
    match t
    case None => None
    case Some(u) => Some(Meaning(u))
  }

  /** The builder reads `t` off the front of the input and is then where a value ends. */
  ghost predicate Built(t: Tree, st: Stack, r: string)
    requires Wf(t)
  {
    var v := ValueAt(Unparse(t) + r, st, Resume(st));
    && Returns(BuildValue(Some(v.0), v.1), Means(Read(t, st)), Left(t, st), r)
    && v.1.stack == st
    && !v.0.ArrayEnd? && !v.0.ObjectEnd? && !v.0.Error?
  }

  lemma {:induction false} ValueBuilt(t: Tree, st: Stack, r: string)
    requires Wf(t) && (t.NumTree? ==> EndsNumber(r))
    ensures Built(t, st, r)
    decreases t
  {
    hide Built;
    match t
    case ArrayTree(es) =>
      ArrayBuilt(es, st, r);
    case ObjectTree(es) =>
      ObjectBuilt(es, st, r);
    case EmptyArray(_) => EmptyBuilt(t, st, r);
    case EmptyObject(_) => EmptyBuilt(t, st, r);
    case _ => ScalarBuilt(t, st, r);
  }

  lemma ScalarBuilt(t: Tree, st: Stack, r: string)
    requires Wf(t) && IsScalarTree(t) && (t.NumTree? ==> EndsNumber(r))
    ensures Built(t, st, r)
  {
    hide ParseValue, Unparse, DecimalValue, ItemsMeaning, BuildArray, BuildObject, Next;
    ScalarRead(t, r);
  }

  lemma {:induction false} ArrayBuilt(es: Elems, st: Stack, r: string)
    requires WfElems(es)
    ensures Built(ArrayTree(es), st, r)
    decreases es, 2
  {
    hide BuildValue, BuildArray, ValueAt, Unparse, ElemsStart, Next, ReadElems, LeftElems, ElemsMeaning;
    ElemsBuilt(es, st, 0, r, []);
    ArrayOpened(es, st, r);
    var fs := ReadElems(es, st, 0);
    if fs.Some? { assert [] + ElemsMeaning(fs.value) == ElemsMeaning(fs.value); }
  }

  lemma {:induction false} ObjectBuilt(es: Entries, st: Stack, r: string)
    requires WfEntries(es)
    ensures Built(ObjectTree(es), st, r)
    decreases es, 2
  {
    hide BuildValue, BuildObject, ValueAt, Unparse, EntriesStart, Next, ReadEntries, LeftEntries, EntriesMeaning;
    EntriesBuilt(es, st, true, r, []);
    ObjectOpened(es, st, r);
  }

  lemma ArrayOpened(es: Elems, st: Stack, r: string)
    requires WfElems(es)
    ensures var c := Cursor(UnparseElems(es) + r, st, ParseArray(true));
            var x := ElemsStart(es, st, 0, r);
            && ValueAt(Unparse(ArrayTree(es)) + r, st, Resume(st)) == (ArrayStart, c)
            && Next(c) == (Some(x.0), x.1)
            && BuildValue(Some(ArrayStart), c) == BuildArray(Some(x.0), x.1, [])
  {
    hide BuildArray, ValueAt, UnparseElems, SkipSpace;
    assert Unparse(ArrayTree(es)) + r == "[" + (UnparseElems(es) + r);
    OpenStep(st, UnparseElems(es) + r);
    ElemStarts(es, r);
  }

  lemma ObjectOpened(es: Entries, st: Stack, r: string)
    requires WfEntries(es)
    ensures var c := Cursor(UnparseEntries(es) + r, st, ParseObject(true));
            var x := EntriesStart(es, st, true, r);
            && ValueAt(Unparse(ObjectTree(es)) + r, st, Resume(st)) == (ObjectStart, c)
            && Next(c) == (Some(x.0), x.1)
            && BuildValue(Some(ObjectStart), c) == BuildObject(Some(x.0), x.1, [])
  {
    hide BuildObject, ObjectStep, ValueAt, UnparseEntries, SkipSpace;
    assert Unparse(ObjectTree(es)) + r == "{" + (UnparseEntries(es) + r);
    OpenStep(st, UnparseEntries(es) + r);
  }

  /** The two steps of an empty container. */
  lemma EmptyOpened(t: Tree, st: Stack, r: string)
    requires Wf(t) && (t.EmptyArray? || t.EmptyObject?)
    ensures var (open, close, state) := if t.EmptyArray? then (ArrayStart, ArrayEnd, ParseArray(true))
                                        else (ObjectStart, ObjectEnd, ParseObject(true));
            var c := Cursor(t.space + ([if t.EmptyArray? then ']' else '}'] + r), st, state);
            && ValueAt(Unparse(t) + r, st, Resume(st)) == (open, c)
            && Next(c) == (Some(close), Cursor(r, st, Resume(st)))
  {
    hide ParseStr, PushKey, ValueAt, SkipSpace;
    var close := if t.EmptyArray? then ']' else '}';
    var body := t.space + ([close] + r);
    assert Unparse(t) + r == [if t.EmptyArray? then '[' else '{'] + body;
    OpenStep(st, body);
    SkipTo(t.space, close, r);
    assert ([close] + r)[1..] == r;
  }

  lemma EmptyBuilt(t: Tree, st: Stack, r: string)
    requires Wf(t) && (t.EmptyArray? || t.EmptyObject?)
    ensures Built(t, st, r)
  {
    hide Next, ValueAt, BuildArray, BuildObject;
    EmptyOpened(t, st, r);
    ArrayEnds(Cursor(r, st, Resume(st)), []);
    ObjectStops(Some(ObjectEnd), Cursor(r, st, Resume(st)), []);
  }

  lemma Assoc<T>(a: seq<T>, b: seq<T>, c: seq<T>)
    ensures a + b + c == a + (b + c)
  {
  }

  ghost function ArrayOf(values: seq<Json>, es: Option<Elems>): Option<Json>
    requires es.Some? ==> WfElems(es.value)
  {
    match es
    case None => None
    case Some(fs) => Some(Array(values + ElemsMeaning(fs)))
  }

  lemma PopsIndex(here: Stack, st: Stack, i: nat)
    requires here.elems == PushIndex(st, i).elems
    ensures LastIsIndex(here) && Pop(here).elems == st.elems && here == PushIndex(Pop(here), i)
  {
    assert here.elems[..|st.elems|] == st.elems;
  }

  lemma {:induction false} ElemsBuilt(es: Elems, st: Stack, i: nat, r: string, values: seq<Json>)
    requires WfElems(es)
    ensures var v := ElemsStart(es, st, i, r);
            Returns(BuildArray(Some(v.0), v.1, values), ArrayOf(values, ReadElems(es, st, i)), LeftElems(es, st, i), r)
    decreases es, 1
  {
    hide Next, Unparse, UnparseElems, BuildArray, BuildValue, ValueAt, SkipSpace, Pop, PushIndex, Meaning, Read, Left;
    var here, rest := PushIndex(st, i), AfterElem(es, r);
    PopsIndex(here, st, i);
    var v := ValueAt(SkipSpace(UnparseElems(es) + r), here, ParseArrayComma);
    ElemStarts(es, r);
    AfterElemSkips(es, r);
    ValueBuilt(es.value, here, rest);
    var got := Read(es.value, here);
    if got.None? {
      ArrayStops(v.0, v.1, values);
      return;
    }
    var left, m := Left(es.value, here), Meaning(got.value);
    PopsIndex(left, st, i);
    var d := Cursor(rest, left, ParseArrayComma);
    ArrayTurn(v.0, v.1, values, m, d, Next(d));
    AfterElemStep(es, Pop(left), i, r);
    if es.more.MoreElems? {
      var fs := ReadElems(es.more.elems, Pop(left), AsU32(i + 1));
      ElemsBuilt(es.more.elems, Pop(left), AsU32(i + 1), r, values + [m]);
      if fs.Some? { Assoc(values, [m], ElemsMeaning(fs.value)); }
    } else {
      ArrayEnds(Cursor(r, Pop(left), Resume(Pop(left))), values + [m]);
      assert ElemsMeaning(es.(value := got.value)) == [m];
    }
  }

  ghost function ObjectOf(es: Option<Entries>, ms: seq<Member>): Option<Json>
    requires es.Some? ==> WfEntries(es.value)
  {
    match es
    case None => None
    case Some(fs) => Some(Object(EntriesMeaning(fs, ms)))
  }

  lemma KeyOnTop(st: Stack, key: string)
    ensures LastIsKey(PushKey(st, key))
  {
  }

  lemma {:induction false} EntriesBuilt(es: Entries, st: Stack, first: bool, r: string, ms: seq<Member>)
    requires WfEntries(es)
    ensures var v := EntriesStart(es, st, first, r);
            Returns(BuildObject(Some(v.0), v.1, ms), ObjectOf(ReadEntries(es, st), ms), LeftEntries(es, st), r)
    decreases es, 1
  {
    hide Next, Unparse, UnparseEntries, BuildObject, BuildValue, EntriesStart, ValueAt, Pop, PushKey, KeyRead, TopKey,
      Meaning, Read, Left, ItemsMeaning, Insert;
    var here, rest := PushKey(st, ItemsMeaning(es.key)), AfterEntry(es, r);
    KeyOnTop(st, ItemsMeaning(es.key));
    var v := ValueAt(Unparse(es.value) + rest, here, ParseObjectComma);
    KeyStep(es, st, first, r);
    AfterEntrySkips(es, r);
    ValueBuilt(es.value, here, rest);
    var k, got := KeyRead(es.key, here), Read(es.value, here);
    if k.None? || got.None? {
      ObjectStopsInValue(v.0, v.1, ms);
      return;
    }
    var left, key, m := Left(es.value, here), ItemsMeaning(k.value), Meaning(got.value);
    var d, now := Cursor(rest, left, ParseObjectComma), Insert(ms, key, m);
    ObjectTurn(v.0, v.1, ms, key, m, d, Next(d), now);
    AfterEntryStep(es, left, r);
    if es.more.MoreEntries? {
      EntriesBuilt(es.more.entries, Pop(left), false, r, now);
    } else {
      ObjectStops(Some(ObjectEnd), Cursor(r, Pop(left), Resume(Pop(left))), now);
    }
  }

  /** Completeness: a well-formed text is accepted with the meaning of its tree, its keys as they
      come off the stack, or reading one of them back panics. */
  lemma TextRead(t: Text)
    requires WfText(t)
    ensures FromStr(UnparseText(t)) ==
            match Read(t.value, EMPTY)
            case Some(u) => Done(Meaning(u))
            case None => Panicked
  {
    hide ValueAt, BuildValue, Unparse, Meaning, Read, Left;
    SkipToValue(t.before, t.value, t.after);
    if t.after != "" { assert IsSpace(t.after[0]); }
    ValueBuilt(t.value, EMPTY, t.after);
    SpaceSkipped(t.after, "");
    assert t.after + "" == t.after;
  }

  // Within the limit -------------------------------------------------------------------------

  lemma KeyPushed(st: Stack, key: seq<StrItem>)
    requires WfItems(key) && |st.buffer| + |Utf8.Encode(ItemsMeaning(key))| <= MAX_KEY_BYTES
    ensures var here := PushKey(st, ItemsMeaning(key));
            && |here.buffer| == |st.buffer| + |Utf8.Encode(ItemsMeaning(key))|
            && KeyRead(key, here) == Some(key)
            && Pop(here) == st
  {
    hide Utf8.Encode, Top;
    TopPushKey(st, ItemsMeaning(key));
    PopPushKey(st, ItemsMeaning(key));
  }

  /** A tree whose key paths fit in 16 bits is read as itself and leaves nothing behind. */
  lemma {:induction false} FitRead(t: Tree, st: Stack)
    requires Wf(t) && KeysFit(t, |st.buffer|)
    ensures Read(t, st) == Some(t) && Left(t, st) == st
    decreases t
  {
    match t
    case ArrayTree(es) => FitElems(es, st, 0);
    case ObjectTree(es) => FitEntries(es, st);
    case _ =>
  }

  lemma {:induction false} FitElems(es: Elems, st: Stack, i: nat)
    requires WfElems(es) && ElemKeysFit(es, |st.buffer|)
    ensures ReadElems(es, st, i) == Some(es) && LeftElems(es, st, i) == st
    decreases es
  {
    PopPushIndex(st, i);
    FitRead(es.value, PushIndex(st, i));
    if es.more.MoreElems? { FitElems(es.more.elems, st, AsU32(i + 1)); }
  }

  lemma {:induction false} FitEntries(es: Entries, st: Stack)
    requires WfEntries(es) && EntryKeysFit(es, |st.buffer|)
    ensures ReadEntries(es, st) == Some(es) && LeftEntries(es, st) == st
    decreases es
  {
    hide PushKey, Pop, KeyRead;
    KeyPushed(st, es.key);
    FitRead(es.value, PushKey(st, ItemsMeaning(es.key)));
    if es.more.MoreEntries? { FitEntries(es.more.entries, st); }
  }

  /** A well-formed text whose key paths fit in 16 bits is accepted with its meaning. */
  lemma TextBuilt(t: Text)
    requires WfText(t) && KeysFit(t.value, 0)
    ensures FromStr(UnparseText(t)) == Done(Meaning(t.value))
  {
    hide FromStr;
    TextRead(t);
    FitRead(t.value, EMPTY);
  }
}
