/** Whatever is accepted is a well-formed text. The one way in which parser and
    builder can part company is a closing brace after a comma: the parser then pops the element of
    the enclosing container and runs one level ahead of the builder, and stays ahead. */
module JsonSound {
  import opened Common
  import opened JsonValue
  import opened JsonLexer
  import opened JsonGrammar
  import opened JsonLexemes
  import opened JsonStack
  import opened JsonParser
  import opened JsonBuilder
  import opened JsonComplete
  import Utf8

  ghost function Depth(st: Stack): nat {
    |st.elems|
  }

  /** The parser has just ended a value at some level. */
  ghost predicate Rests(d: Cursor) {
    Inv(d) && d.state == Resume(d.stack)
  }

  /** Built a value found at stack `st`: either in step, having read exactly the text of `t`, or ahead. */
  ghost predicate ValueResult(s: string, st: Stack, d: Cursor, t: Tree) {
    && Rests(d)
    && (Depth(d.stack) < Depth(st) || ValueInStep(s, st, d, t))
  }

  ghost predicate ValueInStep(s: string, st: Stack, d: Cursor, t: Tree) {
    && Wf(t) && s == Unparse(t) + d.rest
    && d.stack.elems == st.elems
  }

  ghost predicate ElemsInStep(s: string, here: Stack, d: Cursor, es: Elems)
    requires !IsEmpty(here)
  {
    && WfElems(es) && es.before == "" && s == UnparseElems(es) + d.rest
    && d.stack.elems == Pop(here).elems
  }

  ghost predicate EntriesInStep(s: string, st: Stack, d: Cursor, es: Entries) {
    && WfEntries(es) && es.before == "" && s == UnparseEntries(es) + d.rest
    && d.stack.elems == st.elems
  }

  // Steps of the parser ----------------------------------------------------------------------

  predicate IsValueEvent(ev: Event) {
    !ev.Error? && !ev.ArrayEnd? && !ev.ObjectEnd?
  }

  lemma ValueAtEvent(s: string, st: Stack)
    ensures var x := ValueAt(s, st, Resume(st));
            && (x.0.Error? || IsValueEvent(x.0))
            && (!x.0.Error? ==> x.1.stack == st)
  {
  }

  lemma AfterComma(d: Cursor)
    requires Inv(d) && d.state == ParseArrayComma
    ensures var s := SkipSpace(d.rest);
            var t := SkipSpace(if s == "" then "" else s[1..]);
            if At(s, ',') && !At(t, ']') then
              var x := ValueAt(t, BumpIndex(d.stack), ParseArrayComma); Next(d) == (Some(x.0), x.1)
            else if At(s, ']') then
              Next(d) == (Some(ArrayEnd), Cursor(s[1..], Pop(d.stack), Resume(Pop(d.stack))))
            else Next(d).0.Some? && Next(d).0.value.Error?
  {
  }

  lemma AfterObjectComma(d: Cursor)
    requires Inv(d) && d.state == ParseObjectComma
    ensures var s := SkipSpace(d.rest);
            if At(s, ',') then
              var x := ObjectStep(SkipSpace(s[1..]), Pop(d.stack), false); Next(d) == (Some(x.0), x.1)
            else if At(s, '}') then
              Next(d) == (Some(ObjectEnd), Cursor(s[1..], Pop(d.stack), Resume(Pop(d.stack))))
            else Next(d).0.Some? && Next(d).0.value.Error?
  {
  }

  /** The parts of an entry that `parse_object` reads up to the value. */
  lemma EntryParts(s: string, st: Stack, first: bool) returns (key: seq<StrItem>, pre: string, post: string, value: string)
    requires IsValueEvent(ObjectStep(s, st, first).0)
    ensures WfItems(key) && AllSpace(pre) && AllSpace(post)
    ensures s == UnparseString(key) + (pre + (":" + (post + value)))
    ensures ObjectStep(s, st, first) == ValueAt(value, PushKey(st, ItemsMeaning(key)), ParseObjectComma)
    ensures |value| < |s|
  {
    key := QuotedSound(s);
    var r := ParseStr(s[1..]).rest;
    pre := SpaceSplit(r);
    var t := SkipSpace(r);
    assert t == ":" + t[1..];
    post := SpaceSplit(t[1..]);
    value := SkipSpace(t[1..]);
  }

  lemma ObjectStepEvent(s: string, st: Stack, first: bool)
    ensures var x := ObjectStep(s, st, first);
            || x.0.Error?
            || IsValueEvent(x.0)
            || (&& x.0.ObjectEnd? && At(s, '}') && Rests(x.1)
                && if first then x.1 == Cursor(s[1..], st, Resume(st)) else Depth(x.1.stack) < Depth(st))
  {
  }

  /** From a resting parser, `next` ends, fails, closes a level, or starts a value at the same depth. */
  lemma NextFromRest(c: Cursor) returns (s: string, st: Stack)
    requires Rests(c)
    ensures var next := Next(c);
            || next.0.None?
            || next.0.value.Error?
            || ((next.0.value.ArrayEnd? || next.0.value.ObjectEnd?) && Rests(next.1) && Depth(next.1.stack) < Depth(c.stack))
            || (&& IsValueEvent(next.0.value) && Depth(st) <= Depth(c.stack) && |s| < |c.rest|
                && next == (Some(ValueAt(s, st, Resume(st)).0), ValueAt(s, st, Resume(st)).1))
  {
    s, st := "", EMPTY;
    var u := SkipSpace(c.rest);
    if c.state.ParseArrayComma? {
      AfterComma(c);
      if At(u, ',') {
        s, st := SkipSpace(u[1..]), BumpIndex(c.stack);
        ValueAtEvent(s, st);
      }
    } else if c.state.ParseObjectComma? {
      AfterObjectComma(c);
      if At(u, ',') {
        var up := Pop(c.stack);
        ObjectStepEvent(SkipSpace(u[1..]), up, false);
        if IsValueEvent(ObjectStep(SkipSpace(u[1..]), up, false).0) {
          var key, pre, post, value := EntryParts(SkipSpace(u[1..]), up, false);
          s, st := value, PushKey(up, ItemsMeaning(key));
        }
      }
    }
  }

  // A parser that is ahead stays ahead -------------------------------------------------------

  /** What a finished array loop says about its token. */
  lemma ArrayDone(token: Option<Event>, c: Cursor, values: seq<Json>)
    requires Inv(c) && BuildArray(token, c, values).0.Done?
    ensures token.Some?
    ensures token.value.ArrayEnd? || (IsValueEvent(token.value) && BuildValue(token, c).0.Done?)
  {
    hide Next;
    var r, all := BuildValue(token, c), BuildArray(token, c, values);
    assert token == Some(ArrayEnd) || r.0.Done? || all == r;
  }

  /** What a builder loop that finishes leaves behind when its parser rested at depth `n` or less. */
  lemma {:induction false} ArrayAhead(c: Cursor, n: nat, values: seq<Json>)
    requires Rests(c) && Depth(c.stack) <= n
    requires BuildArray(Next(c).0, Next(c).1, values).0.Done?
    ensures var d := BuildArray(Next(c).0, Next(c).1, values).1; Rests(d) && Depth(d.stack) < n
    decreases Fuel(c), 1
  {
    hide Next, BuildArray, BuildValue, ValueAt;
    var next := Next(c);
    var s, st := NextFromRest(c);
    ArrayDone(next.0, next.1, values);
    ArrayEnds(next.1, values);
    if IsValueEvent(next.0.value) {
      var r := BuildValue(next.0, next.1);
      ValueRests(s, st);
      ArrayTurn(next.0.value, next.1, values, r.0.value, r.1, Next(r.1));
      ArrayAhead(r.1, n, values + [r.0.value]);
    }
  }

  lemma {:induction false} ObjectAhead(c: Cursor, n: nat, ms: seq<Member>)
    requires Rests(c) && Depth(c.stack) <= n
    requires BuildObject(Next(c).0, Next(c).1, ms).0.Done?
    ensures var d := BuildObject(Next(c).0, Next(c).1, ms).1; Rests(d) && Depth(d.stack) < n
    decreases Fuel(c), 1
  {
    var next := Next(c);
    var s, st := NextFromRest(c);
    if IsValueEvent(next.0.value) {
      var r := BuildValue(next.0, next.1);
      var key := ObjectDone(next.0.value, next.1, ms);
      ValueRests(s, st);
      var now := Insert(ms, key, r.0.value);
      ObjectTurn(next.0.value, next.1, ms, key, r.0.value, r.1, Next(r.1), now);
      ObjectAhead(r.1, n, now);
    }
  }

  /** An object loop that finishes found a key on the stack and finished the value. */
  lemma ObjectDone(ev: Event, c: Cursor, ms: seq<Member>) returns (key: string)
    requires Inv(c) && IsValueEvent(ev) && BuildObject(Some(ev), c, ms).0.Done?
    ensures TopKey(c.stack) == Some(key)
    ensures BuildValue(Some(ev), c).0.Done?
  {
    hide BuildObject, BuildValue, TopKey;
    ObjectStopsInValue(ev, c, ms);
    key := TopKey(c.stack).value;
  }

  lemma {:induction false} ValueRests(s: string, st: Stack)
    requires ValueDone(s, st)
    ensures var x := ValueAt(s, st, Resume(st));
            var d := BuildValue(Some(x.0), x.1).1; Rests(d) && Depth(d.stack) <= Depth(st)
    decreases |s|, 2
  {
    var t := ValueSound(s, st);
  }

  // Values -----------------------------------------------------------------------------------

  ghost predicate ValueDone(s: string, st: Stack)
  {
    var x := ValueAt(s, st, Resume(st));
    BuildValue(Some(x.0), x.1).0.Done?
  }

  ghost predicate ValueFound(s: string, st: Stack, t: Tree)
    requires ValueDone(s, st)
  {
    var x := ValueAt(s, st, Resume(st));
    var r := BuildValue(Some(x.0), x.1);
    ValueResult(s, st, r.1, t)
  }

  lemma {:induction false} ValueSound(s: string, st: Stack) returns (t: Tree)
    requires ValueDone(s, st)
    ensures ValueFound(s, st, t)
    decreases |s|, 1
  {
    hide ValueFound, ValueDone, BuildValue;
    var ev := ValueAt(s, st, Resume(st)).0;
    if ev.ArrayStart? {
      t := ArraySound(s, st);
    } else if ev.ObjectStart? {
      t := ObjectSound(s, st);
    } else {
      t := ScalarFound(s, st);
    }
  }

  lemma ScalarFound(s: string, st: Stack) returns (t: Tree)
    requires ValueDone(s, st)
    requires var ev := ValueAt(s, st, Resume(st)).0; !ev.ArrayStart? && !ev.ObjectStart?
    ensures ValueFound(s, st, t)
  {
    t := ScalarSound(s);
  }

  lemma ElemsWithSpace(es: Elems, sp: string, r: string)
    requires es.before == ""
    ensures UnparseElems(es.(before := sp)) + r == sp + (UnparseElems(es) + r)
  {
    ElemsText(es, r);
    ElemsText(es.(before := sp), r);
  }

  ghost predicate ElemsDone(s: string, here: Stack, values: seq<Json>)
    requires LastIsIndex(here)
  {
    var x := ValueAt(s, here, ParseArrayComma);
    BuildArray(Some(x.0), x.1, values).0.Done?
  }

  ghost predicate ElemsFound(s: string, here: Stack, values: seq<Json>, es: Elems)
    requires LastIsIndex(here) && ElemsDone(s, here, values)
  {
    var x := ValueAt(s, here, ParseArrayComma);
    var r := BuildArray(Some(x.0), x.1, values);
    && Rests(r.1)
    && (Depth(r.1.stack) < Depth(here) - 1 || ElemsInStep(s, here, r.1, es))
  }

  /** The builder on an opening bracket. */
  lemma OpenArray(s: string, st: Stack)
    requires ValueAt(s, st, Resume(st)).0.ArrayStart?
    ensures At(s, '[')
    ensures var x := ValueAt(s, st, Resume(st));
            var u := SkipSpace(s[1..]);
            if At(u, ']') then BuildValue(Some(x.0), x.1) == (Done(Array([])), Cursor(u[1..], st, Resume(st)))
            else var y := ValueAt(u, PushIndex(st, 0), ParseArrayComma);
                 BuildValue(Some(x.0), x.1) == BuildArray(Some(y.0), y.1, [])
  {
    hide BuildArray;
    var u := SkipSpace(s[1..]);
    if At(u, ']') {
      ArrayEnds(Cursor(u[1..], st, Resume(st)), []);
    }
  }

  lemma EmptyText(t: Tree, s: string, u: string)
    requires (t.EmptyArray? && s == "[" + (t.space + u) && At(u, ']'))
             || (t.EmptyObject? && s == "{" + (t.space + u) && At(u, '}'))
    ensures s == Unparse(t) + u[1..]
  {
    assert u == [u[0]] + u[1..];
  }

  lemma {:induction false} ArraySound(s: string, st: Stack) returns (t: Tree)
    requires ValueAt(s, st, Resume(st)).0.ArrayStart? && ValueDone(s, st)
    ensures ValueFound(s, st, t)
    decreases |s|, 0
  {
    hide BuildValue, BuildArray, ValueAt;
    OpenArray(s, st);
    var u := SkipSpace(s[1..]);
    var sp := SpaceSplit(s[1..]);
    assert s == "[" + (sp + u);
    if At(u, ']') {
      t := EmptyArray(sp);
      EmptyText(t, s, u);
    } else {
      var es := ElemsSound(u, PushIndex(st, 0), []);
      t := ArrayTree(es.(before := sp));
      ArrayFound(s, st, sp, u, es);
    }
  }

  lemma ArrayFound(s: string, st: Stack, sp: string, u: string, es: Elems)
    requires ValueAt(s, st, Resume(st)).0.ArrayStart? && ValueDone(s, st)
    requires AllSpace(sp) && s == "[" + (sp + u) && u == SkipSpace(s[1..]) && !At(u, ']')
    requires ElemsDone(u, PushIndex(st, 0), []) && ElemsFound(u, PushIndex(st, 0), [], es)
    ensures ValueFound(s, st, ArrayTree(es.(before := sp)))
  {
    hide BuildValue, BuildArray, ValueAt, ElemsInStep, ValueResult, SkipSpace, Rests, Depth;
    var x := ValueAt(s, st, Resume(st));
    var r := BuildValue(Some(x.0), x.1);
    OpenArray(s, st);
    ArrayResult(s, st, sp, u, es, r.1);
  }

  lemma ArrayResult(s: string, st: Stack, sp: string, u: string, es: Elems, d: Cursor)
    requires AllSpace(sp) && s == "[" + (sp + u) && Rests(d)
    requires Depth(d.stack) < Depth(PushIndex(st, 0)) - 1 || ElemsInStep(u, PushIndex(st, 0), d, es)
    ensures ValueResult(s, st, d, ArrayTree(es.(before := sp)))
  {
    PopPushIndex(st, 0);
    if Depth(st) <= Depth(d.stack) {
      SpacedText(s, sp, u, es, d.rest);
      assert WfElems(es.(before := sp));
    }
  }

  lemma SpacedText(s: string, sp: string, u: string, es: Elems, rest: string)
    requires s == "[" + (sp + u) && u == UnparseElems(es) + rest && es.before == ""
    ensures s == Unparse(ArrayTree(es.(before := sp))) + rest
  {
    var fs := es.(before := sp);
    ElemsWithSpace(es, sp, rest);
    assert s == "[" + (UnparseElems(fs) + rest);
    assert "[" + (UnparseElems(fs) + rest) == ("[" + UnparseElems(fs)) + rest;
  }

  lemma {:induction false} ElemsSound(s: string, here: Stack, values: seq<Json>) returns (es: Elems)
    requires LastIsIndex(here) && ElemsDone(s, here, values)
    ensures ElemsFound(s, here, values, es)
    decreases |s|, 3
  {
    hide Next, BuildValue, BuildArray, ValueAt;
    var x := ValueAt(s, here, ParseArrayComma);
    ValueAtEvent(s, here);
    ArrayDone(Some(x.0), x.1, values);
    var v := BuildValue(Some(x.0), x.1);
    var d, next := v.1, Next(v.1);
    var now := values + [v.0.value];
    var t := ValueSound(s, here);
    ArrayTurn(x.0, x.1, values, v.0.value, d, next);
    es := Elem("", t, "", NoElems);
    if Depth(d.stack) < Depth(here) {
      ArrayAhead(d, Depth(here) - 1, now);
    } else {
      AfterComma(d);
      var u := SkipSpace(d.rest);
      var after := SpaceSplit(d.rest);
      ArrayDone(next.0, next.1, now);
      if At(u, ']') {
        es := Elem("", t, after, NoElems);
        LastElemSound(s, here, d, t, after, u);
        ArrayEnds(next.1, now);
      } else {
        var w := SkipSpace(u[1..]);
        var sp := SpaceSplit(u[1..]);
        var fs := ElemsSound(w, BumpIndex(d.stack), now);
        es := Elem("", t, after, MoreElems(fs.(before := sp)));
        var r := BuildArray(next.0, next.1, now);
        if Depth(here) - 1 <= Depth(r.1.stack) {
          MoreElemSound(s, here, d, t, after, u, sp, w, fs, r.1);
        }
      }
    }
  }

  lemma LastElemSound(s: string, here: Stack, d: Cursor, t: Tree, after: string, u: string)
    requires LastIsIndex(here) && ValueInStep(s, here, d, t)
    requires AllSpace(after) && d.rest == after + u && At(u, ']')
    ensures var e := Cursor(u[1..], Pop(d.stack), Resume(Pop(d.stack)));
            ElemsInStep(s, here, e, Elem("", t, after, NoElems))
  {
    var es := Elem("", t, after, NoElems);
    ElemsText(es, u[1..]);
    MoreElemsText(NoElems, u[1..]);
    assert u == "]" + u[1..];
  }

  lemma MoreElemSound(s: string, here: Stack, d: Cursor, t: Tree, after: string, u: string, sp: string, w: string,
                      fs: Elems, e: Cursor)
    requires LastIsIndex(here) && ValueInStep(s, here, d, t)
    requires AllSpace(after) && d.rest == after + u && At(u, ',') && AllSpace(sp) && u[1..] == sp + w
    requires ElemsInStep(w, BumpIndex(d.stack), e, fs)
    ensures ElemsInStep(s, here, e, Elem("", t, after, MoreElems(fs.(before := sp))))
  {
    var gs := fs.(before := sp);
    var es := Elem("", t, after, MoreElems(gs));
    ElemsText(es, e.rest);
    MoreElemsText(es.more, e.rest);
    ElemsWithSpace(fs, sp, e.rest);
    assert u == "," + (sp + w);
    assert Pop(BumpIndex(d.stack)) == Pop(d.stack);
  }

  lemma EntriesWithSpace(es: Entries, sp: string, r: string)
    requires es.before == ""
    ensures UnparseEntries(es.(before := sp)) + r == sp + (UnparseEntries(es) + r)
  {
    EntriesText(es, r);
    EntriesText(es.(before := sp), r);
  }

  ghost predicate EntriesDone(s: string, st: Stack, first: bool, ms: seq<Member>)
  {
    var x := ObjectStep(s, st, first);
    IsValueEvent(x.0) && BuildObject(Some(x.0), x.1, ms).0.Done?
  }

  ghost predicate EntriesFound(s: string, st: Stack, first: bool, ms: seq<Member>, es: Entries)
    requires EntriesDone(s, st, first, ms)
  {
    var x := ObjectStep(s, st, first);
    var r := BuildObject(Some(x.0), x.1, ms);
    && Rests(r.1)
    && (Depth(r.1.stack) < Depth(st) || EntriesInStep(s, st, r.1, es))
  }

  lemma ObjectEnds(c: Cursor, ms: seq<Member>)
    requires Inv(c)
    ensures BuildObject(Some(ObjectEnd), c, ms) == (Done(Object(ms)), c)
    ensures forall e :: !BuildObject(Some(Error(e)), c, ms).0.Done?
  {
  }

  /** The builder on an opening brace. */
  lemma OpenObject(s: string, st: Stack)
    requires ValueAt(s, st, Resume(st)).0.ObjectStart?
    ensures At(s, '{')
    ensures var x := ValueAt(s, st, Resume(st));
            var y := ObjectStep(SkipSpace(s[1..]), st, true);
            BuildValue(Some(x.0), x.1) == BuildObject(Some(y.0), y.1, [])
  {
    hide ObjectStep, BuildObject;
  }

  lemma {:induction false} ObjectSound(s: string, st: Stack) returns (t: Tree)
    requires ValueAt(s, st, Resume(st)).0.ObjectStart? && ValueDone(s, st)
    ensures ValueFound(s, st, t)
    decreases |s|, 0
  {
    hide BuildValue, BuildObject, ValueAt, ObjectStep;
    OpenObject(s, st);
    var u := SkipSpace(s[1..]);
    var sp := SpaceSplit(s[1..]);
    assert s == "{" + (sp + u);
    ObjectStepEvent(u, st, true);
    var y := ObjectStep(u, st, true);
    ObjectEnds(y.1, []);
    if IsValueEvent(y.0) {
      var es := EntriesSound(u, st, true, []);
      t := ObjectTree(es.(before := sp));
      ObjectFound(s, st, sp, u, es);
    } else {
      t := EmptyObject(sp);
      EmptyText(t, s, u);
    }
  }

  lemma ObjectFound(s: string, st: Stack, sp: string, u: string, es: Entries)
    requires ValueAt(s, st, Resume(st)).0.ObjectStart? && ValueDone(s, st)
    requires AllSpace(sp) && s == "{" + (sp + u) && u == SkipSpace(s[1..])
    requires EntriesDone(u, st, true, []) && EntriesFound(u, st, true, [], es)
    ensures ValueFound(s, st, ObjectTree(es.(before := sp)))
  {
    hide BuildValue, BuildObject, ValueAt, ObjectStep, EntriesInStep, ValueResult, SkipSpace, Rests, Depth;
    var x := ValueAt(s, st, Resume(st));
    var r := BuildValue(Some(x.0), x.1);
    OpenObject(s, st);
    ObjectResult(s, st, sp, u, es, r.1);
  }

  lemma ObjectResult(s: string, st: Stack, sp: string, u: string, es: Entries, d: Cursor)
    requires AllSpace(sp) && s == "{" + (sp + u) && Rests(d)
    requires Depth(d.stack) < Depth(st) || EntriesInStep(u, st, d, es)
    ensures ValueResult(s, st, d, ObjectTree(es.(before := sp)))
  {
    if Depth(st) <= Depth(d.stack) {
      var fs := es.(before := sp);
      EntriesWithSpace(es, sp, d.rest);
      assert s == "{" + (UnparseEntries(fs) + d.rest);
      assert Unparse(ObjectTree(fs)) + d.rest == "{" + (UnparseEntries(fs) + d.rest);
      assert WfEntries(fs);
    }
  }

  lemma {:induction false} EntriesSound(s: string, st: Stack, first: bool, ms: seq<Member>) returns (es: Entries)
    requires EntriesDone(s, st, first, ms)
    ensures EntriesFound(s, st, first, ms, es)
    decreases |s|, 3
  {
    hide Next, BuildValue, BuildObject, ValueAt, ObjectStep, PushKey, TopKey, Insert;
    var x := ObjectStep(s, st, first);
    var items, pre, post, value := EntryParts(s, st, first);
    var here := PushKey(st, ItemsMeaning(items));
    KeyPushes(st, ItemsMeaning(items));
    ValueAtEvent(value, here);
    var key := ObjectDone(x.0, x.1, ms);
    var v := BuildValue(Some(x.0), x.1);
    var d, next := v.1, Next(v.1);
    var now := Insert(ms, key, v.0.value);
    var t := ValueSound(value, here);
    ObjectTurn(x.0, x.1, ms, key, v.0.value, d, next, now);
    es := Entry("", items, pre, post, t, "", NoEntries);
    if Depth(d.stack) < Depth(here) {
      ObjectAhead(d, Depth(st), now);
    } else {
      es := RestSound(s, st, first, ms, es, value, here, key, v.0.value, d);
    }
  }

  lemma KeyPushes(st: Stack, key: string)
    ensures var here := PushKey(st, key);
            && LastIsKey(here) && Resume(here) == ParseObjectComma
            && here.elems[..|st.elems|] == st.elems && Depth(here) == Depth(st) + 1
            && |here.buffer| == |st.buffer| + |Utf8.Encode(key)|
  {
  }

  /** The rest of an object, once the value of an entry was built in step. */
  lemma {:induction false} RestSound(s: string, st: Stack, first: bool, ms: seq<Member>, e0: Entries, value: string,
                                     here: Stack, key: string, v: Json, d: Cursor) returns (es: Entries)
    requires EntriesDone(s, st, first, ms) && Rests(d) && Fuel(d) < |s|
    requires WfEntries(e0) && e0.before == "" && e0.after == "" && e0.more == NoEntries
    requires s == UnparseString(e0.key) + (e0.preColon + (":" + (e0.postColon + value)))
    requires here == PushKey(st, ItemsMeaning(e0.key)) && TopKey(here) == Some(key)
    requires ValueInStep(value, here, d, e0.value)
    requires var x := ObjectStep(s, st, first);
             BuildObject(Some(x.0), x.1, ms) == BuildObject(Next(d).0, Next(d).1, Insert(ms, key, v))
    ensures EntriesFound(s, st, first, ms, es)
    decreases |s|, 2
  {
    hide Next, BuildValue, BuildObject, ValueAt, ObjectStep, PushKey, TopKey, Insert, ValueInStep;
    KeyPushes(st, ItemsMeaning(e0.key));
    InStepStack(value, here, d, e0.value);
    AfterObjectComma(d);
    var now, next, up := Insert(ms, key, v), Next(d), Pop(d.stack);
    var r := BuildObject(next.0, next.1, now);
    var u := SkipSpace(d.rest);
    var after := SpaceSplit(d.rest);
    es := e0.(after := after);
    ObjectEnds(next.1, now);
    if At(u, '}') {
      LastEntrySound(s, st, e0, value, here, d, after, u);
    } else {
      var w := SkipSpace(u[1..]);
      var sp := SpaceSplit(u[1..]);
      ObjectStepEvent(w, up, false);
      if IsValueEvent(next.0.value) {
        var fs := EntriesSound(w, up, false, now);
        es := e0.(after := after, more := MoreEntries(fs.(before := sp)));
        if Depth(st) <= Depth(r.1.stack) {
          MoreEntrySound(s, st, e0, value, here, d, after, u, sp, w, fs, r.1);
        }
      }
    }
  }

  lemma InStepStack(s: string, st: Stack, d: Cursor, t: Tree)
    requires ValueInStep(s, st, d, t)
    ensures d.stack.elems == st.elems
  {
  }

  lemma InStepEntry(st: Stack, key: string, value: string, d: Cursor, t: Tree)
    requires ValueInStep(value, PushKey(st, key), d, t)
    ensures !IsEmpty(d.stack) && Pop(d.stack).elems == st.elems
  {
    KeyPushes(st, key);
  }

  lemma EntryText(e: Entries, s: string, value: string, rest: string, r: string)
    requires e.before == ""
    requires s == UnparseString(e.key) + (e.preColon + (":" + (e.postColon + value)))
    requires value == Unparse(e.value) + (e.after + rest) && rest == UnparseMoreEntries(e.more) + r
    ensures s == UnparseEntries(e) + r
  {
    EntriesText(e, r);
  }

  lemma LastEntrySound(s: string, st: Stack, e0: Entries, value: string, here: Stack, d: Cursor, after: string, u: string)
    requires WfEntries(e0) && e0.before == "" && e0.more == NoEntries
    requires s == UnparseString(e0.key) + (e0.preColon + (":" + (e0.postColon + value)))
    requires here == PushKey(st, ItemsMeaning(e0.key))
    requires ValueInStep(value, here, d, e0.value)
    requires AllSpace(after) && d.rest == after + u && At(u, '}')
    ensures !IsEmpty(d.stack)
    ensures var e := Cursor(u[1..], Pop(d.stack), Resume(Pop(d.stack)));
            EntriesInStep(s, st, e, e0.(after := after))
  {
    hide PushKey, Unparse, Pop;
    var e := e0.(after := after);
    InStepEntry(st, ItemsMeaning(e0.key), value, d, e0.value);
    assert u == "}" + u[1..];
    EntryText(e, s, value, u, u[1..]);
  }

  lemma MoreEntryText(s: string, e0: Entries, value: string, rest: string, after: string, u: string,
                      sp: string, w: string, fs: Entries, r: string)
    requires e0.before == "" && fs.before == ""
    requires s == UnparseString(e0.key) + (e0.preColon + (":" + (e0.postColon + value)))
    requires value == Unparse(e0.value) + rest && rest == after + u
    requires At(u, ',') && u[1..] == sp + w && w == UnparseEntries(fs) + r
    ensures s == UnparseEntries(e0.(after := after, more := MoreEntries(fs.(before := sp)))) + r
  {
    var e := e0.(after := after, more := MoreEntries(fs.(before := sp)));
    EntriesWithSpace(fs, sp, r);
    MoreEntriesText(e.more, r);
    assert u == "," + (sp + w);
    EntryText(e, s, value, u, r);
  }

  lemma MoreEntrySound(s: string, st: Stack, e0: Entries, value: string, here: Stack, d: Cursor, after: string,
                       u: string, sp: string, w: string, fs: Entries, e: Cursor)
    requires !IsEmpty(d.stack) && WfEntries(e0) && e0.before == ""
    requires s == UnparseString(e0.key) + (e0.preColon + (":" + (e0.postColon + value)))
    requires here == PushKey(st, ItemsMeaning(e0.key))
    requires ValueInStep(value, here, d, e0.value)
    requires AllSpace(after) && d.rest == after + u && At(u, ',') && AllSpace(sp) && u[1..] == sp + w
    requires EntriesInStep(w, Pop(d.stack), e, fs)
    ensures EntriesInStep(s, st, e, e0.(after := after, more := MoreEntries(fs.(before := sp))))
  {
    hide PushKey, Unparse, UnparseEntries;
    InStepEntry(st, ItemsMeaning(e0.key), value, d, e0.value);
    MoreEntryText(s, e0, value, d.rest, after, u, sp, w, fs, e.rest);
    assert WfEntries(fs.(before := sp));
  }
}
