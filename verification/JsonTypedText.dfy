/** The text the encoder writes for a typed value, and the whole way round: encode, parse, decode. */
module JsonTypedText {
  import opened Common
  import opened Decimals
  import opened JsonValue
  import opened JsonLexer
  import opened JsonGrammar
  import opened JsonPrinter
  import opened JsonRoundTrip
  import opened JsonBuilder
  import opened JsonComplete
  import opened JsonTheorems
  import opened JsonStack
  import opened JsonTyped
  import opened JsonMaps
  import opened JsonDecoding
  import Utf8

  /** A key: strings are escaped, numbers are put in quotes. */
  function QuotedKey(k: KeyVal): string {
    match k
    case KStr(s) => StrText(s)
    case KInt(i) => "\"" + (IntText(i) + "\"")
  }

  /** What the compact encoder writes. */
  ghost function TypedText(ty: Ty, v: Val): string
    requires HasTy(ty, v)
    decreases ty, 1
  {
    match ty
    case UnitT => "null"
    case BoolT => if v.b then "true" else "false"
    case IntT(_, _) => IntText(v.i)
    case StrT => StrText(v.s)
    case OptionT(t) => if v.VNone? then "null" else TypedText(t, v.v)
    case SeqT(t) => if v.vs == [] then "[]" else "[" + SeqText(ty, v, 0)
    case TupleT(ts) => if ts == [] then "[]" else "[" + PartsText(ty, ts, v.vs, 0)
    case StructT(fs) => if fs == [] then "{}" else "{" + FieldsText(ty, v, 0)
    case EnumT(vs) =>
      var k := vs[v.idx];
      if k.args == [] then StrText(k.name)
      else "{\"variant\":" + (StrText(k.name) + (",\"fields\":[" + (PartsText(ty, k.args, v.args, 0) + "}")))
    case MapT(_, t) => if v.entries == [] then "{}" else "{" + EntriesText(ty, v, 0)
  }

  ghost function SeqText(ty: Ty, v: Val, i: nat): string
    requires ty.SeqT? && HasTy(ty, v) && i < |v.vs|
    decreases ty, 0, |v.vs| - i
  {
    TypedText(ty.elem, v.vs[i]) + (if i + 1 == |v.vs| then "]" else "," + SeqText(ty, v, i + 1))
  }

  ghost function PartsText(whole: Ty, ts: seq<Ty>, vs: seq<Val>, i: nat): string
    requires |vs| == |ts| && i < |ts|
    requires forall k :: 0 <= k < |ts| ==> ts[k] < whole && HasTy(ts[k], vs[k])
    decreases whole, 0, |ts| - i
  {
    TypedText(ts[i], vs[i]) + (if i + 1 == |ts| then "]" else "," + PartsText(whole, ts, vs, i + 1))
  }

  ghost function FieldsText(ty: Ty, v: Val, i: nat): string
    requires ty.StructT? && HasTy(ty, v) && i < |ty.fields|
    decreases ty, 0, |ty.fields| - i
  {
    StrText(ty.fields[i].name) + (":" + (TypedText(ty.fields[i].ty, v.vs[i])
    + (if i + 1 == |ty.fields| then "}" else "," + FieldsText(ty, v, i + 1))))
  }

  ghost function EntriesText(ty: Ty, v: Val, i: nat): string
    requires ty.MapT? && HasTy(ty, v) && i < |v.entries|
    decreases ty, 0, |v.entries| - i
  {
    QuotedKey(v.entries[i].key) + (":" + (TypedText(ty.elem, v.entries[i].value)
    + (if i + 1 == |v.entries| then "}" else "," + EntriesText(ty, v, i + 1))))
  }

  // Trees ------------------------------------------------------------------------------------

  ghost function One(key: string, value: Tree, more: OptEntries): Entries {
    Entry("", ItemsOf(key), "", "", value, "", more)
  }

  ghost function TypedTree(ty: Ty, v: Val): Tree
    requires HasTy(ty, v)
    decreases ty, 1
  {
    match ty
    case UnitT => NullTree
    case BoolT => BoolTree(v.b)
    case IntT(_, _) => NumTree(IntNumber(v.i))
    case StrT => StrTree(ItemsOf(v.s))
    case OptionT(t) => if v.VNone? then NullTree else TypedTree(t, v.v)
    case SeqT(t) => if v.vs == [] then EmptyArray("") else ArrayTree(SeqTree(ty, v, 0))
    case TupleT(ts) => if ts == [] then EmptyArray("") else ArrayTree(PartsTree(ty, ts, v.vs, 0))
    case StructT(fs) => if fs == [] then EmptyObject("") else ObjectTree(FieldsTree(ty, v, 0))
    case EnumT(vs) =>
      var k := vs[v.idx];
      if k.args == [] then StrTree(ItemsOf(k.name))
      else ObjectTree(One("variant", StrTree(ItemsOf(k.name)),
                          MoreEntries(One("fields", ArrayTree(PartsTree(ty, k.args, v.args, 0)), NoEntries))))
    case MapT(_, t) => if v.entries == [] then EmptyObject("") else ObjectTree(MapTree(ty, v, 0))
  }

  ghost function SeqTree(ty: Ty, v: Val, i: nat): Elems
    requires ty.SeqT? && HasTy(ty, v) && i < |v.vs|
    decreases ty, 0, |v.vs| - i
  {
    Elem("", TypedTree(ty.elem, v.vs[i]), "", if i + 1 == |v.vs| then NoElems else MoreElems(SeqTree(ty, v, i + 1)))
  }

  ghost function PartsTree(whole: Ty, ts: seq<Ty>, vs: seq<Val>, i: nat): Elems
    requires |vs| == |ts| && i < |ts|
    requires forall k :: 0 <= k < |ts| ==> ts[k] < whole && HasTy(ts[k], vs[k])
    decreases whole, 0, |ts| - i
  {
    Elem("", TypedTree(ts[i], vs[i]), "", if i + 1 == |ts| then NoElems else MoreElems(PartsTree(whole, ts, vs, i + 1)))
  }

  ghost function FieldsTree(ty: Ty, v: Val, i: nat): Entries
    requires ty.StructT? && HasTy(ty, v) && i < |ty.fields|
    decreases ty, 0, |ty.fields| - i
  {
    One(ty.fields[i].name, TypedTree(ty.fields[i].ty, v.vs[i]),
        if i + 1 == |ty.fields| then NoEntries else MoreEntries(FieldsTree(ty, v, i + 1)))
  }

  ghost function MapTree(ty: Ty, v: Val, i: nat): Entries
    requires ty.MapT? && HasTy(ty, v) && i < |v.entries|
    decreases ty, 0, |v.entries| - i
  {
    One(KeyText(v.entries[i].key), TypedTree(ty.elem, v.entries[i].value),
        if i + 1 == |v.entries| then NoEntries else MoreEntries(MapTree(ty, v, i + 1)))
  }

  ghost predicate Writes(ty: Ty, v: Val)
    requires HasTy(ty, v)
  {
    && Wf(TypedTree(ty, v))
    && Unparse(TypedTree(ty, v)) == TypedText(ty, v)
    && Meaning(TypedTree(ty, v)) == ToJson(ty, v)
  }

  // Texts of the trees -----------------------------------------------------------------------

  lemma ElemText(t: Tree, more: OptElems)
    ensures UnparseElems(Elem("", t, "", more)) == Unparse(t) + UnparseMoreElems(more)
  {
    hide Unparse;
    EmptyPrefix(UnparseMoreElems(more));
    EmptyPrefix(Unparse(t) + UnparseMoreElems(more));
  }

  lemma OneText(key: string, t: Tree, more: OptEntries)
    ensures UnparseEntries(One(key, t, more)) == StrText(key) + (":" + (Unparse(t) + UnparseMoreEntries(more)))
  {
    hide Unparse, ItemsOf, UnparseItems, Escaped;
    ItemsOfString(key);
    var m := Unparse(t) + UnparseMoreEntries(more);
    EmptyPrefix(UnparseMoreEntries(more));
    EmptyPrefix(m);
    EmptyPrefix(":" + m);
    EmptyPrefix(StrText(key) + (":" + m));
  }

  lemma OneWf(key: string, t: Tree, more: OptEntries)
    requires Wf(t) && (more.MoreEntries? ==> WfEntries(more.entries))
    ensures WfEntries(One(key, t, more)) && ItemsMeaning(One(key, t, more).key) == key
  {
    hide ItemsOf;
    ItemsOfString(key);
  }

  lemma {:induction false} PlainEscaped(s: string)
    requires forall i :: 0 <= i < |s| ==> IsDigit(s[i]) || s[i] == '-'
    ensures Escaped(s) == s
  {
    if s != "" {
      PlainEscaped(s[1..]);
      assert s == [s[0]] + s[1..];
    }
  }

  lemma QuotedKeyText(k: KeyVal)
    ensures QuotedKey(k) == StrText(KeyText(k))
  {
    hide Decimal, Escaped;
    if k.KInt? {
      DecimalDigits(if k.i < 0 then -k.i else k.i);
      PlainEscaped(IntText(k.i));
    }
  }

  // Arrays -----------------------------------------------------------------------------------

  lemma {:induction false} SeqWritten(ty: Ty, v: Val, i: nat)
    requires WfTy(ty) && ty.SeqT? && HasTy(ty, v) && i < |v.vs|
    ensures WfElems(SeqTree(ty, v, i)) && UnparseElems(SeqTree(ty, v, i)) == SeqText(ty, v, i)
    ensures ElemsMeaning(SeqTree(ty, v, i)) == ToJson(ty, v).elems[i..]
    decreases ty, 0, |v.vs| - i
  {
    hide UnparseElems;
    TypedWritten(ty.elem, v.vs[i]);
    var es := SeqTree(ty, v, i);
    ElemText(es.value, es.more);
    Uncons(ToJson(ty, v).elems, i);
    if i + 1 < |v.vs| {
      SeqWritten(ty, v, i + 1);
    }
  }

  ghost function PartsJson(ts: seq<Ty>, vs: seq<Val>): seq<Json>
    requires |vs| == |ts| && forall k :: 0 <= k < |ts| ==> HasTy(ts[k], vs[k])
  {
    seq(|ts|, i requires 0 <= i < |ts| => ToJson(ts[i], vs[i]))
  }

  lemma {:induction false} PartsWritten(whole: Ty, ts: seq<Ty>, vs: seq<Val>, i: nat)
    requires |vs| == |ts| && i < |ts|
    requires forall k :: 0 <= k < |ts| ==> WfTy(ts[k]) && ts[k] < whole && HasTy(ts[k], vs[k])
    ensures WfElems(PartsTree(whole, ts, vs, i)) && UnparseElems(PartsTree(whole, ts, vs, i)) == PartsText(whole, ts, vs, i)
    ensures ElemsMeaning(PartsTree(whole, ts, vs, i)) == PartsJson(ts, vs)[i..]
    decreases whole, 0, |ts| - i
  {
    hide UnparseElems;
    TypedWritten(ts[i], vs[i]);
    var es := PartsTree(whole, ts, vs, i);
    ElemText(es.value, es.more);
    Uncons(PartsJson(ts, vs), i);
    if i + 1 < |ts| {
      PartsWritten(whole, ts, vs, i + 1);
    }
  }

  // Objects ----------------------------------------------------------------------------------

  lemma {:induction false} FieldsWritten(ty: Ty, v: Val, i: nat)
    requires WfTy(ty) && ty.StructT? && HasTy(ty, v) && i < |ty.fields|
    ensures WfEntries(FieldsTree(ty, v, i)) && UnparseEntries(FieldsTree(ty, v, i)) == FieldsText(ty, v, i)
    ensures EntriesMeaning(FieldsTree(ty, v, i), StructMembers(ty, v, i)) == StructMembers(ty, v, |ty.fields|)
    decreases ty, 0, |ty.fields| - i
  {
    hide UnparseEntries, ItemsOf, StrText, Insert, Unparse, ItemsMeaning;
    TypedWritten(ty.fields[i].ty, v.vs[i]);
    var es := FieldsTree(ty, v, i);
    if i + 1 < |ty.fields| {
      FieldsWritten(ty, v, i + 1);
    }
    OneText(ty.fields[i].name, es.value, es.more);
    OneWf(ty.fields[i].name, es.value, es.more);
  }

  lemma {:induction false} MapWritten(ty: Ty, v: Val, i: nat)
    requires WfTy(ty) && ty.MapT? && HasTy(ty, v) && i < |v.entries|
    ensures WfEntries(MapTree(ty, v, i)) && UnparseEntries(MapTree(ty, v, i)) == EntriesText(ty, v, i)
    ensures EntriesMeaning(MapTree(ty, v, i), MapMembers(ty, v, i)) == MapMembers(ty, v, |v.entries|)
    decreases ty, 0, |v.entries| - i
  {
    hide UnparseEntries, ItemsOf, StrText, Insert, Unparse, QuotedKey, KeyText, KeyBefore, ItemsMeaning;
    var e := v.entries[i];
    TypedWritten(ty.elem, e.value);
    var es := MapTree(ty, v, i);
    if i + 1 < |v.entries| {
      MapWritten(ty, v, i + 1);
    }
    OneText(KeyText(e.key), es.value, es.more);
    OneWf(KeyText(e.key), es.value, es.more);
    QuotedKeyText(e.key);
  }

  lemma {:induction false} EnumWritten(ty: Ty, v: Val)
    requires WfTy(ty) && ty.EnumT? && HasTy(ty, v)
    ensures Writes(ty, v)
    decreases ty, 1
  {
    var k := ty.variants[v.idx];
    assert WfArgs(k);
    ItemsOfString(k.name);
    if k.args != [] {
      PartsWritten(ty, k.args, v.args, 0);
      assert PartsJson(k.args, v.args)[0..] == PartsJson(k.args, v.args);
      VariantWritten(ty, v, PartsTree(ty, k.args, v.args, 0));
    }
  }

  /** An object of two entries. */
  lemma PairTree(k1: string, t1: Tree, k2: string, t2: Tree, t: Tree)
    requires Wf(t1) && Wf(t2)
    requires t == ObjectTree(One(k1, t1, MoreEntries(One(k2, t2, NoEntries))))
    ensures Wf(t) && Meaning(t) == Object(Insert(Insert([], k1, Meaning(t1)), k2, Meaning(t2)))
    ensures Unparse(t) == "{" + (StrText(k1) + (":" + (Unparse(t1) + ("," + (StrText(k2) + (":" + (Unparse(t2) + "}")))))))
  {
    hide UnparseEntries, ItemsOf, UnparseElems, Escaped, Insert, ItemsMeaning;
    var second := One(k2, t2, NoEntries);
    OneWf(k2, t2, NoEntries);
    OneText(k2, t2, NoEntries);
    OneWf(k1, t1, MoreEntries(second));
    OneText(k1, t1, MoreEntries(second));
    assert EntriesMeaning(second, Insert([], k1, Meaning(t1))) == Insert(Insert([], k1, Meaning(t1)), k2, Meaning(t2));
  }

  lemma VariantWritten(ty: Ty, v: Val, parts: Elems)
    requires ty.EnumT? && HasTy(ty, v) && ty.variants[v.idx].args != []
    requires var k := ty.variants[v.idx];
             && parts == PartsTree(ty, k.args, v.args, 0) && WfElems(parts)
             && UnparseElems(parts) == PartsText(ty, k.args, v.args, 0)
             && ElemsMeaning(parts) == PartsJson(k.args, v.args)
    ensures Writes(ty, v)
  {
    hide UnparseEntries, ItemsOf, UnparseElems, PartsTree, PartsText, Escaped, ElemsMeaning, WfElems, WfEntries,
         UnparseItems, ItemsMeaning, EntriesMeaning, Insert;
    var k := ty.variants[v.idx];
    var js := PartsJson(k.args, v.args);
    var name, arr := StrTree(ItemsOf(k.name)), ArrayTree(parts);
    ItemsOfString(k.name);
    PairTree("variant", name, "fields", arr, TypedTree(ty, v));
    VariantText(k.name, PartsText(ty, k.args, v.args, 0));
    VariantMembers(k.name, js);
    assert Unparse(name) == StrText(k.name) && Meaning(name) == String(k.name);
    assert Unparse(arr) == "[" + PartsText(ty, k.args, v.args, 0) && Meaning(arr) == Array(js);
    assert ToJson(ty, v).members[0].value.elems == js;
  }

  lemma VariantText(name: string, parts: string)
    ensures "{" + (StrText("variant") + (":" + (StrText(name) + ("," + (StrText("fields") + (":" + (("[" + parts) + "}")))))))
            == "{\"variant\":" + (StrText(name) + (",\"fields\":[" + (parts + "}")))
  {
    hide Escaped;
    LiteralTexts();
    var tail := parts + "}";
    assert ("[" + parts) + "}" == "[" + tail;
    assert "," + ("\"fields\"" + (":" + ("[" + tail))) == ",\"fields\":[" + tail;
    var rest := StrText(name) + (",\"fields\":[" + tail);
    assert "{" + ("\"variant\"" + (":" + rest)) == "{\"variant\":" + rest;
  }

  lemma LiteralTexts()
    ensures StrText("variant") == "\"variant\"" && StrText("fields") == "\"fields\""
  {
    hide Escaped;
    PlainWord("variant");
    PlainWord("fields");
  }

  lemma {:induction false} PlainWord(s: string)
    requires forall i :: 0 <= i < |s| ==> 'a' <= s[i] <= 'z'
    ensures Escaped(s) == s
  {
    if s != "" {
      PlainWord(s[1..]);
      assert s == [s[0]] + s[1..];
    }
  }

  lemma VariantMembers(name: string, js: seq<Json>)
    ensures Insert(Insert([], "variant", String(name)), "fields", Array(js)) ==
            [Member("fields", Array(js)), Member("variant", String(name))]
  {
    assert "fields"[0] < "variant"[0];
  }

  // All types --------------------------------------------------------------------------------

  /** The encoder's text is a text of the grammar that means the JSON of the value. */
  lemma {:induction false} TypedWritten(ty: Ty, v: Val)
    requires WfTy(ty) && HasTy(ty, v)
    ensures Writes(ty, v)
    decreases ty, 2
  {
    match ty
    case OptionT(t) =>
      if v.VSome? {
        TypedWritten(t, v.v);
      }
    case EnumT(_) => EnumWritten(ty, v);
    case IntT(_, _) => IntNumberWf(v.i);
    case StrT => ItemsOfString(v.s);
    case UnitT =>
    case BoolT =>
    case SeqT(_) => SeqValueWritten(ty, v);
    case TupleT(_) => TupleWritten(ty, v);
    case StructT(_) => StructWritten(ty, v);
    case MapT(_, _) => MapValueWritten(ty, v);
  }

  lemma {:induction false} SeqValueWritten(ty: Ty, v: Val)
    requires WfTy(ty) && ty.SeqT? && HasTy(ty, v)
    ensures Writes(ty, v)
    decreases ty, 1
  {
    hide SeqTree, SeqText, WfElems, UnparseElems, ElemsMeaning;
    if v.vs != [] {
      SeqWritten(ty, v, 0);
      assert ToJson(ty, v).elems[0..] == ToJson(ty, v).elems;
    }
  }

  lemma {:induction false} TupleWritten(ty: Ty, v: Val)
    requires WfTy(ty) && ty.TupleT? && HasTy(ty, v)
    ensures Writes(ty, v)
    decreases ty, 1
  {
    hide PartsTree, PartsText, WfElems, UnparseElems, ElemsMeaning;
    if ty.parts != [] {
      PartsWritten(ty, ty.parts, v.vs, 0);
      assert PartsJson(ty.parts, v.vs)[0..] == PartsJson(ty.parts, v.vs);
    }
  }

  lemma {:induction false} StructWritten(ty: Ty, v: Val)
    requires WfTy(ty) && ty.StructT? && HasTy(ty, v)
    ensures Writes(ty, v)
    decreases ty, 1
  {
    hide FieldsTree, FieldsText, WfEntries, UnparseEntries, EntriesMeaning;
    if ty.fields != [] {
      FieldsWritten(ty, v, 0);
    }
  }

  lemma {:induction false} MapValueWritten(ty: Ty, v: Val)
    requires WfTy(ty) && ty.MapT? && HasTy(ty, v)
    ensures Writes(ty, v)
    decreases ty, 1
  {
    hide MapTree, EntriesText, WfEntries, UnparseEntries, EntriesMeaning;
    if v.entries != [] {
      MapWritten(ty, v, 0);
    }
    assert MapMembers(ty, v, 0) == [];
  }

  // Key paths --------------------------------------------------------------------------------

  /** The room a member takes of the key path, and what is below it. */
  ghost predicate FitsUnder(key: string, x: Json, used: nat) {
    used + |Utf8.Encode(key)| <= MAX_KEY_BYTES && KeyPathsFit(x, used + |Utf8.Encode(key)|)
  }

  lemma MemberFits(ms: seq<Member>, i: nat, used: nat)
    requires i < |ms| && KeyPathsFit(Object(ms), used)
    ensures FitsUnder(ms[i].key, ms[i].value, used)
  {
  }

  lemma {:induction false} FoundAt(ms: seq<Member>, name: string, x: Json) returns (i: nat)
    requires Find(ms, name) == Some(x)
    ensures i < |ms| && ms[i] == Member(name, x)
  {
    if ms[0].key == name {
      i := 0;
    } else {
      var j := FoundAt(ms[1..], name, x);
      i := j + 1;
    }
  }

  lemma OneFits(key: string, t: Tree, more: OptEntries, used: nat)
    requires Wf(t) && (more.MoreEntries? ==> WfEntries(more.entries) && EntryKeysFit(more.entries, used))
    requires used + |Utf8.Encode(key)| <= MAX_KEY_BYTES && KeysFit(t, used + |Utf8.Encode(key)|)
    ensures WfEntries(One(key, t, more)) && EntryKeysFit(One(key, t, more), used)
  {
    hide ItemsOf, Utf8.Encode, ItemsMeaning;
    OneWf(key, t, more);
  }

  /** The text stays within the key limit if the value does. */
  lemma {:induction false} TypedFits(ty: Ty, v: Val, used: nat)
    requires WfTy(ty) && HasTy(ty, v) && KeyPathsFit(ToJson(ty, v), used)
    ensures Wf(TypedTree(ty, v)) && KeysFit(TypedTree(ty, v), used)
    decreases ty, 3
  {
    TypedWritten(ty, v);
    match ty
    case OptionT(t) => if v.VSome? { TypedFits(t, v.v, used); }
    case SeqT(_) => if v.vs != [] { SeqFits(ty, v, 0, used); }
    case TupleT(ts) => TupleFits(ty, v, used);
    case StructT(fs) => if fs != [] { FieldsFit(ty, v, 0, used); }
    case EnumT(_) => EnumFits(ty, v, used);
    case MapT(_, _) => if v.entries != [] { EntriesFit(ty, v, 0, used); }
    case _ =>
  }

  lemma {:induction false} SeqFits(ty: Ty, v: Val, i: nat, used: nat)
    requires WfTy(ty) && ty.SeqT? && HasTy(ty, v) && i < |v.vs| && KeyPathsFit(ToJson(ty, v), used)
    ensures WfElems(SeqTree(ty, v, i)) && ElemKeysFit(SeqTree(ty, v, i), used)
    decreases ty, 0, |v.vs| - i
  {
    hide TypedTree, KeysFit;
    SeqWritten(ty, v, i);
    assert ToJson(ty, v).elems[i] == ToJson(ty.elem, v.vs[i]);
    TypedFits(ty.elem, v.vs[i], used);
    if i + 1 < |v.vs| { SeqFits(ty, v, i + 1, used); }
  }

  lemma {:induction false} PartsFit(whole: Ty, ts: seq<Ty>, vs: seq<Val>, i: nat, used: nat)
    requires |vs| == |ts| && i < |ts|
    requires forall k :: 0 <= k < |ts| ==> WfTy(ts[k]) && ts[k] < whole && HasTy(ts[k], vs[k])
    requires forall k :: 0 <= k < |ts| ==> KeyPathsFit(ToJson(ts[k], vs[k]), used)
    ensures WfElems(PartsTree(whole, ts, vs, i)) && ElemKeysFit(PartsTree(whole, ts, vs, i), used)
    decreases whole, 0, |ts| - i
  {
    hide TypedTree, KeysFit, ToJson, HasTy, KeyPathsFit, WfTy;
    PartsWritten(whole, ts, vs, i);
    TypedFits(ts[i], vs[i], used);
    if i + 1 < |ts| { PartsFit(whole, ts, vs, i + 1, used); }
  }

  lemma {:induction false} TupleFits(ty: Ty, v: Val, used: nat)
    requires WfTy(ty) && ty.TupleT? && HasTy(ty, v) && KeyPathsFit(ToJson(ty, v), used)
    ensures Wf(TypedTree(ty, v)) && KeysFit(TypedTree(ty, v), used)
    decreases ty, 1
  {
    hide PartsTree, ElemKeysFit;
    var js := ToJson(ty, v).elems;
    if ty.parts != [] {
      assert forall k :: 0 <= k < |ty.parts| ==> js[k] == ToJson(ty.parts[k], v.vs[k]) && KeyPathsFit(js[k], used);
      PartsFit(ty, ty.parts, v.vs, 0, used);
    }
  }

  lemma {:induction false} FieldsFit(ty: Ty, v: Val, i: nat, used: nat)
    requires WfTy(ty) && ty.StructT? && HasTy(ty, v) && i < |ty.fields| && KeyPathsFit(ToJson(ty, v), used)
    ensures WfEntries(FieldsTree(ty, v, i)) && EntryKeysFit(FieldsTree(ty, v, i), used)
    decreases ty, 0, |ty.fields| - i
  {
    hide TypedTree, KeysFit, EntryKeysFit, Utf8.Encode, KeyPathsFit, Find, StructMembers, One, UnparseEntries, FieldsText,
      EntriesMeaning, WfEntries;
    var f, ms := ty.fields[i], StructMembers(ty, v, |ty.fields|);
    FieldsWritten(ty, v, i);
    FieldsFound(ty, v, |ty.fields|, i);
    var j := FoundAt(ms, f.name, ToJson(f.ty, v.vs[i]));
    MemberFits(ms, j, used);
    TypedFits(f.ty, v.vs[i], used + |Utf8.Encode(f.name)|);
    if i + 1 < |ty.fields| { FieldsFit(ty, v, i + 1, used); }
    OneFits(f.name, TypedTree(f.ty, v.vs[i]),
            if i + 1 == |ty.fields| then NoEntries else MoreEntries(FieldsTree(ty, v, i + 1)), used);
  }

  lemma {:induction false} EntriesFit(ty: Ty, v: Val, i: nat, used: nat)
    requires WfTy(ty) && ty.MapT? && HasTy(ty, v) && i < |v.entries| && KeyPathsFit(ToJson(ty, v), used)
    ensures WfEntries(MapTree(ty, v, i)) && EntryKeysFit(MapTree(ty, v, i), used)
    decreases ty, 0, |v.entries| - i
  {
    hide TypedTree, KeysFit, EntryKeysFit, Utf8.Encode, KeyPathsFit, MapMembers, KeyText, KeyBefore, One, UnparseEntries,
      EntriesText, EntriesMeaning, WfEntries;
    var e := v.entries[i];
    MapWritten(ty, v, i);
    EntryFits(ty, v, i, used);
    TypedFits(ty.elem, e.value, used + |Utf8.Encode(KeyText(e.key))|);
    if i + 1 < |v.entries| { EntriesFit(ty, v, i + 1, used); }
    OneFits(KeyText(e.key), TypedTree(ty.elem, e.value),
            if i + 1 == |v.entries| then NoEntries else MoreEntries(MapTree(ty, v, i + 1)), used);
  }

  lemma EntryFits(ty: Ty, v: Val, i: nat, used: nat)
    requires ty.MapT? && HasTy(ty, v) && i < |v.entries| && KeyPathsFit(ToJson(ty, v), used)
    ensures FitsUnder(KeyText(v.entries[i].key), ToJson(ty.elem, v.entries[i].value), used)
  {
    hide KeyText, KeyBefore, MapMembers, KeyPathsFit, FitsUnder, HasKeyTy;
    var os := MembersOrdered(ty, v, |v.entries|);
    assert v.entries[..|v.entries|] == v.entries;
    assert v.entries[i] in multiset(v.entries);
    var j := EntryAt(os, v.entries[i]);
    MemberFits(Members(ty, os), j, used);
  }

  lemma {:induction false} EnumFits(ty: Ty, v: Val, used: nat)
    requires WfTy(ty) && ty.EnumT? && HasTy(ty, v) && KeyPathsFit(ToJson(ty, v), used)
    ensures Wf(TypedTree(ty, v)) && KeysFit(TypedTree(ty, v), used)
    decreases ty, 2
  {
    hide EntryKeysFit, WfEntries, KeyPathsFit, ToJson, PartsTree, ItemsOf, One, Unparse, Meaning, TypedText, Kept;
    EnumWritten(ty, v);
    EnumShape(ty, v);
    var k := ty.variants[v.idx];
    if k.args != [] {
      assert WfArgs(k);
      ArgsFit(ty, k, v.args, used);
    }
  }

  ghost function VariantTree(whole: Ty, k: Variant, args: seq<Val>): Entries
    requires |args| == |k.args| > 0 && forall i :: 0 <= i < |args| ==> k.args[i] < whole && HasTy(k.args[i], args[i])
  {
    One("variant", StrTree(ItemsOf(k.name)),
        MoreEntries(One("fields", ArrayTree(PartsTree(whole, k.args, args, 0)), NoEntries)))
  }

  lemma {:induction false} ArgsFit(whole: Ty, k: Variant, args: seq<Val>, used: nat)
    requires |args| == |k.args| > 0
    requires forall i :: 0 <= i < |args| ==> WfTy(k.args[i]) && k.args[i] < whole && HasTy(k.args[i], args[i])
    requires KeyPathsFit(Object([Member("fields", Array(ArgsJson(k, args))), Member("variant", String(k.name))]), used)
    ensures WfEntries(VariantTree(whole, k, args)) && EntryKeysFit(VariantTree(whole, k, args), used)
    decreases whole, 1
  {
    hide HasTy, ToJson, KeyPathsFit, Utf8.Encode, PartsTree, ElemKeysFit, EntryKeysFit, WfEntries, WfElems, One, WfTy,
      ItemsOf;
    var js := ArgsJson(k, args);
    VariantFits([Member("fields", Array(js)), Member("variant", String(k.name))], js, k.name, used);
    forall i | 0 <= i < |args| ensures KeyPathsFit(ToJson(k.args[i], args[i]), used + |Utf8.Encode("fields")|) {
      assert js[i] == ToJson(k.args[i], args[i]);
    }
    PartsFit(whole, k.args, args, 0, used + |Utf8.Encode("fields")|);
    VariantTreeFits(k.name, PartsTree(whole, k.args, args, 0), used);
  }

  lemma VariantFits(ms: seq<Member>, js: seq<Json>, name: string, used: nat)
    requires ms == [Member("fields", Array(js)), Member("variant", String(name))] && KeyPathsFit(Object(ms), used)
    ensures used + |Utf8.Encode("fields")| <= MAX_KEY_BYTES && used + |Utf8.Encode("variant")| <= MAX_KEY_BYTES
    ensures forall i :: 0 <= i < |js| ==> KeyPathsFit(js[i], used + |Utf8.Encode("fields")|)
  {
    hide Utf8.Encode;
    MemberFits(ms, 0, used);
    MemberFits(ms, 1, used);
  }

  lemma VariantTreeFits(name: string, parts: Elems, used: nat)
    requires WfElems(parts) && ElemKeysFit(parts, used + |Utf8.Encode("fields")|)
    requires used + |Utf8.Encode("fields")| <= MAX_KEY_BYTES && used + |Utf8.Encode("variant")| <= MAX_KEY_BYTES
    ensures var es := One("variant", StrTree(ItemsOf(name)), MoreEntries(One("fields", ArrayTree(parts), NoEntries)));
            WfEntries(es) && EntryKeysFit(es, used)
  {
    hide Utf8.Encode, ItemsOf, One, EntryKeysFit, WfEntries;
    ItemsOfString(name);
    OneFits("fields", ArrayTree(parts), NoEntries, used);
    OneFits("variant", StrTree(ItemsOf(name)), MoreEntries(One("fields", ArrayTree(parts), NoEntries)), used);
  }

  /** Encoding, parsing and decoding a value whose key paths fit gives it back, with nothing left on the
      stack, as long as no `Some` in it is written as `null`. */
  lemma EncodeParseDecode(ty: Ty, v: Val)
    requires WfTy(ty) && Ranged(ty) && HasTy(ty, v) && KeyPathsFit(ToJson(ty, v), 0)
    ensures FromStr(TypedText(ty, v)) == Done(ToJson(ty, v))
    ensures Decode(ty, [ToJson(ty, v)]) == Read(Flat(ty, v), [])
    ensures Decode(ty, [ToJson(ty, v)]) == Read(v, []) <==> Kept(ty, v)
  {
    hide FromStr, TypedTree, TypedText, Unparse, Meaning, KeysFit, Decode, ToJson, Flat, Kept, HasTy, WfTy, Ranged;
    TypedWritten(ty, v);
    TypedFits(ty, v, 0);
    var t := Text("", TypedTree(ty, v), "");
    assert UnparseText(t) == TypedText(ty, v);
    TextBuilt(t);
    OptionExact(ty, v, []);
    assert [] + [ToJson(ty, v)] == [ToJson(ty, v)];
  }
}
