/** Decoding undoes encoding: run on any stack with the JSON of a value on top, the decoder returns
    the value and leaves exactly the rest of the stack. */
module JsonDecoding {
  import opened Common
  import opened JsonValue
  import opened JsonGrammar
  import opened JsonPrinter
  import opened JsonRoundTrip
  import opened JsonTyped
  import opened JsonMaps

  ghost predicate Decodes(ty: Ty, v: Val, s: seq<Json>)
    requires Ranged(ty) && HasTy(ty, v)
  {
    Decode(ty, s + [ToJson(ty, v)]) == Read(v, s)
  }

  lemma PopLast<T>(s: seq<T>, x: T)
    ensures (s + [x])[..|s + [x]| - 1] == s && (s + [x])[|s + [x]| - 1] == x
  {
  }

  lemma CastInRange(i: int, lo: int, hi: int)
    requires lo <= i <= hi
    ensures Cast(i, lo, hi) == i
  {
    var n, d := hi - lo + 1, i - lo;
    assert d % n == d by { SmallMod(d, n); }
  }

  lemma SmallMod(d: int, n: int)
    requires 0 <= d < n
    ensures d % n == d
  {
  }

  // Scalars ----------------------------------------------------------------------------------

  lemma ScalarDecoded(ty: Ty, v: Val, s: seq<Json>)
    requires Ranged(ty) && HasTy(ty, v) && (ty.UnitT? || ty.BoolT? || ty.IntT? || ty.StrT?)
    ensures Decodes(ty, v, s)
  {
    PopLast(s, ToJson(ty, v));
    if ty.IntT? { CastInRange(v.i, ty.lo, ty.hi); }
  }

  // Sequences --------------------------------------------------------------------------------

  lemma PushedReversed(s: seq<Json>, js: seq<Json>)
    requires js != []
    ensures s + Reversed(js) == (s + Reversed(js[1..])) + [js[0]]
  {
  }

  lemma {:induction false} ManyDecoded(t: Ty, vs: seq<Val>, js: seq<Json>, s: seq<Json>)
    requires WfTy(t) && Ranged(t) && |js| == |vs|
    requires forall i :: 0 <= i < |vs| ==> HasTy(t, vs[i]) && Kept(t, vs[i]) && js[i] == ToJson(t, vs[i])
    ensures DecodeMany(t, |vs|, s + Reversed(js)) == Read(vs, s)
    decreases t, 3, |vs|
  {
    hide Decode, ToJson, HasTy, Kept;
    if vs == [] {
      assert s + Reversed(js) == s;
    } else {
      PushedReversed(s, js);
      ValueDecoded(t, vs[0], s + Reversed(js[1..]));
      ManyDecoded(t, vs[1..], js[1..], s);
      assert vs == [vs[0]] + vs[1..];
    }
  }

  lemma {:induction false} PartsDecoded(whole: Ty, ts: seq<Ty>, i: nat, vs: seq<Val>, js: seq<Json>, s: seq<Json>)
    requires i <= |ts| && |vs| == |js| == |ts|
    requires forall k :: 0 <= k < |ts| ==> WfTy(ts[k]) && Ranged(ts[k]) && ts[k] < whole
    requires forall k :: 0 <= k < |ts| ==> HasTy(ts[k], vs[k]) && Kept(ts[k], vs[k]) && js[k] == ToJson(ts[k], vs[k])
    ensures DecodeParts(whole, ts, i, s + Reversed(js[i..])) == Read(vs[i..], s)
    decreases whole, 0, |ts| - i
  {
    hide Decode, ToJson, HasTy, Kept, Reversed, DecodeParts;
    if i == |ts| {
      assert js[i..] == [] && vs[i..] == [];
      PartsEnd(whole, ts, s, js[i..]);
    } else {
      assert js[i..][1..] == js[i + 1..] && vs[i..] == [vs[i]] + vs[i + 1..];
      PushedReversed(s, js[i..]);
      var below := s + Reversed(js[i + 1..]);
      ValueDecoded(ts[i], vs[i], below);
      PartsDecoded(whole, ts, i + 1, vs, js, s);
      PartsTurn(whole, ts, i, below + [js[i]], vs[i], below, vs[i + 1..], s);
    }
  }

  lemma PartsEnd(whole: Ty, ts: seq<Ty>, s: seq<Json>, js: seq<Json>)
    requires js == [] && forall k :: 0 <= k < |ts| ==> Ranged(ts[k]) && ts[k] < whole
    ensures DecodeParts(whole, ts, |ts|, s + Reversed(js)) == Read([], s)
  {
    assert s + [] == s;
  }

  lemma PartsTurn(whole: Ty, ts: seq<Ty>, i: nat, s: seq<Json>, v: Val, below: seq<Json>, vs: seq<Val>, rest: seq<Json>)
    requires i < |ts| && forall k :: 0 <= k < |ts| ==> Ranged(ts[k]) && ts[k] < whole
    requires Decode(ts[i], s) == Read(v, below) && DecodeParts(whole, ts, i + 1, below) == Read(vs, rest)
    ensures DecodeParts(whole, ts, i, s) == Read([v] + vs, rest)
  {
    hide Decode;
  }

  // Structs ----------------------------------------------------------------------------------

  lemma {:induction false} FindInsert(ms: seq<Member>, k: string, x: Json, name: string)
    ensures Find(Insert(ms, k, x), name) == if name == k then Some(x) else Find(ms, name)
  {
    hide Less;
    if ms != [] {
      FindInsert(ms[1..], k, x, name);
    }
  }

  lemma {:induction false} FindRemove(ms: seq<Member>, k: string, name: string)
    requires k != name
    ensures Find(Remove(ms, k), name) == Find(ms, name)
  {
    if ms != [] {
      FindRemove(ms[1..], k, name);
    }
  }

  ghost function FieldJson(ty: Ty, v: Val, i: nat): Json
    requires ty.StructT? && HasTy(ty, v) && i < |ty.fields|
  {
    ToJson(ty.fields[i].ty, v.vs[i])
  }

  lemma {:induction false} FieldsFound(ty: Ty, v: Val, n: nat, i: nat)
    requires WfTy(ty) && ty.StructT? && HasTy(ty, v) && i < n <= |ty.fields|
    ensures Find(StructMembers(ty, v, n), ty.fields[i].name) == Some(FieldJson(ty, v, i))
    decreases n
  {
    hide ToJson, Insert;
    FindInsert(StructMembers(ty, v, n - 1), ty.fields[n - 1].name, ToJson(ty.fields[n - 1].ty, v.vs[n - 1]), ty.fields[i].name);
    if i < n - 1 {
      FieldsFound(ty, v, n - 1, i);
    }
  }

  lemma {:induction false} FieldsDecoded(ty: Ty, v: Val, i: nat, s: seq<Json>, ms: seq<Member>) returns (left: seq<Member>)
    requires WfTy(ty) && Ranged(ty) && ty.StructT? && HasTy(ty, v) && Kept(ty, v) && i <= |ty.fields|
    requires forall j :: i <= j < |ty.fields| ==> Find(ms, ty.fields[j].name) == Some(FieldJson(ty, v, j))
    ensures DecodeFields(ty, i, s + [Object(ms)]) == Read(v.vs[i..], s + [Object(left)])
    decreases ty, 0, |ty.fields| - i
  {
    hide Decode, Find, Remove;
    if i == |ty.fields| {
      left := ms;
      assert v.vs[i..] == [];
    } else {
      var f := ty.fields[i];
      PopLast(s, Object(ms));
      assert Find(ms, f.name) == Some(FieldJson(ty, v, i));
      ValueDecoded(f.ty, v.vs[i], s);
      var less := Remove(ms, f.name);
      forall j | i + 1 <= j < |ty.fields|
        ensures Find(less, ty.fields[j].name) == Some(FieldJson(ty, v, j))
      {
        FindRemove(ms, f.name, ty.fields[j].name);
      }
      left := FieldsDecoded(ty, v, i + 1, s, less);
      assert v.vs[i..] == [v.vs[i]] + v.vs[i + 1..];
    }
  }

  lemma {:induction false} StructDecoded(ty: Ty, v: Val, s: seq<Json>)
    requires WfTy(ty) && Ranged(ty) && ty.StructT? && HasTy(ty, v) && Kept(ty, v)
    ensures Decodes(ty, v, s)
    decreases ty, 1
  {
    hide DecodeFields, Find;
    var ms := StructMembers(ty, v, |ty.fields|);
    forall j | 0 <= j < |ty.fields| ensures Find(ms, ty.fields[j].name) == Some(FieldJson(ty, v, j)) {
      FieldsFound(ty, v, |ty.fields|, j);
    }
    var left := FieldsDecoded(ty, v, 0, s, ms);
    PopLast(s, Object(left));
    assert v.vs[0..] == v.vs;
  }

  // Enums ------------------------------------------------------------------------------------

  lemma {:induction false} PositionFound(vs: seq<Variant>, i: nat)
    requires i < |vs| && forall a, b :: 0 <= a < b < |vs| ==> vs[a].name != vs[b].name
    ensures Position(vs, vs[i].name) == Some(i)
  {
    if i > 0 {
      assert vs[0].name != vs[i].name;
      PositionFound(vs[1..], i - 1);
    }
  }

  ghost function ArgsJson(k: Variant, args: seq<Val>): seq<Json>
    requires |args| == |k.args| && forall i :: 0 <= i < |args| ==> HasTy(k.args[i], args[i])
  {
    seq(|k.args|, i requires 0 <= i < |k.args| => ToJson(k.args[i], args[i]))
  }

  /** What a value of an enum is made of. */
  lemma EnumShape(ty: Ty, v: Val)
    requires WfTy(ty) && ty.EnumT? && HasTy(ty, v)
    ensures v.VEnum? && v.idx < |ty.variants| && Position(ty.variants, ty.variants[v.idx].name) == Some(v.idx)
    ensures var k := ty.variants[v.idx];
            && |v.args| == |k.args|
            && (forall x :: 0 <= x < |k.args| ==> HasTy(k.args[x], v.args[x]))
            && (Kept(ty, v) ==> forall x :: 0 <= x < |k.args| ==> Kept(k.args[x], v.args[x]))
            && ToJson(ty, v) == if k.args == [] then String(k.name)
                                else Object([Member("fields", Array(ArgsJson(k, v.args))), Member("variant", String(k.name))])
  {
    hide Position;
    PositionFound(ty.variants, v.idx);
    var k := ty.variants[v.idx];
    if k.args != [] {
      assert ToJson(ty, v).members[0].value.elems == ArgsJson(k, v.args);
    }
  }

  /** An enum is read by looking at the value on top. */
  lemma EnumTop(ty: Ty, j: Json, s: seq<Json>)
    requires Ranged(ty) && ty.EnumT?
    ensures Decode(ty, s + [j]) == DecodeVariant(ty, j, s)
  {
    hide DecodeVariant;
    PopLast(s, j);
  }

  lemma {:induction false} ArgsDecoded(ty: Ty, v: Val, s: seq<Json>)
    requires WfTy(ty) && Ranged(ty) && ty.EnumT? && v.VEnum? && v.idx < |ty.variants|
    requires var k := ty.variants[v.idx];
             |v.args| == |k.args| && forall x :: 0 <= x < |k.args| ==> HasTy(k.args[x], v.args[x]) && Kept(k.args[x], v.args[x])
    ensures DecodeArgs(ty, v.idx, s + Reversed(ArgsJson(ty.variants[v.idx], v.args))) == Read(v, s)
    decreases ty, 0
  {
    hide DecodeParts, Reversed, HasTy, ToJson, Kept;
    var k := ty.variants[v.idx];
    assert WfArgs(k) && RangedArgs(k);
    var js := ArgsJson(k, v.args);
    PartsDecoded(ty, k.args, 0, v.args, js, s);
    assert js[0..] == js && v.args[0..] == v.args;
  }

  lemma {:induction false} EnumDecoded(ty: Ty, v: Val, s: seq<Json>)
    requires WfTy(ty) && Ranged(ty) && ty.EnumT? && HasTy(ty, v) && Kept(ty, v)
    ensures Decodes(ty, v, s)
    decreases ty, 1
  {
    hide Decode, DecodeVariant, DecodeArgs, DecodeParts, Position, Reversed, HasTy, ToJson, WfTy, Ranged, Kept;
    EnumShape(ty, v);
    var k := ty.variants[v.idx];
    var js := ArgsJson(k, v.args);
    EnumTop(ty, ToJson(ty, v), s);
    ArgsDecoded(ty, v, s);
    if k.args == [] {
      NothingPushed(s, js);
      NameRead(ty, k.name, v.idx, s);
    } else {
      VariantRead(ty, js, k.name, v.idx, s);
    }
  }

  /** `read_enum_variant` on the name of a variant without fields. */
  lemma NameRead(ty: Ty, name: string, i: nat, s: seq<Json>)
    requires Ranged(ty) && ty.EnumT? && Position(ty.variants, name) == Some(i)
    ensures DecodeVariant(ty, String(name), s) == DecodeArgs(ty, i, s)
  {
    hide DecodeArgs, Position;
  }

  /** `read_enum_variant` on the object of a variant with fields. */
  lemma VariantRead(ty: Ty, js: seq<Json>, name: string, i: nat, s: seq<Json>)
    requires Ranged(ty) && ty.EnumT? && Position(ty.variants, name) == Some(i)
    ensures DecodeVariant(ty, Object([Member("fields", Array(js)), Member("variant", String(name))]), s) ==
            DecodeArgs(ty, i, s + Reversed(js))
  {
    hide DecodeArgs, Find, Remove, Reversed, Position;
    VariantFound(js, name);
  }

  lemma NothingPushed(s: seq<Json>, js: seq<Json>)
    requires js == []
    ensures s + Reversed(js) == s
  {
  }

  lemma VariantFound(js: seq<Json>, name: string)
    ensures var ms := [Member("fields", Array(js)), Member("variant", String(name))];
            && Find(ms, "variant") == Some(String(name))
            && Find(Remove(ms, "variant"), "fields") == Some(Array(js))
  {
    var ms := [Member("fields", Array(js)), Member("variant", String(name))];
    assert "fields"[0] != "variant"[0];
    assert ms[1..] == [Member("variant", String(name))];
  }

  // Maps -------------------------------------------------------------------------------------

  lemma {:induction false} FlattenedSnoc(ms: seq<Member>, m: Member)
    ensures Flattened(ms + [m]) == Flattened(ms) + [m.value, String(m.key)]
  {
    if ms == [] {
      assert [] + [m] == [m] && [m][1..] == [];
    } else {
      assert (ms + [m])[1..] == ms[1..] + [m];
      FlattenedSnoc(ms[1..], m);
    }
  }

  lemma KeyDecoded(kt: KeyTy, k: KeyVal, s: seq<Json>)
    requires HasKeyTy(kt, k) && (kt.IntKey? ==> kt.lo <= kt.hi)
    ensures DecodeKey(kt, s + [String(KeyText(k))]) == Read(k, s)
  {
    hide ParseInt, IntText;
    PopLast(s, String(KeyText(k)));
    if kt.IntKey? { ParseIntText(k.i, kt.lo, kt.hi); }
  }

  /** The loop reads the members off the stack, the last first, and inserts their entries. */
  lemma {:induction false} EntriesDecoded(ty: Ty, os: seq<MapEntry>, n: nat, s: seq<Json>, es: seq<MapEntry>)
    requires WfTy(ty) && Ranged(ty) && ty.MapT? && AllTyped(ty, os) && n <= |os|
    requires forall i :: 0 <= i < |os| ==> Kept(ty.elem, os[i].value)
    ensures DecodeEntries(ty, n, s + Flattened(Members(ty, os)[..n]), es) == Read(Inserted(os, n, es), s)
    decreases ty, 0, n
  {
    hide Decode, DecodeKey, DecodeEntries, KeyText, InsertEntry, HasTy, HasKeyTy, ToJson, Kept, Flattened;
    var ms := Members(ty, os);
    if n == 0 {
      assert ms[..0] == [];
      EntriesEnd(ty, s, ms[..0], es);
    } else {
      var e, m := os[n - 1], ms[n - 1];
      var below := s + Flattened(ms[..n - 1]);
      assert ms[..n] == ms[..n - 1] + [m];
      FlattenedSnoc(ms[..n - 1], m);
      assert s + Flattened(ms[..n]) == below + [m.value] + [String(m.key)];
      KeyDecoded(ty.key, e.key, below + [m.value]);
      ValueDecoded(ty.elem, e.value, below);
      EntriesTurn(ty, n, below + [m.value] + [String(m.key)], e, below + [m.value], below, es);
      EntriesDecoded(ty, os, n - 1, s, InsertEntry(es, e));
    }
  }

  lemma EntriesEnd(ty: Ty, s: seq<Json>, ms: seq<Member>, es: seq<MapEntry>)
    requires Ranged(ty) && ty.MapT? && ms == []
    ensures DecodeEntries(ty, 0, s + Flattened(ms), es) == Read(es, s)
  {
    assert s + [] == s;
  }

  lemma EntriesTurn(ty: Ty, n: nat, s: seq<Json>, e: MapEntry, r: seq<Json>, below: seq<Json>, es: seq<MapEntry>)
    requires Ranged(ty) && ty.MapT? && n > 0
    requires DecodeKey(ty.key, s) == Read(e.key, r) && Decode(ty.elem, r) == Read(e.value, below)
    ensures DecodeEntries(ty, n, s, es) == DecodeEntries(ty, n - 1, below, InsertEntry(es, e))
  {
    hide Decode, DecodeKey, InsertEntry;
  }

  lemma {:induction false} MapDecoded(ty: Ty, v: Val, s: seq<Json>)
    requires WfTy(ty) && Ranged(ty) && ty.MapT? && HasTy(ty, v) && Kept(ty, v)
    ensures Decodes(ty, v, s)
    decreases ty, 1
  {
    var os := MembersOrdered(ty, v, |v.entries|);
    assert v.entries[..|v.entries|] == v.entries;
    forall i | 0 <= i < |os| ensures Kept(ty.elem, os[i].value) {
      assert os[i] in multiset(os);
      var j := EntryAt(v.entries, os[i]);
    }
    MembersReinserted(ty, v, os);
    EntriesDecoded(ty, os, |os|, s, []);
    MapRead(ty, v, os, s);
  }

  lemma MapRead(ty: Ty, v: Val, os: seq<MapEntry>, s: seq<Json>)
    requires Ranged(ty) && ty.MapT? && HasTy(ty, v) && AllTyped(ty, os)
    requires ToJson(ty, v) == Object(Members(ty, os))
    requires DecodeEntries(ty, |os|, s + Flattened(Members(ty, os)[..|os|]), []) == Read(v.entries, s)
    ensures Decodes(ty, v, s)
  {
    hide DecodeEntries, Flattened, AllTyped, ToJson;
    var ms := Members(ty, os);
    PopLast(s, Object(ms));
    assert ms[..|os|] == ms;
  }

  // All types --------------------------------------------------------------------------------

  lemma {:induction false} ValueDecoded(ty: Ty, v: Val, s: seq<Json>)
    requires WfTy(ty) && Ranged(ty) && HasTy(ty, v) && Kept(ty, v)
    ensures Decodes(ty, v, s)
    decreases ty, 2
  {
    hide Decodes;
    match ty
    case OptionT(t) => OptionDecoded(ty, v, s);
    case SeqT(t) => SeqDecoded(ty, v, s);
    case TupleT(ts) => TupleDecoded(ty, v, s);
    case StructT(_) => StructDecoded(ty, v, s);
    case EnumT(_) => EnumDecoded(ty, v, s);
    case MapT(_, _) => MapDecoded(ty, v, s);
    case _ => ScalarDecoded(ty, v, s);
  }

  lemma {:induction false} OptionDecoded(ty: Ty, v: Val, s: seq<Json>)
    requires WfTy(ty) && Ranged(ty) && HasTy(ty, v) && Kept(ty, v) && ty.OptionT?
    ensures Decodes(ty, v, s)
    decreases ty, 1
  {
    PopLast(s, ToJson(ty, v));
    if v.VSome? {
      ValueDecoded(ty.inner, v.v, s);
    }
  }

  lemma {:induction false} SeqDecoded(ty: Ty, v: Val, s: seq<Json>)
    requires WfTy(ty) && Ranged(ty) && HasTy(ty, v) && Kept(ty, v) && ty.SeqT?
    ensures Decodes(ty, v, s)
    decreases ty, 1
  {
    hide DecodeMany;
    PopLast(s, ToJson(ty, v));
    ManyDecoded(ty.elem, v.vs, ToJson(ty, v).elems, s);
  }

  lemma {:induction false} TupleDecoded(ty: Ty, v: Val, s: seq<Json>)
    requires WfTy(ty) && Ranged(ty) && HasTy(ty, v) && Kept(ty, v) && ty.TupleT?
    ensures Decodes(ty, v, s)
    decreases ty, 1
  {
    var js := ToJson(ty, v).elems;
    hide Decode, DecodeParts, Decodes, Reversed;
    PartsDecoded(ty, ty.parts, 0, v.vs, js, s);
    assert js[0..] == js && v.vs[0..] == v.vs;
    TupleRead(ty, v, js, s);
  }

  lemma TupleRead(ty: Ty, v: Val, js: seq<Json>, s: seq<Json>)
    requires Ranged(ty) && HasTy(ty, v) && ty.TupleT? && ToJson(ty, v) == Array(js) && |js| == |ty.parts|
    requires DecodeParts(ty, ty.parts, 0, s + Reversed(js)) == Read(v.vs, s)
    ensures Decodes(ty, v, s)
  {
    hide DecodeParts, Reversed, ToJson;
    PopLast(s, Array(js));
  }

  // Values that are not kept -------------------------------------------------------------------

  /** Flattening keeps the type and the JSON of a value, and leaves no `Some` that is written as `null`. */
  ghost predicate Flattens(ty: Ty, v: Val)
    requires HasTy(ty, v)
  {
    var f := Flat(ty, v);
    HasTy(ty, f) && Kept(ty, f) && ToJson(ty, f) == ToJson(ty, v)
  }

  lemma {:induction false} FlatKept(ty: Ty, v: Val)
    requires HasTy(ty, v)
    ensures Flattens(ty, v)
    decreases ty, 1
  {
    hide Flattens;
    match ty
    case OptionT(t) => FlatOption(ty, v);
    case SeqT(t) => FlatSeq(ty, v);
    case TupleT(ts) => FlatTuple(ty, v);
    case StructT(_) => FlatStruct(ty, v);
    case EnumT(_) => FlatEnum(ty, v);
    case MapT(_, _) => FlatMap(ty, v);
    case _ => FlatScalar(ty, v);
  }

  lemma FlatScalar(ty: Ty, v: Val)
    requires HasTy(ty, v) && (ty.UnitT? || ty.BoolT? || ty.IntT? || ty.StrT?)
    ensures Flattens(ty, v)
  {
  }

  lemma {:induction false} FlatOption(ty: Ty, v: Val)
    requires HasTy(ty, v) && ty.OptionT?
    ensures Flattens(ty, v)
    decreases ty, 0
  {
    if v.VSome? { FlatKept(ty.inner, v.v); }
  }

  lemma {:induction false} FlatSeq(ty: Ty, v: Val)
    requires HasTy(ty, v) && ty.SeqT?
    ensures Flattens(ty, v)
    decreases ty, 0
  {
    forall i | 0 <= i < |v.vs| ensures Flattens(ty.elem, v.vs[i]) {
      FlatKept(ty.elem, v.vs[i]);
    }
    SeqFlattens(ty, v);
  }

  lemma SeqFlattens(ty: Ty, v: Val)
    requires HasTy(ty, v) && ty.SeqT? && forall i :: 0 <= i < |v.vs| ==> Flattens(ty.elem, v.vs[i])
    ensures Flattens(ty, v)
  {
    var f := Flat(ty, v);
    assert forall i :: 0 <= i < |v.vs| ==> f.vs[i] == Flat(ty.elem, v.vs[i]);
    assert HasTy(ty, f) && Kept(ty, f);
    assert ToJson(ty, f).elems == ToJson(ty, v).elems;
  }

  lemma {:induction false} FlatTuple(ty: Ty, v: Val)
    requires HasTy(ty, v) && ty.TupleT?
    ensures Flattens(ty, v)
    decreases ty, 0
  {
    forall i | 0 <= i < |ty.parts| ensures Flattens(ty.parts[i], v.vs[i]) {
      FlatKept(ty.parts[i], v.vs[i]);
    }
    TupleFlattens(ty, v);
  }

  lemma TupleFlattens(ty: Ty, v: Val)
    requires HasTy(ty, v) && ty.TupleT? && forall i :: 0 <= i < |ty.parts| ==> Flattens(ty.parts[i], v.vs[i])
    ensures Flattens(ty, v)
  {
    var f := Flat(ty, v);
    assert forall i :: 0 <= i < |ty.parts| ==> f.vs[i] == Flat(ty.parts[i], v.vs[i]);
    assert HasTy(ty, f) && Kept(ty, f);
    assert ToJson(ty, f).elems == ToJson(ty, v).elems;
  }

  lemma {:induction false} FlatStruct(ty: Ty, v: Val)
    requires HasTy(ty, v) && ty.StructT?
    ensures Flattens(ty, v)
    decreases ty, 0
  {
    forall i | 0 <= i < |ty.fields| ensures Flattens(ty.fields[i].ty, v.vs[i]) {
      FlatKept(ty.fields[i].ty, v.vs[i]);
    }
    StructFlattens(ty, v);
  }

  lemma StructFlattens(ty: Ty, v: Val)
    requires HasTy(ty, v) && ty.StructT? && forall i :: 0 <= i < |ty.fields| ==> Flattens(ty.fields[i].ty, v.vs[i])
    ensures Flattens(ty, v)
  {
    var f := Flat(ty, v);
    assert forall i :: 0 <= i < |ty.fields| ==> f.vs[i] == Flat(ty.fields[i].ty, v.vs[i]);
    assert HasTy(ty, f) && Kept(ty, f);
    SameFields(ty, v, f, |ty.fields|);
  }

  lemma {:induction false} SameFields(ty: Ty, v: Val, f: Val, n: nat)
    requires ty.StructT? && HasTy(ty, v) && HasTy(ty, f) && n <= |ty.fields|
    requires forall i :: 0 <= i < |ty.fields| ==> FieldJson(ty, f, i) == FieldJson(ty, v, i)
    ensures StructMembers(ty, f, n) == StructMembers(ty, v, n)
    decreases n
  {
    hide Insert, ToJson;
    if n > 0 {
      assert FieldJson(ty, f, n - 1) == FieldJson(ty, v, n - 1);
      SameFields(ty, v, f, n - 1);
    }
  }

  lemma {:induction false} FlatEnum(ty: Ty, v: Val)
    requires HasTy(ty, v) && ty.EnumT?
    ensures Flattens(ty, v)
    decreases ty, 0
  {
    var k := ty.variants[v.idx];
    forall i | 0 <= i < |k.args| ensures Flattens(k.args[i], v.args[i]) {
      FlatKept(k.args[i], v.args[i]);
    }
    EnumFlattens(ty, v, k);
  }

  lemma EnumFlattens(ty: Ty, v: Val, k: Variant)
    requires HasTy(ty, v) && ty.EnumT? && k == ty.variants[v.idx]
    requires forall i :: 0 <= i < |k.args| ==> Flattens(k.args[i], v.args[i])
    ensures Flattens(ty, v)
  {
    var f := Flat(ty, v);
    assert forall i :: 0 <= i < |k.args| ==> f.args[i] == Flat(k.args[i], v.args[i]);
    assert HasTy(ty, f) && Kept(ty, f);
    if k.args != [] {
      assert ToJson(ty, f).members[0].value.elems == ToJson(ty, v).members[0].value.elems;
    }
  }

  lemma {:induction false} FlatMap(ty: Ty, v: Val)
    requires HasTy(ty, v) && ty.MapT?
    ensures Flattens(ty, v)
    decreases ty, 0
  {
    forall i | 0 <= i < |v.entries| ensures Flattens(ty.elem, v.entries[i].value) {
      FlatKept(ty.elem, v.entries[i].value);
    }
    MapFlattens(ty, v);
  }

  lemma MapFlattens(ty: Ty, v: Val)
    requires HasTy(ty, v) && ty.MapT? && forall i :: 0 <= i < |v.entries| ==> Flattens(ty.elem, v.entries[i].value)
    ensures Flattens(ty, v)
  {
    hide KeyBefore, HasKeyTy;
    var f := Flat(ty, v);
    assert forall i :: 0 <= i < |v.entries| ==> f.entries[i] == MapEntry(v.entries[i].key, Flat(ty.elem, v.entries[i].value));
    assert HasTy(ty, f) && Kept(ty, f);
    SameEntries(ty, v, f, |v.entries|);
  }

  lemma {:induction false} SameEntries(ty: Ty, v: Val, f: Val, n: nat)
    requires ty.MapT? && HasTy(ty, v) && HasTy(ty, f) && n <= |v.entries| == |f.entries|
    requires forall i :: 0 <= i < |v.entries| ==> MemberOf(ty, f.entries[i]) == MemberOf(ty, v.entries[i])
    ensures MapMembers(ty, f, n) == MapMembers(ty, v, n)
    decreases n
  {
    hide Insert, ToJson, KeyText;
    if n > 0 {
      assert MemberOf(ty, f.entries[n - 1]) == MemberOf(ty, v.entries[n - 1]);
      SameEntries(ty, v, f, n - 1);
    }
  }

  /** A value is read back with `None` for every `Some` that was written as `null`, and so it is read
      back as itself if and only if there is none. */
  lemma OptionExact(ty: Ty, v: Val, s: seq<Json>)
    requires WfTy(ty) && Ranged(ty) && HasTy(ty, v)
    ensures Decode(ty, s + [ToJson(ty, v)]) == Read(Flat(ty, v), s)
    ensures Decodes(ty, v, s) <==> Kept(ty, v)
  {
    hide Decode, ToJson, Flat, Kept, HasTy, WfTy, Ranged;
    FlatKept(ty, v);
    ValueDecoded(ty, Flat(ty, v), s);
    if Kept(ty, v) { ValueDecoded(ty, v, s); }
  }
}
