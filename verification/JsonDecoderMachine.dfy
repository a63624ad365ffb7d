/** The typed decoder as it runs: a stack of JSON values that every read pops and pushes. */
module JsonDecoderMachine {
  import opened Common
  import opened JsonValue
  import opened JsonTyped

  datatype Got<+T> = Value(value: T) | Refusal(error: DecodeError)

  /** The call did what the specification says: the value with the stack left, or the error. */
  ghost predicate Follows<T>(d: Decoded<T>, r: Got<T>, stack: seq<Json>) {
    match d
    case Read(v, s) => r == Value(v) && stack == s
    case Refused(e) => r == Refusal(e)
  }

  /** Values already read, and what reading on gives. */
  ghost function Chain(vs: seq<Val>, d: Decoded<seq<Val>>): Decoded<seq<Val>> {
    if d.Read? then Read(vs + d.value, d.stack) else d
  }

  lemma NothingBefore(d: Decoded<seq<Val>>)
    ensures Chain([], d) == d
  {
    if d.Read? {
      assert [] + d.value == d.value;
    }
  }

  lemma ChainOnce(vs: seq<Val>, v: Val, d: Decoded<seq<Val>>)
    ensures Chain(vs, Chain([v], d)) == Chain(vs + [v], d)
  {
    if d.Read? {
      assert vs + ([v] + d.value) == (vs + [v]) + d.value;
    }
  }

  lemma OneElement(t: Ty, n: nat, s: seq<Json>)
    requires Ranged(t) && n > 0
    ensures DecodeMany(t, n, s) ==
            match Decode(t, s)
            case Refused(e) => Refused(e)
            case Read(v, r) => Chain([v], DecodeMany(t, n - 1, r))
  {
  }

  lemma NoElements(t: Ty, s: seq<Json>)
    requires Ranged(t)
    ensures DecodeMany(t, 0, s) == Read([], s)
  {
  }

  class Decoder {
    var stack: seq<Json>

    constructor (json: Json)
      ensures stack == [json]
    {
      stack := [json];
    }

    /** `pop`; an empty stack is a panic, reported here as `StackEmpty`. */
    method Pop() returns (r: Got<Json>)
      modifies this
      ensures if old(stack) == [] then r == Refusal(StackEmpty) && stack == []
              else r == Value(old(stack)[|old(stack)| - 1]) && stack == old(stack)[..|old(stack)| - 1]
    {
      if stack == [] {
        return Refusal(StackEmpty);
      }
      r := Value(stack[|stack| - 1]);
      stack := stack[..|stack| - 1];
    }

    /** `extend` with the elements in reverse, so that the first is on top. */
    method PushReversed(js: seq<Json>)
      modifies this
      ensures stack == old(stack) + Reversed(js)
    {
      ghost var start := stack;
      assert js[|js|..] == [];
      for i := |js| downto 0
        invariant stack == start + Reversed(js[i..])
      {
        stack := stack + [js[i]];
        assert js[i..][1..] == js[i + 1..];
      }
      assert js[0..] == js;
    }

    /** The values and keys of an object, each key above its value. */
    method PushEntries(ms: seq<Member>)
      modifies this
      ensures stack == old(stack) + Flattened(ms)
    {
      ghost var start := stack;
      assert ms[0..] == ms;
      for i := 0 to |ms|
        invariant stack + Flattened(ms[i..]) == start + Flattened(ms)
      {
        ghost var s := stack;
        stack := stack + [ms[i].value, String(ms[i].key)];
        assert ms[i..][1..] == ms[i + 1..];
        assert s + ([ms[i].value, String(ms[i].key)] + Flattened(ms[i + 1..])) == stack + Flattened(ms[i + 1..]);
      }
      assert stack + [] == stack;
    }

    /** `read_primitive` */
    method ReadInteger(lo: int, hi: int) returns (r: Got<int>)
      requires lo <= hi
      modifies this
      ensures Follows(ReadInt(old(stack), lo, hi), r, stack)
    {
      var top := Pop();
      if top.Refusal? {
        return Refusal(top.error);
      }
      match top.value
      case I64(i) => return Value(Cast(i, lo, hi));
      case U64(u) => return Value(Cast(u, lo, hi));
      case F64(_) => return Refusal(Expected("Integer"));
      case String(t) =>
        var i := ParseInt(t, lo, hi);
        return if i.Some? then Value(i.value) else Refusal(Expected("Number"));
      case _ => return Refusal(Expected("Number"));
    }

    method ReadString() returns (r: Got<string>)
      modifies this
      ensures Follows(ReadStr(old(stack)), r, stack)
    {
      var top := Pop();
      if top.Refusal? {
        return Refusal(top.error);
      }
      return if top.value.String? then Value(top.value.s) else Refusal(Expected("String"));
    }

    /** `decode` for any type. */
    method DecodeValue(ty: Ty) returns (r: Got<Val>)
      requires Ranged(ty)
      modifies this
      ensures Follows(Decode(ty, old(stack)), r, stack)
      decreases ty, 3
    {
      hide ReadInt, ReadStr, DecodeFields, DecodeMany, DecodeParts, DecodeVariant, DecodeEntries, Reversed, Flattened;
      if ty.IntT? {
        var i := ReadInteger(ty.lo, ty.hi);
        return match i case Value(n) => Value(VInt(n)) case Refusal(e) => Refusal(e);
      } else if ty.StrT? {
        var s := ReadString();
        return match s case Value(t) => Value(VStr(t)) case Refusal(e) => Refusal(e);
      } else if ty.StructT? {
        var vs := ReadFields(ty, 0);
        if vs.Refusal? {
          return Refusal(vs.error);
        }
        var left := Pop();
        return if left.Refusal? then Refusal(left.error) else Value(VStruct(vs.value));
      }
      var top := Pop();
      if top.Refusal? {
        return Refusal(top.error);
      }
      assert stack + [top.value] == old(stack);
      r := DecodeTop(ty, top.value);
    }

    /** The types that look at the value they pop first. */
    method DecodeTop(ty: Ty, top: Json) returns (r: Got<Val>)
      requires Ranged(ty) && !ty.IntT? && !ty.StrT? && !ty.StructT?
      modifies this
      ensures Follows(Decode(ty, old(stack) + [top]), r, stack)
      decreases ty, 2
    {
      hide DecodeMany, DecodeParts, DecodeVariant, DecodeEntries, Reversed, Flattened;
      assert (old(stack) + [top])[..|old(stack)|] == old(stack);
      if ty.UnitT? {
        return if top.Null? then Value(VUnit) else Refusal(Expected("Null"));
      } else if ty.BoolT? {
        return if top.Boolean? then Value(VBool(top.b)) else Refusal(Expected("Boolean"));
      } else if ty.OptionT? {
        if top.Null? {
          return Value(VNone);
        }
        stack := stack + [top];
        var v := DecodeValue(ty.inner);
        return match v case Value(x) => Value(VSome(x)) case Refusal(e) => Refusal(e);
      } else if ty.SeqT? {
        if !top.Array? {
          return Refusal(Expected("Array"));
        }
        PushReversed(top.elems);
        var vs := ReadElements(ty.elem, |top.elems|);
        return match vs case Value(l) => Value(VSeq(l)) case Refusal(e) => Refusal(e);
      } else if ty.TupleT? {
        if !top.Array? {
          return Refusal(Expected("Array"));
        }
        PushReversed(top.elems);
        if |top.elems| != |ty.parts| {
          return Refusal(Expected("Tuple"));
        }
        var vs := ReadParts(ty, ty.parts, 0);
        return match vs case Value(l) => Value(VTuple(l)) case Refusal(e) => Refusal(e);
      } else if ty.EnumT? {
        r := ReadVariant(ty, top);
        return;
      }
      if !top.Object? {
        return Refusal(Expected("Object"));
      }
      PushEntries(top.members);
      var es := ReadEntries(ty, |top.members|);
      return match es case Value(l) => Value(VMap(l)) case Refusal(e) => Refusal(e);
    }

    /** The loop of `Vec::decode`. */
    method ReadElements(t: Ty, n: nat) returns (r: Got<seq<Val>>)
      requires Ranged(t)
      modifies this
      ensures Follows(DecodeMany(t, n, old(stack)), r, stack)
      decreases t, 4
    {
      hide Decode, DecodeMany;
      ghost var all := DecodeMany(t, n, stack);
      var vs: seq<Val> := [];
      NothingBefore(all);
      for i := 0 to n
        invariant Chain(vs, DecodeMany(t, n - i, stack)) == all
      {
        OneElement(t, n - i, stack);
        var v := DecodeValue(t);
        if v.Refusal? {
          return Refusal(v.error);
        }
        ChainOnce(vs, v.value, DecodeMany(t, n - i - 1, stack));
        vs := vs + [v.value];
      }
      NoElements(t, stack);
      assert vs + [] == vs;
      return Value(vs);
    }

    method ReadParts(whole: Ty, ts: seq<Ty>, i: nat) returns (r: Got<seq<Val>>)
      requires i <= |ts| && forall k :: 0 <= k < |ts| ==> Ranged(ts[k]) && ts[k] < whole
      modifies this
      ensures Follows(DecodeParts(whole, ts, i, old(stack)), r, stack)
      decreases whole, 0, |ts| - i
    {
      hide Decode;
      if i == |ts| {
        return Value([]);
      }
      var v := DecodeValue(ts[i]);
      if v.Refusal? {
        return Refusal(v.error);
      }
      var vs := ReadParts(whole, ts, i + 1);
      return match vs case Value(l) => Value([v.value] + l) case Refusal(e) => Refusal(e);
    }

    /** `read_struct_field`, field by field: the object goes back on the stack without the field. */
    method ReadFields(ty: Ty, i: nat) returns (r: Got<seq<Val>>)
      requires Ranged(ty) && ty.StructT? && i <= |ty.fields|
      modifies this
      ensures Follows(DecodeFields(ty, i, old(stack)), r, stack)
      decreases ty, 0, |ty.fields| - i
    {
      hide Decode, Find, Remove;
      if i == |ty.fields| {
        return Value([]);
      }
      var top := Pop();
      if top.Refusal? {
        return Refusal(top.error);
      }
      if !top.value.Object? {
        return Refusal(Expected("Object"));
      }
      var f := ty.fields[i];
      var found := Find(top.value.members, f.name);
      stack := stack + [if found.Some? then found.value else Null];
      var v := DecodeValue(f.ty);
      if v.Refusal? {
        return Refusal(if found.Some? then v.error else MissingField(f.name));
      }
      stack := stack + [Object(Remove(top.value.members, f.name))];
      var vs := ReadFields(ty, i + 1);
      return match vs case Value(l) => Value([v.value] + l) case Refusal(e) => Refusal(e);
    }

    /** `read_enum_variant` */
    method ReadVariant(ty: Ty, top: Json) returns (r: Got<Val>)
      requires Ranged(ty) && ty.EnumT?
      modifies this
      ensures Follows(DecodeVariant(ty, top, old(stack)), r, stack)
      decreases ty, 1
    {
      hide Find, Remove, Position, DecodeParts, Reversed;
      var name: string;
      if top.String? {
        name := top.s;
      } else if top.Object? {
        var variant := Find(top.members, "variant");
        if variant.None? {
          return Refusal(MissingField("variant"));
        }
        if !variant.value.String? {
          return Refusal(Expected("String"));
        }
        name := variant.value.s;
        var fields := Find(Remove(top.members, "variant"), "fields");
        if fields.None? {
          return Refusal(MissingField("fields"));
        }
        if !fields.value.Array? {
          return Refusal(Expected("Array"));
        }
        PushReversed(fields.value.elems);
      } else {
        return Refusal(Expected("String or Object"));
      }
      var i := Position(ty.variants, name);
      if i.None? {
        return Refusal(UnknownVariant(name));
      }
      assert RangedArgs(ty.variants[i.value]);
      var vs := ReadParts(ty, ty.variants[i.value].args, 0);
      return match vs case Value(l) => Value(VEnum(i.value, l)) case Refusal(e) => Refusal(e);
    }

    method ReadKey(kt: KeyTy) returns (r: Got<KeyVal>)
      requires kt.IntKey? ==> kt.lo <= kt.hi
      modifies this
      ensures Follows(DecodeKey(kt, old(stack)), r, stack)
    {
      hide ReadInt, ReadStr;
      match kt
      case StrKey =>
        var s := ReadString();
        return match s case Value(t) => Value(KStr(t)) case Refusal(e) => Refusal(e);
      case IntKey(lo, hi) =>
        var i := ReadInteger(lo, hi);
        return match i case Value(n) => Value(KInt(n)) case Refusal(e) => Refusal(e);
    }

    /** The loop of a map's `decode`. */
    method ReadEntries(ty: Ty, n: nat) returns (r: Got<seq<MapEntry>>)
      requires Ranged(ty) && ty.MapT?
      modifies this
      ensures Follows(DecodeEntries(ty, n, old(stack), []), r, stack)
      decreases ty, 1
    {
      hide Decode, DecodeKey, InsertEntry;
      ghost var all := DecodeEntries(ty, n, stack, []);
      var es: seq<MapEntry> := [];
      for i := 0 to n
        invariant DecodeEntries(ty, n - i, stack, es) == all
      {
        var k := ReadKey(ty.key);
        if k.Refusal? {
          return Refusal(k.error);
        }
        var v := DecodeValue(ty.elem);
        if v.Refusal? {
          return Refusal(v.error);
        }
        es := InsertEntry(es, MapEntry(k.value, v.value));
      }
      return Value(es);
    }
  }
}
