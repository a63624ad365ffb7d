/** The binary coders: an encoder whose buffer grows in place and a decoder whose position is moved
    by every read. */
module OpaqueMachine {
  import opened Common
  import opened Leb128
  import opened Leb128Machine
  import opened Powers
  import opened Opaque
  import Utf8

  class Encoder {
    var data: seq<Byte>

    constructor (data: seq<Byte>)
      ensures this.data == data
    {
      this.data := data;
    }

    method EmitUnsigned(bits: nat, v: nat)
      requires bits >= 1 && v < Pow2(bits)
      modifies this
      ensures data == old(data) + Unsigned(v)
    {
      var buf := new Byte[MaxLen(bits)](_ => 0);
      var n := WriteUnsigned(bits, buf, v);
      data := data + buf[..n];
    }

    method EmitSigned(bits: nat, v: int)
      requires bits >= 1 && InWord(bits, v)
      modifies this
      ensures data == old(data) + Signed(v)
    {
      var buf := new Byte[MaxLen(bits)](_ => 0);
      var n := WriteSigned(bits, buf, v);
      data := data + buf[..n];
    }

    method EmitUsize(v: nat)
      requires v < TWO_64
      modifies this
      ensures data == old(data) + Unsigned(v)
    {
      Pow2Values();
      EmitUnsigned(USIZE, v);
    }

    method EmitRawBytes(bs: seq<Byte>)
      modifies this
      ensures data == old(data) + bs
    {
      data := data + bs;
    }

    method EmitStr(s: string)
      requires |Utf8.Encode(s)| < TWO_64
      modifies this
      ensures data == old(data) + (Unsigned(|Utf8.Encode(s)|) + Utf8.Encode(s))
    {
      EmitUsize(|Utf8.Encode(s)|);
      EmitRawBytes(Utf8.Encode(s));
    }

    /** `encode` of a value of any type appends its binary form. */
    method EncodeValue(ty: Ty, v: Val)
      requires HasTy(ty, v)
      modifies this
      ensures data == old(data) + Encode(ty, v)
      decreases ty, 3
    {
      if Tagged(ty) {
        EncodeTagged(ty, v);
      } else if ty.TupleT? {
        EncodeAll(ty, ty.parts, v.vs, 0);
      } else {
        EncodePrimitive(ty, v);
      }
    }

    method EncodePrimitive(ty: Ty, v: Val)
      requires HasTy(ty, v) && !Tagged(ty) && !ty.TupleT?
      modifies this
      ensures data == old(data) + Encode(ty, v)
    {
      hide Unsigned, Signed, Pow2, Utf8.Encode;
      match ty
      case UnitT => assert data + [] == data;
      case BoolT => EmitRawBytes([if v.b then 1 else 0]);
      case U8T => EmitRawBytes([v.i]);
      case I8T => EmitRawBytes([v.i % 256]);
      case UIntT(bits) => EmitUnsigned(bits, v.i);
      case IntT(bits) => EmitSigned(bits, v.i);
      case CharT =>
        Pow2Values();
        EmitUnsigned(32, v.c as nat);
      case StrT => EmitStr(v.s);
      case _ =>
    }

    method EncodeTagged(ty: Ty, v: Val)
      requires HasTy(ty, v) && Tagged(ty)
      modifies this
      ensures data == old(data) + Encode(ty, v)
      decreases ty, 2
    {
      hide Unsigned, EncodeMany, EncodeParts;
      match ty
      case OptionT(t) =>
        if v.VNone? {
          EmitUsize(0);
        } else {
          EmitUsize(1);
          EncodeValue(t, v.v);
        }
      case ResultT(t, e) =>
        if v.VOk? {
          EmitUsize(0);
          EncodeValue(t, v.v);
        } else {
          EmitUsize(1);
          EncodeValue(e, v.v);
        }
      case VecT(t) => EncodeSlice(t, v.vs);
      case ArrayT(t, _) => EncodeSlice(t, v.vs);
      case EnumT(ks) =>
        EmitUsize(v.idx);
        EncodeAll(ty, ks[v.idx].args, v.args, 0);
    }

    /** The length and the loop of a slice's `encode`. */
    method EncodeSlice(t: Ty, vs: seq<Val>)
      requires |vs| < TWO_64 && forall i :: 0 <= i < |vs| ==> HasTy(t, vs[i])
      modifies this
      ensures data == old(data) + (Unsigned(|vs|) + EncodeMany(t, vs, 0))
      decreases t, 5
    {
      hide Unsigned, EncodeMany, HasTy;
      EmitUsize(|vs|);
      EncodeElements(t, vs);
    }

    method EncodeElements(t: Ty, vs: seq<Val>)
      requires forall i :: 0 <= i < |vs| ==> HasTy(t, vs[i])
      modifies this
      ensures data == old(data) + EncodeMany(t, vs, 0)
      decreases t, 4
    {
      hide Encode, HasTy;
      ghost var all := data + EncodeMany(t, vs, 0);
      for i := 0 to |vs|
        invariant data + EncodeMany(t, vs, i) == all
      {
        Regroup(data, Encode(t, vs[i]), EncodeMany(t, vs, i + 1));
        EncodeValue(t, vs[i]);
      }
      assert data + [] == data;
    }

    /** The fields of a struct or tuple, or the arguments of a variant, from the `i`-th on. */
    method EncodeAll(whole: Ty, ts: seq<Ty>, vs: seq<Val>, i: nat)
      requires |vs| == |ts| && i <= |ts| && forall k :: 0 <= k < |ts| ==> ts[k] < whole && HasTy(ts[k], vs[k])
      modifies this
      ensures data == old(data) + EncodeParts(whole, ts, vs, i)
      decreases whole, 0, |ts| - i
    {
      hide Encode, HasTy;
      if i == |ts| {
        assert data + [] == data;
      } else {
        EncodeValue(ts[i], vs[i]);
        EncodeAll(whole, ts, vs, i + 1);
      }
    }
  }

  // The decoder --------------------------------------------------------------------------------

  datatype Got<+T> = Value(value: T) | ErrorReported | Panic

  ghost predicate Follows<T>(o: Outcome<T>, r: Got<T>, from: nat, to: nat) {
    match o
    case Read(v, n) => r == Value(v) && to == from + n
    case Reported => r.ErrorReported?
    case Panicked => r.Panic?
  }

  class Decoder {
    const data: seq<Byte>
    var position: nat

    ghost predicate Valid()
      reads this
    {
      position <= |data|
    }

    constructor (data: seq<Byte>, position: nat)
      requires position <= |data|
      ensures Valid() && this.data == data && this.position == position
    {
      this.data, this.position := data, position;
    }

    method ReadUnsignedInt(bits: nat) returns (r: Got<int>)
      requires Valid()
      modifies this
      ensures Valid() && Follows(ReadU(bits, data[old(position)..]), r, old(position), position)
    {
      var t := ReadUnsignedLoop(bits, data[position..]);
      if t.None? {
        return Panic;
      }
      position := position + t.value.len;
      return Value(t.value.value);
    }

    method ReadSignedInt(bits: nat) returns (r: Got<int>)
      requires Valid() && bits > 0
      modifies this
      ensures Valid() && Follows(ReadI(bits, data[old(position)..]), r, old(position), position)
    {
      var t := ReadSignedLoop(bits, data[position..]);
      if t.None? {
        return Panic;
      }
      position := position + t.value.len;
      return Value(t.value.value);
    }

    method ReadString() returns (r: Got<string>)
      requires Valid()
      modifies this
      ensures Valid() && Follows(ReadStr(data[old(position)..]), r, old(position), position)
    {
      hide ReadU;
      var len := ReadUnsignedInt(USIZE);
      if !len.Value? || len.value < 0 || position + len.value > |data| {
        return Panic;
      }
      assert data[old(position)..][position - old(position)..position - old(position) + len.value] == data[position..position + len.value];
      match Utf8.Decode(data[position..position + len.value])
      case None => return Panic;
      case Some(t) =>
        position := position + len.value;
        return Value(t);
    }

    /** `decode` of any type follows the specification from the position reached. */
    method DecodeValue(ty: Ty) returns (r: Got<Val>)
      requires Valid() && Sized(ty)
      modifies this
      ensures Valid() && Follows(Decode(ty, data[old(position)..]), r, old(position), position)
      decreases ty, 5
    {
      hide ReadU, DecodeParts, DecodeTagged;
      if ty.TupleT? {
        var vs := DecodeAll(ty, ty.parts, 0);
        return match vs case Value(l) => Value(VTuple(l)) case ErrorReported => ErrorReported case Panic => Panic;
      }
      if !Tagged(ty) {
        r := DecodePrimitive(ty);
        return;
      }
      var tag := ReadUnsignedInt(USIZE);
      if !tag.Value? {
        return Panic;
      }
      SliceAgain(data, old(position), position);
      r := DecodeBody(ty, tag.value);
    }

    method DecodePrimitive(ty: Ty) returns (r: Got<Val>)
      requires Valid() && Sized(ty) && !ty.TupleT? && !Tagged(ty)
      modifies this
      ensures Valid() && Follows(Decode(ty, data[old(position)..]), r, old(position), position)
    {
      hide ReadU, ReadI, ReadStr;
      if ty.UnitT? {
        return Value(VUnit);
      } else if ty.UIntT? {
        var v := ReadUnsignedInt(ty.bits);
        return if v.Value? then Value(VInt(v.value)) else Panic;
      } else if ty.IntT? {
        var v := ReadSignedInt(ty.bits);
        return if v.Value? then Value(VInt(v.value)) else Panic;
      } else if ty.CharT? {
        var v := ReadUnsignedInt(32);
        return if v.Value? && Utf8.IsScalar(v.value) then Value(VChar(v.value as char)) else Panic;
      } else if ty.StrT? {
        var s := ReadString();
        return if s.Value? then Value(VStr(s.value)) else Panic;
      }
      if position == |data| {
        return Panic;
      }
      var b := data[position];
      position := position + 1;
      return Value(if ty.BoolT? then VBool(b != 0) else VInt(if ty.I8T? && b >= 128 then b as int - 256 else b));
    }

    /** After a length or a discriminant has been read. */
    method DecodeBody(ty: Ty, d: int) returns (r: Got<Val>)
      requires Valid() && Sized(ty) && Tagged(ty)
      modifies this
      ensures Valid() && Follows(DecodeTagged(ty, d, data[old(position)..]), r, old(position), position)
      decreases ty, 4
    {
      hide Decode, DecodeMany, DecodeParts;
      match ty
      case OptionT(t) =>
        if d == 0 {
          return Value(VNone);
        } else if d != 1 {
          return ErrorReported;
        }
        r := DecodeValue(t);
        return match r case Value(v) => Value(VSome(v)) case _ => r;
      case ResultT(t, e) =>
        if d != 0 && d != 1 {
          return Panic;
        }
        r := DecodeValue(if d == 0 then t else e);
        return match r case Value(v) => Value(if d == 0 then VOk(v) else VErr(v)) case _ => r;
      case VecT(t) =>
        if d < 0 {
          return Panic;
        }
        var vs := DecodeElements(t, d);
        return match vs case Value(l) => Value(VSeq(l)) case ErrorReported => ErrorReported case Panic => Panic;
      case ArrayT(t, n) =>
        if d != n {
          return Panic;
        }
        var vs := DecodeElements(t, n);
        return match vs case Value(l) => Value(VSeq(l)) case ErrorReported => ErrorReported case Panic => Panic;
      case EnumT(ks) =>
        if !(0 <= d < |ks|) {
          return Panic;
        }
        assert SizedArgs(ks[d]);
        var vs := DecodeAll(ty, ks[d].args, 0);
        return match vs case Value(l) => Value(VEnum(d, l)) case ErrorReported => ErrorReported case Panic => Panic;
    }

    /** The loop of `Vec::decode`: elements are pushed one by one. */
    method DecodeElements(t: Ty, n: nat) returns (r: Got<seq<Val>>)
      requires Valid() && Sized(t)
      modifies this
      ensures Valid() && Follows(DecodeMany(t, n, data[old(position)..]), r, old(position), position)
      decreases t, 6
    {
      hide Decode, DecodeMany, Chain, Sized;
      var vs: seq<Val> := [];
      ghost var start := position;
      ghost var all := DecodeMany(t, n, data[start..]);
      NothingBefore(all);
      for i := 0 to n
        invariant start <= position <= |data|
        invariant all == Chain(vs, position - start, DecodeMany(t, n - i, data[position..]))
      {
        ghost var here := position;
        OneElement(t, n - i, data[here..]);
        var x := DecodeValue(t);
        if !x.Value? {
          ChainFails(vs, here - start, DecodeMany(t, n - i, data[here..]));
          return if x.Panic? then Panic else ErrorReported;
        }
        SliceAgain(data, here, position);
        ChainOnce(vs, x.value, here - start, position - here, DecodeMany(t, n - i - 1, data[position..]));
        vs := vs + [x.value];
      }
      NoElements(t, data[position..]);
      NothingAfter(vs, position - start);
      return Value(vs);
    }

    method DecodeAll(whole: Ty, ts: seq<Ty>, i: nat) returns (r: Got<seq<Val>>)
      requires Valid() && i <= |ts| && forall k :: 0 <= k < |ts| ==> Sized(ts[k]) && ts[k] < whole
      modifies this
      ensures Valid() && Follows(DecodeParts(whole, ts, i, data[old(position)..]), r, old(position), position)
      decreases whole, 0, |ts| - i
    {
      hide Decode, Sized;
      if i == |ts| {
        return Value([]);
      }
      var x := DecodeValue(ts[i]);
      if !x.Value? {
        return if x.Panic? then Panic else ErrorReported;
      }
      SliceAgain(data, old(position), position);
      var rest := DecodeAll(whole, ts, i + 1);
      return match rest case Value(l) => Value([x.value] + l) case _ => rest;
    }
  }

  lemma SliceAgain(data: seq<Byte>, from: nat, to: nat)
    requires from <= to <= |data|
    ensures data[from..][to - from..] == data[to..]
  {
  }

  /** Values already read, and what reading on gives. */
  ghost function Chain(vs: seq<Val>, n: nat, o: Outcome<seq<Val>>): Outcome<seq<Val>> {
    if o.Read? then Read(vs + o.value, n + o.len) else o
  }

  lemma NothingAfter(vs: seq<Val>, n: nat)
    ensures Chain(vs, n, Read([], 0)) == Read(vs, n)
  {
    assert vs + [] == vs;
  }

  lemma ChainFails(vs: seq<Val>, n: nat, o: Outcome<seq<Val>>)
    ensures !o.Read? ==> Chain(vs, n, o) == o
  {
  }

  lemma OneElement(t: Ty, n: nat, s: seq<Byte>)
    requires Sized(t) && n > 0
    ensures DecodeMany(t, n, s) ==
            match Decode(t, s)
            case Reported => Reported
            case Panicked => Panicked
            case Read(v, k) => Chain([v], k, DecodeMany(t, n - 1, s[k..]))
  {
  }

  lemma NoElements(t: Ty, s: seq<Byte>)
    requires Sized(t)
    ensures DecodeMany(t, 0, s) == Read([], 0)
  {
  }

  lemma NothingBefore(o: Outcome<seq<Val>>)
    ensures Chain([], 0, o) == o
  {
    if o.Read? {
      assert [] + o.value == o.value;
    }
  }

  lemma ChainOnce(vs: seq<Val>, v: Val, n: nat, k: nat, o: Outcome<seq<Val>>)
    ensures Chain(vs, n, Chain([v], k, o)) == Chain(vs + [v], n + k, o)
  {
    if o.Read? {
      assert vs + ([v] + o.value) == (vs + [v]) + o.value;
    }
  }
}
