/** The binary form: typed values as the compound methods of the coders and the implementations for
    vectors, options, results, tuples and arrays put them together, without any delimiter. */
module Opaque {
  import opened Common
  import opened Leb128
  import opened Powers
  import Utf8

  const USIZE: nat := 64

  /** A type, by the calls its implementations make. A struct is written as the tuple of its fields. */
  datatype Ty =
    | UnitT
    | BoolT
    | U8T
    | I8T
    | UIntT(bits: nat)
    | IntT(bits: nat)
    | CharT
    | StrT
    | OptionT(inner: Ty)
    | ResultT(ok: Ty, err: Ty)
    | VecT(elem: Ty)
    | ArrayT(elem: Ty, n: nat)
    | TupleT(parts: seq<Ty>)
    | EnumT(variants: seq<Variant>)

  datatype Variant = Variant(args: seq<Ty>)

  datatype Val =
    | VUnit
    | VBool(b: bool)
    | VInt(i: int)
    | VChar(c: char)
    | VStr(s: string)
    | VNone
    | VSome(v: Val)
    | VOk(v: Val)
    | VErr(v: Val)
    | VSeq(vs: seq<Val>)
    | VTuple(vs: seq<Val>)
    | VEnum(idx: nat, args: seq<Val>)

  ghost predicate HasTy(ty: Ty, v: Val)
    decreases ty
  {
    match ty
    case UnitT => v.VUnit?
    case BoolT => v.VBool?
    case U8T => v.VInt? && 0 <= v.i < 256
    case I8T => v.VInt? && -128 <= v.i < 128
    case UIntT(bits) => v.VInt? && bits >= 1 && 0 <= v.i < Pow2(bits)
    case IntT(bits) => v.VInt? && bits >= 1 && InWord(bits, v.i)
    case CharT => v.VChar?
    case StrT => v.VStr? && |Utf8.Encode(v.s)| < TWO_64
    case OptionT(t) => v.VNone? || (v.VSome? && HasTy(t, v.v))
    case ResultT(t, e) => (v.VOk? && HasTy(t, v.v)) || (v.VErr? && HasTy(e, v.v))
    case VecT(t) => v.VSeq? && |v.vs| < TWO_64 && forall i :: 0 <= i < |v.vs| ==> HasTy(t, v.vs[i])
    case ArrayT(t, n) => v.VSeq? && |v.vs| == n < TWO_64 && forall i :: 0 <= i < |v.vs| ==> HasTy(t, v.vs[i])
    case TupleT(ts) => v.VTuple? && |v.vs| == |ts| && forall i :: 0 <= i < |ts| ==> HasTy(ts[i], v.vs[i])
    case EnumT(ks) =>
      v.VEnum? && v.idx < |ks| && v.idx < TWO_64 && |v.args| == |ks[v.idx].args|
      && forall i :: 0 <= i < |v.args| ==> HasTy(ks[v.idx].args[i], v.args[i])
  }

  // Encoding -----------------------------------------------------------------------------------

  ghost function Encode(ty: Ty, v: Val): seq<Byte>
    requires HasTy(ty, v)
    decreases ty, 1
  {
    match ty
    case UnitT => []
    case BoolT => [if v.b then 1 else 0]
    case U8T => [v.i]
    case I8T => [v.i % 256]
    case UIntT(_) => Unsigned(v.i)
    case IntT(_) => Signed(v.i)
    case CharT => Unsigned(v.c as nat)
    case StrT => Unsigned(|Utf8.Encode(v.s)|) + Utf8.Encode(v.s)
    case OptionT(t) => if v.VNone? then Unsigned(0) else Unsigned(1) + Encode(t, v.v)
    case ResultT(t, e) => if v.VOk? then Unsigned(0) + Encode(t, v.v) else Unsigned(1) + Encode(e, v.v)
    case VecT(t) => Unsigned(|v.vs|) + EncodeMany(t, v.vs, 0)
    case ArrayT(t, n) => Unsigned(|v.vs|) + EncodeMany(t, v.vs, 0)
    case TupleT(ts) => EncodeParts(ty, ts, v.vs, 0)
    case EnumT(ks) => Unsigned(v.idx) + EncodeParts(ty, ks[v.idx].args, v.args, 0)
  }

  /** The elements from the `i`-th on. */
  ghost function EncodeMany(t: Ty, vs: seq<Val>, i: nat): seq<Byte>
    requires i <= |vs| && forall k :: 0 <= k < |vs| ==> HasTy(t, vs[k])
    decreases t, 2, |vs| - i
  {
    if i == |vs| then [] else Encode(t, vs[i]) + EncodeMany(t, vs, i + 1)
  }

  ghost function EncodeParts(whole: Ty, ts: seq<Ty>, vs: seq<Val>, i: nat): seq<Byte>
    requires |vs| == |ts| && i <= |ts| && forall k :: 0 <= k < |ts| ==> ts[k] < whole && HasTy(ts[k], vs[k])
    decreases whole, 0, |ts| - i
  {
    if i == |ts| then [] else Encode(ts[i], vs[i]) + EncodeParts(whole, ts, vs, i + 1)
  }

  /** A boolean is the byte one or zero; an option and a result start with the byte zero for `None` and `Ok`, one
      for `Some` and `Err`. */
  lemma Discriminants(t: Ty, e: Ty, v: Val, w: Val, b: bool)
    requires HasTy(t, v) && HasTy(e, w)
    ensures HasTy(BoolT, VBool(b)) && Encode(BoolT, VBool(b)) == [if b then 1 else 0]
    ensures HasTy(OptionT(t), VNone) && Encode(OptionT(t), VNone) == [0]
    ensures HasTy(OptionT(t), VSome(v)) && Encode(OptionT(t), VSome(v)) == [1] + Encode(t, v)
    ensures HasTy(ResultT(t, e), VOk(v)) && Encode(ResultT(t, e), VOk(v)) == [0] + Encode(t, v)
    ensures HasTy(ResultT(t, e), VErr(w)) && Encode(ResultT(t, e), VErr(w)) == [1] + Encode(e, w)
  {
    assert Unsigned(0) == [0] && Unsigned(1) == [1];
  }

  // Decoding -----------------------------------------------------------------------------------

  /** A value read and the bytes it took; an error the decoder reports; or a panic. */
  datatype Outcome<+T> = Read(value: T, len: nat) | Reported | Panicked

  function Prepend<T>(n: nat, r: Outcome<T>): Outcome<T> {
    if r.Read? then Read(r.value, n + r.len) else r
  }

  function AsSome(r: Outcome<Val>): Outcome<Val> {
    if r.Read? then Read(VSome(r.value), r.len) else r
  }

  function AsOk(r: Outcome<Val>): Outcome<Val> {
    if r.Read? then Read(VOk(r.value), r.len) else r
  }

  function AsErr(r: Outcome<Val>): Outcome<Val> {
    if r.Read? then Read(VErr(r.value), r.len) else r
  }

  function AsSeq(r: Outcome<seq<Val>>): Outcome<Val> {
    match r
    case Read(vs, n) => Read(VSeq(vs), n)
    case Reported => Reported
    case Panicked => Panicked
  }

  function AsTuple(r: Outcome<seq<Val>>): Outcome<Val> {
    match r
    case Read(vs, n) => Read(VTuple(vs), n)
    case Reported => Reported
    case Panicked => Panicked
  }

  function AsEnum(idx: nat, r: Outcome<seq<Val>>): Outcome<Val> {
    match r
    case Read(vs, n) => Read(VEnum(idx, vs), n)
    case Reported => Reported
    case Panicked => Panicked
  }

  function ReadU(bits: nat, s: seq<Byte>): (r: Outcome<int>)
    ensures !r.Reported? && (r.Read? ==> r.len <= |s|)
  {
    match ReadUnsigned(bits, s, 0, 0)
    case None => Panicked
    case Some(Taken(v, n)) => Read(v, n)
  }

  function ReadI(bits: nat, s: seq<Byte>): (r: Outcome<int>)
    requires bits > 0
    ensures !r.Reported? && (r.Read? ==> r.len <= |s|)
  {
    match ReadSigned(bits, s, 0, 0)
    case None => Panicked
    case Some(Taken(v, n)) => Read(v, n)
  }

  /** `read_str`: a length, and that many bytes of UTF-8. */
  function ReadStr(s: seq<Byte>): (r: Outcome<string>)
    ensures !r.Reported? && (r.Read? ==> r.len <= |s|)
  {
    match ReadU(USIZE, s)
    case Reported => Reported
    case Panicked => Panicked
    case Read(len, n) =>
      if len < 0 || n + len > |s| then Panicked
      else
        match Utf8.Decode(s[n..n + len])
        case None => Panicked
        case Some(t) => Read(t, n + len)
  }

  /** Widths are positive. */
  predicate Sized(ty: Ty) {
    match ty
    case IntT(bits) => bits > 0
    case OptionT(t) => Sized(t)
    case ResultT(t, e) => Sized(t) && Sized(e)
    case VecT(t) => Sized(t)
    case ArrayT(t, _) => Sized(t)
    case TupleT(ts) => forall i :: 0 <= i < |ts| ==> Sized(ts[i])
    case EnumT(ks) => forall i :: 0 <= i < |ks| ==> SizedArgs(ks[i])
    case _ => true
  }

  predicate SizedArgs(k: Variant) {
    forall i :: 0 <= i < |k.args| ==> Sized(k.args[i])
  }

  /** What `Decodable::decode` does at the start of the slice. */
  function Decode(ty: Ty, s: seq<Byte>): (r: Outcome<Val>)
    requires Sized(ty)
    ensures r.Read? ==> r.len <= |s|
    decreases ty, 3
  {
    if ty.TupleT? then AsTuple(DecodeParts(ty, ty.parts, 0, s))
    else if Tagged(ty) then
      match ReadU(USIZE, s)
      case Reported => Reported
      case Panicked => Panicked
      case Read(d, n) => Prepend(n, DecodeTagged(ty, d, s[n..]))
    else
      match ty
      case UnitT => Read(VUnit, 0)
      case BoolT => if s == [] then Panicked else Read(VBool(s[0] != 0), 1)
      case U8T => if s == [] then Panicked else Read(VInt(s[0]), 1)
      case I8T => if s == [] then Panicked else Read(VInt(if s[0] < 128 then s[0] else s[0] as int - 256), 1)
      case UIntT(bits) => (match ReadU(bits, s) case Read(v, n) => Read(VInt(v), n) case _ => Panicked)
      case IntT(bits) => (match ReadI(bits, s) case Read(v, n) => Read(VInt(v), n) case _ => Panicked)
      case CharT =>
        (match ReadU(32, s)
         case Read(v, n) => if Utf8.IsScalar(v) then Read(VChar(v as char), n) else Panicked
         case _ => Panicked)
      case StrT => (match ReadStr(s) case Read(t, n) => Read(VStr(t), n) case _ => Panicked)
      case _ => Panicked
  }

  /** Types that start with a length or a discriminant. */
  predicate Tagged(ty: Ty) {
    ty.OptionT? || ty.ResultT? || ty.VecT? || ty.ArrayT? || ty.EnumT?
  }

  /** After the length or the discriminant. */
  function DecodeTagged(ty: Ty, d: int, s: seq<Byte>): (r: Outcome<Val>)
    requires Sized(ty)
    ensures r.Read? ==> r.len <= |s|
    decreases ty, 2
  {
    match ty
    case OptionT(t) => if d == 0 then Read(VNone, 0) else if d == 1 then AsSome(Decode(t, s)) else Reported
    case ResultT(t, e) => if d == 0 then AsOk(Decode(t, s)) else if d == 1 then AsErr(Decode(e, s)) else Panicked
    case VecT(t) => if d < 0 then Panicked else AsSeq(DecodeMany(t, d, s))
    case ArrayT(t, n) => if d != n then Panicked else AsSeq(DecodeMany(t, n, s))
    case EnumT(ks) =>
      if 0 <= d < |ks| then
        assert SizedArgs(ks[d]);
        AsEnum(d, DecodeParts(ty, ks[d].args, 0, s))
      else Panicked
    case _ => Panicked
  }

  function DecodeMany(t: Ty, n: nat, s: seq<Byte>): (r: Outcome<seq<Val>>)
    requires Sized(t)
    ensures r.Read? ==> r.len <= |s|
    decreases t, 4, n
  {
    if n == 0 then Read([], 0)
    else
      match Decode(t, s)
      case Reported => Reported
      case Panicked => Panicked
      case Read(v, k) =>
        match DecodeMany(t, n - 1, s[k..])
        case Reported => Reported
        case Panicked => Panicked
        case Read(vs, m) => Read([v] + vs, k + m)
  }

  function DecodeParts(whole: Ty, ts: seq<Ty>, i: nat, s: seq<Byte>): (r: Outcome<seq<Val>>)
    requires i <= |ts| && forall k :: 0 <= k < |ts| ==> Sized(ts[k]) && ts[k] < whole
    ensures r.Read? ==> r.len <= |s|
    decreases whole, 0, |ts| - i
  {
    if i == |ts| then Read([], 0)
    else
      match Decode(ts[i], s)
      case Reported => Reported
      case Panicked => Panicked
      case Read(v, k) =>
        match DecodeParts(whole, ts, i + 1, s[k..])
        case Reported => Reported
        case Panicked => Panicked
        case Read(vs, m) => Read([v] + vs, k + m)
  }

  // Self-delimiting ------------------------------------------------------------------------------

  lemma ReadUBack(bits: nat, v: nat, rest: seq<Byte>)
    requires bits >= 1 && v < Pow2(bits)
    ensures ReadU(bits, Unsigned(v) + rest) == Read(v, |Unsigned(v)|)
  {
    UnsignedRoundTrip(bits, v, rest);
  }

  lemma StrBack(t: string, rest: seq<Byte>)
    requires |Utf8.Encode(t)| < TWO_64
    ensures var e := Unsigned(|Utf8.Encode(t)|) + Utf8.Encode(t);
            ReadStr(e + rest) == Read(t, |e|)
  {
    hide Unsigned, Pow2, ReadU, Utf8.Encode, Utf8.Decode;
    var bs := Utf8.Encode(t);
    var u := Unsigned(|bs|);
    Regroup(u, bs, rest);
    Pow2Values();
    ReadUBack(USIZE, |bs|, bs + rest);
    MiddleOf(u, bs, rest);
    Utf8.DecodeEncode(t);
  }

  /** Decoding at the start of an encoding, whatever follows it, gives the value and stops at its end. */
  lemma {:induction false} SelfDelimiting(ty: Ty, v: Val, rest: seq<Byte>)
    requires Sized(ty) && HasTy(ty, v)
    ensures Decode(ty, Encode(ty, v) + rest) == Read(v, |Encode(ty, v)|)
    decreases ty, 3
  {
    hide Decode, Encode;
    if ty.TupleT? {
      TupleBack(ty, v, rest);
    } else if Tagged(ty) {
      TaggedBack(ty, v, rest);
    } else {
      PrimitiveBack(ty, v, rest);
    }
  }

  lemma {:induction false} TupleBack(ty: Ty, v: Val, rest: seq<Byte>)
    requires Sized(ty) && HasTy(ty, v) && ty.TupleT?
    ensures Decode(ty, Encode(ty, v) + rest) == Read(v, |Encode(ty, v)|)
    decreases ty, 2
  {
    hide DecodeParts, EncodeParts;
    PartsBack(ty, ty.parts, v.vs, 0, rest);
    assert v.vs[0..] == v.vs;
  }

  lemma PrimitiveBack(ty: Ty, v: Val, rest: seq<Byte>)
    requires Sized(ty) && HasTy(ty, v) && !ty.TupleT? && !Tagged(ty)
    ensures Decode(ty, Encode(ty, v) + rest) == Read(v, |Encode(ty, v)|)
  {
    hide Unsigned, Signed, ReadU, ReadUnsigned, ReadSigned, ReadStr, Pow2, Utf8.Encode;
    match ty
    case UIntT(bits) => ReadUBack(bits, v.i, rest);
    case IntT(bits) => SignedRoundTrip(bits, v.i, rest);
    case CharT =>
      Pow2Values();
      ReadUBack(32, v.c as nat, rest);
    case StrT => StrBack(v.s, rest);
    case _ =>
  }

  ghost function Tag(ty: Ty, v: Val): nat
    requires HasTy(ty, v) && Tagged(ty)
  {
    match ty
    case OptionT(_) => if v.VNone? then 0 else 1
    case ResultT(_, _) => if v.VOk? then 0 else 1
    case EnumT(_) => v.idx
    case VecT(_) => |v.vs|
    case ArrayT(_, _) => |v.vs|
  }

  ghost function Body(ty: Ty, v: Val): seq<Byte>
    requires HasTy(ty, v) && Tagged(ty)
  {
    match ty
    case OptionT(t) => if v.VNone? then [] else Encode(t, v.v)
    case ResultT(t, e) => if v.VOk? then Encode(t, v.v) else Encode(e, v.v)
    case EnumT(ks) => EncodeParts(ty, ks[v.idx].args, v.args, 0)
    case VecT(t) => EncodeMany(t, v.vs, 0)
    case ArrayT(t, _) => EncodeMany(t, v.vs, 0)
  }

  lemma {:induction false} TaggedBack(ty: Ty, v: Val, rest: seq<Byte>)
    requires Sized(ty) && HasTy(ty, v) && Tagged(ty)
    ensures Decode(ty, Encode(ty, v) + rest) == Read(v, |Encode(ty, v)|)
    decreases ty, 2
  {
    hide Unsigned, ReadU, DecodeTagged, Pow2, EncodeMany, EncodeParts;
    var d, b := Tag(ty, v), Body(ty, v);
    var u := Unsigned(d);
    assert Encode(ty, v) == u + b by {
      assert u + [] == u;
    }
    hide Encode;
    Regroup(u, b, rest);
    Pow2Values();
    ReadUBack(USIZE, d, b + rest);
    BodyBack(ty, v, rest);
  }

  lemma {:induction false} BodyBack(ty: Ty, v: Val, rest: seq<Byte>)
    requires Sized(ty) && HasTy(ty, v) && Tagged(ty)
    ensures Tag(ty, v) < TWO_64
    ensures DecodeTagged(ty, Tag(ty, v), Body(ty, v) + rest) == Read(v, |Body(ty, v)|)
    decreases ty, 1
  {
    hide Decode, Encode, DecodeMany, EncodeMany, DecodeParts, EncodeParts;
    match ty
    case OptionT(t) =>
      if v.VSome? {
        SelfDelimiting(t, v.v, rest);
      }
    case ResultT(t, e) => SelfDelimiting(if v.VOk? then t else e, v.v, rest);
    case VecT(t) =>
      ManyBack(t, v.vs, 0, rest);
      assert v.vs[0..] == v.vs;
    case ArrayT(t, _) =>
      ManyBack(t, v.vs, 0, rest);
      assert v.vs[0..] == v.vs;
    case EnumT(ks) =>
      assert SizedArgs(ks[v.idx]);
      PartsBack(ty, ks[v.idx].args, v.args, 0, rest);
      assert v.args[0..] == v.args;
  }

  lemma Regroup(e: seq<Byte>, m: seq<Byte>, rest: seq<Byte>)
    ensures e + m + rest == e + (m + rest) && (e + m + rest)[|e|..] == m + rest
  {
  }

  lemma Uncons(vs: seq<Val>, i: nat)
    requires i < |vs|
    ensures vs[i..] == [vs[i]] + vs[i + 1..]
  {
  }

  lemma MiddleOf(e: seq<Byte>, m: seq<Byte>, rest: seq<Byte>)
    ensures (e + m + rest)[|e|..|e| + |m|] == m
  {
  }

  lemma ManyStep(t: Ty, n: nat, s: seq<Byte>, tail: seq<Byte>, v: Val, k: nat, vs: seq<Val>, m: nat, all: seq<Val>)
    requires Sized(t) && n > 0 && k <= |s| && tail == s[k..] && all == [v] + vs
    requires Decode(t, s) == Read(v, k) && DecodeMany(t, n - 1, tail) == Read(vs, m)
    ensures DecodeMany(t, n, s) == Read(all, k + m)
  {
    hide Decode;
  }

  lemma ManyEnd(t: Ty, vs: seq<Val>, rest: seq<Byte>)
    requires Sized(t) && forall k :: 0 <= k < |vs| ==> HasTy(t, vs[k])
    ensures DecodeMany(t, 0, EncodeMany(t, vs, |vs|) + rest) == Read(vs[|vs|..], |EncodeMany(t, vs, |vs|)|)
  {
    hide Decode, Encode, HasTy, Sized;
    assert vs[|vs|..] == [];
  }

  lemma ManyFirst(t: Ty, vs: seq<Val>, i: nat)
    requires i < |vs| && forall k :: 0 <= k < |vs| ==> HasTy(t, vs[k])
    ensures EncodeMany(t, vs, i) == Encode(t, vs[i]) + EncodeMany(t, vs, i + 1)
  {
    hide Encode, HasTy;
  }

  lemma {:induction false} ManyBack(t: Ty, vs: seq<Val>, i: nat, rest: seq<Byte>)
    requires Sized(t) && i <= |vs| && forall k :: 0 <= k < |vs| ==> HasTy(t, vs[k])
    ensures DecodeMany(t, |vs| - i, EncodeMany(t, vs, i) + rest) == Read(vs[i..], |EncodeMany(t, vs, i)|)
    decreases t, 4, |vs| - i
  {
    hide Decode, Encode, DecodeMany, EncodeMany, HasTy, Sized;
    if i == |vs| {
      ManyEnd(t, vs, rest);
      return;
    }
    var e, m := Encode(t, vs[i]), EncodeMany(t, vs, i + 1);
    ManyFirst(t, vs, i);
    Regroup(e, m, rest);
    var s, tail := e + m + rest, m + rest;
    SelfDelimiting(t, vs[i], tail);
    ManyBack(t, vs, i + 1, rest);
    Uncons(vs, i);
    ManyStep(t, |vs| - i, s, tail, vs[i], |e|, vs[i + 1..], |m|, vs[i..]);
  }

  lemma PartsStep(whole: Ty, ts: seq<Ty>, i: nat, s: seq<Byte>, tail: seq<Byte>, v: Val, k: nat, vs: seq<Val>, m: nat, all: seq<Val>)
    requires i < |ts| && k <= |s| && tail == s[k..] && all == [v] + vs
    requires forall j :: 0 <= j < |ts| ==> Sized(ts[j]) && ts[j] < whole
    requires Decode(ts[i], s) == Read(v, k) && DecodeParts(whole, ts, i + 1, tail) == Read(vs, m)
    ensures DecodeParts(whole, ts, i, s) == Read(all, k + m)
  {
    hide Decode;
  }

  lemma {:induction false} PartsBack(whole: Ty, ts: seq<Ty>, vs: seq<Val>, i: nat, rest: seq<Byte>)
    requires |vs| == |ts| && i <= |ts|
    requires forall k :: 0 <= k < |ts| ==> Sized(ts[k]) && ts[k] < whole && HasTy(ts[k], vs[k])
    ensures DecodeParts(whole, ts, i, EncodeParts(whole, ts, vs, i) + rest) == Read(vs[i..], |EncodeParts(whole, ts, vs, i)|)
    decreases whole, 0, |ts| - i
  {
    if i == |ts| {
      assert vs[i..] == [];
      return;
    }
    hide Decode, Encode, DecodeParts, HasTy, Sized;
    var e, m := Encode(ts[i], vs[i]), EncodeParts(whole, ts, vs, i + 1);
    assert EncodeParts(whole, ts, vs, i) == e + m;
    hide EncodeParts;
    Regroup(e, m, rest);
    var s, tail := e + m + rest, m + rest;
    SelfDelimiting(ts[i], vs[i], tail);
    PartsBack(whole, ts, vs, i + 1, rest);
    Uncons(vs, i);
    PartsStep(whole, ts, i, s, tail, vs[i], |e|, vs[i + 1..], |m|, vs[i..]);
  }

  /** The same anywhere inside a longer buffer. */
  lemma InsideBuffer(before: seq<Byte>, ty: Ty, v: Val, rest: seq<Byte>)
    requires Sized(ty) && HasTy(ty, v)
    ensures var data := before + Encode(ty, v) + rest;
            Decode(ty, data[|before|..]) == Read(v, |Encode(ty, v)|)
  {
    var e := Encode(ty, v);
    assert (before + e + rest)[|before|..] == e + rest;
    SelfDelimiting(ty, v, rest);
  }
}
