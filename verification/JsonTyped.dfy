/** Typed values: what the encoder writes for them and how the decoder, a stack machine over JSON
    values, reads them back. A type is described by the calls its `Encodable` and `Decodable`
    implementations make. */
module JsonTyped {
  import opened Common
  import opened Decimals
  import opened JsonValue
  import opened JsonGrammar
  import opened JsonPrinter

  datatype Ty =
    | UnitT
    | BoolT
    | IntT(lo: int, hi: int)
    | StrT
    | OptionT(inner: Ty)
    | SeqT(elem: Ty)
    | TupleT(parts: seq<Ty>)
    | StructT(fields: seq<Field>)
    | EnumT(variants: seq<Variant>)
    | MapT(key: KeyTy, elem: Ty)

  datatype Field = Field(name: string, ty: Ty)

  datatype Variant = Variant(name: string, args: seq<Ty>)

  datatype KeyTy = StrKey | IntKey(lo: int, hi: int)

  datatype Val =
    | VUnit
    | VBool(b: bool)
    | VInt(i: int)
    | VStr(s: string)
    | VNone
    | VSome(v: Val)
    | VSeq(vs: seq<Val>)
    | VTuple(vs: seq<Val>)
    | VStruct(vs: seq<Val>)
    | VEnum(idx: nat, args: seq<Val>)
    | VMap(entries: seq<MapEntry>)

  datatype MapEntry = MapEntry(key: KeyVal, value: Val)

  datatype KeyVal = KStr(s: string) | KInt(i: int)

  // Types ------------------------------------------------------------------------------------

  /** The names of fields and of variants are distinct. */
  ghost predicate WfTy(ty: Ty) {
    match ty
    case OptionT(t) => WfTy(t)
    case SeqT(t) => WfTy(t)
    case TupleT(ts) => forall i :: 0 <= i < |ts| ==> WfTy(ts[i])
    case StructT(fs) =>
      && (forall i :: 0 <= i < |fs| ==> WfTy(fs[i].ty))
      && (forall i, j :: 0 <= i < j < |fs| ==> fs[i].name != fs[j].name)
    case EnumT(vs) =>
      && (forall i :: 0 <= i < |vs| ==> WfArgs(vs[i]))
      && (forall i, j :: 0 <= i < j < |vs| ==> vs[i].name != vs[j].name)
    case MapT(_, t) => WfTy(t)
    case _ => true
  }

  ghost predicate WfArgs(v: Variant) {
    forall i :: 0 <= i < |v.args| ==> WfTy(v.args[i])
  }

  /** The text of a key, as the encoder quotes it and the parser reads it. */
  function KeyText(k: KeyVal): string {
    match k
    case KStr(s) => s
    case KInt(i) => IntText(i)
  }

  ghost predicate HasKeyTy(kt: KeyTy, k: KeyVal) {
    match kt
    case StrKey => k.KStr?
    case IntKey(lo, hi) => k.KInt? && lo <= k.i <= hi
  }

  /** The order of the keys of a map: numbers by value, not by their text. */
  predicate KeyBefore(a: KeyVal, b: KeyVal) {
    if a.KInt? && b.KInt? then a.i < b.i
    else if a.KStr? && b.KStr? then Less(a.s, b.s)
    else a.KStr?
  }

  /** A map is given by its entries in the order of their keys. */
  ghost predicate SortedEntries(es: seq<MapEntry>) {
    forall i, j :: 0 <= i < j < |es| ==> KeyBefore(es[i].key, es[j].key)
  }

  ghost predicate HasTy(ty: Ty, v: Val)
    decreases ty
  {
    match ty
    case UnitT => v.VUnit?
    case BoolT => v.VBool?
    case IntT(lo, hi) => v.VInt? && lo <= v.i <= hi && -TWO_63 <= v.i < TWO_64
    case StrT => v.VStr?
    case OptionT(t) => v.VNone? || (v.VSome? && HasTy(t, v.v))
    case SeqT(t) => v.VSeq? && forall i :: 0 <= i < |v.vs| ==> HasTy(t, v.vs[i])
    case TupleT(ts) => v.VTuple? && |v.vs| == |ts| && forall i :: 0 <= i < |ts| ==> HasTy(ts[i], v.vs[i])
    case StructT(fs) => v.VStruct? && |v.vs| == |fs| && forall i :: 0 <= i < |fs| ==> HasTy(fs[i].ty, v.vs[i])
    case EnumT(vs) =>
      v.VEnum? && v.idx < |vs| && |v.args| == |vs[v.idx].args|
      && forall i :: 0 <= i < |v.args| ==> HasTy(vs[v.idx].args[i], v.args[i])
    case MapT(kt, t) =>
      v.VMap? && SortedEntries(v.entries)
      && forall i :: 0 <= i < |v.entries| ==> HasKeyTy(kt, v.entries[i].key) && HasTy(t, v.entries[i].value)
  }

  // The JSON of a value ----------------------------------------------------------------------

  ghost function IntJson(i: int): Json {
    if i < 0 then I64(i) else U64(i)
  }

  ghost function ToJson(ty: Ty, v: Val): Json
    requires HasTy(ty, v)
    decreases ty, 1
  {
    match ty
    case UnitT => Null
    case BoolT => Boolean(v.b)
    case IntT(_, _) => IntJson(v.i)
    case StrT => String(v.s)
    case OptionT(t) => if v.VNone? then Null else ToJson(t, v.v)
    case SeqT(t) => Array(seq(|v.vs|, i requires 0 <= i < |v.vs| => ToJson(t, v.vs[i])))
    case TupleT(ts) => Array(seq(|ts|, i requires 0 <= i < |ts| => ToJson(ts[i], v.vs[i])))
    case StructT(fs) => Object(StructMembers(ty, v, |fs|))
    case EnumT(vs) =>
      var k := vs[v.idx];
      if k.args == [] then String(k.name)
      else Object([Member("fields", Array(seq(|k.args|, i requires 0 <= i < |k.args| => ToJson(k.args[i], v.args[i])))),
                   Member("variant", String(k.name))])
    case MapT(_, t) => Object(MapMembers(ty, v, |v.entries|))
  }

  /** The first `n` entries as members, which are in the order of the key texts. */
  ghost function MapMembers(ty: Ty, v: Val, n: nat): seq<Member>
    requires HasTy(ty, v) && ty.MapT? && n <= |v.entries|
    decreases ty, 0, n
  {
    if n == 0 then []
    else Insert(MapMembers(ty, v, n - 1), KeyText(v.entries[n - 1].key), ToJson(ty.elem, v.entries[n - 1].value))
  }

  /** The first `n` fields as a map, in the order in which they are written. */
  ghost function StructMembers(ty: Ty, v: Val, n: nat): seq<Member>
    requires HasTy(ty, v) && ty.StructT? && n <= |ty.fields|
    decreases ty, 0, n
  {
    if n == 0 then []
    else Insert(StructMembers(ty, v, n - 1), ty.fields[n - 1].name, ToJson(ty.fields[n - 1].ty, v.vs[n - 1]))
  }

  // Options ----------------------------------------------------------------------------------

  /** No `Some` in the value is written as `null`. */
  ghost predicate Kept(ty: Ty, v: Val)
    requires HasTy(ty, v)
    decreases ty
  {
    match ty
    case OptionT(t) => v.VSome? ==> !ToJson(t, v.v).Null? && Kept(t, v.v)
    case SeqT(t) => forall i :: 0 <= i < |v.vs| ==> Kept(t, v.vs[i])
    case TupleT(ts) => forall i :: 0 <= i < |ts| ==> Kept(ts[i], v.vs[i])
    case StructT(fs) => forall i :: 0 <= i < |fs| ==> Kept(fs[i].ty, v.vs[i])
    case EnumT(vs) => forall i :: 0 <= i < |v.args| ==> Kept(vs[v.idx].args[i], v.args[i])
    case MapT(_, t) => forall i :: 0 <= i < |v.entries| ==> Kept(t, v.entries[i].value)
    case _ => true
  }

  /** The value with every such `Some` replaced by `None`. */
  ghost function Flat(ty: Ty, v: Val): Val
    requires HasTy(ty, v)
    decreases ty
  {
    match ty
    case OptionT(t) => if v.VNone? || ToJson(t, v.v).Null? then VNone else VSome(Flat(t, v.v))
    case SeqT(t) => VSeq(seq(|v.vs|, i requires 0 <= i < |v.vs| => Flat(t, v.vs[i])))
    case TupleT(ts) => VTuple(seq(|ts|, i requires 0 <= i < |ts| => Flat(ts[i], v.vs[i])))
    case StructT(fs) => VStruct(seq(|fs|, i requires 0 <= i < |fs| => Flat(fs[i].ty, v.vs[i])))
    case EnumT(vs) => VEnum(v.idx, seq(|v.args|, i requires 0 <= i < |v.args| => Flat(vs[v.idx].args[i], v.args[i])))
    case MapT(_, t) =>
      VMap(seq(|v.entries|, i requires 0 <= i < |v.entries| => MapEntry(v.entries[i].key, Flat(t, v.entries[i].value))))
    case _ => v
  }

  // The decoder ------------------------------------------------------------------------------

  datatype DecodeError =
    | Expected(what: string)
    | MissingField(name: string)
    | UnknownVariant(name: string)
    | StackEmpty

  /** A value read and the stack left, its top last. */
  datatype Decoded<+T> = Read(value: T, stack: seq<Json>) | Refused(error: DecodeError)

  function Reversed<T>(s: seq<T>): seq<T> {
    if s == [] then [] else Reversed(s[1..]) + [s[0]]
  }

  /** `f as T` for an integer type of this range: two's complement wrap-around. */
  function Cast(i: int, lo: int, hi: int): int
    requires lo <= hi
  {
    (i - lo) % (hi - lo + 1) + lo
  }

  /** `str::parse` for an integer type of this range. */
  function ParseInt(s: string, lo: int, hi: int): Option<int> {
    var neg := lo < 0 && s != "" && s[0] == '-';
    var body := if neg || (s != "" && s[0] == '+') then s[1..] else s;
    if body == "" || !AllDigits(body) then None
    else
      var n := DecimalValue(body) as int;
      var r := if neg then -n else n;
      if lo <= r <= hi then Some(r) else None
  }

  /** `read_primitive`. A string is what an integer map key has become. */
  function ReadInt(s: seq<Json>, lo: int, hi: int): Decoded<int>
    requires lo <= hi
  {
    if s == [] then Refused(StackEmpty)
    else
      var rest := s[..|s| - 1];
      match s[|s| - 1]
      case I64(i) => Read(Cast(i, lo, hi), rest)
      case U64(u) => Read(Cast(u, lo, hi), rest)
      case F64(_) => Refused(Expected("Integer"))
      case String(t) =>
        match ParseInt(t, lo, hi) {
          case Some(i) => Read(i, rest)
          case None => Refused(Expected("Number"))
        }
      case _ => Refused(Expected("Number"))
  }

  function ReadStr(s: seq<Json>): Decoded<string> {
    if s == [] then Refused(StackEmpty)
    else if s[|s| - 1].String? then Read(s[|s| - 1].s, s[..|s| - 1])
    else Refused(Expected("String"))
  }

  function Find(ms: seq<Member>, name: string): Option<Json> {
    if ms == [] then None
    else if ms[0].key == name then Some(ms[0].value)
    else Find(ms[1..], name)
  }

  function Remove(ms: seq<Member>, name: string): seq<Member> {
    if ms == [] then []
    else if ms[0].key == name then ms[1..]
    else [ms[0]] + Remove(ms[1..], name)
  }

  function Position(vs: seq<Variant>, name: string): (r: Option<nat>)
    ensures r.Some? ==> r.value < |vs| && vs[r.value].name == name
  {
    if vs == [] then None
    else if vs[0].name == name then Some(0)
    else match Position(vs[1..], name)
      case Some(i) => Some(i + 1)
      case None => None
  }

  /** What `read_map` pushes for the entries: each value, then its key. */
  function Flattened(ms: seq<Member>): seq<Json> {
    if ms == [] then [] else [ms[0].value, String(ms[0].key)] + Flattened(ms[1..])
  }

  /** Insertion into a map, kept in the order of the keys. */
  function InsertEntry(es: seq<MapEntry>, e: MapEntry): seq<MapEntry> {
    if es == [] then [e]
    else if es[0].key == e.key then [e] + es[1..]
    else if KeyBefore(e.key, es[0].key) then [e] + es
    else [es[0]] + InsertEntry(es[1..], e)
  }

  predicate Ranged(ty: Ty) {
    match ty
    case IntT(lo, hi) => lo <= hi
    case OptionT(t) => Ranged(t)
    case SeqT(t) => Ranged(t)
    case TupleT(ts) => forall i :: 0 <= i < |ts| ==> Ranged(ts[i])
    case StructT(fs) => forall i :: 0 <= i < |fs| ==> Ranged(fs[i].ty)
    case EnumT(vs) => forall i :: 0 <= i < |vs| ==> RangedArgs(vs[i])
    case MapT(kt, t) => Ranged(t) && (kt.IntKey? ==> kt.lo <= kt.hi)
    case _ => true
  }

  predicate RangedArgs(v: Variant) {
    forall i :: 0 <= i < |v.args| ==> Ranged(v.args[i])
  }

  function Decode(ty: Ty, s: seq<Json>): Decoded<Val>
    requires Ranged(ty)
    decreases ty, 3
  {
    if ty.IntT? then
      match ReadInt(s, ty.lo, ty.hi)
      case Read(i, rest) => Read(VInt(i), rest)
      case Refused(e) => Refused(e)
    else if ty.StrT? then
      match ReadStr(s)
      case Read(t, rest) => Read(VStr(t), rest)
      case Refused(e) => Refused(e)
    else if ty.StructT? then
      match DecodeFields(ty, 0, s)
      case Refused(e) => Refused(e)
      case Read(vs, rest) => if rest == [] then Refused(StackEmpty) else Read(VStruct(vs), rest[..|rest| - 1])
    else if s == [] then Refused(StackEmpty)
    else
      var top, rest := s[|s| - 1], s[..|s| - 1];
      match ty
      case UnitT => if top.Null? then Read(VUnit, rest) else Refused(Expected("Null"))
      case BoolT => if top.Boolean? then Read(VBool(top.b), rest) else Refused(Expected("Boolean"))
      case OptionT(t) => if top.Null? then Read(VNone, rest) else AsSome(Decode(t, s))
      case SeqT(t) =>
        if !top.Array? then Refused(Expected("Array"))
        else AsSeq(DecodeMany(t, |top.elems|, rest + Reversed(top.elems)))
      case TupleT(ts) =>
        if !top.Array? then Refused(Expected("Array"))
        else if |top.elems| != |ts| then Refused(Expected("Tuple"))
        else AsTuple(DecodeParts(ty, ts, 0, rest + Reversed(top.elems)))
      case EnumT(vs) => DecodeVariant(ty, top, rest)
      case MapT(kt, t) =>
        if !top.Object? then Refused(Expected("Object"))
        else AsMap(DecodeEntries(ty, |top.members|, rest + Flattened(top.members), []))
  }

  function AsSome(d: Decoded<Val>): Decoded<Val> {
    match d
    case Read(v, r) => Read(VSome(v), r)
    case Refused(e) => Refused(e)
  }

  function AsSeq(d: Decoded<seq<Val>>): Decoded<Val> {
    match d
    case Read(vs, r) => Read(VSeq(vs), r)
    case Refused(e) => Refused(e)
  }

  function AsTuple(d: Decoded<seq<Val>>): Decoded<Val> {
    match d
    case Read(vs, r) => Read(VTuple(vs), r)
    case Refused(e) => Refused(e)
  }

  function AsMap(d: Decoded<seq<MapEntry>>): Decoded<Val> {
    match d
    case Read(es, r) => Read(VMap(es), r)
    case Refused(e) => Refused(e)
  }

  /** The loop of `Vec::decode`. */
  function DecodeMany(t: Ty, n: nat, s: seq<Json>): Decoded<seq<Val>>
    requires Ranged(t)
    decreases t, 4, n
  {
    if n == 0 then Read([], s)
    else match Decode(t, s)
      case Refused(e) => Refused(e)
      case Read(v, r) =>
        match DecodeMany(t, n - 1, r)
        case Refused(e) => Refused(e)
        case Read(vs, r') => Read([v] + vs, r')
  }

  /** The parts of a tuple, or the arguments of a variant, from the `i`-th on. */
  function DecodeParts(whole: Ty, ts: seq<Ty>, i: nat, s: seq<Json>): Decoded<seq<Val>>
    requires i <= |ts| && forall k :: 0 <= k < |ts| ==> Ranged(ts[k]) && ts[k] < whole
    decreases whole, 0, |ts| - i
  {
    if i == |ts| then Read([], s)
    else match Decode(ts[i], s)
      case Refused(e) => Refused(e)
      case Read(v, r) =>
        match DecodeParts(whole, ts, i + 1, r)
        case Refused(e) => Refused(e)
        case Read(vs, r') => Read([v] + vs, r')
  }

  /** `read_struct_field` from the `i`-th field on: the object stays on the stack, less the field. */
  function DecodeFields(ty: Ty, i: nat, s: seq<Json>): Decoded<seq<Val>>
    requires Ranged(ty) && ty.StructT? && i <= |ty.fields|
    decreases ty, 0, |ty.fields| - i
  {
    if i == |ty.fields| then Read([], s)
    else if s == [] then Refused(StackEmpty)
    else
      var top, rest, f := s[|s| - 1], s[..|s| - 1], ty.fields[i];
      if !top.Object? then Refused(Expected("Object"))
      else
        var found := Find(top.members, f.name);
        match Decode(f.ty, rest + [if found.Some? then found.value else Null])
        case Refused(e) => Refused(if found.Some? then e else MissingField(f.name))
        case Read(v, r) =>
          match DecodeFields(ty, i + 1, r + [Object(Remove(top.members, f.name))])
          case Refused(e) => Refused(e)
          case Read(vs, r') => Read([v] + vs, r')
  }

  /** `read_enum_variant` */
  function DecodeVariant(ty: Ty, top: Json, rest: seq<Json>): Decoded<Val>
    requires Ranged(ty) && ty.EnumT?
    decreases ty, 2
  {
    var named: Decoded<string> :=
      match top
      case String(name) => Read(name, rest)
      case Object(ms) =>
        (match Find(ms, "variant")
         case Some(String(name)) =>
           (match Find(Remove(ms, "variant"), "fields")
            case Some(Array(l)) => Read(name, rest + Reversed(l))
            case Some(_) => Refused(Expected("Array"))
            case None => Refused(MissingField("fields")))
         case Some(_) => Refused(Expected("String"))
         case None => Refused(MissingField("variant")))
      case _ => Refused(Expected("String or Object"));
    match named
    case Refused(e) => Refused(e)
    case Read(name, s) =>
      match Position(ty.variants, name)
      case None => Refused(UnknownVariant(name))
      case Some(i) => DecodeArgs(ty, i, s)
  }

  function DecodeArgs(ty: Ty, i: nat, s: seq<Json>): Decoded<Val>
    requires Ranged(ty) && ty.EnumT? && i < |ty.variants|
    decreases ty, 1
  {
    assert RangedArgs(ty.variants[i]);
    match DecodeParts(ty, ty.variants[i].args, 0, s)
    case Refused(e) => Refused(e)
    case Read(vs, r) => Read(VEnum(i, vs), r)
  }

  function DecodeKey(kt: KeyTy, s: seq<Json>): Decoded<KeyVal>
    requires kt.IntKey? ==> kt.lo <= kt.hi
  {
    match kt
    case StrKey =>
      (match ReadStr(s)
       case Read(t, r) => Read(KStr(t), r)
       case Refused(e) => Refused(e))
    case IntKey(lo, hi) =>
      match ReadInt(s, lo, hi)
      case Read(i, r) => Read(KInt(i), r)
      case Refused(e) => Refused(e)
  }

  /** The loop of a map's `decode`. */
  function DecodeEntries(ty: Ty, n: nat, s: seq<Json>, es: seq<MapEntry>): Decoded<seq<MapEntry>>
    requires Ranged(ty) && ty.MapT?
    decreases ty, 0, n
  {
    if n == 0 then Read(es, s)
    else match DecodeKey(ty.key, s)
      case Refused(e) => Refused(e)
      case Read(k, r) =>
        match Decode(ty.elem, r)
        case Refused(e) => Refused(e)
        case Read(v, r') => DecodeEntries(ty, n - 1, r', InsertEntry(es, MapEntry(k, v)))
  }
}
