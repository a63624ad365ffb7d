/** Symbols of Rust RFC 2603 as trees: how a tree is mangled, how it reads to a person, and when it is within
    the limits of the demangler. The mangling and the reading follow the grammar and name no function of the
    demangler; a back reference is a leaf that knows the position it leads to and the tree that stands there. */
module V0Symbols {
  import opened Common
  import opened V0Parser
  import opened V0Printer
  import opened V0Names
  import Utf8

  // Trees ------------------------------------------------------------------------------------

  type Number = n: nat | n < TWO_64

  type Letter = c: char | 'a' <= c <= 'z' || 'A' <= c <= 'Z' witness 'a'

  /** An identifier as it stands in a symbol: ASCII, the digits of Punycode apart. */
  type Label = n: Ident | IsLabel(n) witness Ident("", "")

  predicate IsLabel(n: Ident) {
    IsAscii(n.ascii) && IsAscii(n.punycode) && '_' !in n.punycode && |Bytes(n)| < TWO_64
  }

  datatype Path =
    | Crate(dis: Number, name: Label)
    | Nested(ns: Letter, parent: Path, dis: Number, name: Label)
    | InherentImpl(dis: Number, own: Path, ty: Type)
    | TraitImpl(dis: Number, own: Path, ty: Type, bound: Path)
    | TraitMember(ty: Type, bound: Path)
    | Generic(base: Path, args: Items)
    | PathBack(to: Number, path: Path)

  type Tag = c: char | IsTag(c) witness 'u'

  datatype Abi = Rust | C | Other(name: Label)

  datatype Type =
    | Basic(tag: Tag)
    | Adt(path: Path)
    | Array(elem: Type, len: Const)
    | Slice(elem: Type)
    | Tuple(elems: Items)
    | Ref(mutable: bool, lifetime: Option<Number>, elem: Type)
    | Pointer(mutable: bool, elem: Type)
    | Fn(binder: Number, isUnsafe: bool, abi: Abi, params: Items, ret: Type)
    | Dyn(binder: Number, bounds: Items, bound: Number)
    | TypeBack(to: Number, ty: Type)

  type IntTag = c: char | IsSigned(c) || IsUnsigned(c) witness 'a'

  datatype Const =
    | Inferred
    | Int(tag: IntTag, negative: bool, magnitude: nat)
    | Bool(b: bool)
    | Char(c: char)
    | Str(chars: string)
    | Borrow(mutable: bool, value: Const)
    | List(elems: Items)
    | Group(elems: Items)
    | UnitStruct(path: Path)
    | TupleStruct(path: Path, fields: Items)
    | Struct(path: Path, fields: Items)
    | ConstBack(to: Number, value: Const)

  /** The elements of a list that the letter E closes. */
  datatype Items = Nil | Cons(head: Item, tail: Items)

  datatype Item =
    | LifetimeArg(lifetime: Number)
    | ConstArg(value: Const)
    | TypeItem(ty: Type)
    | TraitItem(path: Path, bindings: Bindings)
    | ConstItem(value: Const)
    | FieldItem(dis: Number, name: Label, value: Const)

  /** The associated types of a trait object. */
  datatype Bindings = Unbound | Binding(name: Label, ty: Type, rest: Bindings)

  // Basic types ------------------------------------------------------------------------------

  predicate IsTag(c: char) {
    'a' <= c <= 'z' && c != 'g' && c != 'k' && c != 'q' && c != 'r' && c != 'w'
  }

  predicate IsSigned(c: char) {
    c == 'a' || c == 's' || c == 'l' || c == 'x' || c == 'n' || c == 'i'
  }

  predicate IsUnsigned(c: char) {
    c == 'h' || c == 't' || c == 'm' || c == 'y' || c == 'o' || c == 'j'
  }

  /** The table of the RFC. */
  function BasicName(c: Tag): string {
    if c == 'a' then "i8" else if c == 'b' then "bool" else if c == 'c' then "char" else if c == 'd' then "f64"
    else if c == 'e' then "str" else if c == 'f' then "f32" else if c == 'h' then "u8" else if c == 'i' then "isize"
    else if c == 'j' then "usize" else if c == 'l' then "i32" else if c == 'm' then "u32" else if c == 'n' then "i128"
    else if c == 'o' then "u128" else if c == 's' then "i16" else if c == 't' then "u16" else if c == 'u' then "()"
    else if c == 'v' then "..." else if c == 'x' then "i64" else if c == 'y' then "u64" else if c == 'z' then "!"
    else "_"
  }

  // Mangling: numbers ------------------------------------------------------------------------

  function Char62(d: nat): char
    requires d < 62
  {
    if d < 10 then "0123456789"[d]
    else if d < 36 then "abcdefghijklmnopqrstuvwxyz"[d - 10]
    else "ABCDEFGHIJKLMNOPQRSTUVWXYZ"[d - 36]
  }

  function Text62(n: nat): (t: string)
    ensures t != ""
  {
    if n < 62 then [Char62(n)] else Text62(n / 62) + [Char62(n % 62)]
  }

  /** The underscore alone is zero; any other number is one more than its digits. */
  function Base62(n: nat): (t: string)
    ensures t != ""
  {
    if n == 0 then "_" else Text62(n - 1) + "_"
  }

  /** A number that is left out when it is zero. */
  function Opt62(tag: Letter, n: nat): (t: string)
    ensures n > 0 ==> t != "" && t[0] == tag
  {
    if n == 0 then "" else [tag] + Base62(n - 1)
  }

  function Char16(d: nat): (c: char)
    requires d < 16
    ensures IsNibble(c)
  {
    "0123456789abcdef"[d]
  }

  function Text16(n: nat): (t: string)
    ensures t != "" && AllNibbles(t)
  {
    if n < 16 then [Char16(n)] else Text16(n / 16) + [Char16(n % 16)]
  }

  function Pairs16(bs: seq<Utf8.Byte>): (t: string)
    ensures AllNibbles(t) && |t| == 2 * |bs|
  {
    if bs == [] then "" else [Char16(bs[0] / 16), Char16(bs[0] % 16)] + Pairs16(bs[1..])
  }

  // Mangling: what a production starts with ---------------------------------------------------

  predicate BeginsPath(c: char) {
    c == 'C' || c == 'N' || c == 'M' || c == 'X' || c == 'Y' || c == 'I' || c == 'B'
  }

  predicate BeginsType(c: char) {
    || BeginsPath(c) || IsTag(c) || c == 'A' || c == 'S' || c == 'T' || c == 'R' || c == 'Q' || c == 'P'
    || c == 'O' || c == 'F' || c == 'D'
  }

  predicate BeginsConst(c: char) {
    || IsSigned(c) || IsUnsigned(c) || c == 'p' || c == 'b' || c == 'c' || c == 'e' || c == 'R' || c == 'Q' || c == 'A'
    || c == 'T' || c == 'V' || c == 'B'
  }

  predicate BeginsLabel(c: char) {
    '0' <= c <= '9' || c == 'u' || c == 's'
  }

  predicate BeginsItem(c: char) {
    BeginsType(c) || BeginsConst(c) || BeginsLabel(c) || c == 'L' || c == 'K'
  }

  // Mangling: trees --------------------------------------------------------------------------

  lemma NameStart(name: Label)
    ensures Mangled(name) != "" && BeginsLabel(Mangled(name)[0])
  {
    Decimals.DecimalDigits(|Bytes(name)|);
  }

  function MangleLabel(dis: Number, name: Label): (t: string)
    ensures t != "" && BeginsLabel(t[0])
  {
    NameStart(name);
    Opt62('s', dis) + Mangled(name)
  }

  function ManglePath(t: Path): (r: string)
    ensures r != "" && BeginsPath(r[0])
  {
    match t
    case Crate(dis, name) => "C" + MangleLabel(dis, name)
    case Nested(ns, parent, dis, name) => "N" + ([ns] + (ManglePath(parent) + MangleLabel(dis, name)))
    case InherentImpl(dis, own, ty) => "M" + (Opt62('s', dis) + (ManglePath(own) + MangleType(ty)))
    case TraitImpl(dis, own, ty, bound) =>
      "X" + (Opt62('s', dis) + (ManglePath(own) + (MangleType(ty) + ManglePath(bound))))
    case TraitMember(ty, bound) => "Y" + (MangleType(ty) + ManglePath(bound))
    case Generic(base, args) => "I" + (ManglePath(base) + MangleItems(args))
    case PathBack(to, _) => "B" + Base62(to)
  }

  function MangleType(t: Type): (r: string)
    ensures r != "" && BeginsType(r[0])
  {
    match t
    case Basic(tag) => [tag]
    case Adt(path) => ManglePath(path)
    case Array(elem, len) => "A" + (MangleType(elem) + MangleConst(len))
    case Slice(elem) => "S" + MangleType(elem)
    case Tuple(elems) => "T" + MangleItems(elems)
    case Ref(mutable, lifetime, elem) => (if mutable then "Q" else "R") + (MangleLifetime(lifetime) + MangleType(elem))
    case Pointer(mutable, elem) => (if mutable then "O" else "P") + MangleType(elem)
    case Fn(binder, isUnsafe, abi, params, ret) =>
      "F" + (Opt62('G', binder) + (MangleFn(isUnsafe, abi) + (MangleItems(params) + MangleType(ret))))
    case Dyn(binder, bounds, bound) => "D" + (Opt62('G', binder) + (MangleItems(bounds) + ("L" + Base62(bound))))
    case TypeBack(to, _) => "B" + Base62(to)
  }

  function MangleLifetime(lifetime: Option<Number>): (r: string)
  {
    match lifetime
    case None => ""
    case Some(index) => "L" + Base62(index)
  }

  function MangleAbi(abi: Abi): (r: string)
  {
    match abi
    case Rust => ""
    case C => "KC"
    case Other(name) => "K" + Mangled(name)
  }

  function MangleFn(isUnsafe: bool, abi: Abi): (r: string)
  {
    (if isUnsafe then "U" else "") + MangleAbi(abi)
  }

  function MangleConst(t: Const): (r: string)
    ensures r != "" && BeginsConst(r[0])
  {
    match t
    case Inferred => "p"
    case Int(tag, negative, value) => [tag] + ((if negative then "n" else "") + (Text16(value) + "_"))
    case Bool(b) => "b" + (if b then "1_" else "0_")
    case Char(c) => "c" + (Text16(c as nat) + "_")
    case Str(chars) => "e" + (Pairs16(Utf8.Encode(chars)) + "_")
    case Borrow(mutable, value) => (if mutable then "Q" else "R") + MangleConst(value)
    case List(elems) => "A" + MangleItems(elems)
    case Group(elems) => "T" + MangleItems(elems)
    case UnitStruct(path) => "V" + (ManglePath(path) + "U")
    case TupleStruct(path, fields) => "V" + (ManglePath(path) + ("T" + MangleItems(fields)))
    case Struct(path, fields) => "V" + (ManglePath(path) + ("S" + MangleItems(fields)))
    case ConstBack(to, _) => "B" + Base62(to)
  }

  function MangleItems(xs: Items): (r: string)
    ensures r != "" && (r[0] == 'E' || BeginsItem(r[0]))
  {
    match xs
    case Nil => "E"
    case Cons(x, rest) => MangleItem(x) + MangleItems(rest)
  }

  function MangleItem(x: Item): (r: string)
    ensures r != "" && BeginsItem(r[0])
  {
    match x
    case LifetimeArg(index) => "L" + Base62(index)
    case ConstArg(value) => "K" + MangleConst(value)
    case TypeItem(ty) => MangleType(ty)
    case TraitItem(path, bindings) => ManglePath(path) + MangleBindings(bindings)
    case ConstItem(value) => MangleConst(value)
    case FieldItem(dis, name, value) => MangleLabel(dis, name) + MangleConst(value)
  }

  function MangleBindings(b: Bindings): (r: string)
    ensures r != "" ==> r[0] == 'p'
  {
    match b
    case Unbound => ""
    case Binding(name, ty, rest) => "p" + (Mangled(name) + (MangleType(ty) + MangleBindings(rest)))
  }

  // Reading ----------------------------------------------------------------------------------

  /** The lifetime that is bound under `depth` others: letters, then numbers. */
  function Lifetime(depth: nat): seq<Piece> {
    if depth < 26 then [Text("'"), Text(["abcdefghijklmnopqrstuvwxyz"[depth]])]
    else [Text("'"), Text("_"), Piece.Decimal(depth)]
  }

  /** A lifetime by its de Bruijn index, which counts from the innermost of the `l` that are bound. */
  function RenderLifetime(index: nat, l: nat): seq<Piece> {
    if 0 < index <= l then Lifetime(l - index) else [Text("'"), Text("_")]
  }

  function RenderNew(l: nat, i: nat, n: nat): seq<Piece>
    requires i <= n
    decreases n - i
  {
    if i == n then [] else (if i == 0 then [] else [Text(", ")]) + (Lifetime(l + i) + RenderNew(l, i + 1, n))
  }

  function RenderBinder(l: nat, n: nat): seq<Piece> {
    if n == 0 then [] else [Text("for<")] + (RenderNew(l, 0, n) + [Text("> ")])
  }

  function Segment(ns: Letter, dis: nat, name: Label): seq<Piece> {
    if ns >= 'a' then
      if name == Ident("", "") then [] else [Text("::"), Name(name)]
    else
      [Text("::{"), Text(if ns == 'C' then "closure" else if ns == 'S' then "shim" else [ns])]
      + ((if name == Ident("", "") then [] else [Text(":"), Name(name)]) + [Text("#"), Piece.Decimal(dis), Text("}")])
  }

  function Qualified(ty: seq<Piece>, bound: seq<Piece>): seq<Piece> {
    [Text("<")] + (ty + ([Text(" as ")] + (bound + [Text(">")])))
  }

  /** In a value, generic arguments follow a turbofish. Lifetimes are named by the number `l` bound around them;
      the alternate form `a` leaves out the hashes of crates and the types of numbers. */
  function RenderPath(t: Path, inValue: bool, a: bool, l: nat): seq<Piece>
    decreases t, 0
  {
    match t
    case Crate(dis, name) => [Name(name)] + (if a then [] else [Text("["), Piece.Hex(dis), Text("]")])
    case Nested(ns, parent, dis, name) => RenderPath(parent, inValue, a, l) + Segment(ns, dis, name)
    case InherentImpl(_, _, ty) => [Text("<")] + (RenderType(ty, a, l) + [Text(">")])
    case TraitImpl(_, _, ty, bound) => Qualified(RenderType(ty, a, l), RenderPath(bound, false, a, l))
    case TraitMember(ty, bound) => Qualified(RenderType(ty, a, l), RenderPath(bound, false, a, l))
    case Generic(base, args) =>
      RenderPath(base, inValue, a, l)
      + ((if inValue then [Text("::"), Text("<")] else [Text("<")]) + (RenderItems(args, ", ", true, a, l) + [Text(">")]))
    case PathBack(_, path) => RenderPath(path, inValue, a, l)
  }

  function RenderType(t: Type, a: bool, l: nat): seq<Piece> {
    match t
    case Basic(tag) => [Text(BasicName(tag))]
    case Adt(path) => RenderPath(path, false, a, l)
    case Array(elem, len) =>
      [Text("[")] + (RenderType(elem, a, l) + ([Text("; ")] + (RenderConst(len, true, a, l) + [Text("]")])))
    case Slice(elem) => [Text("[")] + (RenderType(elem, a, l) + [Text("]")])
    case Tuple(elems) => [Text("(")] + (RenderItems(elems, ", ", true, a, l) + RenderEnd(elems))
    case Ref(mutable, lifetime, elem) => RenderRef(mutable, lifetime, l) + RenderType(elem, a, l)
    case Pointer(mutable, elem) => [Text("*"), Text(if mutable then "mut " else "const ")] + RenderType(elem, a, l)
    case Fn(binder, isUnsafe, abi, params, ret) =>
      RenderBinder(l, binder)
      + (RenderFn(isUnsafe, abi) + (RenderItems(params, ", ", true, a, l + binder)
         + if ret == Basic('u') then [Text(")")] else [Text(")"), Text(" -> ")] + RenderType(ret, a, l + binder)))
    case Dyn(binder, bounds, bound) =>
      [Text("dyn ")] + (RenderBinder(l, binder) + (RenderItems(bounds, " + ", true, a, l + binder)
                        + if bound == 0 then [] else [Text(" + ")] + RenderLifetime(bound, l)))
    case TypeBack(_, ty) => RenderType(ty, a, l)
  }

  /** The lifetime of a reference, unless it is erased. */
  function RenderOuter(lifetime: Option<Number>, l: nat): seq<Piece> {
    if lifetime.None? || lifetime.value == 0 then [] else RenderLifetime(lifetime.value, l) + [Text(" ")]
  }

  function RenderRef(mutable: bool, lifetime: Option<Number>, l: nat): seq<Piece> {
    [Text("&")] + (RenderOuter(lifetime, l) + if mutable then [Text("mut ")] else [])
  }

  function Hyphens(s: string): string {
    if s == "" then "" else [if s[0] == '_' then '-' else s[0]] + Hyphens(s[1..])
  }

  function RenderAbi(abi: Abi): seq<Piece> {
    match abi
    case Rust => []
    case C => [Text("extern \""), Text("C"), Text("\" ")]
    case Other(name) => [Text("extern \""), Text(Hyphens(name.ascii)), Text("\" ")]
  }

  function RenderFn(isUnsafe: bool, abi: Abi): seq<Piece> {
    (if isUnsafe then [Text("unsafe ")] else []) + (RenderAbi(abi) + [Text("fn(")])
  }

  function Count(xs: Items): nat {
    match xs
    case Nil => 0
    case Cons(_, rest) => 1 + Count(rest)
  }

  /** A tuple of one element keeps a comma. */
  function RenderEnd(elems: Items): seq<Piece> {
    if Count(elems) == 1 then [Text(","), Text(")")] else [Text(")")]
  }

  /** Braces keep an expression apart from the generic arguments around it. */
  function Braced(inValue: bool, xs: seq<Piece>): seq<Piece> {
    if inValue then xs else [Text("{")] + (xs + [Text("}")])
  }

  function RenderConst(t: Const, inValue: bool, a: bool, l: nat): seq<Piece> {
    match t
    case Inferred => [Text("_")]
    case Int(tag, negative, value) =>
      (if negative then [Text("-")] else []) + (RenderNumber(value) + if a then [] else [Text(BasicName(tag))])
    case Bool(b) => [Text(if b then "true" else "false")]
    case Char(c) => [Quoted('\'', [c])]
    case Str(chars) => Braced(inValue, [Text("*")] + [Quoted('"', chars)])
    case Borrow(mutable, value) =>
      if !mutable && value.Str? then [Quoted('"', value.chars)]
      else Braced(inValue, (if mutable then [Text("&"), Text("mut ")] else [Text("&")]) + RenderConst(value, true, a, l))
    case List(elems) => Braced(inValue, [Text("[")] + (RenderItems(elems, ", ", true, a, l) + [Text("]")]))
    case Group(elems) => Braced(inValue, [Text("(")] + (RenderItems(elems, ", ", true, a, l) + RenderEnd(elems)))
    case UnitStruct(path) => Braced(inValue, RenderPath(path, true, a, l))
    case TupleStruct(path, fields) =>
      Braced(inValue, RenderPath(path, true, a, l) + ([Text("(")] + (RenderItems(fields, ", ", true, a, l) + [Text(")")])))
    case Struct(path, fields) =>
      Braced(inValue, RenderPath(path, true, a, l) + ([Text(" { ")] + (RenderItems(fields, ", ", true, a, l) + [Text(" }")])))
    case ConstBack(_, value) => RenderConst(value, inValue, a, l)
  }

  /** Decimal when 64 bits hold it. */
  function RenderNumber(n: nat): seq<Piece> {
    if n < TWO_64 then [Piece.Decimal(n)] else [Text("0x"), Text(Text16(n))]
  }

  function RenderItems(xs: Items, separator: string, first: bool, a: bool, l: nat): seq<Piece> {
    match xs
    case Nil => []
    case Cons(x, rest) =>
      (if first then [] else [Text(separator)]) + (RenderItem(x, a, l) + RenderItems(rest, separator, false, a, l))
  }

  function RenderItem(x: Item, a: bool, l: nat): seq<Piece> {
    match x
    case LifetimeArg(index) => RenderLifetime(index, l)
    case ConstArg(value) => RenderConst(value, false, a, l)
    case TypeItem(ty) => RenderType(ty, a, l)
    case TraitItem(path, bindings) => RenderOpen(path, a, l) + RenderBindings(bindings, EndsOpen(path), a, l)
    case ConstItem(value) => RenderConst(value, true, a, l)
    case FieldItem(_, name, value) => [Name(name), Text(": ")] + RenderConst(value, true, a, l)
  }

  /** The path of a trait, its generic arguments left open for the associated types. */
  function RenderOpen(t: Path, a: bool, l: nat): seq<Piece>
    decreases t, 1
  {
    match t
    case Generic(base, args) => RenderPath(base, false, a, l) + ([Text("<")] + RenderItems(args, ", ", true, a, l))
    case PathBack(_, path) => RenderOpen(path, a, l)
    case _ => RenderPath(t, false, a, l)
  }

  predicate EndsOpen(t: Path) {
    if t.PathBack? then EndsOpen(t.path) else t.Generic?
  }

  function RenderBindings(b: Bindings, open: bool, a: bool, l: nat): seq<Piece> {
    match b
    case Unbound => if open then [Text(">")] else []
    case Binding(name, ty, rest) =>
      [Text(if open then ", " else "<"), Name(name), Text(" = ")] + (RenderType(ty, a, l) + RenderBindings(rest, true, a, l))
  }

  // Limits -----------------------------------------------------------------------------------

  /** What follows does not look like the separator of an empty identifier. */
  ghost predicate Clear(s: string, i: nat) {
    i < |s| ==> s[i] != '_'
  }

  /** A back reference from `at`, whose target is followed `levels` below: it leads back, and one level deeper. */
  predicate LeadsBack(at: Pos, to: nat, levels: nat) {
    to < at.next && at.depth + levels < MAX_DEPTH
  }

  ghost predicate Stands(s: string, to: nat, t: string) {
    Reads(s, to, t) && Clear(s, to + |t|)
  }

  /** The path whose mangling stands at this position is within the limits: at most 500 levels deep, naming no
      lifetime beyond the `l` bound around it, and each back reference leading to an earlier place where the
      mangling of its target stands. What is not shown is scanned without naming lifetimes or following
      back references. */
  ghost predicate PathFits(s: string, at: Pos, t: Path, l: nat, shown: bool)
    decreases t, 0
  {
    && at.depth < MAX_DEPTH
    && var i, d := at.next + 1, at.depth + 1;
       match t
       case Crate(_, _) => true
       case Nested(_, parent, _, _) => PathFits(s, Pos(i + 1, d), parent, l, shown)
       case InherentImpl(dis, own, ty) =>
         var j := i + |Opt62('s', dis)|;
         PathFits(s, Pos(j, d), own, l, false) && TypeFits(s, Pos(j + |ManglePath(own)|, d), ty, l, shown)
       case TraitImpl(dis, own, ty, bound) =>
         var j := i + |Opt62('s', dis)|;
         var k := j + |ManglePath(own)|;
         && PathFits(s, Pos(j, d), own, l, false)
         && TypeFits(s, Pos(k, d), ty, l, shown)
         && PathFits(s, Pos(k + |MangleType(ty)|, d), bound, l, shown)
       case TraitMember(ty, bound) =>
         TypeFits(s, Pos(i, d), ty, l, shown) && PathFits(s, Pos(i + |MangleType(ty)|, d), bound, l, shown)
       case Generic(base, args) =>
         PathFits(s, Pos(i, d), base, l, shown) && ItemsFit(s, Pos(i + |ManglePath(base)|, d), args, GenericArgs, l, shown)
       case PathBack(to, path) =>
         && LeadsBack(at, to, 1)
         && (shown ==> Stands(s, to, ManglePath(path)) && PathFits(s, Pos(to, d + 1), path, l, true))
  }

  /** A path that is a back reference stands for a type as a back reference to the type. */
  ghost predicate TypeFits(s: string, at: Pos, t: Type, l: nat, shown: bool)
    decreases t
  {
    || t.Basic?
    || (&& at.depth < MAX_DEPTH
        && var i, d := at.next + 1, at.depth + 1;
           match t
           case Basic(_) => true
           case Adt(path) => !path.PathBack? && PathFits(s, Pos(at.next, d), path, l, shown)
           case Array(elem, len) =>
             TypeFits(s, Pos(i, d), elem, l, shown) && ConstFits(s, Pos(i + |MangleType(elem)|, d), len, l, shown)
           case Slice(elem) => TypeFits(s, Pos(i, d), elem, l, shown)
           case Tuple(elems) => ItemsFit(s, Pos(i, d), elems, Types, l, shown)
           case Ref(_, lifetime, elem) =>
             && (shown && lifetime.Some? ==> lifetime.value <= l)
             && TypeFits(s, Pos(i + |MangleLifetime(lifetime)|, d), elem, l, shown)
           case Pointer(_, elem) => TypeFits(s, Pos(i, d), elem, l, shown)
           case Fn(binder, isUnsafe, abi, params, ret) =>
             var j := i + |Opt62('G', binder)| + |MangleFn(isUnsafe, abi)|;
             && (shown ==> l + binder < TWO_32)
             && (abi.Other? ==> abi.name.ascii != "" && abi.name.punycode == "")
             && ItemsFit(s, Pos(j, d), params, Types, l + binder, shown)
             && TypeFits(s, Pos(j + |MangleItems(params)|, d), ret, l + binder, shown)
           case Dyn(binder, bounds, bound) =>
             && (shown ==> l + binder < TWO_32 && bound <= l)
             && ItemsFit(s, Pos(i + |Opt62('G', binder)|, d), bounds, Traits, l + binder, shown)
           case TypeBack(to, ty) =>
             && LeadsBack(at, to, 1)
             && (shown ==> Stands(s, to, MangleType(ty)) && TypeFits(s, Pos(to, d + 1), ty, l, true)))
  }

  ghost predicate ConstFits(s: string, at: Pos, t: Const, l: nat, shown: bool)
    decreases t
  {
    && at.depth < MAX_DEPTH
    && var i, d := at.next + 1, at.depth + 1;
       match t
       case Int(tag, negative, _) => negative ==> IsSigned(tag)
       case Borrow(mutable, value) => (!mutable && value.Str?) || ConstFits(s, Pos(i, d), value, l, shown)
       case List(elems) => ItemsFit(s, Pos(i, d), elems, Consts, l, shown)
       case Group(elems) => ItemsFit(s, Pos(i, d), elems, Consts, l, shown)
       case UnitStruct(path) => PathFits(s, Pos(i, d), path, l, shown)
       case TupleStruct(path, fields) =>
         PathFits(s, Pos(i, d), path, l, shown) && ItemsFit(s, Pos(i + |ManglePath(path)| + 1, d), fields, Consts, l, shown)
       case Struct(path, fields) =>
         PathFits(s, Pos(i, d), path, l, shown) && ItemsFit(s, Pos(i + |ManglePath(path)| + 1, d), fields, FieldInits, l, shown)
       case ConstBack(to, value) =>
         && LeadsBack(at, to, 1)
         && (shown ==> Stands(s, to, MangleConst(value)) && ConstFits(s, Pos(to, d + 1), value, l, true))
       case _ => true
  }

  ghost predicate ItemsFit(s: string, at: Pos, xs: Items, kind: Kind, l: nat, shown: bool)
    decreases xs
  {
    xs.Cons? ==>
      && ItemFits(s, at, xs.head, kind, l, shown)
      && ItemsFit(s, Pos(at.next + |MangleItem(xs.head)|, at.depth), xs.tail, kind, l, shown)
  }

  ghost predicate ItemFits(s: string, at: Pos, x: Item, kind: Kind, l: nat, shown: bool)
    decreases x
  {
    match x
    case LifetimeArg(index) => kind == GenericArgs && (shown ==> index <= l)
    case ConstArg(value) => kind == GenericArgs && ConstFits(s, Pos(at.next + 1, at.depth), value, l, shown)
    case TypeItem(ty) => (kind == GenericArgs || kind == Types) && TypeFits(s, at, ty, l, shown)
    case TraitItem(path, bindings) =>
      && kind == Traits
      && OpenFits(s, at, path, l, shown)
      && BindingsFit(s, Pos(at.next + |ManglePath(path)|, at.depth), bindings, l, shown)
    case ConstItem(value) => kind == Consts && ConstFits(s, at, value, l, shown)
    case FieldItem(dis, name, value) =>
      kind == FieldInits && ConstFits(s, Pos(at.next + |MangleLabel(dis, name)|, at.depth), value, l, shown)
  }

  ghost predicate OpenFits(s: string, at: Pos, t: Path, l: nat, shown: bool)
    decreases t, 1
  {
    match t
    case Generic(base, args) =>
      var i := at.next + 1;
      && PathFits(s, Pos(i, at.depth), base, l, shown)
      && ItemsFit(s, Pos(i + |ManglePath(base)|, at.depth), args, GenericArgs, l, shown)
    case PathBack(to, path) =>
      && LeadsBack(at, to, 0)
      && (shown ==> Stands(s, to, ManglePath(path)) && OpenFits(s, Pos(to, at.depth + 1), path, l, true))
    case _ => PathFits(s, at, t, l, shown)
  }

  ghost predicate BindingsFit(s: string, at: Pos, b: Bindings, l: nat, shown: bool)
    decreases b
  {
    b.Binding? ==>
      var i := at.next + 1 + |Mangled(b.name)|;
      && TypeFits(s, Pos(i, at.depth), b.ty, l, shown)
      && BindingsFit(s, Pos(i + |MangleType(b.ty)|, at.depth), b.rest, l, shown)
  }
}
