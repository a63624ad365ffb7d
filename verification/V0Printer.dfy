/** The v0 demangler: a mutually recursive parse-and-print machine over one symbol.

    Each function runs one `print_*` method on a printer, whose state is the position reached or
    the error that stopped the scan, the pieces written so far (none while printing is skipped),
    and the number of lifetimes bound around the current entity. The sink never fails. */
module V0Printer {
  import opened Common
  import opened V0Parser
  import Utf8

  const TWO_32: nat := 0x1_0000_0000

  /** `BadLifetime` is the message printed for a lifetime index beyond the enclosing binders, and
      `Placeholder` the question mark that stands for what an earlier error left unread. */
  datatype Piece =
    | Text(s: string)
    | Name(ident: Ident)
    | Decimal(n: nat)
    | Hex(n: nat)
    | Quoted(quote: char, chars: string)
    | Message(error: ParseError)
    | BadLifetime
    | Placeholder

  /** A formatter: its `alternate` flag and what it has been given. */
  datatype Sink = Sink(alternate: bool, pieces: seq<Piece>)

  datatype State = Scanning(at: Pos) | Failed(error: ParseError)

  datatype Printer = Printer(state: State, out: Option<Sink>, lifetimes: nat)

  /** What a separated list is made of. */
  datatype Kind = GenericArgs | Types | Traits | Consts | FieldInits

  // Invariants -------------------------------------------------------------------------------

  ghost predicate Wf(s: string, p: Printer) {
    && p.lifetimes < TWO_32
    && (p.state.Scanning? ==> p.state.at.next <= |s| && p.state.at.depth <= MAX_DEPTH)
  }

  /** Output only grows, bound lifetimes are restored, errors stick, and a run that has not failed
      is back at its depth and at least `least` characters further. */
  ghost predicate Keeps(s: string, p: Printer, r: Printer, least: nat) {
    && Grows(p.out, r.out)
    && r.lifetimes == p.lifetimes < TWO_32
    && (r.state.Scanning? ==>
          && p.state.Scanning?
          && r.state.at.depth == p.state.at.depth <= MAX_DEPTH
          && p.state.at.next + least <= r.state.at.next <= |s|)
  }

  ghost predicate Grows(a: Option<Sink>, b: Option<Sink>) {
    if a.None? then b.None?
    else b.Some? && b.value.alternate == a.value.alternate && a.value.pieces <= b.value.pieces
  }

  ghost function Budget(p: Printer): nat
    requires p.state.Scanning? ==> p.state.at.depth <= MAX_DEPTH
  {
    if p.state.Scanning? then MAX_DEPTH + 1 - p.state.at.depth else 0
  }

  ghost function Left(s: string, p: Printer): nat
    requires p.state.Scanning? ==> p.state.at.next <= |s|
  {
    if p.state.Scanning? then |s| - p.state.at.next else 0
  }

  // Single steps -----------------------------------------------------------------------------

  /** Write these pieces, unless printing is being skipped. */
  function Say(p: Printer, xs: seq<Piece>): Printer {
    if p.out.Some? then p.(out := Some(p.out.value.(pieces := p.out.value.pieces + xs))) else p
  }

  predicate Alternate(p: Printer) {
    p.out.Some? && p.out.value.alternate
  }

  function Fail(p: Printer, e: ParseError): Printer {
    Say(p, [Message(e)]).(state := Failed(e))
  }

  /** What `parse!` prints once the scan has failed. */
  function Unknown(p: Printer): Printer {
    Say(p, [Placeholder])
  }

  function At(p: Printer, at: Pos): Printer {
    p.(state := Scanning(at))
  }

  /** `pop_depth` */
  function Leave(p: Printer): Printer
    requires p.state.Scanning? ==> p.state.at.depth > 0
  {
    if p.state.Scanning? then At(p, PopDepth(p.state.at)) else p
  }

  predicate Eats(s: string, p: Printer, c: char) {
    p.state.Scanning? && Sees(s, p.state.at, c)
  }

  function Eaten(p: Printer): Printer
    requires p.state.Scanning?
  {
    At(p, Skip(p.state.at))
  }

  function BasicType(tag: char): Option<string> {
    match tag
    case 'b' => Some("bool")
    case 'c' => Some("char")
    case 'e' => Some("str")
    case 'u' => Some("()")
    case 'a' => Some("i8")
    case 's' => Some("i16")
    case 'l' => Some("i32")
    case 'x' => Some("i64")
    case 'n' => Some("i128")
    case 'i' => Some("isize")
    case 'h' => Some("u8")
    case 't' => Some("u16")
    case 'm' => Some("u32")
    case 'y' => Some("u64")
    case 'o' => Some("u128")
    case 'j' => Some("usize")
    case 'f' => Some("f32")
    case 'd' => Some("f64")
    case 'z' => Some("!")
    case 'p' => Some("_")
    case 'v' => Some("...")
    case _ => None
  }

  // Lifetimes --------------------------------------------------------------------------------

  /** `print_lifetime_from_index` */
  function PrintLifetime(p: Printer, lt: nat): (r: Printer)
    ensures Grows(p.out, r.out) && r.lifetimes == p.lifetimes
    ensures r.state == if p.out.Some? && lt > p.lifetimes then Failed(Invalid) else p.state
  {
    if p.out.None? then p
    else if lt == 0 then Say(p, [Text("'"), Text("_")])
    else if lt > p.lifetimes then Say(p, [Text("'"), BadLifetime]).(state := Failed(Invalid))
    else Say(p, [Text("'")] + LifetimeName(p.lifetimes - lt))
  }

  /** Letters first, then numbers. */
  function LifetimeName(depth: nat): seq<Piece> {
    if depth < 26 then [Text([('a' as int + depth) as char])] else [Text("_"), Decimal(depth)]
  }

  /** A `u32` incremented `n` times. */
  ghost function Bumped(l: nat, n: nat): (r: nat)
    requires l < TWO_32
    ensures r < TWO_32
    decreases n
  {
    if n == 0 then l else Bumped((l + 1) % TWO_32, n - 1)
  }

  lemma {:induction false} BumpedBack(l: nat, n: nat)
    requires l < TWO_32
    ensures (Bumped(l, n) - n) % TWO_32 == l
    decreases n
  {
    if n > 0 {
      var m := (l + 1) % TWO_32;
      BumpedBack(m, n - 1);
      OneBack(Bumped(m, n - 1) - (n - 1), l);
    }
  }

  lemma OneBack(z: int, l: nat)
    requires l < TWO_32 && z % TWO_32 == (l + 1) % TWO_32
    ensures (z - 1) % TWO_32 == l
  {
  }

  lemma {:induction false} BumpedFits(l: nat, n: nat)
    requires l + n < TWO_32
    ensures Bumped(l, n) == l + n
    decreases n
  {
    if n > 0 { BumpedFits(l + 1, n - 1); }
  }

  /** The loop of `in_binder`; the count is a `u32`. */
  function BindLifetimes(p: Printer, i: nat, n: nat): (r: Printer)
    requires i <= n && p.lifetimes < TWO_32
    ensures Grows(p.out, r.out) && r.lifetimes == Bumped(p.lifetimes, n - i)
    ensures r.state == if p.out.Some? && p.lifetimes + n - i >= TWO_32 then Failed(Invalid) else p.state
    decreases n - i
  {
    if i == n then p
    else
      var bound := p.(lifetimes := (p.lifetimes + 1) % TWO_32);
      BindLifetimes(PrintLifetime(Say(bound, if i > 0 then [Text(", ")] else []), 1), i + 1, n)
  }

  /** What `in_binder` does before its closure. */
  function EnterBinder(p: Printer, n: nat): (r: Printer)
    requires p.lifetimes < TWO_32
    ensures Grows(p.out, r.out) && r.lifetimes == (if p.out.None? then p.lifetimes else Bumped(p.lifetimes, n))
    ensures r.state == if p.out.Some? && p.lifetimes + n >= TWO_32 then Failed(Invalid) else p.state
  {
    if p.out.None? || n == 0 then p
    else Say(BindLifetimes(Say(p, [Text("for<")]), 0, n), [Text("> ")])
  }

  /** What it does after: the wrapping subtraction gives back the count `l` on entry. */
  function LeaveBinder(p: Printer, n: nat, ghost l: nat): (r: Printer)
    requires l < TWO_32 && p.lifetimes == (if p.out.None? then l else Bumped(l, n))
    ensures r == p.(lifetimes := l)
  {
    BumpedBack(l, n);
    if p.out.None? then p else p.(lifetimes := (p.lifetimes - n) % TWO_32)
  }

  // Paths ------------------------------------------------------------------------------------

  function PrintPath(s: string, p: Printer, inValue: bool): (r: Printer)
    requires Wf(s, p)
    ensures Keeps(s, p, r, 1)
    decreases Budget(p), Left(s, p), 1
  {
    if p.state.Failed? then Unknown(p)
    else
      match PushDepth(p.state.at)
      case Bad(e) => Fail(p, e)
      case Got(_, inner) =>
        match Next(s, inner)
        case Bad(e) => Fail(p, e)
        case Got(tag, at) => Leave(PathBody(s, At(p, at), tag, inValue))
  }

  function PathBody(s: string, p: Printer, tag: char, inValue: bool): (r: Printer)
    requires Wf(s, p) && p.state.Scanning? && p.state.at.next > 0
    ensures Keeps(s, p, r, 0)
    decreases Budget(p), Left(s, p), 9
  {
    match tag
    case 'C' => CrateRoot(s, p)
    case 'N' =>
      (match Namespace(s, p.state.at)
       case Bad(e) => Fail(p, e)
       case Got(ns, at) => NestedName(s, PrintPath(s, At(p, at), inValue), ns))
    case 'M' => ImplPath(s, p, tag)
    case 'X' => ImplPath(s, p, tag)
    case 'Y' => QualifiedSelf(s, p, tag)
    case 'I' => GenericPath(s, p, inValue)
    case 'B' => PathBackref(s, p, inValue)
    case _ => Fail(p, Invalid)
  }

  function GenericPath(s: string, p: Printer, inValue: bool): (r: Printer)
    requires Wf(s, p) && p.state.Scanning?
    ensures Keeps(s, p, r, 0)
    decreases Budget(p), Left(s, p), 8
  {
    var q := PrintPath(s, p, inValue);
    Say(PrintList(s, Say(q, if inValue then [Text("::"), Text("<")] else [Text("<")]), GenericArgs, 0).0, [Text(">")])
  }

  function PathBackref(s: string, p: Printer, inValue: bool): (r: Printer)
    requires Wf(s, p) && p.state.Scanning? && p.state.at.next > 0
    ensures Keeps(s, p, r, 0)
    decreases Budget(p), Left(s, p), 8
  {
    match Backref(s, p.state.at)
    case Bad(e) => Fail(p, e)
    case Got(target, after) =>
      if p.out.None? then At(p, after) else At(PrintPath(s, At(p, target), inValue), after)
  }

  function CrateRoot(s: string, p: Printer): (r: Printer)
    requires Wf(s, p) && p.state.Scanning?
    ensures Keeps(s, p, r, 0)
  {
    match Disambiguator(s, p.state.at)
    case Bad(e) => Fail(p, e)
    case Got(dis, at) =>
      match ScanIdent(s, at)
      case Bad(e) => Fail(p, e)
      case Got(name, after) =>
        Say(At(p, after), [Name(name)] + if Alternate(p) then [] else [Text("["), Hex(dis), Text("]")])
  }

  /** What follows the parent path of a nested path. */
  function NestedName(s: string, p: Printer, ns: Option<char>): (r: Printer)
    requires Wf(s, p)
    ensures Keeps(s, p, r, 0)
  {
    if p.state.Failed? then Unknown(Say(p, [Text("::")]))
    else
      match Disambiguator(s, p.state.at)
      case Bad(e) => Fail(p, e)
      case Got(dis, at) =>
        match ScanIdent(s, at)
        case Bad(e) => Fail(p, e)
        case Got(name, after) => Say(At(p, after), NestedText(ns, dis, name))
  }

  function NestedText(ns: Option<char>, dis: nat, name: Ident): seq<Piece> {
    match ns
    case None => if name.IsEmpty() then [] else [Text("::"), Name(name)]
    case Some(c) =>
      [Text("::{"), Text(if c == 'C' then "closure" else if c == 'S' then "shim" else [c])]
      + (if name.IsEmpty() then [] else [Text(":"), Name(name)])
      + [Text("#"), Decimal(dis), Text("}")]
  }

  /** An `impl`: its own path is scanned with printing skipped. */
  function ImplPath(s: string, p: Printer, tag: char): (r: Printer)
    requires Wf(s, p) && p.state.Scanning?
    ensures Keeps(s, p, r, 0)
    decreases Budget(p), Left(s, p), 8
  {
    match Disambiguator(s, p.state.at)
    case Bad(e) => Fail(p, e)
    case Got(_, at) =>
      var skipped := PrintPath(s, At(p, at).(out := None), false);
      QualifiedSelf(s, skipped.(out := p.out), tag)
  }

  function QualifiedSelf(s: string, p: Printer, tag: char): (r: Printer)
    requires Wf(s, p)
    ensures Keeps(s, p, r, 0)
    decreases Budget(p), Left(s, p), 7
  {
    var q := PrintType(s, Say(p, [Text("<")]));
    var t := if tag == 'M' then q else PrintPath(s, Say(q, [Text(" as ")]), false);
    Say(t, [Text(">")])
  }

  // Lists ------------------------------------------------------------------------------------

  function Separator(kind: Kind): string {
    if kind == Traits then " + " else ", "
  }

  /** Elements up to the closing `E`, or until the scan fails, and their number. */
  function PrintList(s: string, p: Printer, kind: Kind, i: nat): (r: (Printer, nat))
    requires Wf(s, p)
    ensures Keeps(s, p, r.0, 1)
    decreases Budget(p), Left(s, p), 6
  {
    if p.state.Failed? then (p, i)
    else if Eats(s, p, 'E') then (Eaten(p), i)
    else PrintList(s, PrintItem(s, Say(p, if i > 0 then [Text(Separator(kind))] else []), kind), kind, i + 1)
  }

  function PrintItem(s: string, p: Printer, kind: Kind): (r: Printer)
    requires Wf(s, p)
    ensures Keeps(s, p, r, 1)
    decreases Budget(p), Left(s, p), 5
  {
    match kind
    case GenericArgs => PrintGenericArg(s, p)
    case Types => PrintType(s, p)
    case Traits => PrintTrait(s, p)
    case Consts => PrintConst(s, p, true)
    case FieldInits => PrintFieldInit(s, p)
  }

  function PrintGenericArg(s: string, p: Printer): (r: Printer)
    requires Wf(s, p)
    ensures Keeps(s, p, r, 1)
    decreases Budget(p), Left(s, p), 4
  {
    if Eats(s, p, 'L') then
      match Integer62(s, Eaten(p).state.at)
      case Bad(e) => Fail(p, e)
      case Got(lt, at) => PrintLifetime(At(p, at), lt)
    else if Eats(s, p, 'K') then PrintConst(s, Eaten(p), false)
    else PrintType(s, p)
  }

  function PrintFieldInit(s: string, p: Printer): (r: Printer)
    requires Wf(s, p)
    ensures Keeps(s, p, r, 1)
    decreases Budget(p), Left(s, p), 4
  {
    if p.state.Failed? then Unknown(p)
    else
      match Disambiguator(s, p.state.at)
      case Bad(e) => Fail(p, e)
      case Got(_, at) =>
        match ScanIdent(s, at)
        case Bad(e) => Fail(p, e)
        case Got(name, after) => PrintConst(s, Say(At(p, after), [Name(name), Text(": ")]), true)
  }

  // Types ------------------------------------------------------------------------------------

  function PrintType(s: string, p: Printer): (r: Printer)
    requires Wf(s, p)
    ensures Keeps(s, p, r, 1)
    decreases Budget(p), Left(s, p), 2
  {
    if p.state.Failed? then Unknown(p)
    else
      match Next(s, p.state.at)
      case Bad(e) => Fail(p, e)
      case Got(tag, at) =>
        if BasicType(tag).Some? then Say(At(p, at), [Text(BasicType(tag).value)])
        else
          match PushDepth(at)
          case Bad(e) => Fail(p, e)
          case Got(_, inner) =>
            if IsTypeTag(tag) then Leave(TypeBody(s, At(p, inner), tag))
            else Leave(PrintPath(s, At(p, Pos(inner.next - 1, inner.depth)), false))
  }

  predicate IsTypeTag(tag: char) {
    tag in "RQPOASTFDB"
  }

  function TypeBody(s: string, p: Printer, tag: char): (r: Printer)
    requires Wf(s, p) && p.state.Scanning? && p.state.at.next > 0
    ensures Keeps(s, p, r, 0)
    decreases Budget(p), Left(s, p), 10
  {
    match tag
    case 'R' => Reference(s, p, false)
    case 'Q' => Reference(s, p, true)
    case 'P' => PrintType(s, Say(p, [Text("*"), Text("const ")]))
    case 'O' => PrintType(s, Say(p, [Text("*"), Text("mut ")]))
    case 'A' => ArrayType(s, p)
    case 'S' => Say(PrintType(s, Say(p, [Text("[")])), [Text("]")])
    case 'T' => TupleType(s, p)
    case 'F' => FnType(s, p)
    case 'D' => DynBound(s, DynTraits(s, Say(p, [Text("dyn ")])))
    case 'B' => TypeBackref(s, p)
    case _ => Fail(p, Invalid)
  }

  function ArrayType(s: string, p: Printer): (r: Printer)
    requires Wf(s, p) && p.state.Scanning?
    ensures Keeps(s, p, r, 0)
    decreases Budget(p), Left(s, p), 8
  {
    Say(PrintConst(s, Say(PrintType(s, Say(p, [Text("[")])), [Text("; ")]), true), [Text("]")])
  }

  function TupleType(s: string, p: Printer): (r: Printer)
    requires Wf(s, p) && p.state.Scanning?
    ensures Keeps(s, p, r, 0)
    decreases Budget(p), Left(s, p), 8
  {
    var l := PrintList(s, Say(p, [Text("(")]), Types, 0);
    Say(l.0, CloseTuple(l.1))
  }

  /** The target is printed by a parser of its own, whose failure is forgotten. */
  function TypeBackref(s: string, p: Printer): (r: Printer)
    requires Wf(s, p) && p.state.Scanning? && p.state.at.next > 0
    ensures Keeps(s, p, r, 0)
    decreases Budget(p), Left(s, p), 8
  {
    match Backref(s, p.state.at)
    case Bad(e) => Fail(p, e)
    case Got(target, after) => if p.out.None? then At(p, after) else At(PrintType(s, At(p, target)), after)
  }

  /** A tuple of one element keeps a comma. */
  function CloseTuple(count: nat): seq<Piece> {
    if count == 1 then [Text(","), Text(")")] else [Text(")")]
  }

  function Reference(s: string, p: Printer, mutable: bool): (r: Printer)
    requires Wf(s, p) && p.state.Scanning?
    ensures Keeps(s, p, r, 0)
    decreases Budget(p), Left(s, p), 8
  {
    var q := Say(p, [Text("&")]);
    if !Eats(s, q, 'L') then Referent(s, q, mutable)
    else
      match Integer62(s, Eaten(q).state.at)
      case Bad(e) => Fail(q, e)
      case Got(lt, at) => Referent(s, NameLifetime(At(q, at), lt), mutable)
  }

  function NameLifetime(p: Printer, lt: nat): (r: Printer)
    ensures Grows(p.out, r.out) && r.lifetimes == p.lifetimes
    ensures r.state == if p.out.Some? && lt > p.lifetimes then Failed(Invalid) else p.state
  {
    if lt == 0 then p else Say(PrintLifetime(p, lt), [Text(" ")])
  }

  function Referent(s: string, p: Printer, mutable: bool): (r: Printer)
    requires Wf(s, p)
    ensures Keeps(s, p, r, 0)
    decreases Budget(p), Left(s, p), 7
  {
    PrintType(s, Say(p, if mutable then [Text("mut ")] else []))
  }

  function FnType(s: string, p: Printer): (r: Printer)
    requires Wf(s, p) && p.state.Scanning?
    ensures Keeps(s, p, r, 0)
    decreases Budget(p), Left(s, p), 9
  {
    match OptInteger62(s, p.state.at, 'G')
    case Bad(e) => Fail(p, e)
    case Got(n, at) => LeaveBinder(FnSig(s, EnterBinder(At(p, at), n)), n, p.lifetimes)
  }

  /** The closure of a function pointer type. */
  function FnSig(s: string, p: Printer): (r: Printer)
    requires Wf(s, p)
    ensures Keeps(s, p, r, 0)
    decreases Budget(p), Left(s, p), 8
  {
    var isUnsafe := Eats(s, p, 'U');
    var q := if isUnsafe then Eaten(p) else p;
    if !Eats(s, q, 'K') then FnRest(s, q, isUnsafe, None)
    else if Eats(s, Eaten(q), 'C') then FnRest(s, Eaten(Eaten(q)), isUnsafe, Some("C"))
    else
      match ScanIdent(s, Eaten(q).state.at)
      case Bad(e) => Fail(q, e)
      case Got(abi, at) =>
        if abi.ascii == "" || abi.punycode != "" then Fail(At(q, at), Invalid)
        else FnRest(s, At(q, at), isUnsafe, Some(abi.ascii))
  }

  /** An ABI name: its parts between underscores, joined by dashes. */
  function Dashed(s: string): string {
    seq(|s|, i requires 0 <= i < |s| => if s[i] == '_' then '-' else s[i])
  }

  function FnHead(isUnsafe: bool, abi: Option<string>): seq<Piece> {
    (if isUnsafe then [Text("unsafe ")] else [])
    + (if abi.Some? then [Text("extern \""), Text(Dashed(abi.value)), Text("\" ")] else [])
    + [Text("fn(")]
  }

  function FnRest(s: string, p: Printer, isUnsafe: bool, abi: Option<string>): (r: Printer)
    requires Wf(s, p)
    ensures Keeps(s, p, r, 0)
    decreases Budget(p), Left(s, p), 7
  {
    var args := Say(PrintList(s, Say(p, FnHead(isUnsafe, abi)), Types, 0).0, [Text(")")]);
    if Eats(s, args, 'u') then Eaten(args) else PrintType(s, Say(args, [Text(" -> ")]))
  }

  /** The bounds of a trait object, inside its binder. */
  function DynTraits(s: string, p: Printer): (r: Printer)
    requires Wf(s, p) && p.state.Scanning?
    ensures Keeps(s, p, r, 0)
    decreases Budget(p), Left(s, p), 8
  {
    match OptInteger62(s, p.state.at, 'G')
    case Bad(e) => Fail(p, e)
    case Got(n, at) =>
      LeaveBinder(PrintList(s, EnterBinder(At(p, at), n), Traits, 0).0, n, p.lifetimes)
  }

  /** The lifetime bound that ends a trait object. */
  function DynBound(s: string, p: Printer): (r: Printer)
    requires Wf(s, p)
    ensures Keeps(s, p, r, 0)
  {
    if !Eats(s, p, 'L') then Fail(p, Invalid)
    else
      match Integer62(s, Eaten(p).state.at)
      case Bad(e) => Fail(p, e)
      case Got(lt, at) =>
        if lt == 0 then At(p, at) else PrintLifetime(Say(At(p, at), [Text(" + ")]), lt)
  }

  // Trait objects ----------------------------------------------------------------------------

  /** `print_path_maybe_open_generics`: whether a `<` is left open. */
  function PrintOpenPath(s: string, p: Printer): (r: (Printer, bool))
    requires Wf(s, p)
    ensures Keeps(s, p, r.0, 1)
    decreases Budget(p), Left(s, p), 3
  {
    if Eats(s, p, 'B') then
      match Backref(s, Eaten(p).state.at)
      case Bad(e) => (Fail(p, e), false)
      case Got(target, after) =>
        if p.out.None? then (At(p, after), false)
        else
          var r := PrintOpenPath(s, At(p, target));
          (At(r.0, after), r.1)
    else if Eats(s, p, 'I') then
      (PrintList(s, Say(PrintPath(s, Eaten(p), false), [Text("<")]), GenericArgs, 0).0, true)
    else (PrintPath(s, p, false), false)
  }

  function PrintTrait(s: string, p: Printer): (r: Printer)
    requires Wf(s, p)
    ensures Keeps(s, p, r, 1)
    decreases Budget(p), Left(s, p), 4
  {
    var head := PrintOpenPath(s, p);
    Projections(s, head.0, head.1)
  }

  /** The associated type bindings of a trait, and the closing `>`. */
  function Projections(s: string, p: Printer, open: bool): (r: Printer)
    requires Wf(s, p)
    ensures Keeps(s, p, r, 0)
    decreases Budget(p), Left(s, p), 3
  {
    if !Eats(s, p, 'p') then Say(p, if open then [Text(">")] else [])
    else
      var q := Say(Eaten(p), [Text(if open then ", " else "<")]);
      match ScanIdent(s, q.state.at)
      case Bad(e) => Fail(q, e)
      case Got(name, at) =>
        Projections(s, PrintType(s, Say(At(q, at), [Name(name), Text(" = ")])), true)
  }

  // Constants --------------------------------------------------------------------------------

  function PrintConst(s: string, p: Printer, inValue: bool): (r: Printer)
    requires Wf(s, p)
    ensures Keeps(s, p, r, 1)
    decreases Budget(p), Left(s, p), 2
  {
    if p.state.Failed? then Unknown(p)
    else
      match Next(s, p.state.at)
      case Bad(e) => Fail(p, e)
      case Got(tag, at) =>
        match PushDepth(at)
        case Bad(e) => Fail(p, e)
        case Got(_, inner) => Leave(ConstBody(s, At(p, inner), tag, inValue))
  }

  /** Any expression but a literal is put in braces, unless it is nested in another. */
  function Open(inValue: bool): seq<Piece> {
    if inValue then [] else [Text("{")]
  }

  function Close(inValue: bool): seq<Piece> {
    if inValue then [] else [Text("}")]
  }

  predicate IsLiteralTag(tag: char) {
    tag in "phtmyojaslxnibc"
  }

  function ConstBody(s: string, p: Printer, tag: char, inValue: bool): (r: Printer)
    requires Wf(s, p) && p.state.Scanning? && p.state.at.next > 0
    ensures Keeps(s, p, r, 0)
    decreases Budget(p), Left(s, p), 9
  {
    if IsLiteralTag(tag) then ConstLiteral(s, p, tag)
    else
      match tag
      case 'e' => ConstDeref(s, p, inValue)
      case 'R' => if Eats(s, p, 'e') then ConstStr(s, Eaten(p)) else ConstRef(s, p, [Text("&")], inValue)
      case 'Q' => ConstRef(s, p, [Text("&"), Text("mut ")], inValue)
      case 'A' => ConstArray(s, p, inValue)
      case 'T' => ConstTuple(s, p, inValue)
      case 'V' => ConstAdt(s, PrintPath(s, Say(p, Open(inValue)), true), inValue)
      case 'B' => ConstBackref(s, p, inValue)
      case _ => Fail(p, Invalid)
  }

  function ConstDeref(s: string, p: Printer, inValue: bool): (r: Printer)
    requires Wf(s, p) && p.state.Scanning?
    ensures Keeps(s, p, r, 0)
  {
    Say(ConstStr(s, Say(p, Open(inValue) + [Text("*")])), Close(inValue))
  }

  function ConstArray(s: string, p: Printer, inValue: bool): (r: Printer)
    requires Wf(s, p) && p.state.Scanning?
    ensures Keeps(s, p, r, 0)
    decreases Budget(p), Left(s, p), 8
  {
    Say(PrintList(s, Say(p, Open(inValue) + [Text("[")]), Consts, 0).0, [Text("]")] + Close(inValue))
  }

  function ConstTuple(s: string, p: Printer, inValue: bool): (r: Printer)
    requires Wf(s, p) && p.state.Scanning?
    ensures Keeps(s, p, r, 0)
    decreases Budget(p), Left(s, p), 8
  {
    var l := PrintList(s, Say(p, Open(inValue) + [Text("(")]), Consts, 0);
    Say(l.0, CloseTuple(l.1) + Close(inValue))
  }

  function ConstBackref(s: string, p: Printer, inValue: bool): (r: Printer)
    requires Wf(s, p) && p.state.Scanning? && p.state.at.next > 0
    ensures Keeps(s, p, r, 0)
    decreases Budget(p), Left(s, p), 8
  {
    match Backref(s, p.state.at)
    case Bad(e) => Fail(p, e)
    case Got(target, after) =>
      if p.out.None? then At(p, after) else At(PrintConst(s, At(p, target), inValue), after)
  }

  function ConstRef(s: string, p: Printer, sigil: seq<Piece>, inValue: bool): (r: Printer)
    requires Wf(s, p) && p.state.Scanning?
    ensures Keeps(s, p, r, 0)
    decreases Budget(p), Left(s, p), 8
  {
    Say(PrintConst(s, Say(p, Open(inValue) + sigil), true), Close(inValue))
  }

  /** Constants that are never put in braces. */
  function ConstLiteral(s: string, p: Printer, tag: char): (r: Printer)
    requires Wf(s, p) && p.state.Scanning? && IsLiteralTag(tag)
    ensures Keeps(s, p, r, 0)
  {
    if tag == 'p' then Say(p, [Text("_")])
    else if tag == 'b' then ConstBool(s, p)
    else if tag == 'c' then ConstChar(s, p)
    else if tag in "aslxni" && Eats(s, p, 'n') then ConstUint(s, Say(Eaten(p), [Text("-")]), tag)
    else ConstUint(s, p, tag)
  }

  /** The fields of a constant of a named type, after its path. */
  function ConstAdt(s: string, p: Printer, inValue: bool): (r: Printer)
    requires Wf(s, p)
    ensures Keeps(s, p, r, 0)
    decreases Budget(p), Left(s, p), 8
  {
    if p.state.Failed? then Unknown(p)
    else
      match Next(s, p.state.at)
      case Bad(e) => Fail(p, e)
      case Got(tag, at) =>
        var q := At(p, at);
        if tag == 'U' then Say(q, Close(inValue))
        else if tag == 'T' then
          Say(PrintList(s, Say(q, [Text("(")]), Consts, 0).0, [Text(")")] + Close(inValue))
        else if tag == 'S' then
          Say(PrintList(s, Say(q, [Text(" { ")]), FieldInits, 0).0, [Text(" }")] + Close(inValue))
        else Fail(q, Invalid)
  }

  function ConstUint(s: string, p: Printer, tag: char): (r: Printer)
    requires Wf(s, p) && p.state.Scanning? && BasicType(tag).Some?
    ensures Keeps(s, p, r, 0)
  {
    match HexNibbles(s, p.state.at)
    case Bad(e) => Fail(p, e)
    case Got(hex, at) =>
      var number := match ParseUint(hex)
        case Some(v) => [Decimal(v)]
        case None => [Text("0x"), Text(hex)];
      Say(At(p, at), number + if Alternate(p) then [] else [Text(BasicType(tag).value)])
  }

  function ConstBool(s: string, p: Printer): (r: Printer)
    requires Wf(s, p) && p.state.Scanning?
    ensures Keeps(s, p, r, 0)
  {
    match HexNibbles(s, p.state.at)
    case Bad(e) => Fail(p, e)
    case Got(hex, at) =>
      match ParseUint(hex)
      case Some(0) => Say(At(p, at), [Text("false")])
      case Some(1) => Say(At(p, at), [Text("true")])
      case _ => Fail(At(p, at), Invalid)
  }

  function ConstChar(s: string, p: Printer): (r: Printer)
    requires Wf(s, p) && p.state.Scanning?
    ensures Keeps(s, p, r, 0)
  {
    match HexNibbles(s, p.state.at)
    case Bad(e) => Fail(p, e)
    case Got(hex, at) =>
      match ParseUint(hex)
      case None => Fail(At(p, at), Invalid)
      case Some(v) =>
        if Utf8.IsScalar(v) then Say(At(p, at), [Quoted('\'', [v as char])]) else Fail(At(p, at), Invalid)
  }

  function ConstStr(s: string, p: Printer): (r: Printer)
    requires Wf(s, p) && p.state.Scanning?
    ensures Keeps(s, p, r, 0)
  {
    match HexNibbles(s, p.state.at)
    case Bad(e) => Fail(p, e)
    case Got(hex, at) =>
      match ParseChars(hex)
      case None => Fail(At(p, at), Invalid)
      case Some(t) => Say(At(p, at), [Quoted('"', t)])
  }
}
