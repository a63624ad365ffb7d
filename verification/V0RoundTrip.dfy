/** Every symbol of Rust RFC 2603 that is within the limits is scanned, and shown as it reads: at any place in
    a symbol, printing or skipping, a production run on the mangling of a tree stops at its end, and has written
    the reading of the tree. */
module V0RoundTrip {
  import opened Common
  import opened V0Parser
  import opened V0Printer
  import opened V0Names
  import opened V0Symbols
  import opened V0Lexemes
  import opened V0Layout
  import opened V0Steps
  import Utf8

  /** A run that has not failed, with `l` lifetimes bound if it prints. */
  ghost predicate Able(s: string, p: Printer, l: nat) {
    Runs(s, p) && (p.out.Some? ==> p.lifetimes == l)
  }

  /** One that can go past a tag and one level deeper. */
  ghost predicate Opens(s: string, p: Printer, l: nat) {
    Able(s, p, l) && p.state.at.next < |s| && p.state.at.depth < MAX_DEPTH
  }

  // Paths ------------------------------------------------------------------------------------

  lemma {:induction false} PathRead(s: string, p: Printer, t: Path, v: bool, l: nat)
    requires Able(s, p, l) && PathAt(s, p.state.at, t, l, p.out.Some?)
    ensures PrintPath(s, p, v) == Went(p, |ManglePath(t)|, RenderPath(t, v, Alternate(p), l))
    decreases t, 4
  {
    hide PrintPath, PathBody, ManglePath, RenderPath, PathAt, Went;
    PathStart(s, p.state.at, t, l, p.out.Some?);
    PathEnter(s, p, v);
    PathBodyRead(s, p, t, v, l);
    Up(p, |ManglePath(t)| - 1, RenderPath(t, v, Alternate(p), l));
  }

  /** The run is past the tag of the path. */
  lemma {:induction false} PathBodyRead(s: string, p: Printer, t: Path, v: bool, l: nat)
    requires Opens(s, p, l) && PathAt(s, p.state.at, t, l, p.out.Some?)
    ensures PathBody(s, Down(p), ManglePath(t)[0], v) ==
            Went(Down(p), |ManglePath(t)| - 1, RenderPath(t, v, Alternate(p), l))
    decreases t, 3
  {
    hide CrateRoot, PrintPath, ImplPath, QualifiedSelf, GenericPath, PathBackref, NestedName, Namespace, RenderPath,
      PathAt, Went, MangleLabel, MangleType, MangleItems, Opt62, Base62;
    match t
    case Crate(_, _) => CrateRead(s, p, t, v, l);
    case Nested(_, _, _, _) => NestedRead(s, p, t, v, l);
    case InherentImpl(_, _, _) => ImplRead(s, p, t, v, l);
    case TraitImpl(_, _, _, _) => ImplRead(s, p, t, v, l);
    case TraitMember(_, _) => MemberRead(s, p, t, v, l);
    case Generic(_, _) => GenericRead(s, p, t, v, l);
    case PathBack(_, _) => PathBackRead(s, p, t, v, l);
  }

  lemma CrateRead(s: string, p: Printer, t: Path, v: bool, l: nat)
    requires Opens(s, p, l) && PathAt(s, p.state.at, t, l, p.out.Some?) && t.Crate?
    ensures CrateRoot(s, Down(p)) == Went(Down(p), |ManglePath(t)| - 1, RenderPath(t, v, Alternate(p), l))
  {
    hide CrateRoot, MangleLabel, ManglePath, PathAt, Went;
    CrateParts(s, p.state.at, t, l, p.out.Some?);
    CrateStep(s, Down(p), t.dis, t.name);
  }

  lemma {:induction false} NestedRead(s: string, p: Printer, t: Path, v: bool, l: nat)
    requires Opens(s, p, l) && PathAt(s, p.state.at, t, l, p.out.Some?) && t.Nested?
    ensures PathBody(s, Down(p), 'N', v) == Went(Down(p), |ManglePath(t)| - 1, RenderPath(t, v, Alternate(p), l))
    decreases t, 0
  {
    hide PrintPath, PathBody, Went, PathAt, ManglePath, MangleLabel, RenderType, RenderItems, Segment;
    NestedParts(s, p.state.at, t, l, p.out.Some?);
    PathRead(s, Went(Down(p), 1, []), t.parent, v, l);
    NestedStep(s, Down(p), v, t.ns, |ManglePath(t.parent)|, RenderPath(t.parent, v, Alternate(p), l), t.dis, t.name);
  }

  lemma {:induction false} ImplRead(s: string, p: Printer, t: Path, v: bool, l: nat)
    requires Opens(s, p, l) && PathAt(s, p.state.at, t, l, p.out.Some?) && (t.InherentImpl? || t.TraitImpl?)
    ensures ImplPath(s, Down(p), if t.InherentImpl? then 'M' else 'X') ==
            Went(Down(p), |ManglePath(t)| - 1, RenderPath(t, v, Alternate(p), l))
    decreases t, 2
  {
    hide PrintPath, ImplPath, QualifiedSelf, Went, PathAt, ManglePath, ImplTail, Opt62, RenderPath, Stands;
    ImplParts(s, p.state.at, t, l, p.out.Some?);
    StandsReads(s, p.state.at.next + 1, Opt62('s', t.dis));
    var q, k, m, xs := Down(p), |Opt62('s', t.dis)|, |ManglePath(t.own)|, RenderPath(t, v, Alternate(p), l);
    PathStart(s, Past(q.state.at, k), t.own, l, false);
    PathRead(s, Went(q, k, []).(out := None), t.own, false, l);
    ImplStep(s, q, if t.InherentImpl? then 'M' else 'X', t.dis, m, RenderPath(t.own, false, false, l));
    ImplSelfRead(s, p, t, v, l);
    After(q, k + m, |ImplTail(t)|, xs);
  }

  lemma {:induction false} ImplSelfRead(s: string, p: Printer, t: Path, v: bool, l: nat)
    requires Opens(s, p, l) && PathAt(s, p.state.at, t, l, p.out.Some?) && (t.InherentImpl? || t.TraitImpl?)
    requires Stands(s, p.state.at.next + 1 + |Opt62('s', t.dis)| + |ManglePath(t.own)|, ImplTail(t))
    ensures var q := Went(Down(p), |Opt62('s', t.dis)| + |ManglePath(t.own)|, []);
            && Wf(s, q)
            && QualifiedSelf(s, q, if t.InherentImpl? then 'M' else 'X') == Went(q, |ImplTail(t)|, RenderPath(t, v, Alternate(p), l))
    decreases t, 1
  {
    hide QualifiedSelf, Went, PathAt, TypeAt, ManglePath, MangleType, ImplTail, Opt62, RenderType, RenderItems,
      Reads;
    ImplTailParts(s, p.state.at, t, l, p.out.Some?);
    var q := Went(Down(p), |Opt62('s', t.dis)| + |ManglePath(t.own)|, []);
    TypeStart(s, q.state.at, t.ty, l, p.out.Some?);
    if t.InherentImpl? {
      InherentRead(s, q, t, l);
    } else {
      QualifiedRead(s, q, t, 'X', l);
    }
  }

  lemma {:induction false} InherentRead(s: string, p: Printer, t: Path, l: nat)
    requires Able(s, p, l) && t.InherentImpl? && TypeAt(s, p.state.at, t.ty, l, p.out.Some?)
    ensures QualifiedSelf(s, p, 'M') ==
            Went(p, |MangleType(t.ty)|, [Text("<")] + (RenderType(t.ty, Alternate(p), l) + [Text(">")]))
    decreases t, 0
  {
    hide PrintType, QualifiedSelf, MangleType, RenderType, TypeAt, Went;
    TypeRead(s, Went(p, 0, [Text("<")]), t.ty, l);
    InherentStep(s, p, |MangleType(t.ty)|, RenderType(t.ty, Alternate(p), l));
  }

  lemma {:induction false} QualifiedRead(s: string, p: Printer, t: Path, tag: char, l: nat)
    requires Able(s, p, l) && (t.TraitImpl? || t.TraitMember?) && TypeAt(s, p.state.at, t.ty, l, p.out.Some?) && tag != 'M'
    requires PathAt(s, Past(p.state.at, |MangleType(t.ty)|), t.bound, l, p.out.Some?)
    ensures QualifiedSelf(s, p, tag) ==
            Went(p, |MangleType(t.ty)| + |ManglePath(t.bound)|,
                 Qualified(RenderType(t.ty, Alternate(p), l), RenderPath(t.bound, false, Alternate(p), l)))
    decreases t, 0
  {
    hide PrintType, PrintPath, QualifiedSelf, MangleType, RenderType, ManglePath, RenderPath, TypeAt, PathAt, Went;
    var m, xs := |MangleType(t.ty)|, RenderType(t.ty, Alternate(p), l);
    TypeRead(s, Went(p, 0, [Text("<")]), t.ty, l);
    PathRead(s, Went(p, m, [Text("<")] + xs + [Text(" as ")]), t.bound, false, l);
    QualifiedStep(s, p, tag, m, xs, |ManglePath(t.bound)|, RenderPath(t.bound, false, Alternate(p), l));
  }

  lemma {:induction false} MemberRead(s: string, p: Printer, t: Path, v: bool, l: nat)
    requires Opens(s, p, l) && PathAt(s, p.state.at, t, l, p.out.Some?) && t.TraitMember?
    ensures QualifiedSelf(s, Down(p), 'Y') == Went(Down(p), |ManglePath(t)| - 1, RenderPath(t, v, Alternate(p), l))
    decreases t, 1
  {
    hide QualifiedSelf, Went, PathAt, TypeAt, ManglePath, MangleType, RenderType, RenderItems;
    MemberParts(s, p.state.at, t, l, p.out.Some?);
    QualifiedRead(s, Down(p), t, 'Y', l);
  }

  lemma {:induction false} GenericRead(s: string, p: Printer, t: Path, v: bool, l: nat)
    requires Opens(s, p, l) && PathAt(s, p.state.at, t, l, p.out.Some?) && t.Generic?
    ensures GenericPath(s, Down(p), v) == Went(Down(p), |ManglePath(t)| - 1, RenderPath(t, v, Alternate(p), l))
    decreases t, 0
  {
    hide PrintPath, PrintList, GenericPath, Went, PathAt, ItemsAt, ManglePath, MangleItems, RenderType, RenderItems;
    GenericParts(s, p.state.at, t, l, p.out.Some?);
    var q, m, n := Down(p), |ManglePath(t.base)|, |MangleItems(t.args)|;
    var xs, ys := RenderPath(t.base, v, Alternate(p), l), RenderItems(t.args, ", ", true, Alternate(p), l);
    var open := if v then [Text("::"), Text("<")] else [Text("<")];
    PathRead(s, q, t.base, v, l);
    ItemsRead(s, Went(q, m, xs + open), t.args, GenericArgs, 0, l);
    GenericStep(s, q, v, m, xs, open, n, ys);
  }

  lemma {:induction false} PathBackRead(s: string, p: Printer, t: Path, v: bool, l: nat)
    requires Opens(s, p, l) && PathAt(s, p.state.at, t, l, p.out.Some?) && t.PathBack?
    ensures PathBackref(s, Down(p), v) == Went(Down(p), |ManglePath(t)| - 1, RenderPath(t, v, Alternate(p), l))
    decreases t, 0
  {
    hide PathBackref, PrintPath, PathAt, ManglePath, RenderType, RenderItems, Base62, Went;
    PathBackParts(s, p.state.at, t, l, p.out.Some?);
    var q := Down(p);
    if p.out.Some? {
      PathRead(s, Target(q, t.to), t.path, v, l);
    }
    PathBackStep(s, q, v, t.to, |ManglePath(t.path)|, RenderPath(t.path, v, Alternate(p), l));
  }

  // Types ------------------------------------------------------------------------------------

  lemma {:induction false} TypeRead(s: string, p: Printer, t: Type, l: nat)
    requires Able(s, p, l) && TypeAt(s, p.state.at, t, l, p.out.Some?)
    ensures PrintType(s, p) == Went(p, |MangleType(t)|, RenderType(t, Alternate(p), l))
    decreases t, 3
  {
    hide PrintType, PrintPath, TypeBody, TypeAt, Went, ManglePath, MangleConst, MangleItems, MangleLifetime,
      MangleFn, Opt62, Base62, RenderType, BasicName, IsTypeTag;
    TypeStart(s, p.state.at, t, l, p.out.Some?);
    if t.Basic? {
      BasicStep(s, p, t.tag);
      BasicReading(t, Alternate(p), l);
    } else {
      if t.Adt? {
        AdtParts(s, p.state.at, t, l, p.out.Some?);
      }
      NotBasic(t);
      TypeEnter(s, p);
      if t.Adt? {
        AdtRead(s, p, t, l);
      } else {
        TypeBodyRead(s, p, t, l);
        Up(p, |MangleType(t)| - 1, RenderType(t, Alternate(p), l));
      }
    }
  }

  lemma BasicReading(t: Type, a: bool, l: nat)
    requires t.Basic?
    ensures RenderType(t, a, l) == [Text(BasicName(t.tag))]
  {
    hide BasicName;
  }

  lemma NotBasic(t: Type)
    requires !t.Basic? && (t.Adt? ==> !t.path.PathBack?)
    ensures !IsTag(MangleType(t)[0]) && (IsTypeTag(MangleType(t)[0]) <==> !t.Adt?)
  {
    hide MangleLabel, MangleConst, MangleItems, MangleLifetime, MangleFn, Opt62, Base62;
  }

  lemma {:induction false} AdtRead(s: string, p: Printer, t: Type, l: nat)
    requires Opens(s, p, l) && TypeAt(s, p.state.at, t, l, p.out.Some?) && t.Adt?
    ensures Leave(PrintPath(s, Deeper(p), false)) == Went(p, |MangleType(t)|, RenderType(t, Alternate(p), l))
    decreases t, 0
  {
    hide PrintPath, TypeAt, PathAt, MangleType, ManglePath, Went, RenderPath, RenderItems, RenderConst, RenderRef,
      RenderBinder, RenderFn, BasicName;
    AdtParts(s, p.state.at, t, l, p.out.Some?);
    PathRead(s, Deeper(p), t.path, false, l);
    Shallower(p, |ManglePath(t.path)|, RenderPath(t.path, false, Alternate(p), l));
  }

  /** The run is past the tag of the type. */
  lemma {:induction false} TypeBodyRead(s: string, p: Printer, t: Type, l: nat)
    requires Opens(s, p, l) && TypeAt(s, p.state.at, t, l, p.out.Some?) && !t.Basic? && !t.Adt?
    ensures TypeBody(s, Down(p), MangleType(t)[0]) == Went(Down(p), |MangleType(t)| - 1, RenderType(t, Alternate(p), l))
    decreases t, 2
  {
    hide PrintType, Reference, ArrayType, TupleType, FnType, DynTraits, DynBound, TypeBackref, TypeAt, Went,
      RenderType, MangleConst, MangleItems, MangleLifetime, MangleFn, Opt62, Base62, Say;
    match t
    case Array(_, _) => ArrayRead(s, p, t, l);
    case Slice(_) => SliceRead(s, p, t, l);
    case Tuple(_) => TupleRead(s, p, t, l);
    case Ref(_, _, _) => RefRead(s, p, t, l);
    case Pointer(_, _) => PointerRead(s, p, t, l);
    case Fn(_, _, _, _, _) => FnRead(s, p, t, l);
    case Dyn(_, _, _) => DynRead(s, p, t, l);
    case TypeBack(_, _) => TypeBackRead(s, p, t, l);
  }

  lemma {:induction false} ArrayRead(s: string, p: Printer, t: Type, l: nat)
    requires Opens(s, p, l) && TypeAt(s, p.state.at, t, l, p.out.Some?) && t.Array?
    ensures ArrayType(s, Down(p)) == Went(Down(p), |MangleType(t)| - 1, RenderType(t, Alternate(p), l))
    decreases t, 0
  {
    hide PrintType, PrintConst, ArrayType, TypeAt, ConstAt, Went, MangleType, MangleConst, RenderPath, RenderItems,
      RenderConst, RenderRef, RenderBinder, RenderFn, BasicName;
    ArrayParts(s, p.state.at, t, l, p.out.Some?);
    var q, m, n := Down(p), |MangleType(t.elem)|, |MangleConst(t.len)|;
    var xs, ys := RenderType(t.elem, Alternate(p), l), RenderConst(t.len, true, Alternate(p), l);
    TypeRead(s, Went(q, 0, [Text("[")]), t.elem, l);
    ConstRead(s, Went(q, m, [Text("[")] + (xs + [Text("; ")])), t.len, true, l);
    ArrayStep(s, q, m, xs, n, ys);
  }

  lemma {:induction false} SliceRead(s: string, p: Printer, t: Type, l: nat)
    requires Opens(s, p, l) && TypeAt(s, p.state.at, t, l, p.out.Some?) && t.Slice?
    ensures TypeBody(s, Down(p), 'S') == Went(Down(p), |MangleType(t)| - 1, RenderType(t, Alternate(p), l))
    decreases t, 0
  {
    hide PrintType, Reference, ArrayType, TupleType, FnType, DynTraits, DynBound, TypeBackref, TypeAt, Went,
      MangleType, RenderPath, RenderItems, RenderConst, RenderRef, RenderBinder, RenderFn, BasicName;
    ElemParts(s, p.state.at, t, l, p.out.Some?);
    TypeRead(s, Went(Down(p), 0, [Text("[")]), t.elem, l);
    Around(s, Down(p), [Text("[")], |MangleType(t.elem)|, RenderType(t.elem, Alternate(p), l), [Text("]")]);
  }

  lemma {:induction false} PointerRead(s: string, p: Printer, t: Type, l: nat)
    requires Opens(s, p, l) && TypeAt(s, p.state.at, t, l, p.out.Some?) && t.Pointer?
    ensures TypeBody(s, Down(p), if t.mutable then 'O' else 'P') ==
            Went(Down(p), |MangleType(t)| - 1, RenderType(t, Alternate(p), l))
    decreases t, 0
  {
    hide PrintType, Reference, ArrayType, TupleType, FnType, DynTraits, DynBound, TypeBackref, TypeAt, Went,
      MangleType, RenderPath, RenderItems, RenderConst, RenderRef, RenderBinder, RenderFn, BasicName;
    ElemParts(s, p.state.at, t, l, p.out.Some?);
    var head := [Text("*"), Text(if t.mutable then "mut " else "const ")];
    TypeRead(s, Went(Down(p), 0, head), t.elem, l);
    Around(s, Down(p), head, |MangleType(t.elem)|, RenderType(t.elem, Alternate(p), l), []);
  }

  lemma {:induction false} TupleRead(s: string, p: Printer, t: Type, l: nat)
    requires Opens(s, p, l) && TypeAt(s, p.state.at, t, l, p.out.Some?) && t.Tuple?
    ensures TupleType(s, Down(p)) == Went(Down(p), |MangleType(t)| - 1, RenderType(t, Alternate(p), l))
    decreases t, 0
  {
    hide PrintList, TupleType, TypeAt, ItemsAt, Went, MangleType, MangleItems, RenderPath, RenderItems, RenderConst,
      RenderRef, RenderBinder, RenderFn, RenderEnd, BasicName, Count;
    TupleParts(s, p.state.at, t, l, p.out.Some?);
    ItemsRead(s, Went(Down(p), 0, [Text("(")]), t.elems, Types, 0, l);
    TupleStep(s, Down(p), t.elems, |MangleItems(t.elems)|, RenderItems(t.elems, ", ", true, Alternate(p), l));
  }

  lemma {:induction false} RefRead(s: string, p: Printer, t: Type, l: nat)
    requires Opens(s, p, l) && TypeAt(s, p.state.at, t, l, p.out.Some?) && t.Ref?
    ensures Reference(s, Down(p), t.mutable) == Went(Down(p), |MangleType(t)| - 1, RenderType(t, Alternate(p), l))
    decreases t, 0
  {
    hide PrintType, Reference, TypeAt, Went, MangleType, MangleLifetime, RenderPath, RenderItems, RenderConst,
      RenderRef, RenderBinder, RenderFn, BasicName;
    RefParts(s, p.state.at, t, l, p.out.Some?);
    var q, k, head := Down(p), |MangleLifetime(t.lifetime)|, RenderRef(t.mutable, t.lifetime, l);
    TypeRead(s, Went(q, k, head), t.elem, l);
    RefStep(s, q, t.mutable, t.lifetime, l, |MangleType(t.elem)|, RenderType(t.elem, Alternate(p), l));
  }

  /** A function type after its binder. */
  ghost function RenderSig(t: Type, a: bool, l: nat): seq<Piece>
    requires t.Fn?
  {
    RenderFn(t.isUnsafe, t.abi)
    + (RenderItems(t.params, ", ", true, a, l)
       + if t.ret == Basic('u') then [Text(")")] else [Text(")"), Text(" -> ")] + RenderType(t.ret, a, l))
  }

  lemma FnReading(t: Type, a: bool, l: nat)
    requires t.Fn?
    ensures RenderType(t, a, l) == RenderBinder(l, t.binder) + RenderSig(t, a, l + t.binder)
  {
    hide RenderPath, RenderItems, RenderConst, RenderRef, RenderBinder, RenderFn, BasicName;
  }

  lemma {:induction false} FnRead(s: string, p: Printer, t: Type, l: nat)
    requires Opens(s, p, l) && TypeAt(s, p.state.at, t, l, p.out.Some?) && t.Fn?
    ensures FnType(s, Down(p)) == Went(Down(p), |MangleType(t)| - 1, RenderType(t, Alternate(p), l))
    decreases t, 1
  {
    hide FnType, FnSig, FnRest, TypeAt, ItemsAt, Went, MangleType, MangleItems, MangleFn, Opt62, RenderType,
      RenderSig, RenderBinder, Reads, AbiText;
    FnParts(s, p.state.at, t, l, p.out.Some?);
    FnReading(t, Alternate(p), l);
    var q, g, f := Down(p), |Opt62('G', t.binder)|, |MangleFn(t.isUnsafe, t.abi)|;
    var n, xs := |MangleItems(t.params)| + |MangleType(t.ret)|, RenderSig(t, Alternate(p), l + t.binder);
    var r := Inside(Went(q, g, []), t.binder, l);
    ItemsStart(s, Past(q.state.at, g + f), t.params, Types, l + t.binder, p.out.Some?);
    HeadBegins(s, q.state.at.next + g, t.isUnsafe, t.abi);
    NoTag();
    SigStep(s, r, t.isUnsafe, t.abi);
    SigRead(s, Went(r, f, []), t, l + t.binder);
    After(r, f, n, xs);
    FnStep(s, q, t.binder, l, f + n, xs);
  }

  lemma {:induction false} SigRead(s: string, p: Printer, t: Type, l: nat)
    requires Able(s, p, l) && t.Fn? && ItemsAt(s, p.state.at, t.params, Types, l, p.out.Some?)
    requires TypeAt(s, Past(p.state.at, |MangleItems(t.params)|), t.ret, l, p.out.Some?)
    ensures FnRest(s, p, t.isUnsafe, AbiText(t.abi)) ==
            Went(p, |MangleItems(t.params)| + |MangleType(t.ret)|, RenderSig(t, Alternate(p), l))
    decreases t, 0
  {
    hide PrintList, PrintType, FnRest, TypeAt, ItemsAt, Went, MangleType, MangleItems, RenderItems, RenderFn,
      RenderType, AbiText;
    var head, m := RenderFn(t.isUnsafe, t.abi), |MangleItems(t.params)|;
    var xs, ys := RenderItems(t.params, ", ", true, Alternate(p), l), RenderType(t.ret, Alternate(p), l);
    ItemsRead(s, Went(p, 0, head), t.params, Types, 0, l);
    var q := Went(p, m, head + (xs + [Text(")")]));
    TypeStart(s, q.state.at, t.ret, l, p.out.Some?);
    ReturnFirst(t.ret);
    if t.ret == Basic('u') {
      RestStep(s, p, t.isUnsafe, t.abi, m, xs, [], 1);
      assert head + (xs + [Text(")")]) + [] == head + (xs + [Text(")")]);
    } else {
      TypeRead(s, Went(q, 0, [Text(" -> ")]), t.ret, l);
      Further(q, 0, [Text(" -> ")], |MangleType(t.ret)|, ys);
      RestStep(s, p, t.isUnsafe, t.abi, m, xs, [Text(" -> ")] + ys, |MangleType(t.ret)|);
      ArrowShown(head, xs, ys);
    }
  }

  lemma ArrowShown(head: seq<Piece>, xs: seq<Piece>, ys: seq<Piece>)
    ensures head + (xs + [Text(")")]) + ([Text(" -> ")] + ys) == head + (xs + ([Text(")"), Text(" -> ")] + ys))
  {
    assert [Text(")")] + [Text(" -> ")] == [Text(")"), Text(" -> ")];
  }

  lemma ReturnFirst(t: Type)
    ensures MangleType(t)[0] == 'u' <==> t == Basic('u')
    ensures t == Basic('u') ==> |MangleType(t)| == 1
  {
    hide ManglePath, MangleConst, MangleItems, MangleLifetime, MangleFn, Opt62, Base62;
  }

  lemma {:induction false} DynRead(s: string, p: Printer, t: Type, l: nat)
    requires Opens(s, p, l) && TypeAt(s, p.state.at, t, l, p.out.Some?) && t.Dyn?
    ensures TypeBody(s, Down(p), 'D') == Went(Down(p), |MangleType(t)| - 1, RenderType(t, Alternate(p), l))
    decreases t, 0
  {
    hide PrintType, PrintList, Reference, ArrayType, TupleType, FnType, DynTraits, DynBound, TypeBackref, TypeAt,
      ItemsAt, Went, MangleType, MangleItems, Opt62, Base62, RenderType, RenderItems, RenderBinder, RenderLifetime,
      Stands, Say;
    DynParts(s, p.state.at, t, l, p.out.Some?);
    var q, g, n := Went(Down(p), 0, [Text("dyn ")]), |Opt62('G', t.binder)|, |MangleItems(t.bounds)|;
    var xs := RenderItems(t.bounds, " + ", true, Alternate(p), l + t.binder);
    var end := if t.bound == 0 then [] else [Text(" + ")] + RenderLifetime(t.bound, l);
    ItemsStart(s, Past(q.state.at, g), t.bounds, Traits, l + t.binder, p.out.Some?);
    NoTag();
    Still(Down(p), [Text("dyn ")]);
    ItemsRead(s, Inside(Went(q, g, []), t.binder, l), t.bounds, Traits, 0, l + t.binder);
    DynTraitsStep(s, q, t.binder, l, n, xs);
    var r := Went(q, g + n, RenderBinder(l, t.binder) + xs);
    StandsReads(s, r.state.at.next, "L" + Base62(t.bound));
    DynBoundStep(s, r, t.bound, l);
    Further(q, g + n, RenderBinder(l, t.binder) + xs, 1 + |Base62(t.bound)|, end);
    Further(Down(p), 0, [Text("dyn ")], |MangleType(t)| - 1, RenderBinder(l, t.binder) + xs + end);
    DynReading(t, Alternate(p), l, xs, end);
  }

  lemma DynReading(t: Type, a: bool, l: nat, xs: seq<Piece>, end: seq<Piece>)
    requires t.Dyn? && xs == RenderItems(t.bounds, " + ", true, a, l + t.binder)
    requires end == if t.bound == 0 then [] else [Text(" + ")] + RenderLifetime(t.bound, l)
    ensures RenderType(t, a, l) == [Text("dyn ")] + (RenderBinder(l, t.binder) + xs + end)
  {
    hide RenderPath, RenderItems, RenderConst, RenderRef, RenderBinder, RenderFn, BasicName, RenderLifetime;
    assert RenderBinder(l, t.binder) + xs + end == RenderBinder(l, t.binder) + (xs + end);
  }

  lemma {:induction false} TypeBackRead(s: string, p: Printer, t: Type, l: nat)
    requires Opens(s, p, l) && TypeAt(s, p.state.at, t, l, p.out.Some?) && t.TypeBack?
    ensures TypeBackref(s, Down(p)) == Went(Down(p), |MangleType(t)| - 1, RenderType(t, Alternate(p), l))
    decreases t, 0
  {
    hide TypeBackref, PrintType, TypeAt, MangleType, Base62, Went, RenderPath, RenderItems, RenderConst, RenderRef,
      RenderBinder, RenderFn, BasicName;
    TypeBackParts(s, p.state.at, t, l, p.out.Some?);
    if p.out.Some? {
      TypeRead(s, Target(Down(p), t.to), t.ty, l);
    }
    TypeBackStep(s, Down(p), t.to, |MangleType(t.ty)|, RenderType(t.ty, Alternate(p), l));
  }

  // Lists ------------------------------------------------------------------------------------

  lemma {:induction false} ItemsRead(s: string, p: Printer, xs: Items, kind: Kind, i: nat, l: nat)
    requires Able(s, p, l) && ItemsAt(s, p.state.at, xs, kind, l, p.out.Some?)
    ensures PrintList(s, p, kind, i) ==
            (Went(p, |MangleItems(xs)|, RenderItems(xs, Separator(kind), i == 0, Alternate(p), l)), i + Count(xs))
    decreases xs
  {
    hide PrintList, PrintItem, ItemsAt, ItemAt, Went, MangleItem, RenderItem, Separator;
    ItemsStart(s, p.state.at, xs, kind, l, p.out.Some?);
    if xs.Nil? {
      NilStep(s, p, kind, i);
    } else {
      hide MangleItems;
      ConsParts(s, p.state.at, xs, kind, l, p.out.Some?);
      var m, n := |MangleItem(xs.head)|, |MangleItems(xs.tail)|;
      var sep, ys := if i == 0 then [] else [Text(Separator(kind))], RenderItem(xs.head, Alternate(p), l);
      ItemsStart(s, Past(p.state.at, m), xs.tail, kind, l, p.out.Some?);
      ItemRead(s, Went(p, 0, sep), xs.head, kind, l);
      ItemsRead(s, Went(p, m, sep + ys), xs.tail, kind, i + 1, l);
      ConsStep(s, p, kind, i, sep, m, ys, n, RenderItems(xs.tail, Separator(kind), false, Alternate(p), l), i + Count(xs));
    }
  }

  lemma {:induction false} ItemRead(s: string, p: Printer, x: Item, kind: Kind, l: nat)
    requires Able(s, p, l) && ItemAt(s, p.state.at, x, kind, l, p.out.Some?)
    requires kind == Traits ==> !Sees(s, Past(p.state.at, |MangleItem(x)|), 'p')
    ensures PrintItem(s, p, kind) == Went(p, |MangleItem(x)|, RenderItem(x, Alternate(p), l))
    decreases x, 1
  {
    hide PrintItem, PrintType, PrintConst, Went, ManglePath, MangleType, MangleConst, MangleLabel, MangleBindings,
      Base62, RenderType, RenderConst, RenderLifetime, RenderOpen, RenderBindings, OpenFits, BindingsFit, TypeFits,
      ConstFits, Reads, ConstAt;
    match x
    case LifetimeArg(index) => LifetimeArgStep(s, p, index, l);
    case ConstArg(value) =>
      ConstArgParts(s, p.state.at, x, kind, l, p.out.Some?);
      ConstRead(s, Went(p, 1, []), value, false, l);
      ConstArgStep(s, p, |MangleConst(value)|, RenderConst(value, false, Alternate(p), l));
    case TypeItem(ty) =>
      TypeStart(s, p.state.at, ty, l, p.out.Some?);
      TypeItemStep(s, p, kind);
      TypeRead(s, p, ty, l);
    case TraitItem(_, _) => TraitRead(s, p, x, l);
    case ConstItem(value) =>
      ConstItemStep(s, p);
      IsConst(s, p.state.at, value, l, p.out.Some?);
      ConstRead(s, p, value, true, l);
    case FieldItem(dis, name, value) =>
      FieldParts(s, p.state.at, x, kind, l, p.out.Some?);
      ConstStart(s, Past(p.state.at, |MangleLabel(dis, name)|), value, l, p.out.Some?);
      ConstRead(s, Went(p, |MangleLabel(dis, name)|, [Name(name), Text(": ")]), value, true, l);
      FieldStep(s, p, dis, name, |MangleConst(value)|, RenderConst(value, true, Alternate(p), l));
  }

  lemma IsConst(s: string, at: Pos, t: Const, l: nat, shown: bool)
    requires Stands(s, at.next, MangleConst(t)) && ConstFits(s, at, t, l, shown)
    ensures ConstAt(s, at, t, l, shown)
  {
  }

  // Trait objects ----------------------------------------------------------------------------

  lemma {:induction false} TraitRead(s: string, p: Printer, x: Item, l: nat)
    requires Able(s, p, l) && x.TraitItem? && ItemAt(s, p.state.at, x, Traits, l, p.out.Some?)
    requires !Sees(s, Past(p.state.at, |MangleItem(x)|), 'p')
    ensures PrintItem(s, p, Traits) == Went(p, |MangleItem(x)|, RenderItem(x, Alternate(p), l))
    decreases x, 0
  {
    hide PrintItem, PrintOpenPath, Projections, Went, ItemAt, OpenAt, BindingsAt, MangleItem, ManglePath,
      MangleBindings, RenderType, RenderConst, RenderOpen, RenderBindings, EndsOpen;
    TraitParts(s, p.state.at, x, Traits, l, p.out.Some?);
    var m, n, open := |ManglePath(x.path)|, |MangleBindings(x.bindings)|, PrintOpenPath(s, p).1;
    var xs := RenderOpen(x.path, Alternate(p), l);
    OpenRead(s, p, x.path, l);
    BindingsRead(s, Went(p, m, xs), x.bindings, open, l);
    TraitStep(s, p, m, xs, open, n, RenderBindings(x.bindings, open, Alternate(p), l));
    if p.out.None? {
      Silent(p, m + n, xs + RenderBindings(x.bindings, open, Alternate(p), l), RenderItem(x, Alternate(p), l));
    }
  }

  lemma {:induction false} OpenRead(s: string, p: Printer, t: Path, l: nat)
    requires Able(s, p, l) && OpenAt(s, p.state.at, t, l, p.out.Some?)
    ensures PrintOpenPath(s, p).0 == Went(p, |ManglePath(t)|, RenderOpen(t, Alternate(p), l))
    ensures p.out.Some? ==> PrintOpenPath(s, p).1 == EndsOpen(t)
    decreases t, 5
  {
    hide PrintOpenPath, PrintPath, PrintList, Went, PathAt, OpenAt, ItemsAt, ManglePath, MangleItems, Base62,
      RenderPath, RenderItems;
    OpenStart(s, p.state.at, t, l, p.out.Some?);
    match t
    case PathBack(to, path) =>
      OpenBackParts(s, p.state.at, t, l, p.out.Some?);
      if p.out.Some? {
        OpenRead(s, Target(p, to), path, l);
      }
      OpenBackStep(s, p, to, |ManglePath(path)|, RenderOpen(path, Alternate(p), l), EndsOpen(path));
    case Generic(base, args) =>
      OpenGenericParts(s, p.state.at, t, l, p.out.Some?);
      var m, xs := |ManglePath(base)|, RenderPath(base, false, Alternate(p), l);
      PathRead(s, Went(p, 1, []), base, false, l);
      ItemsRead(s, Went(p, 1 + m, xs + [Text("<")]), args, GenericArgs, 0, l);
      OpenGenericStep(s, p, m, xs, |MangleItems(args)|, RenderItems(args, ", ", true, Alternate(p), l));
    case _ =>
      PlainPath(s, p.state.at, t, l, p.out.Some?);
      OpenPlainStep(s, p);
      PathRead(s, p, t, false, l);
  }

  lemma PlainPath(s: string, at: Pos, t: Path, l: nat, shown: bool)
    requires OpenAt(s, at, t, l, shown) && !t.PathBack? && !t.Generic?
    ensures PathAt(s, at, t, l, shown)
  {
    hide PathFits, ItemsFit, ManglePath;
  }

  lemma {:induction false} BindingsRead(s: string, p: Printer, b: Bindings, open: bool, l: nat)
    requires Able(s, p, l) && BindingsAt(s, p.state.at, b, l, p.out.Some?)
    ensures Projections(s, p, open) == Went(p, |MangleBindings(b)|, RenderBindings(b, open, Alternate(p), l))
    decreases b
  {
    hide Projections, PrintType, Went, TypeAt, Mangled, MangleType, RenderType, Stands, BindingsFit, IsLabel;
    if b.Unbound? {
      UnboundStep(s, p, open);
    } else {
      hide MangleBindings, BindingsAt;
      BindingParts(s, p.state.at, b, l, p.out.Some?);
      var k, m, n := 1 + |Mangled(b.name)|, |MangleType(b.ty)|, |MangleBindings(b.rest)|;
      var head, xs := [Text(if open then ", " else "<"), Name(b.name), Text(" = ")], RenderType(b.ty, Alternate(p), l);
      TypeRead(s, Went(p, k, head), b.ty, l);
      BindingsRead(s, Went(p, k + m, head + xs), b.rest, true, l);
      BindingStep(s, p, open, b.name, m, xs, n, RenderBindings(b.rest, true, Alternate(p), l));
    }
  }

  // Constants --------------------------------------------------------------------------------

  lemma {:induction false} ConstRead(s: string, p: Printer, t: Const, v: bool, l: nat)
    requires Able(s, p, l) && ConstAt(s, p.state.at, t, l, p.out.Some?)
    ensures PrintConst(s, p, v) == Went(p, |MangleConst(t)|, RenderConst(t, v, Alternate(p), l))
    decreases t, 2
  {
    hide PrintConst, ConstBody, ConstAt, Went, MangleConst, RenderConst;
    ConstStart(s, p.state.at, t, l, p.out.Some?);
    ConstEnter(s, p, v);
    ConstBodyRead(s, p, t, v, l);
    Up(p, |MangleConst(t)| - 1, RenderConst(t, v, Alternate(p), l));
  }

  /** The run is past the tag of the constant. */
  lemma {:induction false} ConstBodyRead(s: string, p: Printer, t: Const, v: bool, l: nat)
    requires Opens(s, p, l) && ConstAt(s, p.state.at, t, l, p.out.Some?)
    ensures ConstBody(s, Down(p), MangleConst(t)[0], v) ==
            Went(Down(p), |MangleConst(t)| - 1, RenderConst(t, v, Alternate(p), l))
    decreases t, 1
  {
    hide ConstBody, ConstAt, Went, RenderConst, ManglePath, MangleItems, Text16, Pairs16, Utf8.Encode, Base62;
    match t
    case Borrow(_, _) => BorrowRead(s, p, t, v, l);
    case List(_) => ListRead(s, p, t, v, l);
    case Group(_) => ListRead(s, p, t, v, l);
    case UnitStruct(_) => UnitRead(s, p, t, v, l);
    case TupleStruct(_, _) => FieldsRead(s, p, t, v, l);
    case Struct(_, _) => FieldsRead(s, p, t, v, l);
    case ConstBack(_, _) => ConstBackRead(s, p, t, v, l);
    case _ => LiteralRead(s, p, t, v, l);
  }

  lemma LiteralRead(s: string, p: Printer, t: Const, v: bool, l: nat)
    requires Opens(s, p, l) && ConstAt(s, p.state.at, t, l, p.out.Some?)
    requires t.Inferred? || t.Int? || t.Bool? || t.Char? || t.Str?
    ensures ConstBody(s, Down(p), MangleConst(t)[0], v) ==
            Went(Down(p), |MangleConst(t)| - 1, RenderConst(t, v, Alternate(p), l))
  {
    hide ConstBody, Went, ManglePath, MangleItems, Text16, Pairs16, Utf8.Encode, Base62, RenderItems, RenderNumber,
      BasicName, Braced, Reads;
    TailParts(s, p.state.at, t, l, p.out.Some?);
    var q := Down(p);
    match t
    case Inferred => InferredStep(s, q, v);
    case Int(tag, negative, n) => IntStep(s, q, tag, negative, n, v);
    case Bool(b) => BoolStep(s, q, b, v);
    case Char(c) => CharStep(s, q, c, v);
    case Str(chars) => StrStep(s, q, chars, v);
  }

  lemma {:induction false} BorrowRead(s: string, p: Printer, t: Const, v: bool, l: nat)
    requires Opens(s, p, l) && ConstAt(s, p.state.at, t, l, p.out.Some?) && t.Borrow?
    ensures ConstBody(s, Down(p), if t.mutable then 'Q' else 'R', v) ==
            Went(Down(p), |MangleConst(t)| - 1, RenderConst(t, v, Alternate(p), l))
    decreases t, 0
  {
    hide PrintConst, ConstBody, ConstAt, Went, Open, Braced, RenderPath, RenderItems, RenderNumber, BasicName,
      Pairs16, Utf8.Encode;
    var q := Down(p);
    if !t.mutable && t.value.Str? {
      TailParts(s, p.state.at, t, l, p.out.Some?);
      BorrowStrStep(s, q, t.value.chars, v);
    } else {
      hide MangleConst;
      BorrowParts(s, p.state.at, t, l, p.out.Some?);
      var sigil := if t.mutable then [Text("&"), Text("mut ")] else [Text("&")];
      ConstRead(s, Went(q, 0, Open(v) + sigil), t.value, true, l);
      BorrowStep(s, q, t.mutable, v, |MangleConst(t.value)|, RenderConst(t.value, true, Alternate(p), l), sigil);
    }
  }

  lemma {:induction false} ListRead(s: string, p: Printer, t: Const, v: bool, l: nat)
    requires Opens(s, p, l) && ConstAt(s, p.state.at, t, l, p.out.Some?) && (t.List? || t.Group?)
    ensures ConstBody(s, Down(p), if t.List? then 'A' else 'T', v) ==
            Went(Down(p), |MangleConst(t)| - 1, RenderConst(t, v, Alternate(p), l))
    decreases t, 0
  {
    hide PrintList, ConstBody, ConstAt, ItemsAt, Went, Open, Braced, MangleConst, MangleItems, RenderPath,
      RenderItems, RenderNumber, RenderEnd, BasicName, Count;
    ElemsParts(s, p.state.at, t, l, p.out.Some?);
    var q, m, xs := Down(p), |MangleItems(t.elems)|, RenderItems(t.elems, ", ", true, Alternate(p), l);
    ItemsRead(s, Went(q, 0, Open(v) + [Text(if t.List? then "[" else "(")]), t.elems, Consts, 0, l);
    if t.List? {
      ListStep(s, q, v, m, xs);
    } else {
      GroupStep(s, q, v, t.elems, m, xs);
    }
  }

  lemma {:induction false} UnitRead(s: string, p: Printer, t: Const, v: bool, l: nat)
    requires Opens(s, p, l) && ConstAt(s, p.state.at, t, l, p.out.Some?) && t.UnitStruct?
    ensures ConstBody(s, Down(p), 'V', v) == Went(Down(p), |MangleConst(t)| - 1, RenderConst(t, v, Alternate(p), l))
    decreases t, 0
  {
    hide PrintPath, ConstBody, ConstAdt, ConstAt, PathAt, Went, Open, Braced, MangleConst, ManglePath, RenderPath,
      RenderItems, RenderNumber, BasicName;
    UnitParts(s, p.state.at, t, l, p.out.Some?);
    var q, m, xs := Down(p), |ManglePath(t.path)|, RenderPath(t.path, true, Alternate(p), l);
    PathRead(s, Went(q, 0, Open(v)), t.path, true, l);
    AdtStep(s, q, v, m, xs);
    UnitStep(s, q, v, m, xs);
  }

  lemma {:induction false} FieldsRead(s: string, p: Printer, t: Const, v: bool, l: nat)
    requires Opens(s, p, l) && ConstAt(s, p.state.at, t, l, p.out.Some?) && (t.TupleStruct? || t.Struct?)
    ensures ConstBody(s, Down(p), 'V', v) == Went(Down(p), |MangleConst(t)| - 1, RenderConst(t, v, Alternate(p), l))
    decreases t, 0
  {
    hide PrintPath, PrintList, ConstBody, ConstAdt, ConstAt, PathAt, ItemsAt, Went, Open, Braced, MangleConst,
      ManglePath, MangleItems, RenderPath, RenderItems, RenderNumber, BasicName;
    FieldsParts(s, p.state.at, t, l, p.out.Some?);
    var q, m, xs, kind := Down(p), |ManglePath(t.path)|, RenderPath(t.path, true, Alternate(p), l), if t.Struct? then FieldInits else Consts;
    PathRead(s, Went(q, 0, Open(v)), t.path, true, l);
    AdtStep(s, q, v, m, xs);
    ItemsRead(s, Went(q, m + 1, Open(v) + xs + [Text(if t.Struct? then " { " else "(")]), t.fields, kind, 0, l);
    FieldsStep(s, q, v, m, xs, t.Struct?, |MangleItems(t.fields)|, RenderItems(t.fields, ", ", true, Alternate(p), l));
  }

  lemma {:induction false} ConstBackRead(s: string, p: Printer, t: Const, v: bool, l: nat)
    requires Opens(s, p, l) && ConstAt(s, p.state.at, t, l, p.out.Some?) && t.ConstBack?
    ensures ConstBody(s, Down(p), 'B', v) == Went(Down(p), |MangleConst(t)| - 1, RenderConst(t, v, Alternate(p), l))
    decreases t, 0
  {
    hide PrintConst, ConstBody, ConstAt, MangleConst, Base62, Went, RenderPath, RenderItems, RenderNumber,
      BasicName, Braced;
    ConstBackParts(s, p.state.at, t, l, p.out.Some?);
    if p.out.Some? {
      ConstRead(s, Target(Down(p), t.to), t.value, v, l);
    }
    ConstBackStep(s, Down(p), v, t.to, |MangleConst(t.value)|, RenderConst(t.value, v, Alternate(p), l));
  }
}
