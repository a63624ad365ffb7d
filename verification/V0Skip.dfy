/** Skipping agrees with printing: a run that prints scans exactly as a run that does not, except
    that it fails where a lifetime index is out of range, which only printing looks at. */
module V0Skip {
  import opened Common
  import opened V0Parser
  import opened V0Printer
  import opened V0Faults

  /** A printing or skipping run and a skipping run at the same place. */
  ghost predicate Beside(s: string, p: Printer, q: Printer) {
    Wf(s, p) && Skips(s, q) && p.state == q.state
  }

  /** The two have come to the same place, unless printing met a loose lifetime and failed. */
  ghost predicate Tied(p: Printer, q: Printer, loose: bool) {
    if p.out.Some? && loose then p.state.Failed? else p.state == q.state
  }

  // Paths ------------------------------------------------------------------------------------

  /** Whether the path is in a value changes the text only. */
  lemma {:induction false} PathTied(s: string, p: Printer, q: Printer, v: bool, w: bool)
    requires Beside(s, p, q)
    ensures Tied(PrintPath(s, p, v), PrintPath(s, q, w), FaultPath(s, q, w, p.lifetimes, false))
    decreases Budget(q), Left(s, q), 1
  {
    hide PathBody, FaultPathBody;
    if q.state.Scanning? {
      match PushDepth(q.state.at)
      case Bad(_) =>
      case Got(_, inner) =>
        match Next(s, inner)
        case Bad(_) =>
        case Got(tag, at) => PathBodyTied(s, At(p, at), At(q, at), tag, v, w);
    }
  }

  lemma {:induction false} PathBodyTied(s: string, p: Printer, q: Printer, tag: char, v: bool, w: bool)
    requires Beside(s, p, q) && q.state.Scanning? && q.state.at.next > 0
    ensures Tied(PathBody(s, p, tag, v), PathBody(s, q, tag, w), FaultPathBody(s, q, tag, w, p.lifetimes, false))
    decreases Budget(q), Left(s, q), 9
  {
    hide PrintPath, CrateRoot, NestedName, ImplPath, QualifiedSelf, GenericPath, PathBackref, PrintList, Namespace,
      FaultPath, FaultImpl, FaultSelf, FaultList;
    match tag
    case 'C' => CrateRootTied(s, p, q);
    case 'N' =>
      match Namespace(s, q.state.at) {
        case Bad(_) =>
        case Got(ns, at) =>
          PathTied(s, At(p, at), At(q, at), v, w);
          NestedNameTied(s, PrintPath(s, At(p, at), v), PrintPath(s, At(q, at), w), ns);
      }
    case 'M' => ImplPathTied(s, p, q, tag);
    case 'X' => ImplPathTied(s, p, q, tag);
    case 'Y' => QualifiedSelfTied(s, p, q, tag);
    case 'I' => GenericPathTied(s, p, q, v, w);
    case 'B' => PathBackrefTied(s, p, q, v, w);
    case _ =>
  }

  lemma {:induction false} GenericPathTied(s: string, p: Printer, q: Printer, v: bool, w: bool)
    requires Beside(s, p, q) && q.state.Scanning?
    ensures Tied(GenericPath(s, p, v), GenericPath(s, q, w),
                 FaultPath(s, q, w, p.lifetimes, false) || FaultList(s, PrintPath(s, q, w), GenericArgs, p.lifetimes, false))
    decreases Budget(q), Left(s, q), 8
  {
    hide PrintPath, PrintList, FaultPath, FaultList;
    PathTied(s, p, q, v, w);
    var p1 := Say(PrintPath(s, p, v), if v then [Text("::"), Text("<")] else [Text("<")]);
    var q1 := PrintPath(s, q, w);
    if p1.state == q1.state { ListTied(s, p1, q1, GenericArgs, 0); }
  }

  lemma PathBackrefTied(s: string, p: Printer, q: Printer, v: bool, w: bool)
    requires Beside(s, p, q) && q.state.Scanning? && q.state.at.next > 0
    ensures PathBackref(s, p, v).state == PathBackref(s, q, w).state
  {
    hide PrintPath, Backref;
  }

  lemma CrateRootTied(s: string, p: Printer, q: Printer)
    requires Beside(s, p, q) && q.state.Scanning?
    ensures CrateRoot(s, p).state == CrateRoot(s, q).state
  {
    hide Disambiguator, ScanIdent;
  }

  lemma NestedNameTied(s: string, p: Printer, q: Printer, ns: Option<char>)
    requires Wf(s, p) && Skips(s, q)
    ensures p.state == q.state ==> NestedName(s, p, ns).state == NestedName(s, q, ns).state
    ensures p.state.Failed? ==> NestedName(s, p, ns).state.Failed?
  {
    hide Disambiguator, ScanIdent, NestedText;
  }

  lemma {:induction false} ImplPathTied(s: string, p: Printer, q: Printer, tag: char)
    requires Beside(s, p, q) && q.state.Scanning?
    ensures Tied(ImplPath(s, p, tag), ImplPath(s, q, tag), FaultImpl(s, q, tag, p.lifetimes, false))
    decreases Budget(q), Left(s, q), 8
  {
    hide PrintPath, QualifiedSelf, Disambiguator, FaultPath, FaultSelf;
    match Disambiguator(s, q.state.at)
    case Bad(_) =>
    case Got(_, at) =>
      var p1, q1 := At(p, at).(out := None), At(q, at);
      PathTied(s, p1, q1, false, false);
      QualifiedSelfTied(s, PrintPath(s, p1, false).(out := p.out), PrintPath(s, q1, false), tag);
  }

  lemma {:induction false} QualifiedSelfTied(s: string, p: Printer, q: Printer, tag: char)
    requires Beside(s, p, q)
    ensures Tied(QualifiedSelf(s, p, tag), QualifiedSelf(s, q, tag), FaultSelf(s, q, tag, p.lifetimes, false))
    decreases Budget(q), Left(s, q), 7
  {
    hide PrintPath, PrintType, FaultPath, FaultType;
    var p1 := Say(p, [Text("<")]);
    TypeTied(s, p1, q);
    var p2, q2 := Say(PrintType(s, p1), [Text(" as ")]), PrintType(s, q);
    if p2.state == q2.state { PathTied(s, p2, q2, false, false); }
  }

  // Lists ------------------------------------------------------------------------------------

  lemma {:induction false} ListTied(s: string, p: Printer, q: Printer, kind: Kind, i: nat)
    requires Beside(s, p, q)
    ensures Tied(PrintList(s, p, kind, i).0, PrintList(s, q, kind, i).0, FaultList(s, q, kind, p.lifetimes, false))
    decreases Budget(q), Left(s, q), 6
  {
    hide PrintItem, FaultItem;
    if q.state.Scanning? && !Eats(s, q, 'E') {
      var p1 := Say(p, if i > 0 then [Text(Separator(kind))] else []);
      ItemTied(s, p1, q, kind);
      var p2, q2 := PrintItem(s, p1, kind), PrintItem(s, q, kind);
      if p2.state == q2.state { ListTied(s, p2, q2, kind, i + 1); }
    }
  }

  lemma {:induction false} ItemTied(s: string, p: Printer, q: Printer, kind: Kind)
    requires Beside(s, p, q)
    ensures Tied(PrintItem(s, p, kind), PrintItem(s, q, kind), FaultItem(s, q, kind, p.lifetimes, false))
    decreases Budget(q), Left(s, q), 5
  {
    hide PrintGenericArg, PrintType, PrintTrait, PrintConst, PrintFieldInit,
      FaultArg, FaultType, FaultTrait, FaultConst, FaultField;
    match kind
    case GenericArgs => GenericArgTied(s, p, q);
    case Types => TypeTied(s, p, q);
    case Traits => TraitTied(s, p, q);
    case Consts => ConstTied(s, p, q, true);
    case FieldInits => FieldInitTied(s, p, q);
  }

  lemma {:induction false} GenericArgTied(s: string, p: Printer, q: Printer)
    requires Beside(s, p, q)
    ensures Tied(PrintGenericArg(s, p), PrintGenericArg(s, q), FaultArg(s, q, p.lifetimes, false))
    decreases Budget(q), Left(s, q), 4
  {
    hide PrintConst, PrintType, PrintLifetime, Integer62, FaultConst, FaultType;
    if Eats(s, q, 'L') {
    } else if Eats(s, q, 'K') {
      ConstTied(s, Eaten(p), Eaten(q), false);
    } else {
      TypeTied(s, p, q);
    }
  }

  lemma {:induction false} FieldInitTied(s: string, p: Printer, q: Printer)
    requires Beside(s, p, q)
    ensures Tied(PrintFieldInit(s, p), PrintFieldInit(s, q), FaultField(s, q, p.lifetimes, false))
    decreases Budget(q), Left(s, q), 4
  {
    hide PrintConst, Disambiguator, ScanIdent, FaultConst;
    if q.state.Scanning? {
      match Disambiguator(s, q.state.at)
      case Bad(_) =>
      case Got(_, at) =>
        match ScanIdent(s, at)
        case Bad(_) =>
        case Got(name, after) => ConstTied(s, Say(At(p, after), [Name(name), Text(": ")]), At(q, after), true);
    }
  }

  // Types ------------------------------------------------------------------------------------

  lemma {:induction false} TypeTied(s: string, p: Printer, q: Printer)
    requires Beside(s, p, q)
    ensures Tied(PrintType(s, p), PrintType(s, q), FaultType(s, q, p.lifetimes, false))
    decreases Budget(q), Left(s, q), 2
  {
    hide TypeBody, PrintPath, BasicType, IsTypeTag, FaultTypeBody, FaultPath;
    if q.state.Scanning? {
      match Next(s, q.state.at)
      case Bad(_) =>
      case Got(tag, at) =>
        match PushDepth(at)
        case Bad(_) =>
        case Got(_, inner) =>
          if IsTypeTag(tag) {
            TypeBodyTied(s, At(p, inner), At(q, inner), tag);
          } else {
            var again := Pos(inner.next - 1, inner.depth);
            PathTied(s, At(p, again), At(q, again), false, false);
          }
    }
  }

  lemma {:induction false} TypeBodyTied(s: string, p: Printer, q: Printer, tag: char)
    requires Beside(s, p, q) && q.state.Scanning? && q.state.at.next > 0
    ensures Tied(TypeBody(s, p, tag), TypeBody(s, q, tag), FaultTypeBody(s, q, tag, p.lifetimes, false))
    decreases Budget(q), Left(s, q), 10
  {
    hide PrintType, Reference, ArrayType, TupleType, FnType, DynTraits, DynBound, TypeBackref, PrintConst,
      FaultType, FaultReference, FaultConst, FaultList, FaultFn, FaultDyn, FaultBound;
    match tag
    case 'R' => ReferenceTied(s, p, q, false);
    case 'Q' => ReferenceTied(s, p, q, true);
    case 'P' => TypeTied(s, Say(p, [Text("*"), Text("const ")]), q);
    case 'O' => TypeTied(s, Say(p, [Text("*"), Text("mut ")]), q);
    case 'A' => ArrayTypeTied(s, p, q);
    case 'S' => TypeTied(s, Say(p, [Text("[")]), q);
    case 'T' => TupleTypeTied(s, p, q);
    case 'F' => FnTypeTied(s, p, q);
    case 'D' =>
      var p1 := Say(p, [Text("dyn ")]);
      DynTraitsTied(s, p1, q);
      DynBoundTied(s, DynTraits(s, p1), DynTraits(s, q));
    case 'B' => TypeBackrefTied(s, p, q);
    case _ =>
  }

  lemma {:induction false} ArrayTypeTied(s: string, p: Printer, q: Printer)
    requires Beside(s, p, q) && q.state.Scanning?
    ensures Tied(ArrayType(s, p), ArrayType(s, q),
                 FaultType(s, q, p.lifetimes, false) || FaultConst(s, PrintType(s, q), true, p.lifetimes, false))
    decreases Budget(q), Left(s, q), 8
  {
    hide PrintType, PrintConst, FaultType, FaultConst;
    var p1 := Say(p, [Text("[")]);
    TypeTied(s, p1, q);
    var p2, q2 := Say(PrintType(s, p1), [Text("; ")]), PrintType(s, q);
    if p2.state == q2.state { ConstTied(s, p2, q2, true); }
  }

  lemma {:induction false} TupleTypeTied(s: string, p: Printer, q: Printer)
    requires Beside(s, p, q) && q.state.Scanning?
    ensures Tied(TupleType(s, p), TupleType(s, q), FaultList(s, q, Types, p.lifetimes, false))
    decreases Budget(q), Left(s, q), 8
  {
    hide PrintList, FaultList;
    ListTied(s, Say(p, [Text("(")]), q, Types, 0);
  }

  lemma TypeBackrefTied(s: string, p: Printer, q: Printer)
    requires Beside(s, p, q) && q.state.Scanning? && q.state.at.next > 0
    ensures TypeBackref(s, p).state == TypeBackref(s, q).state
  {
    hide PrintType, Backref;
  }

  lemma {:induction false} ReferenceTied(s: string, p: Printer, q: Printer, mutable: bool)
    requires Beside(s, p, q) && q.state.Scanning?
    ensures Tied(Reference(s, p, mutable), Reference(s, q, mutable), FaultReference(s, q, p.lifetimes, false))
    decreases Budget(q), Left(s, q), 8
  {
    hide Referent, NameLifetime, Integer62, FaultType;
    var p1 := Say(p, [Text("&")]);
    if Eats(s, q, 'L') {
      match Integer62(s, Eaten(q).state.at)
      case Bad(_) =>
      case Got(lt, at) =>
        var p2, q2 := NameLifetime(At(p1, at), lt), NameLifetime(At(q, at), lt);
        assert q2 == At(q, at);
        if p2.state == q2.state { ReferentTied(s, p2, q2, mutable); }
    } else {
      ReferentTied(s, p1, q, mutable);
    }
  }

  lemma {:induction false} ReferentTied(s: string, p: Printer, q: Printer, mutable: bool)
    requires Beside(s, p, q)
    ensures Tied(Referent(s, p, mutable), Referent(s, q, mutable), FaultType(s, q, p.lifetimes, false))
    decreases Budget(q), Left(s, q), 7
  {
    hide PrintType, FaultType;
    TypeTied(s, Say(p, if mutable then [Text("mut ")] else []), q);
  }

  lemma {:induction false} FnTypeTied(s: string, p: Printer, q: Printer)
    requires Beside(s, p, q) && q.state.Scanning?
    ensures Tied(FnType(s, p), FnType(s, q), FaultFn(s, q, p.lifetimes, false))
    decreases Budget(q), Left(s, q), 9
  {
    hide FnSig, EnterBinder, LeaveBinder, OptInteger62, Bumped, FaultSig;
    match OptInteger62(s, q.state.at, 'G')
    case Bad(_) =>
    case Got(n, at) =>
      var p1 := EnterBinder(At(p, at), n);
      NothingBound(At(q, at), n);
      if p1.state == q.state.(at := at) {
        FnSigTied(s, p1, At(q, at));
        if p.lifetimes + n < TWO_32 { BumpedFits(p.lifetimes, n); }
      }
  }

  lemma NothingBound(q: Printer, n: nat)
    requires q.out.None? && q.lifetimes < TWO_32
    ensures EnterBinder(q, n) == q
  {
  }

  lemma {:induction false} FnSigTied(s: string, p: Printer, q: Printer)
    requires Beside(s, p, q)
    ensures Tied(FnSig(s, p), FnSig(s, q), FaultSig(s, q, p.lifetimes, false))
    decreases Budget(q), Left(s, q), 8
  {
    hide FnRest, ScanIdent, FaultRest;
    var isUnsafe := Eats(s, q, 'U');
    var p1, q1 := if isUnsafe then Eaten(p) else p, if isUnsafe then Eaten(q) else q;
    if !Eats(s, q1, 'K') {
      FnRestTied(s, p1, q1, isUnsafe, None);
    } else if Eats(s, Eaten(q1), 'C') {
      FnRestTied(s, Eaten(Eaten(p1)), Eaten(Eaten(q1)), isUnsafe, Some("C"));
    } else {
      match ScanIdent(s, Eaten(q1).state.at)
      case Bad(_) =>
      case Got(abi, at) => FnRestTied(s, At(p1, at), At(q1, at), isUnsafe, Some(abi.ascii));
    }
  }

  lemma {:induction false} FnRestTied(s: string, p: Printer, q: Printer, isUnsafe: bool, abi: Option<string>)
    requires Beside(s, p, q)
    ensures Tied(FnRest(s, p, isUnsafe, abi), FnRest(s, q, isUnsafe, abi), FaultRest(s, q, p.lifetimes, false))
    decreases Budget(q), Left(s, q), 7
  {
    hide PrintList, PrintType, FnHead, FaultList, FaultType;
    var p1 := Say(p, FnHead(isUnsafe, abi));
    ListTied(s, p1, q, Types, 0);
    var p2, q2 := Say(PrintList(s, p1, Types, 0).0, [Text(")")]), PrintList(s, q, Types, 0).0;
    if p2.state == q2.state { TypeTied(s, Say(p2, [Text(" -> ")]), q2); }
  }

  // Trait objects ----------------------------------------------------------------------------

  lemma {:induction false} DynTraitsTied(s: string, p: Printer, q: Printer)
    requires Beside(s, p, q) && q.state.Scanning?
    ensures Tied(DynTraits(s, p), DynTraits(s, q), FaultDyn(s, q, p.lifetimes, false))
    decreases Budget(q), Left(s, q), 8
  {
    hide PrintList, EnterBinder, LeaveBinder, OptInteger62, Bumped, FaultList;
    match OptInteger62(s, q.state.at, 'G')
    case Bad(_) =>
    case Got(n, at) =>
      var p1 := EnterBinder(At(p, at), n);
      NothingBound(At(q, at), n);
      if p1.state == q.state.(at := at) {
        ListTied(s, p1, At(q, at), Traits, 0);
        if p.lifetimes + n < TWO_32 { BumpedFits(p.lifetimes, n); }
      }
  }

  lemma DynBoundTied(s: string, p: Printer, q: Printer)
    requires Wf(s, p) && Skips(s, q)
    ensures p.state == q.state ==> Tied(DynBound(s, p), DynBound(s, q), FaultBound(s, q, p.lifetimes, false))
    ensures p.state.Failed? ==> DynBound(s, p).state.Failed?
  {
    hide PrintLifetime, Integer62;
  }

  lemma {:induction false} OpenPathTied(s: string, p: Printer, q: Printer)
    requires Beside(s, p, q)
    ensures Tied(PrintOpenPath(s, p).0, PrintOpenPath(s, q).0, FaultOpenPath(s, q, p.lifetimes, false))
    decreases Budget(q), Left(s, q), 3
  {
    hide PrintPath, PrintList, Backref, FaultPath, FaultList;
    if Eats(s, q, 'B') {
    } else if Eats(s, q, 'I') {
      PathTied(s, Eaten(p), Eaten(q), false, false);
      var p1, q1 := Say(PrintPath(s, Eaten(p), false), [Text("<")]), PrintPath(s, Eaten(q), false);
      if p1.state == q1.state { ListTied(s, p1, q1, GenericArgs, 0); }
    } else {
      PathTied(s, p, q, false, false);
    }
  }

  lemma {:induction false} TraitTied(s: string, p: Printer, q: Printer)
    requires Beside(s, p, q)
    ensures Tied(PrintTrait(s, p), PrintTrait(s, q), FaultTrait(s, q, p.lifetimes, false))
    decreases Budget(q), Left(s, q), 4
  {
    hide PrintOpenPath, Projections, FaultOpenPath, FaultProjections;
    OpenPathTied(s, p, q);
    var a, b := PrintOpenPath(s, p), PrintOpenPath(s, q);
    if a.0.state == b.0.state { ProjectionsTied(s, a.0, b.0, a.1, b.1); }
  }

  lemma {:induction false} ProjectionsTied(s: string, p: Printer, q: Printer, v: bool, w: bool)
    requires Beside(s, p, q)
    ensures Tied(Projections(s, p, v), Projections(s, q, w), FaultProjections(s, q, p.lifetimes, false))
    decreases Budget(q), Left(s, q), 3
  {
    hide PrintType, ScanIdent, FaultType;
    if Eats(s, q, 'p') {
      var p1 := Say(Eaten(p), [Text(if v then ", " else "<")]);
      match ScanIdent(s, Eaten(q).state.at)
      case Bad(_) =>
      case Got(name, at) =>
        var p2, q2 := Say(At(p1, at), [Name(name), Text(" = ")]), At(q, at);
        TypeTied(s, p2, q2);
        if PrintType(s, p2).state == PrintType(s, q2).state {
          ProjectionsTied(s, PrintType(s, p2), PrintType(s, q2), true, true);
        }
    }
  }

  // Constants --------------------------------------------------------------------------------

  lemma {:induction false} ConstTied(s: string, p: Printer, q: Printer, v: bool)
    requires Beside(s, p, q)
    ensures Tied(PrintConst(s, p, v), PrintConst(s, q, v), FaultConst(s, q, v, p.lifetimes, false))
    decreases Budget(q), Left(s, q), 2
  {
    hide ConstBody, FaultConstBody;
    if q.state.Scanning? {
      match Next(s, q.state.at)
      case Bad(_) =>
      case Got(tag, at) =>
        match PushDepth(at)
        case Bad(_) =>
        case Got(_, inner) => ConstBodyTied(s, At(p, inner), At(q, inner), tag, v);
    }
  }

  lemma {:induction false} ConstBodyTied(s: string, p: Printer, q: Printer, tag: char, v: bool)
    requires Beside(s, p, q) && q.state.Scanning? && q.state.at.next > 0
    ensures Tied(ConstBody(s, p, tag, v), ConstBody(s, q, tag, v), FaultConstBody(s, q, tag, v, p.lifetimes, false))
    decreases Budget(q), Left(s, q), 9
  {
    hide ConstLiteral, ConstDeref, ConstStr, ConstRef, ConstArray, ConstTuple, ConstAdt, ConstBackref, PrintPath,
      FaultConst, FaultList, FaultPath, FaultAdt;
    if IsLiteralTag(tag) {
      ConstLiteralTied(s, p, q, tag);
      return;
    }
    match tag
    case 'e' => ConstDerefTied(s, p, q, v);
    case 'R' =>
      if Eats(s, q, 'e') {
        ConstStrTied(s, Eaten(p), Eaten(q));
      } else {
        ConstRefTied(s, p, q, [Text("&")], v);
      }
    case 'Q' => ConstRefTied(s, p, q, [Text("&"), Text("mut ")], v);
    case 'A' => ConstListTied(s, p, q, v);
    case 'T' => ConstListTied(s, p, q, v);
    case 'V' =>
      var p1 := Say(p, Open(v));
      PathTied(s, p1, q, true, true);
      var p2, q2 := PrintPath(s, p1, true), PrintPath(s, q, true);
      if p2.state == q2.state { ConstAdtTied(s, p2, q2, v); }
    case 'B' => ConstBackrefTied(s, p, q, v);
    case _ =>
  }

  lemma {:induction false} ConstListTied(s: string, p: Printer, q: Printer, v: bool)
    requires Beside(s, p, q) && q.state.Scanning?
    ensures Tied(ConstArray(s, p, v), ConstArray(s, q, v), FaultList(s, q, Consts, p.lifetimes, false))
    ensures Tied(ConstTuple(s, p, v), ConstTuple(s, q, v), FaultList(s, q, Consts, p.lifetimes, false))
    decreases Budget(q), Left(s, q), 8
  {
    hide PrintList, FaultList;
    ListTied(s, Say(p, Open(v) + [Text("[")]), q, Consts, 0);
    ListTied(s, Say(p, Open(v) + [Text("(")]), q, Consts, 0);
  }

  lemma ConstBackrefTied(s: string, p: Printer, q: Printer, v: bool)
    requires Beside(s, p, q) && q.state.Scanning? && q.state.at.next > 0
    ensures ConstBackref(s, p, v).state == ConstBackref(s, q, v).state
  {
    hide PrintConst, Backref;
  }

  lemma {:induction false} ConstRefTied(s: string, p: Printer, q: Printer, sigil: seq<Piece>, v: bool)
    requires Beside(s, p, q) && q.state.Scanning?
    ensures Tied(ConstRef(s, p, sigil, v), ConstRef(s, q, sigil, v), FaultConst(s, q, true, p.lifetimes, false))
    decreases Budget(q), Left(s, q), 8
  {
    hide PrintConst, FaultConst;
    ConstTied(s, Say(p, Open(v) + sigil), q, true);
  }

  lemma {:induction false} ConstAdtTied(s: string, p: Printer, q: Printer, v: bool)
    requires Beside(s, p, q)
    ensures Tied(ConstAdt(s, p, v), ConstAdt(s, q, v), FaultAdt(s, q, p.lifetimes, false))
    decreases Budget(q), Left(s, q), 8
  {
    hide PrintList, FaultList;
    if q.state.Scanning? {
      match Next(s, q.state.at)
      case Bad(_) =>
      case Got(tag, at) =>
        if tag == 'T' {
          ListTied(s, Say(At(p, at), [Text("(")]), At(q, at), Consts, 0);
        } else if tag == 'S' {
          ListTied(s, Say(At(p, at), [Text(" { ")]), At(q, at), FieldInits, 0);
        }
    }
  }

  lemma ConstLiteralTied(s: string, p: Printer, q: Printer, tag: char)
    requires Beside(s, p, q) && q.state.Scanning? && IsLiteralTag(tag)
    ensures ConstLiteral(s, p, tag).state == ConstLiteral(s, q, tag).state
  {
    hide HexNibbles, ParseUint, BasicType;
  }

  lemma ConstDerefTied(s: string, p: Printer, q: Printer, v: bool)
    requires Beside(s, p, q) && q.state.Scanning?
    ensures ConstDeref(s, p, v).state == ConstDeref(s, q, v).state
  {
    hide ConstStr;
    ConstStrTied(s, Say(p, Open(v) + [Text("*")]), q);
  }

  lemma ConstStrTied(s: string, p: Printer, q: Printer)
    requires Beside(s, p, q) && q.state.Scanning?
    ensures ConstStr(s, p).state == ConstStr(s, q).state
  {
    hide HexNibbles, ParseChars;
  }
}
