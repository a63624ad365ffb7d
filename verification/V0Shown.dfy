/** What a reader sees. `fmt` drops the state of the scan, and following a back reference forgets it, so
    an error shows only in the text: as the message of a failed scan, as a lifetime that is out of range,
    or, where the scan failed while printing was skipped, as the question mark in place of the rest. A
    printing run shows none of these exactly when the skipping run from the same place does not fail and
    is nowhere at fault. */
module V0Shown {
  import opened Common
  import opened V0Parser
  import opened V0Printer
  import opened V0Faults
  import opened V0Skip
  import Utf8

  predicate IsError(x: Piece) {
    x.Message? || x.BadLifetime? || x.Placeholder?
  }

  ghost predicate Fine(xs: seq<Piece>) {
    forall i :: 0 <= i < |xs| ==> !IsError(xs[i])
  }

  /** A printing run that has shown no error. */
  ghost predicate Clean(p: Printer) {
    p.out.Some? && Fine(p.out.value.pieces)
  }

  /** A printing run that has shown no error, and a skipping run at the same place. */
  ghost predicate Ready(s: string, p: Printer, q: Printer) {
    Beside(s, p, q) && q.state.Scanning? && Clean(p)
  }

  /** The printing run has shown no error exactly when the skipping run has not failed and nothing was at
      fault, and then the two are at the same place. */
  ghost predicate Shown(p: Printer, q: Printer, fault: bool) {
    && (Clean(p) <==> q.state.Scanning? && !fault)
    && (Clean(p) ==> p.state == q.state)
  }

  // Pieces -----------------------------------------------------------------------------------

  lemma Said(p: Printer, xs: seq<Piece>)
    requires Fine(xs) && p.out.Some?
    ensures Clean(Say(p, xs)) <==> Clean(p)
  {
    var a := p.out.value.pieces;
    assert forall i :: 0 <= i < |a| ==> (a + xs)[i] == a[i];
  }

  lemma Spoilt(p: Printer, xs: seq<Piece>, i: nat)
    requires p.out.Some? && i < |xs| && IsError(xs[i])
    ensures !Clean(Say(p, xs))
  {
    var a := p.out.value.pieces;
    assert (a + xs)[|a| + i] == xs[i];
  }

  /** What has been shown stays. */
  lemma Stays(p: Printer, r: Printer)
    requires p.out.Some? && Grows(p.out, r.out) && !Clean(p)
    ensures !Clean(r)
  {
    var i :| 0 <= i < |p.out.value.pieces| && IsError(p.out.value.pieces[i]);
    assert r.out.value.pieces[i] == p.out.value.pieces[i];
  }

  lemma Failing(p: Printer, e: ParseError)
    requires p.out.Some?
    ensures !Clean(Fail(p, e))
  {
    Spoilt(p, [Message(e)], 0);
  }

  /** After an error, a type is shown as a question mark. */
  lemma LostType(s: string, p: Printer)
    requires Wf(s, p) && p.out.Some? && p.state.Failed?
    ensures !Clean(PrintType(s, p))
  {
    hide Fine;
    Spoilt(p, [Placeholder], 0);
  }

  // Lifetimes --------------------------------------------------------------------------------

  lemma LifetimeShown(p: Printer, lt: nat)
    requires Clean(p)
    ensures Clean(PrintLifetime(p, lt)) <==> lt <= p.lifetimes
  {
    if lt == 0 {
      Said(p, [Text("'"), Text("_")]);
    } else if lt > p.lifetimes {
      Spoilt(p, [Text("'"), BadLifetime], 1);
    } else {
      Said(p, [Text("'")] + LifetimeName(p.lifetimes - lt));
    }
  }

  lemma {:induction false} BindShown(p: Printer, i: nat, n: nat)
    requires i <= n && p.lifetimes < TWO_32 && Clean(p)
    ensures Clean(BindLifetimes(p, i, n)) <==> p.lifetimes + n - i < TWO_32
    decreases n - i
  {
    hide Bumped, Clean, PrintLifetime;
    CleanOut(p);
    if i < n {
      var bound := p.(lifetimes := (p.lifetimes + 1) % TWO_32);
      SameClean(p, bound);
      var sep := if i > 0 then [Text(", ")] else [];
      Said(bound, sep);
      var said := Say(bound, sep);
      LifetimeShown(said, 1);
      var next := PrintLifetime(said, 1);
      if Clean(next) {
        BindShown(next, i + 1, n);
      } else {
        Stays(next, BindLifetimes(next, i + 1, n));
      }
    }
  }

  lemma SameClean(p: Printer, r: Printer)
    requires p.out == r.out
    ensures Clean(p) <==> Clean(r)
  {
  }

  lemma CleanOut(p: Printer)
    requires Clean(p)
    ensures p.out.Some?
  {
  }

  lemma BinderShown(p: Printer, n: nat)
    requires p.lifetimes < TWO_32 && Clean(p)
    ensures Clean(EnterBinder(p, n)) <==> p.lifetimes + n < TWO_32
  {
    hide BindLifetimes, Bumped, Clean;
    CleanOut(p);
    if n > 0 {
      var head := Say(p, [Text("for<")]);
      Said(p, [Text("for<")]);
      BindShown(head, 0, n);
      Said(BindLifetimes(head, 0, n), [Text("> ")]);
    }
  }

  lemma NameShown(p: Printer, lt: nat)
    requires Clean(p)
    ensures Clean(NameLifetime(p, lt)) <==> lt <= p.lifetimes
  {
    hide Clean, PrintLifetime;
    CleanOut(p);
    if lt > 0 {
      LifetimeShown(p, lt);
      Said(PrintLifetime(p, lt), [Text(" ")]);
    }
  }

  // Paths ------------------------------------------------------------------------------------

  lemma {:induction false} PathShown(s: string, p: Printer, q: Printer, v: bool, w: bool)
    requires Ready(s, p, q)
    ensures Shown(PrintPath(s, p, v), PrintPath(s, q, w), FaultPath(s, q, w, p.lifetimes, true))
    decreases Budget(q), Left(s, q), 1
  {
    hide PathBody, FaultPathBody, Fine;
    match PushDepth(q.state.at)
    case Bad(e) => Failing(p, e);
    case Got(_, inner) =>
      match Next(s, inner)
      case Bad(e) => Failing(p, e);
      case Got(tag, at) => PathBodyShown(s, At(p, at), At(q, at), tag, v, w);
  }

  lemma {:induction false} PathBodyShown(s: string, p: Printer, q: Printer, tag: char, v: bool, w: bool)
    requires Ready(s, p, q) && q.state.at.next > 0
    ensures Shown(PathBody(s, p, tag, v), PathBody(s, q, tag, w), FaultPathBody(s, q, tag, w, p.lifetimes, true))
    decreases Budget(q), Left(s, q), 9
  {
    hide PrintPath, CrateRoot, NestedName, ImplPath, QualifiedSelf, GenericPath, PathBackref, PrintList, Namespace,
      FaultPath, FaultImpl, FaultSelf, FaultList, FaultPathTarget, Fine;
    match tag
    case 'C' => CrateRootShown(s, p, q);
    case 'N' => NestedShown(s, p, q, v, w);
    case 'M' => ImplPathShown(s, p, q, tag);
    case 'X' => ImplPathShown(s, p, q, tag);
    case 'Y' => QualifiedSelfShown(s, p, q, tag);
    case 'I' => GenericPathShown(s, p, q, v, w);
    case 'B' => PathBackrefShown(s, p, q, v, w);
    case _ => Failing(p, Invalid);
  }

  lemma {:induction false} NestedShown(s: string, p: Printer, q: Printer, v: bool, w: bool)
    requires Ready(s, p, q) && q.state.at.next > 0
    ensures Shown(PathBody(s, p, 'N', v), PathBody(s, q, 'N', w), FaultPathBody(s, q, 'N', w, p.lifetimes, true))
    decreases Budget(q), Left(s, q), 8
  {
    hide PrintPath, NestedName, Namespace, FaultPath, Fine;
    match Namespace(s, q.state.at)
    case Bad(e) => Failing(p, e);
    case Got(ns, at) =>
      PathShown(s, At(p, at), At(q, at), v, w);
      var p1, q1 := PrintPath(s, At(p, at), v), PrintPath(s, At(q, at), w);
      NestedNameTied(s, p1, q1, ns);
      if Clean(p1) {
        NestedNameShown(s, p1, q1, ns);
      } else {
        Stays(p1, NestedName(s, p1, ns));
      }
  }

  lemma {:induction false} GenericPathShown(s: string, p: Printer, q: Printer, v: bool, w: bool)
    requires Ready(s, p, q)
    ensures Shown(GenericPath(s, p, v), GenericPath(s, q, w),
                  FaultPath(s, q, w, p.lifetimes, true) || FaultList(s, PrintPath(s, q, w), GenericArgs, p.lifetimes, true))
    decreases Budget(q), Left(s, q), 8
  {
    hide PrintPath, PrintList, FaultPath, FaultList;
    PathShown(s, p, q, v, w);
    var open := if v then [Text("::"), Text("<")] else [Text("<")];
    Said(PrintPath(s, p, v), open);
    ListThen(s, Say(PrintPath(s, p, v), open), PrintPath(s, q, w), GenericArgs, [Text(">")]);
  }

  /** A list after something, and what is written after the list. */
  lemma {:induction false} ListThen(s: string, p: Printer, q: Printer, kind: Kind, xs: seq<Piece>)
    requires Wf(s, p) && Skips(s, q) && p.out.Some? && Fine(xs)
    requires Clean(p) ==> q.state.Scanning? && p.state == q.state
    ensures var r := Say(PrintList(s, p, kind, 0).0, xs);
            if Clean(p) then Shown(r, PrintList(s, q, kind, 0).0, FaultList(s, q, kind, p.lifetimes, true)) else !Clean(r)
    decreases Budget(q), Left(s, q), 7
  {
    hide PrintList, FaultList, Fine;
    var r := PrintList(s, p, kind, 0).0;
    Said(r, xs);
    if Clean(p) {
      ListShown(s, p, q, kind, 0);
    } else {
      Stays(p, r);
    }
  }

  lemma {:induction false} PathBackrefShown(s: string, p: Printer, q: Printer, v: bool, w: bool)
    requires Ready(s, p, q) && q.state.at.next > 0
    ensures Shown(PathBackref(s, p, v), PathBackref(s, q, w), FaultPathTarget(s, q, w, p.lifetimes))
    decreases Budget(q), Left(s, q), 8
  {
    hide PrintPath, Backref, FaultPath, Fine;
    match Backref(s, q.state.at)
    case Bad(e) => Failing(p, e);
    case Got(target, after) => PathShown(s, At(p, target), At(q, target), v, w);
  }

  lemma CrateRootShown(s: string, p: Printer, q: Printer)
    requires Ready(s, p, q)
    ensures Shown(CrateRoot(s, p), CrateRoot(s, q), false)
  {
    hide Disambiguator, ScanIdent;
    CrateRootTied(s, p, q);
    match Disambiguator(s, q.state.at)
    case Bad(e) => Failing(p, e);
    case Got(dis, at) =>
      match ScanIdent(s, at)
      case Bad(e) => Failing(p, e);
      case Got(name, after) =>
        Said(At(p, after), [Name(name)] + if Alternate(p) then [] else [Text("["), Hex(dis), Text("]")]);
  }

  lemma NestedNameShown(s: string, p: Printer, q: Printer, ns: Option<char>)
    requires Ready(s, p, q)
    ensures Shown(NestedName(s, p, ns), NestedName(s, q, ns), false)
  {
    hide Disambiguator, ScanIdent;
    NestedNameTied(s, p, q, ns);
    match Disambiguator(s, q.state.at)
    case Bad(e) => Failing(p, e);
    case Got(dis, at) =>
      match ScanIdent(s, at)
      case Bad(e) => Failing(p, e);
      case Got(name, after) => Said(At(p, after), NestedText(ns, dis, name));
  }

  lemma {:induction false} ImplPathShown(s: string, p: Printer, q: Printer, tag: char)
    requires Ready(s, p, q)
    ensures Shown(ImplPath(s, p, tag), ImplPath(s, q, tag), FaultImpl(s, q, tag, p.lifetimes, true))
    decreases Budget(q), Left(s, q), 8
  {
    hide PrintPath, QualifiedSelf, Disambiguator, FaultPath, FaultSelf, Fine;
    match Disambiguator(s, q.state.at)
    case Bad(e) => Failing(p, e);
    case Got(_, at) =>
      var p1, q1 := At(p, at).(out := None), At(q, at);
      PathTied(s, p1, q1, false, false);
      var p2, q2 := PrintPath(s, p1, false).(out := p.out), PrintPath(s, q1, false);
      if q2.state.Scanning? {
        QualifiedSelfShown(s, p2, q2, tag);
      } else {
        LostSelf(s, p2, tag);
      }
  }

  lemma LostSelf(s: string, p: Printer, tag: char)
    requires Wf(s, p) && p.out.Some? && p.state.Failed?
    ensures !Clean(QualifiedSelf(s, p, tag))
  {
    hide PrintPath, PrintType, Fine;
    var p1 := Say(p, [Text("<")]);
    LostType(s, p1);
    Stays(PrintType(s, p1), QualifiedSelf(s, p, tag));
  }

  lemma {:induction false} QualifiedSelfShown(s: string, p: Printer, q: Printer, tag: char)
    requires Ready(s, p, q)
    ensures Shown(QualifiedSelf(s, p, tag), QualifiedSelf(s, q, tag), FaultSelf(s, q, tag, p.lifetimes, true))
    decreases Budget(q), Left(s, q), 7
  {
    hide PrintPath, PrintType, FaultPath, FaultType;
    Said(p, [Text("<")]);
    var p1 := Say(p, [Text("<")]);
    TypeShown(s, p1, q);
    var t, u := PrintType(s, p1), PrintType(s, q);
    Said(t, [Text(" as ")]);
    Said(t, [Text(">")]);
    var p2 := Say(t, [Text(" as ")]);
    if Clean(p2) {
      PathShown(s, p2, u, false, false);
    } else {
      Stays(p2, PrintPath(s, p2, false));
    }
    Said(PrintPath(s, p2, false), [Text(">")]);
  }

  // Lists ------------------------------------------------------------------------------------

  lemma {:induction false} ListShown(s: string, p: Printer, q: Printer, kind: Kind, i: nat)
    requires Ready(s, p, q)
    ensures Shown(PrintList(s, p, kind, i).0, PrintList(s, q, kind, i).0, FaultList(s, q, kind, p.lifetimes, true))
    decreases Budget(q), Left(s, q), 6
  {
    hide PrintItem, FaultItem;
    if !Eats(s, q, 'E') {
      var sep := if i > 0 then [Text(Separator(kind))] else [];
      Said(p, sep);
      var p1 := Say(p, sep);
      ItemShown(s, p1, q, kind);
      var p2, q2 := PrintItem(s, p1, kind), PrintItem(s, q, kind);
      if Clean(p2) {
        ListShown(s, p2, q2, kind, i + 1);
      } else {
        Stays(p2, PrintList(s, p2, kind, i + 1).0);
      }
    }
  }

  lemma {:induction false} ItemShown(s: string, p: Printer, q: Printer, kind: Kind)
    requires Ready(s, p, q)
    ensures Shown(PrintItem(s, p, kind), PrintItem(s, q, kind), FaultItem(s, q, kind, p.lifetimes, true))
    decreases Budget(q), Left(s, q), 5
  {
    hide PrintGenericArg, PrintType, PrintTrait, PrintConst, PrintFieldInit,
      FaultArg, FaultType, FaultTrait, FaultConst, FaultField, Fine;
    match kind
    case GenericArgs => GenericArgShown(s, p, q);
    case Types => TypeShown(s, p, q);
    case Traits => TraitShown(s, p, q);
    case Consts => ConstShown(s, p, q, true);
    case FieldInits => FieldInitShown(s, p, q);
  }

  lemma {:induction false} GenericArgShown(s: string, p: Printer, q: Printer)
    requires Ready(s, p, q)
    ensures Shown(PrintGenericArg(s, p), PrintGenericArg(s, q), FaultArg(s, q, p.lifetimes, true))
    decreases Budget(q), Left(s, q), 4
  {
    hide PrintConst, PrintType, PrintLifetime, Integer62, FaultConst, FaultType, Fine;
    if Eats(s, q, 'L') {
      match Integer62(s, Eaten(q).state.at)
      case Bad(e) => Failing(p, e);
      case Got(lt, at) => LifetimeShown(At(p, at), lt);
    } else if Eats(s, q, 'K') {
      ConstShown(s, Eaten(p), Eaten(q), false);
    } else {
      TypeShown(s, p, q);
    }
  }

  lemma {:induction false} FieldInitShown(s: string, p: Printer, q: Printer)
    requires Ready(s, p, q)
    ensures Shown(PrintFieldInit(s, p), PrintFieldInit(s, q), FaultField(s, q, p.lifetimes, true))
    decreases Budget(q), Left(s, q), 4
  {
    hide PrintConst, Disambiguator, ScanIdent, FaultConst;
    match Disambiguator(s, q.state.at)
    case Bad(e) => Failing(p, e);
    case Got(_, at) =>
      match ScanIdent(s, at)
      case Bad(e) => Failing(p, e);
      case Got(name, after) =>
        Said(At(p, after), [Name(name), Text(": ")]);
        ConstShown(s, Say(At(p, after), [Name(name), Text(": ")]), At(q, after), true);
  }

  // Types ------------------------------------------------------------------------------------

  lemma {:induction false} TypeShown(s: string, p: Printer, q: Printer)
    requires Ready(s, p, q)
    ensures Shown(PrintType(s, p), PrintType(s, q), FaultType(s, q, p.lifetimes, true))
    decreases Budget(q), Left(s, q), 2
  {
    hide TypeBody, PrintPath, BasicType, IsTypeTag, FaultTypeBody, FaultPath;
    match Next(s, q.state.at)
    case Bad(e) => Failing(p, e);
    case Got(tag, at) =>
      if BasicType(tag).Some? {
        Said(At(p, at), [Text(BasicType(tag).value)]);
        return;
      }
      match PushDepth(at)
      case Bad(e) => Failing(p, e);
      case Got(_, inner) =>
        if IsTypeTag(tag) {
          TypeBodyShown(s, At(p, inner), At(q, inner), tag);
        } else {
          var again := Pos(inner.next - 1, inner.depth);
          PathShown(s, At(p, again), At(q, again), false, false);
        }
  }

  lemma {:induction false} TypeBodyShown(s: string, p: Printer, q: Printer, tag: char)
    requires Ready(s, p, q) && q.state.at.next > 0
    ensures Shown(TypeBody(s, p, tag), TypeBody(s, q, tag), FaultTypeBody(s, q, tag, p.lifetimes, true))
    decreases Budget(q), Left(s, q), 10
  {
    hide PrintType, Reference, ArrayType, TupleType, FnType, DynTraits, DynBound, TypeBackref, PrintConst,
      FaultType, FaultReference, FaultConst, FaultList, FaultFn, FaultDyn, FaultBound, FaultTypeTarget;
    match tag
    case 'R' => ReferenceShown(s, p, q, false);
    case 'Q' => ReferenceShown(s, p, q, true);
    case 'P' => TypeAfter(s, p, q, [Text("*"), Text("const ")], []);
    case 'O' => TypeAfter(s, p, q, [Text("*"), Text("mut ")], []);
    case 'A' => ArrayTypeShown(s, p, q);
    case 'S' => TypeAfter(s, p, q, [Text("[")], [Text("]")]);
    case 'T' => TupleTypeShown(s, p, q);
    case 'F' => FnTypeShown(s, p, q);
    case 'D' => DynShown(s, p, q);
    case 'B' => TypeBackrefShown(s, p, q);
    case _ => Failing(p, Invalid);
  }

  /** A type between other text. */
  lemma {:induction false} TypeAfter(s: string, p: Printer, q: Printer, xs: seq<Piece>, ys: seq<Piece>)
    requires Ready(s, p, q) && Fine(xs) && Fine(ys)
    ensures Shown(PrintType(s, Say(p, xs)), PrintType(s, q), FaultType(s, q, p.lifetimes, true))
    ensures Shown(Say(PrintType(s, Say(p, xs)), ys), PrintType(s, q), FaultType(s, q, p.lifetimes, true))
    decreases Budget(q), Left(s, q), 3
  {
    hide PrintType, FaultType, Fine;
    Said(p, xs);
    TypeShown(s, Say(p, xs), q);
    Said(PrintType(s, Say(p, xs)), ys);
  }

  lemma {:induction false} ArrayTypeShown(s: string, p: Printer, q: Printer)
    requires Ready(s, p, q)
    ensures Shown(ArrayType(s, p), ArrayType(s, q),
                  FaultType(s, q, p.lifetimes, true) || FaultConst(s, PrintType(s, q), true, p.lifetimes, true))
    decreases Budget(q), Left(s, q), 8
  {
    hide PrintType, PrintConst, FaultType, FaultConst;
    TypeAfter(s, p, q, [Text("[")], [Text("; ")]);
    var p2, q2 := Say(PrintType(s, Say(p, [Text("[")])), [Text("; ")]), PrintType(s, q);
    if Clean(p2) {
      ConstShown(s, p2, q2, true);
    } else {
      Stays(p2, PrintConst(s, p2, true));
    }
    Said(PrintConst(s, p2, true), [Text("]")]);
  }

  lemma {:induction false} TupleTypeShown(s: string, p: Printer, q: Printer)
    requires Ready(s, p, q)
    ensures Shown(TupleType(s, p), TupleType(s, q), FaultList(s, q, Types, p.lifetimes, true))
    decreases Budget(q), Left(s, q), 8
  {
    hide PrintList, FaultList;
    Said(p, [Text("(")]);
    var p1 := Say(p, [Text("(")]);
    ListThen(s, p1, q, Types, CloseTuple(PrintList(s, p1, Types, 0).1));
  }

  lemma {:induction false} TypeBackrefShown(s: string, p: Printer, q: Printer)
    requires Ready(s, p, q) && q.state.at.next > 0
    ensures Shown(TypeBackref(s, p), TypeBackref(s, q), FaultTypeTarget(s, q, p.lifetimes))
    decreases Budget(q), Left(s, q), 8
  {
    hide PrintType, Backref, FaultType, Fine;
    match Backref(s, q.state.at)
    case Bad(e) => Failing(p, e);
    case Got(target, after) => TypeShown(s, At(p, target), At(q, target));
  }

  lemma {:induction false} ReferenceShown(s: string, p: Printer, q: Printer, mutable: bool)
    requires Ready(s, p, q)
    ensures Shown(Reference(s, p, mutable), Reference(s, q, mutable), FaultReference(s, q, p.lifetimes, true))
    decreases Budget(q), Left(s, q), 8
  {
    hide Referent, NameLifetime, Integer62, FaultType;
    Said(p, [Text("&")]);
    var p1 := Say(p, [Text("&")]);
    if Eats(s, q, 'L') {
      match Integer62(s, Eaten(q).state.at)
      case Bad(e) => Failing(p1, e);
      case Got(lt, at) =>
        var p2, q2 := NameLifetime(At(p1, at), lt), NameLifetime(At(q, at), lt);
        assert q2 == At(q, at);
        NameShown(At(p1, at), lt);
        if Clean(p2) {
          ReferentShown(s, p2, q2, mutable);
        } else {
          Stays(p2, Referent(s, p2, mutable));
        }
    } else {
      ReferentShown(s, p1, q, mutable);
    }
  }

  lemma {:induction false} ReferentShown(s: string, p: Printer, q: Printer, mutable: bool)
    requires Ready(s, p, q)
    ensures Shown(Referent(s, p, mutable), Referent(s, q, mutable), FaultType(s, q, p.lifetimes, true))
    decreases Budget(q), Left(s, q), 7
  {
    hide PrintType, FaultType;
    var xs := if mutable then [Text("mut ")] else [];
    Said(p, xs);
    TypeShown(s, Say(p, xs), q);
  }

  lemma {:induction false} FnTypeShown(s: string, p: Printer, q: Printer)
    requires Ready(s, p, q)
    ensures Shown(FnType(s, p), FnType(s, q), FaultFn(s, q, p.lifetimes, true))
    decreases Budget(q), Left(s, q), 9
  {
    hide FnSig, EnterBinder, LeaveBinder, OptInteger62, Bumped, FaultSig, Fine;
    match OptInteger62(s, q.state.at, 'G')
    case Bad(e) => Failing(p, e);
    case Got(n, at) =>
      var p1 := EnterBinder(At(p, at), n);
      BinderShown(At(p, at), n);
      NothingBound(At(q, at), n);
      if Clean(p1) {
        BumpedFits(p.lifetimes, n);
        FnSigShown(s, p1, At(q, at));
      } else {
        Stays(p1, FnSig(s, p1));
      }
  }

  lemma {:induction false} FnSigShown(s: string, p: Printer, q: Printer)
    requires Ready(s, p, q)
    ensures Shown(FnSig(s, p), FnSig(s, q), FaultSig(s, q, p.lifetimes, true))
    decreases Budget(q), Left(s, q), 8
  {
    hide FnRest, ScanIdent, FaultRest, Fine;
    var isUnsafe := Eats(s, q, 'U');
    var p1, q1 := if isUnsafe then Eaten(p) else p, if isUnsafe then Eaten(q) else q;
    if !Eats(s, q1, 'K') {
      FnRestShown(s, p1, q1, isUnsafe, None);
    } else if Eats(s, Eaten(q1), 'C') {
      FnRestShown(s, Eaten(Eaten(p1)), Eaten(Eaten(q1)), isUnsafe, Some("C"));
    } else {
      match ScanIdent(s, Eaten(q1).state.at)
      case Bad(e) => Failing(p1, e);
      case Got(abi, at) =>
        Failing(At(p1, at), Invalid);
        FnRestShown(s, At(p1, at), At(q1, at), isUnsafe, Some(abi.ascii));
    }
  }

  lemma {:induction false} FnRestShown(s: string, p: Printer, q: Printer, isUnsafe: bool, abi: Option<string>)
    requires Ready(s, p, q)
    ensures Shown(FnRest(s, p, isUnsafe, abi), FnRest(s, q, isUnsafe, abi), FaultRest(s, q, p.lifetimes, true))
    decreases Budget(q), Left(s, q), 7
  {
    hide PrintList, PrintType, FaultList, FaultType;
    Said(p, FnHead(isUnsafe, abi));
    var p1 := Say(p, FnHead(isUnsafe, abi));
    ListShown(s, p1, q, Types, 0);
    Said(PrintList(s, p1, Types, 0).0, [Text(")")]);
    FnReturnShown(s, Say(PrintList(s, p1, Types, 0).0, [Text(")")]), PrintList(s, q, Types, 0).0);
  }

  /** What follows the arguments: nothing, or the type returned. */
  ghost function FnReturn(s: string, args: Printer): Printer
    requires Wf(s, args)
  {
    if Eats(s, args, 'u') then Eaten(args) else PrintType(s, Say(args, [Text(" -> ")]))
  }

  lemma {:induction false} FnReturnShown(s: string, p: Printer, q: Printer)
    requires Wf(s, p) && Skips(s, q) && p.out.Some?
    requires Clean(p) ==> q.state.Scanning? && p.state == q.state
    ensures if Clean(p) then Shown(FnReturn(s, p), FnReturn(s, q), !Eats(s, q, 'u') && FaultType(s, q, p.lifetimes, true))
            else !Clean(FnReturn(s, p))
    ensures q.state.Failed? ==> FnReturn(s, q).state.Failed?
    decreases Budget(q), Left(s, q), 6
  {
    hide PrintType, FaultType;
    var p1 := Say(p, [Text(" -> ")]);
    Said(p, [Text(" -> ")]);
    if !Clean(p) {
      Stays(p, FnReturn(s, p));
    } else if !Eats(s, q, 'u') {
      TypeShown(s, p1, q);
    }
  }

  // Trait objects ----------------------------------------------------------------------------

  lemma {:induction false} DynShown(s: string, p: Printer, q: Printer)
    requires Ready(s, p, q) && q.state.at.next > 0
    ensures Shown(TypeBody(s, p, 'D'), TypeBody(s, q, 'D'), FaultTypeBody(s, q, 'D', p.lifetimes, true))
    decreases Budget(q), Left(s, q), 9
  {
    hide DynTraits, DynBound, FaultDyn, FaultBound;
    Said(p, [Text("dyn ")]);
    var p1 := Say(p, [Text("dyn ")]);
    DynTraitsShown(s, p1, q);
    var p2, q2 := DynTraits(s, p1), DynTraits(s, q);
    if Clean(p2) {
      DynBoundShown(s, p2, q2);
    } else {
      Stays(p2, DynBound(s, p2));
    }
  }

  lemma {:induction false} DynTraitsShown(s: string, p: Printer, q: Printer)
    requires Ready(s, p, q)
    ensures Shown(DynTraits(s, p), DynTraits(s, q), FaultDyn(s, q, p.lifetimes, true))
    decreases Budget(q), Left(s, q), 8
  {
    hide PrintList, EnterBinder, LeaveBinder, OptInteger62, Bumped, FaultList, Fine;
    match OptInteger62(s, q.state.at, 'G')
    case Bad(e) => Failing(p, e);
    case Got(n, at) =>
      var p1 := EnterBinder(At(p, at), n);
      BinderShown(At(p, at), n);
      NothingBound(At(q, at), n);
      if Clean(p1) {
        BumpedFits(p.lifetimes, n);
        ListShown(s, p1, At(q, at), Traits, 0);
      } else {
        Stays(p1, PrintList(s, p1, Traits, 0).0);
      }
  }

  lemma DynBoundShown(s: string, p: Printer, q: Printer)
    requires Ready(s, p, q)
    ensures Shown(DynBound(s, p), DynBound(s, q), FaultBound(s, q, p.lifetimes, true))
  {
    hide PrintLifetime, Integer62;
    if !Eats(s, q, 'L') {
      Failing(p, Invalid);
    } else {
      match Integer62(s, Eaten(p).state.at)
      case Bad(e) => Failing(p, e);
      case Got(lt, at) =>
        Said(At(p, at), [Text(" + ")]);
        LifetimeShown(Say(At(p, at), [Text(" + ")]), lt);
    }
  }

  lemma {:induction false} OpenPathShown(s: string, p: Printer, q: Printer)
    requires Ready(s, p, q)
    ensures Shown(PrintOpenPath(s, p).0, PrintOpenPath(s, q).0, FaultOpenPath(s, q, p.lifetimes, true))
    decreases Budget(q), Left(s, q), 3
  {
    hide PrintPath, PrintList, Backref, FaultPath, FaultList;
    if Eats(s, q, 'B') {
      match Backref(s, Eaten(q).state.at)
      case Bad(e) => Failing(p, e);
      case Got(target, after) => OpenPathShown(s, At(p, target), At(q, target));
    } else if Eats(s, q, 'I') {
      PathShown(s, Eaten(p), Eaten(q), false, false);
      var p1, q1 := PrintPath(s, Eaten(p), false), PrintPath(s, Eaten(q), false);
      Said(p1, [Text("<")]);
      var p2 := Say(p1, [Text("<")]);
      if Clean(p2) {
        ListShown(s, p2, q1, GenericArgs, 0);
      } else {
        Stays(p2, PrintList(s, p2, GenericArgs, 0).0);
      }
    } else {
      PathShown(s, p, q, false, false);
    }
  }

  lemma {:induction false} TraitShown(s: string, p: Printer, q: Printer)
    requires Ready(s, p, q)
    ensures Shown(PrintTrait(s, p), PrintTrait(s, q), FaultTrait(s, q, p.lifetimes, true))
    decreases Budget(q), Left(s, q), 4
  {
    hide PrintOpenPath, Projections, FaultOpenPath, FaultProjections, Fine;
    OpenPathShown(s, p, q);
    var a, b := PrintOpenPath(s, p), PrintOpenPath(s, q);
    if Clean(a.0) {
      ProjectionsShown(s, a.0, b.0, a.1, b.1);
    } else {
      Stays(a.0, Projections(s, a.0, a.1));
    }
  }

  lemma {:induction false} ProjectionsShown(s: string, p: Printer, q: Printer, v: bool, w: bool)
    requires Ready(s, p, q)
    ensures Shown(Projections(s, p, v), Projections(s, q, w), FaultProjections(s, q, p.lifetimes, true))
    decreases Budget(q), Left(s, q), 3
  {
    hide PrintType, ScanIdent, FaultType;
    if !Eats(s, q, 'p') {
      Said(p, if v then [Text(">")] else []);
    } else {
      var open := [Text(if v then ", " else "<")];
      Said(Eaten(p), open);
      var p1 := Say(Eaten(p), open);
      match ScanIdent(s, Eaten(q).state.at)
      case Bad(e) => Failing(p1, e);
      case Got(name, at) =>
        Said(At(p1, at), [Name(name), Text(" = ")]);
        var p2, q2 := Say(At(p1, at), [Name(name), Text(" = ")]), At(q, at);
        TypeShown(s, p2, q2);
        var p3, q3 := PrintType(s, p2), PrintType(s, q2);
        if Clean(p3) {
          ProjectionsShown(s, p3, q3, true, true);
        } else {
          Stays(p3, Projections(s, p3, true));
        }
    }
  }

  // Constants --------------------------------------------------------------------------------

  lemma {:induction false} ConstShown(s: string, p: Printer, q: Printer, v: bool)
    requires Ready(s, p, q)
    ensures Shown(PrintConst(s, p, v), PrintConst(s, q, v), FaultConst(s, q, v, p.lifetimes, true))
    decreases Budget(q), Left(s, q), 2
  {
    hide ConstBody, FaultConstBody, Fine;
    match Next(s, q.state.at)
    case Bad(e) => Failing(p, e);
    case Got(tag, at) =>
      match PushDepth(at)
      case Bad(e) => Failing(p, e);
      case Got(_, inner) => ConstBodyShown(s, At(p, inner), At(q, inner), tag, v);
  }

  lemma {:induction false} ConstBodyShown(s: string, p: Printer, q: Printer, tag: char, v: bool)
    requires Ready(s, p, q) && q.state.at.next > 0
    ensures Shown(ConstBody(s, p, tag, v), ConstBody(s, q, tag, v), FaultConstBody(s, q, tag, v, p.lifetimes, true))
    decreases Budget(q), Left(s, q), 9
  {
    hide ConstLiteral, ConstDeref, ConstStr, ConstRef, ConstArray, ConstTuple, ConstAdt, ConstBackref, PrintPath,
      FaultConst, FaultList, FaultPath, FaultAdt, FaultConstTarget;
    if IsLiteralTag(tag) {
      ConstLiteralShown(s, p, q, tag);
      return;
    }
    match tag
    case 'e' => ConstDerefShown(s, p, q, v);
    case 'R' =>
      if Eats(s, q, 'e') {
        ConstStrShown(s, Eaten(p), Eaten(q));
      } else {
        ConstRefShown(s, p, q, [Text("&")], v);
      }
    case 'Q' => ConstRefShown(s, p, q, [Text("&"), Text("mut ")], v);
    case 'A' => ConstListShown(s, p, q, v);
    case 'T' => ConstListShown(s, p, q, v);
    case 'V' => ConstNamedShown(s, p, q, v);
    case 'B' => ConstBackrefShown(s, p, q, v);
    case _ => Failing(p, Invalid);
  }

  lemma {:induction false} ConstNamedShown(s: string, p: Printer, q: Printer, v: bool)
    requires Ready(s, p, q) && q.state.at.next > 0
    ensures Shown(ConstBody(s, p, 'V', v), ConstBody(s, q, 'V', v), FaultConstBody(s, q, 'V', v, p.lifetimes, true))
    decreases Budget(q), Left(s, q), 8, 1
  {
    hide PrintPath, ConstAdt, FaultPath, FaultAdt;
    Said(p, Open(v));
    var p1 := Say(p, Open(v));
    PathShown(s, p1, q, true, true);
    var p2, q2 := PrintPath(s, p1, true), PrintPath(s, q, true);
    if Clean(p2) {
      ConstAdtShown(s, p2, q2, v);
    } else {
      Stays(p2, ConstAdt(s, p2, v));
    }
  }

  lemma {:induction false} ConstListShown(s: string, p: Printer, q: Printer, v: bool)
    requires Ready(s, p, q)
    ensures Shown(ConstArray(s, p, v), ConstArray(s, q, v), FaultList(s, q, Consts, p.lifetimes, true))
    ensures Shown(ConstTuple(s, p, v), ConstTuple(s, q, v), FaultList(s, q, Consts, p.lifetimes, true))
    decreases Budget(q), Left(s, q), 8
  {
    hide PrintList, FaultList;
    var p1, p2 := Say(p, Open(v) + [Text("[")]), Say(p, Open(v) + [Text("(")]);
    Said(p, Open(v) + [Text("[")]);
    Said(p, Open(v) + [Text("(")]);
    ListThen(s, p1, q, Consts, [Text("]")] + Close(v));
    ListThen(s, p2, q, Consts, CloseTuple(PrintList(s, p2, Consts, 0).1) + Close(v));
  }

  lemma {:induction false} ConstBackrefShown(s: string, p: Printer, q: Printer, v: bool)
    requires Ready(s, p, q) && q.state.at.next > 0
    ensures Shown(ConstBackref(s, p, v), ConstBackref(s, q, v), FaultConstTarget(s, q, v, p.lifetimes))
    decreases Budget(q), Left(s, q), 8
  {
    hide PrintConst, Backref, FaultConst, Fine;
    match Backref(s, q.state.at)
    case Bad(e) => Failing(p, e);
    case Got(target, after) => ConstShown(s, At(p, target), At(q, target), v);
  }

  lemma {:induction false} ConstRefShown(s: string, p: Printer, q: Printer, sigil: seq<Piece>, v: bool)
    requires Ready(s, p, q) && Fine(sigil)
    ensures Shown(ConstRef(s, p, sigil, v), ConstRef(s, q, sigil, v), FaultConst(s, q, true, p.lifetimes, true))
    decreases Budget(q), Left(s, q), 8
  {
    hide PrintConst, FaultConst;
    var p1 := Say(p, Open(v) + sigil);
    Said(p, Open(v) + sigil);
    ConstShown(s, p1, q, true);
    Said(PrintConst(s, p1, true), Close(v));
  }

  lemma {:induction false} ConstAdtShown(s: string, p: Printer, q: Printer, v: bool)
    requires Ready(s, p, q)
    ensures Shown(ConstAdt(s, p, v), ConstAdt(s, q, v), FaultAdt(s, q, p.lifetimes, true))
    decreases Budget(q), Left(s, q), 8
  {
    hide PrintList, FaultList;
    match Next(s, q.state.at)
    case Bad(e) => Failing(p, e);
    case Got(tag, at) =>
      var p1, q1 := At(p, at), At(q, at);
      if tag == 'U' {
        Said(p1, Close(v));
      } else if tag == 'T' {
        Said(p1, [Text("(")]);
        ListThen(s, Say(p1, [Text("(")]), q1, Consts, [Text(")")] + Close(v));
      } else if tag == 'S' {
        Said(p1, [Text(" { ")]);
        ListThen(s, Say(p1, [Text(" { ")]), q1, FieldInits, [Text(" }")] + Close(v));
      } else {
        Failing(p1, Invalid);
      }
  }

  lemma ConstLiteralShown(s: string, p: Printer, q: Printer, tag: char)
    requires Ready(s, p, q) && IsLiteralTag(tag)
    ensures Shown(ConstLiteral(s, p, tag), ConstLiteral(s, q, tag), false)
  {
    hide ConstUint, ConstBool, ConstChar;
    ConstLiteralTied(s, p, q, tag);
    if tag == 'p' {
      Said(p, [Text("_")]);
    } else if tag == 'b' {
      ConstBoolShown(s, p);
    } else if tag == 'c' {
      ConstCharShown(s, p);
    } else if tag in "aslxni" && Eats(s, p, 'n') {
      Said(Eaten(p), [Text("-")]);
      ConstUintShown(s, Say(Eaten(p), [Text("-")]), tag);
    } else {
      ConstUintShown(s, p, tag);
    }
  }

  lemma ConstUintShown(s: string, p: Printer, tag: char)
    requires Wf(s, p) && p.state.Scanning? && BasicType(tag).Some? && Clean(p)
    ensures Clean(ConstUint(s, p, tag)) <==> ConstUint(s, p, tag).state.Scanning?
  {
    hide HexNibbles, ParseUint, BasicType;
    match HexNibbles(s, p.state.at)
    case Bad(e) => Failing(p, e);
    case Got(hex, at) =>
      var number := match ParseUint(hex)
        case Some(v) => [Decimal(v)]
        case None => [Text("0x"), Text(hex)];
      Said(At(p, at), number + if Alternate(p) then [] else [Text(BasicType(tag).value)]);
  }

  lemma ConstBoolShown(s: string, p: Printer)
    requires Wf(s, p) && p.state.Scanning? && Clean(p)
    ensures Clean(ConstBool(s, p)) <==> ConstBool(s, p).state.Scanning?
  {
    hide HexNibbles, ParseUint;
    match HexNibbles(s, p.state.at)
    case Bad(e) => Failing(p, e);
    case Got(hex, at) =>
      Said(At(p, at), [Text("false")]);
      Said(At(p, at), [Text("true")]);
      Failing(At(p, at), Invalid);
  }

  lemma ConstCharShown(s: string, p: Printer)
    requires Wf(s, p) && p.state.Scanning? && Clean(p)
    ensures Clean(ConstChar(s, p)) <==> ConstChar(s, p).state.Scanning?
  {
    hide HexNibbles, ParseUint;
    match HexNibbles(s, p.state.at)
    case Bad(e) => Failing(p, e);
    case Got(hex, at) =>
      Failing(At(p, at), Invalid);
      match ParseUint(hex)
      case None =>
      case Some(v) => if Utf8.IsScalar(v) { Said(At(p, at), [Quoted('\'', [v as char])]); }
  }

  lemma ConstDerefShown(s: string, p: Printer, q: Printer, v: bool)
    requires Ready(s, p, q)
    ensures Shown(ConstDeref(s, p, v), ConstDeref(s, q, v), false)
  {
    hide ConstStr;
    var p1 := Say(p, Open(v) + [Text("*")]);
    Said(p, Open(v) + [Text("*")]);
    ConstStrShown(s, p1, q);
    Said(ConstStr(s, p1), Close(v));
  }

  lemma ConstStrShown(s: string, p: Printer, q: Printer)
    requires Ready(s, p, q)
    ensures Shown(ConstStr(s, p), ConstStr(s, q), false)
  {
    hide HexNibbles, ParseChars;
    ConstStrTied(s, p, q);
    match HexNibbles(s, p.state.at)
    case Bad(e) => Failing(p, e);
    case Got(hex, at) =>
      match ParseChars(hex)
      case None => Failing(At(p, at), Invalid);
      case Some(t) => Said(At(p, at), [Quoted('"', t)]);
  }
}
