/** One production of the v0 printer at a time: if the runs inside it go as far as said and write the pieces said,
    so does the whole. Printing and skipping alike. */
module V0Steps {
  import opened Common
  import opened V0Parser
  import opened V0Printer
  import opened V0Names
  import opened V0Symbols
  import opened V0Lexemes
  import Utf8

  // Runs -------------------------------------------------------------------------------------

  /** A run that has not failed. */
  ghost predicate Runs(s: string, p: Printer) {
    Wf(s, p) && p.state.Scanning?
  }

  /** The run `n` characters further, with these pieces written if it prints. */
  ghost function Went(p: Printer, n: nat, xs: seq<Piece>): (r: Printer)
    requires p.state.Scanning?
    ensures r.state == Scanning(Past(p.state.at, n)) && r.lifetimes == p.lifetimes
    ensures r.out.Some? == p.out.Some? && Alternate(r) == Alternate(p)
  {
    Say(At(p, Past(p.state.at, n)), xs)
  }

  lemma Further(p: Printer, n: nat, xs: seq<Piece>, m: nat, ys: seq<Piece>)
    requires p.state.Scanning?
    ensures Went(Went(p, n, xs), m, ys) == Went(p, n + m, xs + ys)
    ensures Say(Went(p, n, xs), ys) == Went(p, n, xs + ys)
  {
    if p.out.Some? {
      var zs := p.out.value.pieces;
      assert zs + xs + ys == zs + (xs + ys);
    }
  }

  lemma Still(p: Printer, xs: seq<Piece>)
    requires p.state.Scanning?
    ensures Say(p, xs) == Went(p, 0, xs)
  {
  }

  lemma Stepped(p: Printer, n: nat)
    requires p.state.Scanning?
    ensures At(p, Past(p.state.at, n)) == Went(p, n, [])
  {
    if p.out.Some? {
      assert p.out.value.pieces + [] == p.out.value.pieces;
    }
  }

  /** From the step into something that starts after `k` characters. */
  lemma After(p: Printer, k: nat, n: nat, xs: seq<Piece>)
    requires p.state.Scanning?
    ensures Went(Went(p, k, []), n, xs) == Went(p, k + n, xs)
  {
    hide Went;
    Further(p, k, [], n, xs);
    assert [] + xs == xs;
  }

  lemma Redone(p: Printer, n: nat, xs: seq<Piece>, k: nat)
    requires p.state.Scanning?
    ensures At(Went(p, n, xs), Past(p.state.at, k)) == Went(p, k, xs)
  {
  }

  lemma Silent(p: Printer, n: nat, xs: seq<Piece>, ys: seq<Piece>)
    requires p.state.Scanning? && p.out.None?
    ensures Went(p, n, xs) == Went(p, n, ys)
  {
  }

  /** The run past a tag and one level deeper. */
  ghost function Down(p: Printer): Printer
    requires p.state.Scanning?
  {
    At(p, Pos(p.state.at.next + 1, p.state.at.depth + 1))
  }

  lemma Up(p: Printer, n: nat, xs: seq<Piece>)
    requires p.state.Scanning?
    ensures Leave(Went(Down(p), n, xs)) == Went(p, n + 1, xs)
  {
  }

  // Back references --------------------------------------------------------------------------

  lemma BackRead(s: string, at: Pos, to: Number)
    requires 0 < at.next <= |s| && at.depth < MAX_DEPTH && Reads(s, at.next, Base62(to)) && to < at.next - 1
    ensures Backref(s, at) == Got(Pos(to, at.depth + 1), Past(at, |Base62(to)|))
  {
    hide Integer62, Base62;
    NumberRead(s, at, to);
  }

  /** The run at the target of a back reference. */
  ghost function Target(p: Printer, to: nat): Printer
    requires p.state.Scanning?
  {
    At(p, Pos(to, p.state.at.depth + 1))
  }

  /** Whatever is shown at the target is shown here. */
  lemma Back(p: Printer, to: nat, k: nat, n: nat, xs: seq<Piece>)
    requires p.state.Scanning?
    ensures At(Went(Target(p, to), n, xs), Past(p.state.at, k)) == Went(p, k, xs)
  {
  }

  // Paths ------------------------------------------------------------------------------------

  lemma PathEnter(s: string, p: Printer, v: bool)
    requires Runs(s, p) && p.state.at.next < |s| && p.state.at.depth < MAX_DEPTH
    ensures PrintPath(s, p, v) == Leave(PathBody(s, Down(p), s[p.state.at.next], v))
  {
    hide PathBody;
  }

  lemma CrateStep(s: string, p: Printer, dis: Number, name: Label)
    requires Runs(s, p) && Stands(s, p.state.at.next, MangleLabel(dis, name))
    ensures CrateRoot(s, p) == Went(p, |MangleLabel(dis, name)|,
                                    [Name(name)] + if Alternate(p) then [] else [Text("["), Piece.Hex(dis), Text("]")])
  {
    hide MangleLabel, Disambiguator, ScanIdent;
    LabelRead(s, p.state.at, dis, name);
  }

  lemma SegmentShown(ns: Letter, dis: nat, name: Label)
    ensures NestedText(if ns >= 'a' then None else Some(ns), dis, name) == Segment(ns, dis, name)
  {
  }

  lemma NamespaceRead(s: string, at: Pos, ns: Letter)
    requires Reads(s, at.next, [ns])
    ensures Namespace(s, at) == Got(if ns >= 'a' then None else Some(ns), Past(at, 1))
  {
    First(s, at.next, [ns]);
  }

  lemma NestedSaid(s: string, p: Printer, ns: Letter, dis: Number, name: Label)
    requires Runs(s, p) && Stands(s, p.state.at.next, MangleLabel(dis, name))
    ensures NestedName(s, p, if ns >= 'a' then None else Some(ns)) == Went(p, |MangleLabel(dis, name)|, Segment(ns, dis, name))
  {
    hide MangleLabel, Disambiguator, ScanIdent, NestedText, Segment;
    LabelRead(s, p.state.at, dis, name);
    SegmentShown(ns, dis, name);
  }

  lemma NestedStep(s: string, p: Printer, v: bool, ns: Letter, m: nat, xs: seq<Piece>, dis: Number, name: Label)
    requires Runs(s, p) && p.state.at.next > 0 && Reads(s, p.state.at.next, [ns])
    requires PrintPath(s, Went(p, 1, []), v) == Went(Went(p, 1, []), m, xs)
    requires Stands(s, p.state.at.next + 1 + m, MangleLabel(dis, name))
    ensures PathBody(s, p, 'N', v) == Went(p, 1 + m + |MangleLabel(dis, name)|, xs + Segment(ns, dis, name))
  {
    hide CrateRoot, PrintPath, NestedName, ImplPath, QualifiedSelf, GenericPath, PathBackref, Namespace, Segment,
      Went, MangleLabel;
    NamespaceRead(s, p.state.at, ns);
    Stepped(p, 1);
    After(p, 1, m, xs);
    NestedSaid(s, Went(p, 1 + m, xs), ns, dis, name);
    Further(p, 1 + m, xs, |MangleLabel(dis, name)|, Segment(ns, dis, name));
  }

  lemma Hushed(p: Printer, k: nat, n: nat, xs: seq<Piece>)
    requires p.state.Scanning?
    ensures Went(Went(p, k, []).(out := None), n, xs).(out := p.out) == Went(p, k + n, [])
  {
    if p.out.Some? {
      assert p.out.value.pieces + [] == p.out.value.pieces;
    }
  }

  /** The path of an `impl` is read and not shown. */
  lemma ImplStep(s: string, p: Printer, tag: char, dis: Number, n: nat, xs: seq<Piece>)
    requires Runs(s, p) && Reads(s, p.state.at.next, Opt62('s', dis)) && (dis == 0 ==> !Sees(s, p.state.at, 's'))
    requires var q := Went(p, |Opt62('s', dis)|, []).(out := None); PrintPath(s, q, false) == Went(q, n, xs)
    ensures ImplPath(s, p, tag) == QualifiedSelf(s, Went(p, |Opt62('s', dis)| + n, []), tag)
  {
    hide PrintPath, QualifiedSelf, OptInteger62, Opt62, Went;
    OptRead(s, p.state.at, 's', dis);
    Stepped(p, |Opt62('s', dis)|);
    Hushed(p, |Opt62('s', dis)|, n, xs);
  }

  lemma InherentStep(s: string, p: Printer, m: nat, xs: seq<Piece>)
    requires Runs(s, p)
    requires var q := Went(p, 0, [Text("<")]); PrintType(s, q) == Went(q, m, xs)
    ensures QualifiedSelf(s, p, 'M') == Went(p, m, [Text("<")] + (xs + [Text(">")]))
  {
    hide PrintType, Went;
    Still(p, [Text("<")]);
    Further(p, 0, [Text("<")], m, xs);
    Further(p, m, [Text("<")] + xs, 0, [Text(">")]);
    assert [Text("<")] + xs + [Text(">")] == [Text("<")] + (xs + [Text(">")]);
  }

  lemma QualifiedStep(s: string, p: Printer, tag: char, m: nat, xs: seq<Piece>, n: nat, ys: seq<Piece>)
    requires Runs(s, p) && tag != 'M'
    requires var q := Went(p, 0, [Text("<")]); PrintType(s, q) == Went(q, m, xs)
    requires var q := Went(p, m, [Text("<")] + xs + [Text(" as ")]); Wf(s, q) && PrintPath(s, q, false) == Went(q, n, ys)
    ensures QualifiedSelf(s, p, tag) == Went(p, m + n, Qualified(xs, ys))
  {
    hide PrintType, PrintPath, Went;
    var head := [Text("<")] + xs + [Text(" as ")];
    Still(p, [Text("<")]);
    Further(p, 0, [Text("<")], m, xs);
    Further(p, m, [Text("<")] + xs, 0, [Text(" as ")]);
    Further(p, m, head, n, ys);
    Further(p, m + n, head + ys, 0, [Text(">")]);
    assert head + ys + [Text(">")] == Qualified(xs, ys);
  }

  lemma GenericStep(s: string, p: Printer, v: bool, m: nat, xs: seq<Piece>, open: seq<Piece>, n: nat, ys: seq<Piece>)
    requires Runs(s, p) && open == if v then [Text("::"), Text("<")] else [Text("<")]
    requires PrintPath(s, p, v) == Went(p, m, xs)
    requires var q := Went(p, m, xs + open); Wf(s, q) && PrintList(s, q, GenericArgs, 0).0 == Went(q, n, ys)
    ensures GenericPath(s, p, v) == Went(p, m + n, xs + (open + (ys + [Text(">")])))
  {
    hide PrintPath, PrintList, Went;
    Further(p, m, xs, 0, open);
    Further(p, m, xs + open, n, ys);
    Further(p, m + n, xs + open + ys, 0, [Text(">")]);
    assert xs + open + ys + [Text(">")] == xs + (open + (ys + [Text(">")]));
  }

  lemma PathBackStep(s: string, p: Printer, v: bool, to: Number, n: nat, xs: seq<Piece>)
    requires Runs(s, p) && p.state.at.next > 0 && p.state.at.depth < MAX_DEPTH
    requires Reads(s, p.state.at.next, Base62(to)) && to < p.state.at.next - 1
    requires p.out.Some? ==> PrintPath(s, Target(p, to), v) == Went(Target(p, to), n, xs)
    ensures PathBackref(s, p, v) == Went(p, |Base62(to)|, xs)
  {
    hide PrintPath, Backref, Base62;
    BackRead(s, p.state.at, to);
    Back(p, to, |Base62(to)|, n, xs);
  }

  // Lifetimes --------------------------------------------------------------------------------

  lemma LifetimeShown(depth: nat)
    ensures [Text("'")] + LifetimeName(depth) == Lifetime(depth)
  {
    if depth < 26 {
      LowerAt(depth);
    }
  }

  lemma LifetimeStep(p: Printer, index: nat, l: nat)
    requires p.state.Scanning? && (p.out.Some? ==> p.lifetimes == l && index <= l)
    ensures PrintLifetime(p, index) == Went(p, 0, RenderLifetime(index, l))
  {
    hide Lifetime, LifetimeName;
    Still(p, RenderLifetime(index, l));
    if 0 < index <= l {
      LifetimeShown(l - index);
    }
  }

  /** One lifetime more. */
  lemma BindTurn(p: Printer, l: nat, i: nat, n: nat, comma: seq<Piece>)
    requires p.state.Scanning? && p.out.Some? && i < n && p.lifetimes == l + i && l + n < TWO_32
    requires comma == if i == 0 then [] else [Text(", ")]
    ensures BindLifetimes(p, i, n) == BindLifetimes(Went(p.(lifetimes := l + i + 1), 0, comma + Lifetime(l + i)), i + 1, n)
  {
    hide PrintLifetime, Lifetime, Went, Say, Bumped;
    var bound := p.(lifetimes := l + i + 1);
    assert (p.lifetimes + 1) % TWO_32 == l + i + 1;
    Still(bound, comma);
    LifetimeStep(Went(bound, 0, comma), 1, l + i + 1);
    Further(bound, 0, comma, 0, Lifetime(l + i));
  }

  lemma {:induction false} BindStep(p: Printer, l: nat, i: nat, n: nat)
    requires p.state.Scanning? && p.out.Some? && i <= n && p.lifetimes == l + i && l + n < TWO_32
    ensures BindLifetimes(p, i, n) == Went(p, 0, RenderNew(l, i, n)).(lifetimes := l + n)
    decreases n - i
  {
    hide Lifetime, Went, Bumped;
    if i == n {
      Stepped(p, 0);
    } else {
      hide BindLifetimes, RenderNew;
      var comma := if i == 0 then [] else [Text(", ")];
      var bound, named := p.(lifetimes := l + i + 1), comma + Lifetime(l + i);
      BindTurn(p, l, i, n, comma);
      BindStep(Went(bound, 0, named), l, i + 1, n);
      Further(bound, 0, named, 0, RenderNew(l, i + 1, n));
      NewTurn(l, i, n, comma);
      Rebound(p, l + i + 1, 0, RenderNew(l, i, n), l + n);
    }
  }

  lemma NewTurn(l: nat, i: nat, n: nat, comma: seq<Piece>)
    requires i < n && comma == if i == 0 then [] else [Text(", ")]
    ensures RenderNew(l, i, n) == comma + Lifetime(l + i) + RenderNew(l, i + 1, n)
  {
    hide Lifetime;
    var name, rest := Lifetime(l + i), RenderNew(l, i + 1, n);
    assert comma + name + rest == comma + (name + rest);
  }

  lemma Rebound(p: Printer, k: nat, n: nat, xs: seq<Piece>, l: nat)
    requires p.state.Scanning?
    ensures Went(p.(lifetimes := k), n, xs).(lifetimes := l) == Went(p, n, xs).(lifetimes := l)
  {
  }

  /** The run inside a binder of `n` lifetimes. */
  ghost function Inside(p: Printer, n: nat, l: nat): Printer
    requires p.state.Scanning?
  {
    Went(p, 0, RenderBinder(l, n)).(lifetimes := if p.out.Some? then l + n else p.lifetimes)
  }

  lemma EnterStep(p: Printer, n: nat, l: nat)
    requires p.state.Scanning? && p.lifetimes < TWO_32 && (p.out.Some? ==> p.lifetimes == l && l + n < TWO_32)
    ensures EnterBinder(p, n) == Inside(p, n, l)
  {
    hide BindLifetimes, RenderNew, Bumped, Went;
    if p.out.None? {
      Stepped(p, 0);
      Silent(p, 0, [], RenderBinder(l, n));
    } else if n == 0 {
      Stepped(p, 0);
    } else {
      var xs := RenderNew(l, 0, n);
      Still(p, [Text("for<")]);
      BindStep(Went(p, 0, [Text("for<")]), l, 0, n);
      Further(p, 0, [Text("for<")], 0, xs);
      Relabelled(p, 0, [Text("for<")] + xs, l + n, [Text("> ")]);
      assert [Text("for<")] + xs + [Text("> ")] == RenderBinder(l, n);
    }
  }

  lemma Relabelled(p: Printer, n: nat, xs: seq<Piece>, l: nat, ys: seq<Piece>)
    requires p.state.Scanning?
    ensures Say(Went(p, n, xs).(lifetimes := l), ys) == Went(p, n, xs + ys).(lifetimes := l)
  {
    Further(p, n, xs, 0, ys);
  }

  /** Out of the binder, with its lifetimes written before what is inside. */
  lemma LeaveStep(p: Printer, k: nat, n: nat, l: nat, m: nat, xs: seq<Piece>)
    requires p.state.Scanning? && p.lifetimes < TWO_32 && (p.out.Some? ==> p.lifetimes == l && l + n < TWO_32)
    ensures var r := Went(Inside(Went(p, k, []), n, l), m, xs);
            && r.lifetimes == (if r.out.None? then p.lifetimes else Bumped(p.lifetimes, n))
            && LeaveBinder(r, n, p.lifetimes) == Went(p, k + m, RenderBinder(l, n) + xs)
  {
    hide RenderBinder, Bumped;
    if p.out.Some? {
      BumpedFits(l, n);
      var zs := p.out.value.pieces;
      assert zs + [] == zs && zs + RenderBinder(l, n) + xs == zs + (RenderBinder(l, n) + xs);
    }
  }

  // Types ------------------------------------------------------------------------------------

  lemma BasicStep(s: string, p: Printer, tag: Tag)
    requires Runs(s, p) && Sees(s, p.state.at, tag)
    ensures PrintType(s, p) == Went(p, 1, [Text(BasicName(tag))])
  {
    hide TypeBody, PrintPath, BasicType, BasicName;
    BasicTable(tag);
  }

  lemma TypeEnter(s: string, p: Printer)
    requires Runs(s, p) && p.state.at.next < |s| && p.state.at.depth < MAX_DEPTH && !IsTag(s[p.state.at.next])
    ensures PrintType(s, p) ==
            if IsTypeTag(s[p.state.at.next]) then Leave(TypeBody(s, Down(p), s[p.state.at.next]))
            else Leave(PrintPath(s, Deeper(p), false))
  {
    hide TypeBody, PrintPath, BasicType, BasicName, IsTypeTag;
    BasicTable(s[p.state.at.next]);
  }

  /** The same place, one level deeper. */
  ghost function Deeper(p: Printer): Printer
    requires p.state.Scanning?
  {
    At(p, Pos(p.state.at.next, p.state.at.depth + 1))
  }

  lemma Shallower(p: Printer, n: nat, xs: seq<Piece>)
    requires p.state.Scanning?
    ensures Leave(Went(Deeper(p), n, xs)) == Went(p, n, xs)
  {
  }

  /** Something written before and after a type. */
  lemma Around(s: string, p: Printer, xs: seq<Piece>, m: nat, ys: seq<Piece>, zs: seq<Piece>)
    requires Runs(s, p)
    requires var q := Went(p, 0, xs); PrintType(s, q) == Went(q, m, ys)
    ensures Say(PrintType(s, Say(p, xs)), zs) == Went(p, m, xs + (ys + zs))
    ensures PrintType(s, Say(p, xs)) == Went(p, m, xs + ys)
  {
    hide PrintType, Went;
    Still(p, xs);
    Further(p, 0, xs, m, ys);
    Further(p, m, xs + ys, 0, zs);
    assert xs + ys + zs == xs + (ys + zs);
  }

  lemma ArrayStep(s: string, p: Printer, m: nat, xs: seq<Piece>, n: nat, ys: seq<Piece>)
    requires Runs(s, p)
    requires var q := Went(p, 0, [Text("[")]); PrintType(s, q) == Went(q, m, xs)
    requires var q := Went(p, m, [Text("[")] + (xs + [Text("; ")])); Wf(s, q) && PrintConst(s, q, true) == Went(q, n, ys)
    ensures ArrayType(s, p) == Went(p, m + n, [Text("[")] + (xs + ([Text("; ")] + (ys + [Text("]")]))))
  {
    hide PrintType, PrintConst, Went;
    var head := [Text("[")] + (xs + [Text("; ")]);
    Around(s, p, [Text("[")], m, xs, [Text("; ")]);
    Further(p, m, head, n, ys);
    Further(p, m + n, head + ys, 0, [Text("]")]);
    assert head + ys + [Text("]")] == [Text("[")] + (xs + ([Text("; ")] + (ys + [Text("]")])));
  }

  /** A list between what opens and what closes it. */
  lemma Listed(s: string, p: Printer, kind: Kind, xs: seq<Piece>, m: nat, ys: seq<Piece>, zs: seq<Piece>)
    requires Runs(s, p)
    requires var q := Went(p, 0, xs); PrintList(s, q, kind, 0).0 == Went(q, m, ys)
    ensures Say(PrintList(s, Say(p, xs), kind, 0).0, zs) == Went(p, m, xs + (ys + zs))
  {
    hide PrintList, Went;
    Still(p, xs);
    Further(p, 0, xs, m, ys);
    Further(p, m, xs + ys, 0, zs);
    assert xs + ys + zs == xs + (ys + zs);
  }

  lemma TupleStep(s: string, p: Printer, elems: Items, m: nat, xs: seq<Piece>)
    requires Runs(s, p)
    requires var q := Went(p, 0, [Text("(")]); PrintList(s, q, Types, 0) == (Went(q, m, xs), Count(elems))
    ensures TupleType(s, p) == Went(p, m, [Text("(")] + (xs + RenderEnd(elems)))
  {
    hide PrintList, Went, Count;
    Still(p, [Text("(")]);
    Listed(s, p, Types, [Text("(")], m, xs, RenderEnd(elems));
  }

  lemma RefStep(s: string, p: Printer, mutable: bool, lifetime: Option<Number>, l: nat, m: nat, xs: seq<Piece>)
    requires Runs(s, p) && (p.out.Some? ==> p.lifetimes == l && (lifetime.Some? ==> lifetime.value <= l))
    requires Reads(s, p.state.at.next, MangleLifetime(lifetime)) && (lifetime.None? ==> !Sees(s, p.state.at, 'L'))
    requires var q := Went(p, |MangleLifetime(lifetime)|, RenderRef(mutable, lifetime, l));
             Wf(s, q) && PrintType(s, q) == Went(q, m, xs)
    ensures Reference(s, p, mutable) == Went(p, |MangleLifetime(lifetime)| + m, RenderRef(mutable, lifetime, l) + xs)
  {
    hide PrintType, Went, Integer62, RenderLifetime, Base62, RenderRef, NameLifetime;
    var k := |MangleLifetime(lifetime)|;
    NamedStep(s, p, mutable, lifetime, l);
    Further(p, k, RenderRef(mutable, lifetime, l), m, xs);
  }

  lemma NamedStep(s: string, p: Printer, mutable: bool, lifetime: Option<Number>, l: nat)
    requires Runs(s, p) && (p.out.Some? ==> p.lifetimes == l && (lifetime.Some? ==> lifetime.value <= l))
    requires Reads(s, p.state.at.next, MangleLifetime(lifetime)) && (lifetime.None? ==> !Sees(s, p.state.at, 'L'))
    requires p.state.at.next + |MangleLifetime(lifetime)| <= |s|
    ensures Reference(s, p, mutable) == PrintType(s, Went(p, |MangleLifetime(lifetime)|, RenderRef(mutable, lifetime, l)))
  {
    hide PrintType, Reference, Referent, Went, Base62, RenderOuter, RenderRef;
    var k, xs := |MangleLifetime(lifetime)|, [Text("&")] + RenderOuter(lifetime, l);
    RefShown(mutable, lifetime, l);
    if lifetime.Some? {
      LifetimeNamed(s, p, mutable, lifetime.value, l);
    } else {
      NoneNamed(s, p, mutable);
    }
    ReferentStep(s, p, k, xs, mutable);
  }

  lemma NoneNamed(s: string, p: Printer, mutable: bool)
    requires Runs(s, p) && !Sees(s, p.state.at, 'L')
    ensures Reference(s, p, mutable) == Referent(s, Went(p, 0, [Text("&")]), mutable)
  {
    hide Referent, Went;
    Still(p, [Text("&")]);
  }

  lemma LifetimeNamed(s: string, p: Printer, mutable: bool, index: Number, l: nat)
    requires Runs(s, p) && (p.out.Some? ==> p.lifetimes == l && index <= l) && Reads(s, p.state.at.next, "L" + Base62(index))
    ensures var q := Went(p, 1 + |Base62(index)|, [Text("&")] + RenderOuter(Some(index), l));
            Wf(s, q) && Reference(s, p, mutable) == Referent(s, q, mutable)
  {
    hide Referent, Went, Integer62, Base62, NameLifetime, RenderOuter;
    var k, amp := 1 + |Base62(index)|, [Text("&")];
    Still(p, amp);
    LifetimeScanned(s, p, index);
    Redone(p, 0, amp, k);
    OuterStep(Went(p, k, amp), index, l);
    Further(p, k, amp, 0, RenderOuter(Some(index), l));
  }

  lemma RefShown(mutable: bool, lifetime: Option<Number>, l: nat)
    ensures [Text("&")] + RenderOuter(lifetime, l) + (if mutable then [Text("mut ")] else []) == RenderRef(mutable, lifetime, l)
    ensures [Text("&")] + RenderOuter(None, l) == [Text("&")]
  {
    var amp, outer, mut := [Text("&")], RenderOuter(lifetime, l), if mutable then [Text("mut ")] else [];
    assert amp + outer + mut == amp + (outer + mut);
  }

  lemma LifetimeScanned(s: string, p: Printer, index: Number)
    requires Runs(s, p) && Reads(s, p.state.at.next, "L" + Base62(index))
    ensures Sees(s, p.state.at, 'L')
    ensures Integer62(s, Past(p.state.at, 1)) == Got(index, Past(p.state.at, 1 + |Base62(index)|))
  {
    hide Integer62, Base62;
    Parts(s, p.state.at.next, "L", Base62(index));
    First(s, p.state.at.next, "L");
    NumberRead(s, Past(p.state.at, 1), index);
  }

  lemma ReferentStep(s: string, p: Printer, k: nat, xs: seq<Piece>, mutable: bool)
    requires Runs(s, p) && Wf(s, Went(p, k, xs))
    ensures Referent(s, Went(p, k, xs), mutable) ==
            PrintType(s, Went(p, k, xs + if mutable then [Text("mut ")] else []))
  {
    hide PrintType, Went;
    Further(p, k, xs, 0, if mutable then [Text("mut ")] else []);
  }

  lemma OuterStep(p: Printer, index: Number, l: nat)
    requires p.state.Scanning? && (p.out.Some? ==> p.lifetimes == l && index <= l)
    ensures NameLifetime(p, index) == Went(p, 0, RenderOuter(Some(index), l))
  {
    hide PrintLifetime, RenderLifetime, Went;
    if index == 0 {
      Stepped(p, 0);
    } else {
      LifetimeStep(p, index, l);
      Further(p, 0, RenderLifetime(index, l), 0, [Text(" ")]);
    }
  }

  ghost function AbiText(abi: Abi): Option<string> {
    match abi
    case Rust => None
    case C => Some("C")
    case Other(name) => Some(name.ascii)
  }

  lemma HeadShown(isUnsafe: bool, abi: Abi)
    ensures FnHead(isUnsafe, AbiText(abi)) == RenderFn(isUnsafe, abi)
  {
    hide Dashed, Hyphens;
    if abi.Other? {
      DashedAll(abi.name.ascii);
    } else if abi.C? {
      DashedC();
    }
    var head, mid := if isUnsafe then [Text("unsafe ")] else [], RenderAbi(abi);
    assert head + mid + [Text("fn(")] == head + (mid + [Text("fn(")]);
  }

  lemma DashedC()
    ensures Dashed("C") == "C"
  {
  }

  /** Whatever follows the head of a function type. */
  ghost predicate PlainAfter(s: string, i: nat) {
    i < |s| && s[i] != 'U' && s[i] != 'K' && s[i] != 'G' && s[i] != '_'
  }

  lemma AbiStep(s: string, p: Printer, isUnsafe: bool, abi: Abi)
    requires Runs(s, p) && Reads(s, p.state.at.next, MangleAbi(abi)) && PlainAfter(s, p.state.at.next + |MangleAbi(abi)|)
    requires abi.Other? ==> abi.name.ascii != "" && abi.name.punycode == ""
    requires isUnsafe ==> p.state.at.next > 0
    ensures SigRest(s, p, isUnsafe) == FnRest(s, Went(p, |MangleAbi(abi)|, []), isUnsafe, AbiText(abi))
  {
    hide FnRest, ScanIdent, Mangled, IsLabel;
    match abi
    case Rust => Stepped(p, 0);
    case C =>
      First(s, p.state.at.next, "KC");
      assert s[p.state.at.next + 1] == "KC"[1];
      Stepped(p, 2);
    case Other(name) =>
      Parts(s, p.state.at.next, "K", Mangled(name));
      First(s, p.state.at.next, "K");
      NameFirst(name);
      First(s, p.state.at.next + 1, Mangled(name));
      NameRead(s, Past(p.state.at, 1), name);
      Stepped(p, 1 + |Mangled(name)|);
  }

  /** The part of a function type from its ABI on. */
  ghost function SigRest(s: string, p: Printer, isUnsafe: bool): Printer
    requires Runs(s, p)
  {
    if !Eats(s, p, 'K') then FnRest(s, p, isUnsafe, None)
    else if Eats(s, Eaten(p), 'C') then FnRest(s, Eaten(Eaten(p)), isUnsafe, Some("C"))
    else
      match ScanIdent(s, Eaten(p).state.at)
      case Bad(e) => Fail(p, e)
      case Got(abi, at) =>
        if abi.ascii == "" || abi.punycode != "" then Fail(At(p, at), Invalid)
        else FnRest(s, At(p, at), isUnsafe, Some(abi.ascii))
  }

  lemma SigStep(s: string, p: Printer, isUnsafe: bool, abi: Abi)
    requires Runs(s, p) && Reads(s, p.state.at.next, MangleFn(isUnsafe, abi))
    requires PlainAfter(s, p.state.at.next + |MangleFn(isUnsafe, abi)|)
    requires abi.Other? ==> abi.name.ascii != "" && abi.name.punycode == ""
    ensures FnSig(s, p) == FnRest(s, Went(p, |MangleFn(isUnsafe, abi)|, []), isUnsafe, AbiText(abi))
  {
    hide FnRest, ScanIdent, Went, MangleAbi;
    var head := if isUnsafe then "U" else "";
    Parts(s, p.state.at.next, head, MangleAbi(abi));
    if isUnsafe {
      First(s, p.state.at.next, "U");
      Stepped(p, 1);
      AbiStep(s, Eaten(p), true, abi);
      After(p, 1, |MangleAbi(abi)|, []);
    } else {
      AbiBegins(s, p.state.at.next, abi);
      AbiStep(s, p, false, abi);
    }
  }

  lemma AbiBegins(s: string, i: nat, abi: Abi)
    requires Reads(s, i, MangleAbi(abi)) && PlainAfter(s, i + |MangleAbi(abi)|)
    ensures i < |s| && s[i] != 'U' && s[i] != 'G'
  {
    hide Mangled;
    if !abi.Rust? {
      First(s, i, MangleAbi(abi));
    }
  }

  lemma HeadBegins(s: string, i: nat, isUnsafe: bool, abi: Abi)
    requires Reads(s, i, MangleFn(isUnsafe, abi)) && PlainAfter(s, i + |MangleFn(isUnsafe, abi)|)
    ensures i < |s| && s[i] != 'G'
  {
    hide MangleAbi, Reads;
    var head := if isUnsafe then "U" else "";
    Parts(s, i, head, MangleAbi(abi));
    if isUnsafe {
      First(s, i, "U");
    } else {
      AbiBegins(s, i, abi);
    }
  }

  /** The parameters and the result of a function type. */
  lemma RestStep(s: string, p: Printer, isUnsafe: bool, abi: Abi, m: nat, xs: seq<Piece>, ret: seq<Piece>, n: nat)
    requires Runs(s, p)
    requires var q := Went(p, 0, RenderFn(isUnsafe, abi)); PrintList(s, q, Types, 0).0 == Went(q, m, xs)
    requires var q := Went(p, m, RenderFn(isUnsafe, abi) + (xs + [Text(")")]));
             && Wf(s, q)
             && Went(q, n, ret) == if Sees(s, q.state.at, 'u') then Went(q, 1, []) else PrintType(s, Went(q, 0, [Text(" -> ")]))
    ensures FnRest(s, p, isUnsafe, AbiText(abi)) ==
            Went(p, m + n, RenderFn(isUnsafe, abi) + (xs + [Text(")")]) + ret)
  {
    hide PrintList, PrintType, Went, RenderFn, FnHead, AbiText;
    var head := RenderFn(isUnsafe, abi);
    HeadShown(isUnsafe, abi);
    Listed(s, p, Types, head, m, xs, [Text(")")]);
    var q := Went(p, m, head + (xs + [Text(")")]));
    Stepped(q, 1);
    Still(q, [Text(" -> ")]);
    Further(p, m, head + (xs + [Text(")")]), n, ret);
  }

  lemma FnStep(s: string, p: Printer, binder: Number, l: nat, m: nat, xs: seq<Piece>)
    requires Runs(s, p) && (p.out.Some? ==> p.lifetimes == l && l + binder < TWO_32)
    requires Reads(s, p.state.at.next, Opt62('G', binder)) && (binder == 0 ==> !Sees(s, p.state.at, 'G'))
    requires var q := Inside(Went(p, |Opt62('G', binder)|, []), binder, l); Wf(s, q) && FnSig(s, q) == Went(q, m, xs)
    ensures FnType(s, p) == Went(p, |Opt62('G', binder)| + m, RenderBinder(l, binder) + xs)
  {
    hide FnSig, OptInteger62, Opt62, Went, EnterBinder, LeaveBinder, RenderBinder, Bumped, Inside;
    OptRead(s, p.state.at, 'G', binder);
    var k := |Opt62('G', binder)|;
    Stepped(p, k);
    EnterStep(Went(p, k, []), binder, l);
    LeaveStep(p, k, binder, l, m, xs);
  }

  lemma DynTraitsStep(s: string, p: Printer, binder: Number, l: nat, m: nat, xs: seq<Piece>)
    requires Runs(s, p) && (p.out.Some? ==> p.lifetimes == l && l + binder < TWO_32)
    requires Reads(s, p.state.at.next, Opt62('G', binder)) && (binder == 0 ==> !Sees(s, p.state.at, 'G'))
    requires var q := Inside(Went(p, |Opt62('G', binder)|, []), binder, l);
             Wf(s, q) && PrintList(s, q, Traits, 0).0 == Went(q, m, xs)
    ensures DynTraits(s, p) == Went(p, |Opt62('G', binder)| + m, RenderBinder(l, binder) + xs)
  {
    hide PrintList, OptInteger62, Opt62, Went, EnterBinder, LeaveBinder, RenderBinder, Bumped, Inside;
    OptRead(s, p.state.at, 'G', binder);
    var k := |Opt62('G', binder)|;
    Stepped(p, k);
    EnterStep(Went(p, k, []), binder, l);
    LeaveStep(p, k, binder, l, m, xs);
  }

  lemma DynBoundStep(s: string, p: Printer, bound: Number, l: nat)
    requires Runs(s, p) && (p.out.Some? ==> p.lifetimes == l && bound <= l) && Reads(s, p.state.at.next, "L" + Base62(bound))
    ensures DynBound(s, p) ==
            Went(p, 1 + |Base62(bound)|, if bound == 0 then [] else [Text(" + ")] + RenderLifetime(bound, l))
  {
    hide Integer62, Base62, PrintLifetime, RenderLifetime, Went;
    var k := 1 + |Base62(bound)|;
    LifetimeScanned(s, p, bound);
    Stepped(p, k);
    if bound > 0 {
      Further(p, k, [], 0, [Text(" + ")]);
      assert [] + [Text(" + ")] == [Text(" + ")];
      LifetimeStep(Went(p, k, [Text(" + ")]), bound, l);
      Further(p, k, [Text(" + ")], 0, RenderLifetime(bound, l));
    }
  }

  lemma TypeBackStep(s: string, p: Printer, to: Number, n: nat, xs: seq<Piece>)
    requires Runs(s, p) && p.state.at.next > 0 && p.state.at.depth < MAX_DEPTH
    requires Reads(s, p.state.at.next, Base62(to)) && to < p.state.at.next - 1
    requires p.out.Some? ==> PrintType(s, Target(p, to)) == Went(Target(p, to), n, xs)
    ensures TypeBackref(s, p) == Went(p, |Base62(to)|, xs)
  {
    hide PrintType, Backref, Base62;
    BackRead(s, p.state.at, to);
    Back(p, to, |Base62(to)|, n, xs);
  }

  // Lists ------------------------------------------------------------------------------------

  lemma NilStep(s: string, p: Printer, kind: Kind, i: nat)
    requires Runs(s, p) && Sees(s, p.state.at, 'E')
    ensures PrintList(s, p, kind, i) == (Went(p, 1, []), i)
  {
    hide PrintItem;
    Stepped(p, 1);
  }

  lemma ConsStep(s: string, p: Printer, kind: Kind, i: nat, sep: seq<Piece>, m: nat, xs: seq<Piece>, n: nat, ys: seq<Piece>, c: nat)
    requires Runs(s, p) && !Sees(s, p.state.at, 'E') && sep == if i == 0 then [] else [Text(Separator(kind))]
    requires var q := Went(p, 0, sep); PrintItem(s, q, kind) == Went(q, m, xs)
    requires var q := Went(p, m, sep + xs); Wf(s, q) && PrintList(s, q, kind, i + 1) == (Went(q, n, ys), c)
    ensures PrintList(s, p, kind, i) == (Went(p, m + n, sep + (xs + ys)), c)
  {
    hide PrintItem, Went, Separator;
    ListTurn(s, p, kind, i, sep);
    Further(p, 0, sep, m, xs);
    Further(p, m, sep + xs, n, ys);
    assert sep + xs + ys == sep + (xs + ys);
  }

  lemma ListTurn(s: string, p: Printer, kind: Kind, i: nat, sep: seq<Piece>)
    requires Runs(s, p) && !Sees(s, p.state.at, 'E') && sep == if i == 0 then [] else [Text(Separator(kind))]
    ensures PrintList(s, p, kind, i) == PrintList(s, PrintItem(s, Went(p, 0, sep), kind), kind, i + 1)
  {
    hide PrintItem, Went, Separator;
    Still(p, sep);
  }

  lemma LifetimeArgStep(s: string, p: Printer, index: Number, l: nat)
    requires Runs(s, p) && (p.out.Some? ==> p.lifetimes == l && index <= l) && Reads(s, p.state.at.next, "L" + Base62(index))
    ensures PrintItem(s, p, GenericArgs) == Went(p, 1 + |Base62(index)|, RenderLifetime(index, l))
  {
    hide Integer62, Base62, PrintLifetime, RenderLifetime, Went, PrintType, PrintConst;
    var k := 1 + |Base62(index)|;
    LifetimeScanned(s, p, index);
    Stepped(p, k);
    LifetimeStep(Went(p, k, []), index, l);
    After(p, k, 0, RenderLifetime(index, l));
  }

  lemma ConstArgStep(s: string, p: Printer, m: nat, xs: seq<Piece>)
    requires Runs(s, p) && Sees(s, p.state.at, 'K')
    requires var q := Went(p, 1, []); PrintConst(s, q, false) == Went(q, m, xs)
    ensures PrintItem(s, p, GenericArgs) == Went(p, 1 + m, xs)
  {
    hide Integer62, Went, PrintType, PrintConst;
    Stepped(p, 1);
    After(p, 1, m, xs);
  }

  lemma TypeItemStep(s: string, p: Printer, kind: Kind)
    requires Runs(s, p) && (kind == Types || kind == GenericArgs) && !Sees(s, p.state.at, 'L') && !Sees(s, p.state.at, 'K')
    ensures PrintItem(s, p, kind) == PrintType(s, p)
  {
    hide Integer62, PrintType, PrintConst, PrintTrait, PrintFieldInit;
  }

  lemma ConstItemStep(s: string, p: Printer)
    requires Runs(s, p)
    ensures PrintItem(s, p, Consts) == PrintConst(s, p, true)
  {
    hide PrintConst;
  }

  lemma FieldStep(s: string, p: Printer, dis: Number, name: Label, m: nat, xs: seq<Piece>)
    requires Runs(s, p) && Stands(s, p.state.at.next, MangleLabel(dis, name))
    requires var q := Went(p, |MangleLabel(dis, name)|, [Name(name), Text(": ")]);
             Wf(s, q) && PrintConst(s, q, true) == Went(q, m, xs)
    ensures PrintItem(s, p, FieldInits) == Went(p, |MangleLabel(dis, name)| + m, [Name(name), Text(": ")] + xs)
  {
    hide MangleLabel, Disambiguator, ScanIdent, PrintConst, PrintGenericArg, PrintType, PrintTrait, Went;
    var k, head := |MangleLabel(dis, name)|, [Name(name), Text(": ")];
    LabelRead(s, p.state.at, dis, name);
    Stepped(p, k);
    Further(p, k, [], 0, head);
    assert [] + head == head;
    Further(p, k, head, m, xs);
  }

  // Trait objects ----------------------------------------------------------------------------

  lemma OpenBackStep(s: string, p: Printer, to: Number, n: nat, xs: seq<Piece>, open: bool)
    requires Runs(s, p) && p.state.at.depth < MAX_DEPTH && Reads(s, p.state.at.next, "B" + Base62(to)) && to < p.state.at.next
    requires p.out.Some? ==> PrintOpenPath(s, Target(p, to)) == (Went(Target(p, to), n, xs), open)
    ensures PrintOpenPath(s, p).0 == Went(p, 1 + |Base62(to)|, xs)
    ensures p.out.Some? ==> PrintOpenPath(s, p).1 == open
  {
    hide Backref, Base62, Went;
    Parts(s, p.state.at.next, "B", Base62(to));
    First(s, p.state.at.next, "B");
    BackRead(s, Past(p.state.at, 1), to);
    OpenBackTurn(s, p, to, Past(p.state.at, 1 + |Base62(to)|));
    Back(p, to, 1 + |Base62(to)|, n, xs);
    Stepped(p, 1 + |Base62(to)|);
    if p.out.None? {
      Silent(p, 1 + |Base62(to)|, [], xs);
    }
  }

  lemma OpenBackTurn(s: string, p: Printer, to: nat, after: Pos)
    requires Runs(s, p) && Sees(s, p.state.at, 'B') && p.state.at.depth < MAX_DEPTH
    requires Backref(s, Past(p.state.at, 1)) == Got(Pos(to, p.state.at.depth + 1), after)
    ensures PrintOpenPath(s, p) ==
            if p.out.None? then (At(p, after), false)
            else (At(PrintOpenPath(s, Target(p, to)).0, after), PrintOpenPath(s, Target(p, to)).1)
  {
    hide Backref, PrintList, PrintPath;
  }

  lemma OpenGenericStep(s: string, p: Printer, m: nat, xs: seq<Piece>, n: nat, ys: seq<Piece>)
    requires Runs(s, p) && Sees(s, p.state.at, 'I')
    requires var q := Went(p, 1, []); PrintPath(s, q, false) == Went(q, m, xs)
    requires var q := Went(p, 1 + m, xs + [Text("<")]); Wf(s, q) && PrintList(s, q, GenericArgs, 0).0 == Went(q, n, ys)
    ensures PrintOpenPath(s, p) == (Went(p, 1 + m + n, xs + ([Text("<")] + ys)), true)
  {
    hide PrintPath, PrintList, Went;
    Stepped(p, 1);
    After(p, 1, m, xs);
    Further(p, 1 + m, xs, 0, [Text("<")]);
    Further(p, 1 + m, xs + [Text("<")], n, ys);
    assert xs + [Text("<")] + ys == xs + ([Text("<")] + ys);
  }

  lemma OpenPlainStep(s: string, p: Printer)
    requires Runs(s, p) && !Sees(s, p.state.at, 'B') && !Sees(s, p.state.at, 'I')
    ensures PrintOpenPath(s, p) == (PrintPath(s, p, false), false)
  {
    hide PrintPath;
  }

  lemma TraitStep(s: string, p: Printer, m: nat, xs: seq<Piece>, open: bool, n: nat, ys: seq<Piece>)
    requires Runs(s, p) && PrintOpenPath(s, p) == (Went(p, m, xs), open)
    requires Projections(s, Went(p, m, xs), open) == Went(Went(p, m, xs), n, ys)
    ensures PrintItem(s, p, Traits) == Went(p, m + n, xs + ys)
  {
    hide PrintOpenPath, Projections, Went;
    Further(p, m, xs, n, ys);
  }

  lemma UnboundStep(s: string, p: Printer, open: bool)
    requires Runs(s, p) && !Sees(s, p.state.at, 'p')
    ensures Projections(s, p, open) == Went(p, 0, if open then [Text(">")] else [])
  {
    hide PrintType;
    Still(p, if open then [Text(">")] else []);
  }

  lemma BindingStep(s: string, p: Printer, open: bool, name: Label, m: nat, xs: seq<Piece>, n: nat, ys: seq<Piece>)
    requires Runs(s, p) && Sees(s, p.state.at, 'p') && Stands(s, p.state.at.next + 1, Mangled(name))
    requires var q := Went(p, 1 + |Mangled(name)|, [Text(if open then ", " else "<"), Name(name), Text(" = ")]);
             Wf(s, q) && PrintType(s, q) == Went(q, m, xs)
    requires var q := Went(p, 1 + |Mangled(name)| + m, [Text(if open then ", " else "<"), Name(name), Text(" = ")] + xs);
             Wf(s, q) && Projections(s, q, true) == Went(q, n, ys)
    ensures Projections(s, p, open) ==
            Went(p, 1 + |Mangled(name)| + m + n, [Text(if open then ", " else "<"), Name(name), Text(" = ")] + (xs + ys))
  {
    hide PrintType, ScanIdent, Mangled, Went, IsLabel;
    var k, head := 1 + |Mangled(name)|, [Text(if open then ", " else "<"), Name(name), Text(" = ")];
    BindingTurn(s, p, open, name, head);
    Further(p, k, head, m, xs);
    Further(p, k + m, head + xs, n, ys);
    assert head + xs + ys == head + (xs + ys);
  }

  lemma BindingTurn(s: string, p: Printer, open: bool, name: Label, head: seq<Piece>)
    requires Runs(s, p) && Sees(s, p.state.at, 'p') && Stands(s, p.state.at.next + 1, Mangled(name))
    requires head == [Text(if open then ", " else "<"), Name(name), Text(" = ")]
    ensures var q := Went(p, 1 + |Mangled(name)|, head); Wf(s, q) && Projections(s, p, open) == Projections(s, PrintType(s, q), true)
  {
    hide PrintType, ScanIdent, Mangled, Went, IsLabel;
    var k, first, rest := 1 + |Mangled(name)|, [Text(if open then ", " else "<")], [Name(name), Text(" = ")];
    Stepped(p, 1);
    After(p, 1, 0, first);
    Still(Went(p, 1, []), first);
    NameRead(s, Past(p.state.at, 1), name);
    Redone(p, 1, first, k);
    Further(p, k, first, 0, rest);
    assert first + rest == head;
  }

  // Constants --------------------------------------------------------------------------------

  lemma ConstEnter(s: string, p: Printer, v: bool)
    requires Runs(s, p) && p.state.at.next < |s| && p.state.at.depth < MAX_DEPTH
    ensures PrintConst(s, p, v) == Leave(ConstBody(s, Down(p), s[p.state.at.next], v))
  {
    hide ConstBody;
  }

  lemma NumberShown(n: nat, hex: string)
    requires hex == Text16(n)
    ensures (match ParseUint(hex) case Some(u) => [Piece.Decimal(u)] case None => [Text("0x"), Text(hex)]) == RenderNumber(n)
  {
    hide ParseUint, Text16;
    UintBack(n);
  }

  lemma UintStep(s: string, p: Printer, tag: IntTag, n: nat)
    requires Runs(s, p) && Reads(s, p.state.at.next, Text16(n) + "_") && BasicType(tag).Some?
    ensures ConstUint(s, p, tag) ==
            Went(p, |Text16(n)| + 1, RenderNumber(n) + if Alternate(p) then [] else [Text(BasicName(tag))])
  {
    hide HexNibbles, ParseUint, Text16, RenderNumber, BasicType, BasicName, IsSigned, IsUnsigned;
    NibblesRead(s, p.state.at, Text16(n));
    NumberShown(n, Text16(n));
    BasicTable(tag);
    IntTags(tag);
  }

  lemma IntTags(tag: IntTag)
    ensures IsTag(tag) && BasicType(tag).Some? && IsLiteralTag(tag) && tag != 'p' && tag != 'b' && tag != 'c'
    ensures tag in "aslxni" <==> IsSigned(tag)
  {
    BasicTable(tag);
    if IsSigned(tag) {
      assert "aslxni"[0] == 'a' && "aslxni"[1] == 's' && "aslxni"[2] == 'l' && "aslxni"[3] == 'x' && "aslxni"[4] == 'n';
    }
    assert "phtmyojaslxnibc"[1..7] == "htmyoj" && "phtmyojaslxnibc"[7..13] == "aslxni";
  }

  lemma NibbleFirst(n: nat)
    ensures Text16(n)[0] != 'n'
  {
    assert IsNibble(Text16(n)[0]);
  }

  lemma IntStep(s: string, p: Printer, tag: IntTag, negative: bool, n: nat, v: bool)
    requires Runs(s, p) && p.state.at.next > 0 && (negative ==> IsSigned(tag))
    requires Reads(s, p.state.at.next, (if negative then "n" else "") + (Text16(n) + "_"))
    ensures ConstBody(s, p, tag, v) ==
            Went(p, (if negative then 1 else 0) + |Text16(n)| + 1,
                 (if negative then [Text("-")] else []) + (RenderNumber(n) + if Alternate(p) then [] else [Text(BasicName(tag))]))
  {
    hide ConstUint, ConstBool, ConstChar, Text16, RenderNumber, BasicType, BasicName, IsSigned, IsUnsigned,
      IsLiteralTag, Went;
    IntTags(tag);
    var sign, hex, xs := if negative then "n" else "", Text16(n) + "_", RenderNumber(n) + if Alternate(p) then [] else [Text(BasicName(tag))];
    Parts(s, p.state.at.next, sign, hex);
    First(s, p.state.at.next + |sign|, hex);
    NibbleFirst(n);
    if negative {
      First(s, p.state.at.next, sign);
      Stepped(p, 1);
      Further(p, 1, [], 0, [Text("-")]);
      assert [] + [Text("-")] == [Text("-")];
      UintStep(s, Went(p, 1, [Text("-")]), tag, n);
      Further(p, 1, [Text("-")], |hex|, xs);
    } else {
      UintStep(s, p, tag, n);
      assert [] + xs == xs;
    }
  }

  lemma InferredStep(s: string, p: Printer, v: bool)
    requires Runs(s, p) && p.state.at.next > 0
    ensures ConstBody(s, p, 'p', v) == Went(p, 0, [Text("_")])
  {
    hide ConstUint, ConstBool, ConstChar;
    assert "phtmyojaslxnibc"[0] == 'p';
    Still(p, [Text("_")]);
  }

  lemma BoolStep(s: string, p: Printer, b: bool, v: bool)
    requires Runs(s, p) && p.state.at.next > 0 && Reads(s, p.state.at.next, if b then "1_" else "0_")
    ensures ConstBody(s, p, 'b', v) == Went(p, 2, [Text(if b then "true" else "false")])
  {
    hide ConstUint, ConstChar, HexNibbles, ParseUint, Text16, HexValue;
    assert "phtmyojaslxnibc"[13] == 'b';
    var n := if b then 1 else 0;
    OneNibble();
    NibblesRead(s, p.state.at, Text16(n));
    UintBack(n);
  }

  lemma OneNibble()
    ensures Text16(0) == "0" && Text16(1) == "1" && "0" + "_" == "0_" && "1" + "_" == "1_"
  {
  }

  lemma CharStep(s: string, p: Printer, c: char, v: bool)
    requires Runs(s, p) && p.state.at.next > 0 && Reads(s, p.state.at.next, Text16(c as nat) + "_")
    ensures ConstBody(s, p, 'c', v) == Went(p, |Text16(c as nat)| + 1, [Quoted('\'', [c])])
  {
    hide ConstUint, ConstBool, HexNibbles, ParseUint, Text16, HexValue;
    assert "phtmyojaslxnibc"[14] == 'c';
    NibblesRead(s, p.state.at, Text16(c as nat));
    UintBack(c as nat);
  }

  lemma StrLiteralStep(s: string, p: Printer, chars: string)
    requires Runs(s, p) && Reads(s, p.state.at.next, Pairs16(Utf8.Encode(chars)) + "_")
    ensures ConstStr(s, p) == Went(p, |Pairs16(Utf8.Encode(chars))| + 1, [Quoted('"', chars)])
  {
    hide HexNibbles, ParseChars, Pairs16, Utf8.Encode;
    NibblesRead(s, p.state.at, Pairs16(Utf8.Encode(chars)));
    CharsBack(chars);
  }

  lemma OtherTag(tag: char)
    requires tag == 'e' || 'A' <= tag <= 'Z'
    ensures !IsLiteralTag(tag)
  {
  }

  /** What opens an expression, the expression and what closes it. */
  lemma BracedShown(v: bool, head: seq<Piece>, xs: seq<Piece>, end: seq<Piece>)
    ensures Open(v) + head + (xs + (end + Close(v))) == Braced(v, head + (xs + end))
    ensures Open(v) + head + xs + Close(v) == Braced(v, head + xs)
  {
    var a, b := Open(v), Close(v);
    assert a + head + (xs + (end + b)) == a + ((head + (xs + end)) + b);
    assert a + head + xs + b == a + ((head + xs) + b);
    if v {
      assert [] + (head + (xs + end)) + [] == head + (xs + end) && [] + (head + xs) + [] == head + xs;
    }
  }

  lemma StrStep(s: string, p: Printer, chars: string, v: bool)
    requires Runs(s, p) && p.state.at.next > 0 && Reads(s, p.state.at.next, Pairs16(Utf8.Encode(chars)) + "_")
    ensures ConstBody(s, p, 'e', v) ==
            Went(p, |Pairs16(Utf8.Encode(chars))| + 1, Braced(v, [Text("*")] + [Quoted('"', chars)]))
  {
    hide ConstStr, Pairs16, Utf8.Encode, IsLiteralTag, Open, Close, Braced, Went;
    OtherTag('e');
    var head, n := Open(v) + [Text("*")], |Pairs16(Utf8.Encode(chars))| + 1;
    Still(p, head);
    StrLiteralStep(s, Went(p, 0, head), chars);
    Further(p, 0, head, n, [Quoted('"', chars)]);
    Further(p, n, head + [Quoted('"', chars)], 0, Close(v));
    BracedShown(v, [Text("*")], [Quoted('"', chars)], []);
  }

  /** A borrowed string is shown as it is written in a program. */
  lemma BorrowStrStep(s: string, p: Printer, chars: string, v: bool)
    requires Runs(s, p) && p.state.at.next > 0 && Reads(s, p.state.at.next, "e" + (Pairs16(Utf8.Encode(chars)) + "_"))
    ensures ConstBody(s, p, 'R', v) == Went(p, |Pairs16(Utf8.Encode(chars))| + 2, [Quoted('"', chars)])
  {
    hide ConstStr, Pairs16, Utf8.Encode, IsLiteralTag, Went, ConstRef;
    OtherTag('R');
    var n := |Pairs16(Utf8.Encode(chars))| + 1;
    Parts(s, p.state.at.next, "e", Pairs16(Utf8.Encode(chars)) + "_");
    First(s, p.state.at.next, "e");
    Stepped(p, 1);
    StrLiteralStep(s, Went(p, 1, []), chars);
    After(p, 1, n, [Quoted('"', chars)]);
  }

  lemma BorrowStep(s: string, p: Printer, mutable: bool, v: bool, m: nat, xs: seq<Piece>, sigil: seq<Piece>)
    requires Runs(s, p) && p.state.at.next > 0 && sigil == if mutable then [Text("&"), Text("mut ")] else [Text("&")]
    requires !mutable ==> !Sees(s, p.state.at, 'e')
    requires var q := Went(p, 0, Open(v) + sigil); PrintConst(s, q, true) == Went(q, m, xs)
    ensures ConstBody(s, p, if mutable then 'Q' else 'R', v) == Went(p, m, Braced(v, sigil + xs))
  {
    hide ConstLiteral, ConstDeref, ConstRef, ConstStr, ConstArray, ConstTuple, ConstAdt, ConstBackref, IsLiteralTag,
      Went;
    OtherTag(if mutable then 'Q' else 'R');
    ConstRefStep(s, p, sigil, v, m, xs);
  }

  lemma ConstRefStep(s: string, p: Printer, sigil: seq<Piece>, v: bool, m: nat, xs: seq<Piece>)
    requires Runs(s, p)
    requires var q := Went(p, 0, Open(v) + sigil); PrintConst(s, q, true) == Went(q, m, xs)
    ensures ConstRef(s, p, sigil, v) == Went(p, m, Braced(v, sigil + xs))
  {
    hide PrintConst, Open, Close, Braced, Went;
    var head := Open(v) + sigil;
    Still(p, head);
    Further(p, 0, head, m, xs);
    Further(p, m, head + xs, 0, Close(v));
    BracedShown(v, sigil, xs, []);
  }

  lemma ListStep(s: string, p: Printer, v: bool, m: nat, xs: seq<Piece>)
    requires Runs(s, p) && p.state.at.next > 0
    requires var q := Went(p, 0, Open(v) + [Text("[")]); PrintList(s, q, Consts, 0).0 == Went(q, m, xs)
    ensures ConstBody(s, p, 'A', v) == Went(p, m, Braced(v, [Text("[")] + (xs + [Text("]")])))
  {
    hide PrintList, IsLiteralTag, Open, Close, Braced, Went, ConstDeref, ConstStr, ConstRef, ConstTuple, ConstAdt,
      ConstBackref;
    OtherTag('A');
    Listed(s, p, Consts, Open(v) + [Text("[")], m, xs, [Text("]")] + Close(v));
    BracedShown(v, [Text("[")], xs, [Text("]")]);
  }

  lemma GroupStep(s: string, p: Printer, v: bool, elems: Items, m: nat, xs: seq<Piece>)
    requires Runs(s, p) && p.state.at.next > 0
    requires var q := Went(p, 0, Open(v) + [Text("(")]); PrintList(s, q, Consts, 0) == (Went(q, m, xs), Count(elems))
    ensures ConstBody(s, p, 'T', v) == Went(p, m, Braced(v, [Text("(")] + (xs + RenderEnd(elems))))
  {
    hide PrintList, IsLiteralTag, Open, Close, Braced, Went, Count, ConstDeref, ConstStr, ConstRef, ConstArray,
      ConstAdt, ConstBackref;
    OtherTag('T');
    Still(p, Open(v) + [Text("(")]);
    Listed(s, p, Consts, Open(v) + [Text("(")], m, xs, RenderEnd(elems) + Close(v));
    BracedShown(v, [Text("(")], xs, RenderEnd(elems));
  }

  /** The path of a constant of a named type, and what follows. */
  lemma AdtStep(s: string, p: Printer, v: bool, m: nat, xs: seq<Piece>)
    requires Runs(s, p) && p.state.at.next > 0
    requires var q := Went(p, 0, Open(v)); PrintPath(s, q, true) == Went(q, m, xs)
    requires p.state.at.next + m <= |s|
    ensures ConstBody(s, p, 'V', v) == ConstAdt(s, Went(p, m, Open(v) + xs), v)
  {
    hide PrintPath, IsLiteralTag, Open, Close, Went, ConstDeref, ConstStr, ConstRef, ConstArray, ConstTuple,
      ConstAdt, ConstBackref;
    OtherTag('V');
    Still(p, Open(v));
    Further(p, 0, Open(v), m, xs);
  }

  lemma UnitStep(s: string, p: Printer, v: bool, m: nat, xs: seq<Piece>)
    requires Runs(s, p) && Wf(s, Went(p, m, Open(v) + xs)) && Sees(s, Past(p.state.at, m), 'U')
    ensures ConstAdt(s, Went(p, m, Open(v) + xs), v) == Went(p, m + 1, Braced(v, xs))
  {
    hide PrintList, Open, Close, Braced, Went;
    var q := Went(p, m, Open(v) + xs);
    Stepped(q, 1);
    Further(p, m, Open(v) + xs, 1, []);
    assert Open(v) + xs + [] == Open(v) + xs && [] + xs == xs && Open(v) + [] == Open(v);
    Further(p, m + 1, Open(v) + xs, 0, Close(v));
    BracedShown(v, [], xs, []);
  }

  lemma FieldsStep(s: string, p: Printer, v: bool, m: nat, xs: seq<Piece>, named: bool, n: nat, ys: seq<Piece>)
    requires Runs(s, p) && Wf(s, Went(p, m, Open(v) + xs)) && Sees(s, Past(p.state.at, m), if named then 'S' else 'T')
    requires var q := Went(p, m + 1, Open(v) + xs + [Text(if named then " { " else "(")]);
             Wf(s, q) && PrintList(s, q, if named then FieldInits else Consts, 0).0 == Went(q, n, ys)
    ensures ConstAdt(s, Went(p, m, Open(v) + xs), v) ==
            Went(p, m + 1 + n, Braced(v, xs + ([Text(if named then " { " else "(")] + (ys + [Text(if named then " }" else ")")]))))
  {
    hide PrintList, Open, Close, Braced, Went;
    var q, kind := Went(p, m, Open(v) + xs), if named then FieldInits else Consts;
    var open, end := [Text(if named then " { " else "(")], [Text(if named then " }" else ")")];
    Stepped(q, 1);
    Further(p, m, Open(v) + xs, 1, []);
    assert Open(v) + xs + [] == Open(v) + xs;
    var r := Went(p, m + 1, Open(v) + xs);
    Further(p, m + 1, Open(v) + xs, 0, open);
    Listed(s, r, kind, open, n, ys, end + Close(v));
    Further(p, m + 1, Open(v) + xs, n, open + (ys + (end + Close(v))));
    FieldsShown(v, xs, open, ys, end);
  }

  lemma FieldsShown(v: bool, xs: seq<Piece>, open: seq<Piece>, ys: seq<Piece>, end: seq<Piece>)
    ensures Open(v) + xs + (open + (ys + (end + Close(v)))) == Braced(v, xs + (open + (ys + end)))
  {
    hide Open, Close, Braced;
    BracedShown(v, xs, open + ys, end);
    assert open + ys + (end + Close(v)) == open + (ys + (end + Close(v)));
    assert xs + (open + ys + end) == xs + (open + (ys + end));
  }

  lemma ConstBackStep(s: string, p: Printer, v: bool, to: Number, n: nat, xs: seq<Piece>)
    requires Runs(s, p) && p.state.at.next > 0 && p.state.at.depth < MAX_DEPTH
    requires Reads(s, p.state.at.next, Base62(to)) && to < p.state.at.next - 1
    requires p.out.Some? ==> PrintConst(s, Target(p, to), v) == Went(Target(p, to), n, xs)
    ensures ConstBody(s, p, 'B', v) == Went(p, |Base62(to)|, xs)
  {
    hide PrintConst, Backref, Base62, IsLiteralTag;
    OtherTag('B');
    BackRead(s, p.state.at, to);
    Back(p, to, |Base62(to)|, n, xs);
  }
}
