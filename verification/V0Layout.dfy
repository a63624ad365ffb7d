/** Where the parts of a tree stand, given that its mangling stands somewhere and is within the limits. */
module V0Layout {
  import opened Common
  import opened V0Parser
  import opened V0Printer
  import opened V0Names
  import opened V0Symbols
  import opened V0Lexemes
  import Utf8

  // Texts ------------------------------------------------------------------------------------

  lemma Split1(s: string, i: nat, tag: string, a: string)
    requires Stands(s, i, tag + a)
    ensures Stands(s, i + |tag|, a) && |tag + a| == |tag| + |a|
  {
    hide Reads;
    Pair(s, i, tag, a);
  }

  lemma Split2(s: string, i: nat, tag: string, a: string, b: string)
    requires Stands(s, i, tag + (a + b)) && b != "" && b[0] != '_'
    ensures Stands(s, i + |tag|, a) && Stands(s, i + |tag| + |a|, b) && |tag + (a + b)| == |tag| + |a| + |b|
  {
    hide Reads;
    Split1(s, i, tag, a + b);
    Pair(s, i + |tag|, a, b);
  }

  lemma Split3(s: string, i: nat, tag: string, a: string, b: string, c: string)
    requires Stands(s, i, tag + (a + (b + c))) && b != "" && b[0] != '_' && c != "" && c[0] != '_'
    ensures Stands(s, i + |tag|, a) && Stands(s, i + |tag| + |a|, b) && Stands(s, i + |tag| + |a| + |b|, c)
    ensures i + |tag| + |a| < |s| && s[i + |tag| + |a|] == b[0]
    ensures |tag + (a + (b + c))| == |tag| + |a| + |b| + |c|
  {
    hide Reads;
    Split2(s, i, tag, a, b + c);
    Pair(s, i + |tag| + |a|, b, c);
    First(s, i + |tag| + |a|, b);
  }

  // Paths ------------------------------------------------------------------------------------

  ghost predicate PathAt(s: string, at: Pos, t: Path, l: nat, shown: bool) {
    Stands(s, at.next, ManglePath(t)) && PathFits(s, at, t, l, shown)
  }

  lemma PathStart(s: string, at: Pos, t: Path, l: nat, shown: bool)
    requires PathAt(s, at, t, l, shown)
    ensures at.depth < MAX_DEPTH && at.next < |s| && s[at.next] == ManglePath(t)[0]
  {
    hide ManglePath;
    First(s, at.next, ManglePath(t));
  }

  lemma CrateParts(s: string, at: Pos, t: Path, l: nat, shown: bool)
    requires PathAt(s, at, t, l, shown) && t.Crate?
    ensures Stands(s, at.next + 1, MangleLabel(t.dis, t.name)) && |ManglePath(t)| == 1 + |MangleLabel(t.dis, t.name)|
  {
    hide PathFits, MangleLabel, Stands;
    Split1(s, at.next, "C", MangleLabel(t.dis, t.name));
  }

  lemma NestedParts(s: string, at: Pos, t: Path, l: nat, shown: bool)
    requires PathAt(s, at, t, l, shown) && t.Nested?
    ensures Stands(s, at.next + 1, [t.ns]) && PathAt(s, Pos(at.next + 2, at.depth + 1), t.parent, l, shown)
    ensures Stands(s, at.next + 2 + |ManglePath(t.parent)|, MangleLabel(t.dis, t.name))
    ensures |ManglePath(t)| == 2 + |ManglePath(t.parent)| + |MangleLabel(t.dis, t.name)|
  {
    hide TypeFits, ItemsFit, MangleType, MangleItems, MangleLabel, Base62, Opt62, Stands;
    Split3(s, at.next, "N", [t.ns], ManglePath(t.parent), MangleLabel(t.dis, t.name));
  }

  /** What follows the path of an `impl`. */
  ghost function ImplTail(t: Path): (r: string)
    requires t.InherentImpl? || t.TraitImpl?
    ensures r != "" && r[0] != '_'
  {
    if t.InherentImpl? then MangleType(t.ty) else MangleType(t.ty) + ManglePath(t.bound)
  }

  lemma ImplText(t: Path)
    requires t.InherentImpl? || t.TraitImpl?
    ensures ManglePath(t) == (if t.InherentImpl? then "M" else "X") + (Opt62('s', t.dis) + (ManglePath(t.own) + ImplTail(t)))
  {
    hide MangleType, MangleItems, MangleLabel, Base62, Opt62;
  }

  lemma ImplParts(s: string, at: Pos, t: Path, l: nat, shown: bool)
    requires PathAt(s, at, t, l, shown) && (t.InherentImpl? || t.TraitImpl?)
    ensures var j, d := at.next + 1 + |Opt62('s', t.dis)|, at.depth + 1;
            var k := j + |ManglePath(t.own)|;
            && Stands(s, at.next + 1, Opt62('s', t.dis)) && (t.dis == 0 ==> !Sees(s, Pos(at.next + 1, d), 's'))
            && PathAt(s, Pos(j, d), t.own, l, false)
            && Stands(s, k, ImplTail(t))
            && |ManglePath(t)| == k - at.next + |ImplTail(t)|
  {
    hide TypeFits, ItemsFit, ManglePath, MangleType, MangleItems, MangleLabel, Base62, Opt62, Stands, ImplTail;
    ImplText(t);
    Split3(s, at.next, if t.InherentImpl? then "M" else "X", Opt62('s', t.dis), ManglePath(t.own), ImplTail(t));
    NoTag();
  }

  lemma ImplTailParts(s: string, at: Pos, t: Path, l: nat, shown: bool)
    requires PathAt(s, at, t, l, shown) && (t.InherentImpl? || t.TraitImpl?)
    requires Stands(s, at.next + 1 + |Opt62('s', t.dis)| + |ManglePath(t.own)|, ImplTail(t))
    ensures var k, d := at.next + 1 + |Opt62('s', t.dis)| + |ManglePath(t.own)|, at.depth + 1;
            && TypeAt(s, Pos(k, d), t.ty, l, shown)
            && (t.TraitImpl? ==> PathAt(s, Pos(k + |MangleType(t.ty)|, d), t.bound, l, shown))
            && |ImplTail(t)| == |MangleType(t.ty)| + if t.TraitImpl? then |ManglePath(t.bound)| else 0
  {
    hide TypeFits, ItemsFit, ManglePath, MangleType, MangleItems, MangleLabel, Base62, Opt62, Reads;
    if t.TraitImpl? {
      Pair(s, at.next + 1 + |Opt62('s', t.dis)| + |ManglePath(t.own)|, MangleType(t.ty), ManglePath(t.bound));
    }
  }

  lemma MemberParts(s: string, at: Pos, t: Path, l: nat, shown: bool)
    requires PathAt(s, at, t, l, shown) && t.TraitMember?
    ensures var i, d := at.next + 1, at.depth + 1;
            && TypeAt(s, Pos(i, d), t.ty, l, shown)
            && PathAt(s, Pos(i + |MangleType(t.ty)|, d), t.bound, l, shown)
            && |ManglePath(t)| == 1 + |MangleType(t.ty)| + |ManglePath(t.bound)|
  {
    hide TypeFits, ItemsFit, MangleType, MangleItems, MangleLabel, Base62, Opt62, Stands;
    Split2(s, at.next, "Y", MangleType(t.ty), ManglePath(t.bound));
  }

  lemma GenericParts(s: string, at: Pos, t: Path, l: nat, shown: bool)
    requires PathAt(s, at, t, l, shown) && t.Generic?
    ensures var i, d := at.next + 1, at.depth + 1;
            && PathAt(s, Pos(i, d), t.base, l, shown)
            && ItemsAt(s, Pos(i + |ManglePath(t.base)|, d), t.args, GenericArgs, l, shown)
            && |ManglePath(t)| == 1 + |ManglePath(t.base)| + |MangleItems(t.args)|
  {
    hide TypeFits, ItemsFit, MangleType, MangleItems, MangleLabel, Base62, Opt62, Stands;
    Split2(s, at.next, "I", ManglePath(t.base), MangleItems(t.args));
  }

  lemma PathBackParts(s: string, at: Pos, t: Path, l: nat, shown: bool)
    requires PathAt(s, at, t, l, shown) && t.PathBack?
    ensures Stands(s, at.next + 1, Base62(t.to)) && t.to < at.next && at.depth + 1 < MAX_DEPTH
    ensures shown ==> PathAt(s, Pos(t.to, at.depth + 2), t.path, l, true)
    ensures |ManglePath(t)| == 1 + |Base62(t.to)|
  {
    hide TypeFits, ItemsFit, MangleType, MangleItems, MangleLabel, Base62, Opt62, Stands;
    Split1(s, at.next, "B", Base62(t.to));
  }

  // Types ------------------------------------------------------------------------------------

  ghost predicate TypeAt(s: string, at: Pos, t: Type, l: nat, shown: bool) {
    Stands(s, at.next, MangleType(t)) && TypeFits(s, at, t, l, shown)
  }

  lemma TypeStart(s: string, at: Pos, t: Type, l: nat, shown: bool)
    requires TypeAt(s, at, t, l, shown)
    ensures at.next < |s| && s[at.next] == MangleType(t)[0]
    ensures !t.Basic? ==> at.depth < MAX_DEPTH
  {
    hide MangleType;
    First(s, at.next, MangleType(t));
  }

  lemma AdtParts(s: string, at: Pos, t: Type, l: nat, shown: bool)
    requires TypeAt(s, at, t, l, shown) && t.Adt?
    ensures PathAt(s, Pos(at.next, at.depth + 1), t.path, l, shown) && !t.path.PathBack? && MangleType(t) == ManglePath(t.path)
  {
    hide ConstFits, ItemsFit, PathFits, ManglePath, MangleConst, MangleItems, Base62, Opt62, Stands;
  }

  lemma ArrayParts(s: string, at: Pos, t: Type, l: nat, shown: bool)
    requires TypeAt(s, at, t, l, shown) && t.Array?
    ensures TypeAt(s, Pos(at.next + 1, at.depth + 1), t.elem, l, shown)
    ensures ConstAt(s, Pos(at.next + 1 + |MangleType(t.elem)|, at.depth + 1), t.len, l, shown)
    ensures |MangleType(t)| == 1 + |MangleType(t.elem)| + |MangleConst(t.len)|
  {
    hide ConstFits, ItemsFit, PathFits, ManglePath, MangleConst, MangleItems, Base62, Opt62, Stands;
    Split2(s, at.next, "A", MangleType(t.elem), MangleConst(t.len));
  }

  /** The type a slice or a pointer is made from. */
  lemma ElemParts(s: string, at: Pos, t: Type, l: nat, shown: bool)
    requires TypeAt(s, at, t, l, shown) && (t.Slice? || t.Pointer?)
    ensures TypeAt(s, Pos(at.next + 1, at.depth + 1), t.elem, l, shown) && |MangleType(t)| == 1 + |MangleType(t.elem)|
  {
    hide ConstFits, ItemsFit, PathFits, ManglePath, MangleConst, MangleItems, Base62, Opt62, Stands;
    Split1(s, at.next, if t.Slice? then "S" else if t.mutable then "O" else "P", MangleType(t.elem));
  }

  lemma TupleParts(s: string, at: Pos, t: Type, l: nat, shown: bool)
    requires TypeAt(s, at, t, l, shown) && t.Tuple?
    ensures ItemsAt(s, Pos(at.next + 1, at.depth + 1), t.elems, Types, l, shown) && |MangleType(t)| == 1 + |MangleItems(t.elems)|
  {
    hide ConstFits, ItemsFit, PathFits, ManglePath, MangleConst, MangleItems, Base62, Opt62, Stands;
    Split1(s, at.next, "T", MangleItems(t.elems));
  }

  lemma RefParts(s: string, at: Pos, t: Type, l: nat, shown: bool)
    requires TypeAt(s, at, t, l, shown) && t.Ref?
    ensures var k := |MangleLifetime(t.lifetime)|;
            && Stands(s, at.next + 1, MangleLifetime(t.lifetime))
            && (t.lifetime.None? ==> !Sees(s, Pos(at.next + 1, at.depth + 1), 'L'))
            && (shown && t.lifetime.Some? ==> t.lifetime.value <= l)
            && TypeAt(s, Pos(at.next + 1 + k, at.depth + 1), t.elem, l, shown)
            && |MangleType(t)| == 1 + k + |MangleType(t.elem)|
  {
    hide ConstFits, ItemsFit, PathFits, ManglePath, MangleConst, MangleItems, Base62, Opt62, Stands, MangleLifetime;
    Split2(s, at.next, if t.mutable then "Q" else "R", MangleLifetime(t.lifetime), MangleType(t.elem));
    TypeStart(s, Pos(at.next + 1 + |MangleLifetime(t.lifetime)|, at.depth + 1), t.elem, l, shown);
    NoLifetime();
  }

  lemma NoLifetime()
    ensures MangleLifetime(None) == ""
  {
  }

  /** The pieces of a function type one after the other. */
  lemma Split4(s: string, i: nat, tag: string, a: string, b: string, c: string, d: string)
    requires Stands(s, i, tag + (a + (b + (c + d)))) && c != "" && c[0] != '_' && d != "" && d[0] != '_'
    ensures Reads(s, i + |tag|, a) && Reads(s, i + |tag| + |a|, b)
    ensures Stands(s, i + |tag| + |a| + |b|, c) && Stands(s, i + |tag| + |a| + |b| + |c|, d)
    ensures |tag + (a + (b + (c + d)))| == |tag| + |a| + |b| + |c| + |d|
  {
    hide Reads;
    Split1(s, i, tag, a + (b + (c + d)));
    Parts(s, i + |tag|, a, b + (c + d));
    Parts(s, i + |tag| + |a|, b, c + d);
    Pair(s, i + |tag| + |a| + |b|, c, d);
  }

  lemma FnParts(s: string, at: Pos, t: Type, l: nat, shown: bool)
    requires TypeAt(s, at, t, l, shown) && t.Fn?
    ensures var i, g, f := at.next + 1, |Opt62('G', t.binder)|, |MangleFn(t.isUnsafe, t.abi)|;
            var j, n := i + g + f, |MangleItems(t.params)|;
            && Reads(s, i, Opt62('G', t.binder)) && Reads(s, i + g, MangleFn(t.isUnsafe, t.abi))
            && (shown ==> l + t.binder < TWO_32)
            && (t.abi.Other? ==> t.abi.name.ascii != "" && t.abi.name.punycode == "")
            && ItemsAt(s, Pos(j, at.depth + 1), t.params, Types, l + t.binder, shown)
            && TypeAt(s, Pos(j + n, at.depth + 1), t.ret, l + t.binder, shown)
            && |MangleType(t)| == 1 + g + f + n + |MangleType(t.ret)|
  {
    hide ConstFits, ItemsFit, PathFits, ManglePath, MangleConst, MangleItems, Base62, Opt62, Stands, MangleFn,
      Reads;
    Split4(s, at.next, "F", Opt62('G', t.binder), MangleFn(t.isUnsafe, t.abi), MangleItems(t.params), MangleType(t.ret));
  }

  lemma DynParts(s: string, at: Pos, t: Type, l: nat, shown: bool)
    requires TypeAt(s, at, t, l, shown) && t.Dyn?
    ensures var i, g, n := at.next + 1, |Opt62('G', t.binder)|, |MangleItems(t.bounds)|;
            && Reads(s, i, Opt62('G', t.binder)) && (shown ==> l + t.binder < TWO_32 && t.bound <= l)
            && ItemsAt(s, Pos(i + g, at.depth + 1), t.bounds, Traits, l + t.binder, shown)
            && Stands(s, i + g + n, "L" + Base62(t.bound))
            && |MangleType(t)| == 2 + g + n + |Base62(t.bound)|
  {
    hide ConstFits, ItemsFit, PathFits, ManglePath, MangleConst, MangleItems, Base62, Opt62, Stands, MangleFn;
    Split3(s, at.next, "D", Opt62('G', t.binder), MangleItems(t.bounds), "L" + Base62(t.bound));
    StandsReads(s, at.next + 1, Opt62('G', t.binder));
  }

  lemma StandsReads(s: string, i: nat, t: string)
    requires Stands(s, i, t)
    ensures Reads(s, i, t)
  {
  }

  lemma TypeBackParts(s: string, at: Pos, t: Type, l: nat, shown: bool)
    requires TypeAt(s, at, t, l, shown) && t.TypeBack?
    ensures Stands(s, at.next + 1, Base62(t.to)) && t.to < at.next && at.depth + 1 < MAX_DEPTH
    ensures shown ==> TypeAt(s, Pos(t.to, at.depth + 2), t.ty, l, true)
    ensures |MangleType(t)| == 1 + |Base62(t.to)|
  {
    hide ConstFits, ItemsFit, PathFits, ManglePath, MangleConst, MangleItems, Base62, Opt62, Stands;
    Split1(s, at.next, "B", Base62(t.to));
  }

  // Lists ------------------------------------------------------------------------------------

  ghost predicate ItemsAt(s: string, at: Pos, xs: Items, kind: Kind, l: nat, shown: bool) {
    Stands(s, at.next, MangleItems(xs)) && ItemsFit(s, at, xs, kind, l, shown)
  }

  ghost predicate ItemAt(s: string, at: Pos, x: Item, kind: Kind, l: nat, shown: bool) {
    Stands(s, at.next, MangleItem(x)) && ItemFits(s, at, x, kind, l, shown)
  }

  /** What a list of this kind begins with. */
  lemma ItemsStart(s: string, at: Pos, xs: Items, kind: Kind, l: nat, shown: bool)
    requires ItemsAt(s, at, xs, kind, l, shown)
    ensures at.next < |s| && (s[at.next] == 'E' <==> xs.Nil?)
    ensures kind == Types ==> s[at.next] == 'E' || BeginsType(s[at.next])
    ensures kind == Traits ==> s[at.next] == 'E' || BeginsPath(s[at.next])
  {
    hide MangleItem, ItemFits;
    First(s, at.next, MangleItems(xs));
    if xs.Cons? {
      assert MangleItems(xs)[0] == MangleItem(xs.head)[0];
      ItemStart(s, at, xs.head, kind, l, shown);
    }
  }

  lemma ItemStart(s: string, at: Pos, x: Item, kind: Kind, l: nat, shown: bool)
    requires ItemFits(s, at, x, kind, l, shown)
    ensures kind == Types ==> BeginsType(MangleItem(x)[0])
    ensures kind == Traits ==> BeginsPath(MangleItem(x)[0])
  {
    hide MangleType, ManglePath, MangleConst, MangleLabel, MangleBindings, TypeFits, ConstFits, OpenFits,
      BindingsFit, Base62;
  }

  lemma ConsParts(s: string, at: Pos, xs: Items, kind: Kind, l: nat, shown: bool)
    requires ItemsAt(s, at, xs, kind, l, shown) && xs.Cons?
    ensures ItemAt(s, at, xs.head, kind, l, shown)
    ensures ItemsAt(s, Past(at, |MangleItem(xs.head)|), xs.tail, kind, l, shown)
    ensures |MangleItems(xs)| == |MangleItem(xs.head)| + |MangleItems(xs.tail)|
  {
    hide MangleItem, ItemFits, Stands;
    SplitEnd(s, at.next, MangleItem(xs.head), MangleItems(xs.tail));
  }

  lemma ConstArgParts(s: string, at: Pos, x: Item, kind: Kind, l: nat, shown: bool)
    requires ItemAt(s, at, x, kind, l, shown) && x.ConstArg?
    ensures Sees(s, at, 'K') && ConstAt(s, Past(at, 1), x.value, l, shown) && |MangleItem(x)| == 1 + |MangleConst(x.value)|
  {
    hide MangleConst, ConstFits, Stands;
    Split1(s, at.next, "K", MangleConst(x.value));
    StandsReads(s, at.next, MangleItem(x));
    First(s, at.next, MangleItem(x));
  }

  lemma FieldParts(s: string, at: Pos, x: Item, kind: Kind, l: nat, shown: bool)
    requires ItemAt(s, at, x, kind, l, shown) && x.FieldItem?
    ensures var k := |MangleLabel(x.dis, x.name)|;
            && Stands(s, at.next, MangleLabel(x.dis, x.name))
            && ConstAt(s, Past(at, k), x.value, l, shown) && |MangleItem(x)| == k + |MangleConst(x.value)|
  {
    hide MangleConst, MangleLabel, ConstFits, Stands;
    SplitEnd(s, at.next, MangleLabel(x.dis, x.name), MangleConst(x.value));
  }

  // Trait objects ----------------------------------------------------------------------------

  ghost predicate OpenAt(s: string, at: Pos, t: Path, l: nat, shown: bool) {
    Stands(s, at.next, ManglePath(t)) && OpenFits(s, at, t, l, shown)
  }

  ghost predicate BindingsAt(s: string, at: Pos, b: Bindings, l: nat, shown: bool) {
    && Stands(s, at.next, MangleBindings(b)) && BindingsFit(s, at, b, l, shown)
    && !Sees(s, Past(at, |MangleBindings(b)|), 'p')
  }

  lemma TraitParts(s: string, at: Pos, x: Item, kind: Kind, l: nat, shown: bool)
    requires ItemAt(s, at, x, kind, l, shown) && x.TraitItem? && !Sees(s, Past(at, |MangleItem(x)|), 'p')
    ensures OpenAt(s, at, x.path, l, shown) && BindingsAt(s, Past(at, |ManglePath(x.path)|), x.bindings, l, shown)
    ensures |MangleItem(x)| == |ManglePath(x.path)| + |MangleBindings(x.bindings)|
  {
    hide ManglePath, MangleBindings, OpenFits, BindingsFit, Stands;
    SplitEnd(s, at.next, ManglePath(x.path), MangleBindings(x.bindings));
  }

  /** The second part may be empty. */
  lemma SplitEnd(s: string, i: nat, a: string, b: string)
    requires Stands(s, i, a + b) && (b != "" ==> b[0] != '_')
    ensures Stands(s, i, a) && Stands(s, i + |a|, b) && |a + b| == |a| + |b|
  {
    hide Reads;
    Pair(s, i, a, b);
    assert b == "" ==> a + b == a;
  }

  lemma OpenStart(s: string, at: Pos, t: Path, l: nat, shown: bool)
    requires OpenAt(s, at, t, l, shown)
    ensures at.next < |s| && (Sees(s, at, 'B') <==> t.PathBack?) && (Sees(s, at, 'I') <==> t.Generic?)
  {
    hide OpenFits, MangleType, MangleItems, MangleLabel, Base62, Opt62;
    First(s, at.next, ManglePath(t));
  }

  lemma OpenGenericParts(s: string, at: Pos, t: Path, l: nat, shown: bool)
    requires OpenAt(s, at, t, l, shown) && t.Generic?
    ensures PathAt(s, Past(at, 1), t.base, l, shown)
    ensures ItemsAt(s, Past(at, 1 + |ManglePath(t.base)|), t.args, GenericArgs, l, shown)
    ensures |ManglePath(t)| == 1 + |ManglePath(t.base)| + |MangleItems(t.args)|
  {
    hide PathFits, ItemsFit, MangleType, MangleItems, MangleLabel, Base62, Opt62, Stands;
    Split2(s, at.next, "I", ManglePath(t.base), MangleItems(t.args));
  }

  lemma OpenBackParts(s: string, at: Pos, t: Path, l: nat, shown: bool)
    requires OpenAt(s, at, t, l, shown) && t.PathBack?
    ensures Reads(s, at.next, "B" + Base62(t.to)) && t.to < at.next && at.depth < MAX_DEPTH
    ensures shown ==> OpenAt(s, Pos(t.to, at.depth + 1), t.path, l, true)
    ensures |ManglePath(t)| == 1 + |Base62(t.to)|
  {
    hide PathFits, ItemsFit, MangleType, MangleItems, MangleLabel, Base62, Opt62, Reads;
  }

  lemma BindingParts(s: string, at: Pos, b: Bindings, l: nat, shown: bool)
    requires BindingsAt(s, at, b, l, shown) && b.Binding?
    ensures var k := 1 + |Mangled(b.name)|;
            && Sees(s, at, 'p') && Stands(s, at.next + 1, Mangled(b.name))
            && TypeAt(s, Past(at, k), b.ty, l, shown)
            && BindingsAt(s, Past(at, k + |MangleType(b.ty)|), b.rest, l, shown)
            && at.next + k + |MangleType(b.ty)| <= |s|
            && |MangleBindings(b)| == k + |MangleType(b.ty)| + |MangleBindings(b.rest)|
  {
    hide Mangled, MangleType, MangleBindings, TypeFits, Stands, Reads, IsLabel;
    BindingText(b);
    StandsReads(s, at.next, MangleBindings(b));
    First(s, at.next, MangleBindings(b));
    SplitLast(s, at.next, "p", Mangled(b.name), MangleType(b.ty), MangleBindings(b.rest));
    Ends(s, at.next + 1 + |Mangled(b.name)|, MangleType(b.ty));
  }

  lemma Ends(s: string, i: nat, t: string)
    requires Stands(s, i, t)
    ensures i + |t| <= |s|
  {
  }

  lemma BindingText(b: Bindings)
    requires b.Binding?
    ensures MangleBindings(b) == "p" + (Mangled(b.name) + (MangleType(b.ty) + MangleBindings(b.rest)))
    ensures MangleBindings(b) != "" && MangleBindings(b)[0] == 'p'
  {
    hide Mangled, MangleType, IsLabel;
  }

  /** The last part may be empty. */
  lemma SplitLast(s: string, i: nat, tag: string, a: string, b: string, c: string)
    requires Stands(s, i, tag + (a + (b + c))) && b != "" && b[0] != '_' && (c != "" ==> c[0] != '_')
    ensures Stands(s, i + |tag|, a) && Stands(s, i + |tag| + |a|, b) && Stands(s, i + |tag| + |a| + |b|, c)
    ensures |tag + (a + (b + c))| == |tag| + |a| + |b| + |c|
  {
    hide Reads;
    Split2(s, i, tag, a, b + c);
    SplitEnd(s, i + |tag| + |a|, b, c);
  }

  // Constants --------------------------------------------------------------------------------

  ghost predicate ConstAt(s: string, at: Pos, t: Const, l: nat, shown: bool) {
    Stands(s, at.next, MangleConst(t)) && ConstFits(s, at, t, l, shown)
  }

  lemma ConstStart(s: string, at: Pos, t: Const, l: nat, shown: bool)
    requires ConstAt(s, at, t, l, shown)
    ensures at.next < |s| && s[at.next] == MangleConst(t)[0] && at.depth < MAX_DEPTH
  {
    hide MangleConst;
    First(s, at.next, MangleConst(t));
  }

  /** What follows the tag of a constant. */
  ghost function ConstTail(t: Const): string {
    match t
    case Inferred => ""
    case Int(_, negative, value) => (if negative then "n" else "") + (Text16(value) + "_")
    case Bool(b) => if b then "1_" else "0_"
    case Char(c) => Text16(c as nat) + "_"
    case Str(chars) => Pairs16(Utf8.Encode(chars)) + "_"
    case Borrow(_, value) => MangleConst(value)
    case List(elems) => MangleItems(elems)
    case Group(elems) => MangleItems(elems)
    case UnitStruct(path) => ManglePath(path) + "U"
    case TupleStruct(path, fields) => ManglePath(path) + ("T" + MangleItems(fields))
    case Struct(path, fields) => ManglePath(path) + ("S" + MangleItems(fields))
    case ConstBack(to, _) => Base62(to)
  }

  lemma TailParts(s: string, at: Pos, t: Const, l: nat, shown: bool)
    requires ConstAt(s, at, t, l, shown)
    ensures Stands(s, at.next + 1, ConstTail(t)) && |MangleConst(t)| == 1 + |ConstTail(t)|
  {
    hide ConstFits, ManglePath, MangleItems, Text16, Pairs16, Utf8.Encode, Base62, Stands;
    var tag := [MangleConst(t)[0]];
    assert MangleConst(t) == tag + ConstTail(t);
    Split1(s, at.next, tag, ConstTail(t));
  }

  lemma StrFirst(t: Const)
    ensures MangleConst(t)[0] == 'e' <==> t.Str?
  {
    hide ManglePath, MangleItems, Text16, Pairs16, Utf8.Encode, Base62;
  }

  lemma BorrowParts(s: string, at: Pos, t: Const, l: nat, shown: bool)
    requires ConstAt(s, at, t, l, shown) && t.Borrow? && (t.mutable || !t.value.Str?)
    ensures ConstAt(s, Pos(at.next + 1, at.depth + 1), t.value, l, shown) && |MangleConst(t)| == 1 + |MangleConst(t.value)|
    ensures !t.mutable ==> !Sees(s, Pos(at.next + 1, at.depth + 1), 'e')
  {
    hide PathFits, ItemsFit, MangleConst, Stands;
    TailParts(s, at, t, l, shown);
    ConstStart(s, Pos(at.next + 1, at.depth + 1), t.value, l, shown);
    StrFirst(t.value);
  }

  lemma ElemsParts(s: string, at: Pos, t: Const, l: nat, shown: bool)
    requires ConstAt(s, at, t, l, shown) && (t.List? || t.Group?)
    ensures ItemsAt(s, Pos(at.next + 1, at.depth + 1), t.elems, Consts, l, shown) && |MangleConst(t)| == 1 + |MangleItems(t.elems)|
  {
    hide PathFits, ItemsFit, MangleConst, MangleItems, Stands;
    TailParts(s, at, t, l, shown);
  }

  lemma UnitParts(s: string, at: Pos, t: Const, l: nat, shown: bool)
    requires ConstAt(s, at, t, l, shown) && t.UnitStruct?
    ensures PathAt(s, Pos(at.next + 1, at.depth + 1), t.path, l, shown) && |MangleConst(t)| == 2 + |ManglePath(t.path)|
    ensures Sees(s, Pos(at.next + 1 + |ManglePath(t.path)|, at.depth + 1), 'U')
  {
    hide PathFits, ItemsFit, MangleConst, MangleItems, ManglePath, Stands, Reads;
    TailParts(s, at, t, l, shown);
    SplitEnd(s, at.next + 1, ManglePath(t.path), "U");
    StandsReads(s, at.next + 1 + |ManglePath(t.path)|, "U");
    First(s, at.next + 1 + |ManglePath(t.path)|, "U");
  }

  lemma FieldsText(t: Const)
    requires t.TupleStruct? || t.Struct?
    ensures ConstTail(t) == ManglePath(t.path) + ((if t.Struct? then "S" else "T") + MangleItems(t.fields))
  {
    hide ManglePath, MangleItems, Text16, Pairs16, Utf8.Encode, Base62;
  }

  lemma FieldsParts(s: string, at: Pos, t: Const, l: nat, shown: bool)
    requires ConstAt(s, at, t, l, shown) && (t.TupleStruct? || t.Struct?)
    ensures var m, d := |ManglePath(t.path)|, at.depth + 1;
            && PathAt(s, Pos(at.next + 1, d), t.path, l, shown)
            && Sees(s, Pos(at.next + 1 + m, d), if t.Struct? then 'S' else 'T')
            && ItemsAt(s, Pos(at.next + 2 + m, d), t.fields, if t.Struct? then FieldInits else Consts, l, shown)
            && |MangleConst(t)| == 2 + m + |MangleItems(t.fields)|
  {
    hide PathFits, ItemsFit, MangleConst, MangleItems, ManglePath, ConstTail, Stands, Reads;
    var i, m, tag := at.next + 1, ManglePath(t.path), if t.Struct? then "S" else "T";
    TailParts(s, at, t, l, shown);
    FieldsText(t);
    SplitEnd(s, i, m, tag + MangleItems(t.fields));
    StandsReads(s, i + |m|, tag + MangleItems(t.fields));
    First(s, i + |m|, tag + MangleItems(t.fields));
    Split1(s, i + |m|, tag, MangleItems(t.fields));
  }

  lemma ConstBackParts(s: string, at: Pos, t: Const, l: nat, shown: bool)
    requires ConstAt(s, at, t, l, shown) && t.ConstBack?
    ensures Stands(s, at.next + 1, Base62(t.to)) && t.to < at.next && at.depth + 1 < MAX_DEPTH
    ensures shown ==> ConstAt(s, Pos(t.to, at.depth + 2), t.value, l, true)
    ensures |MangleConst(t)| == 1 + |Base62(t.to)|
  {
    hide PathFits, ItemsFit, MangleConst, MangleItems, ManglePath, Base62, Stands;
    TailParts(s, at, t, l, shown);
  }
}
