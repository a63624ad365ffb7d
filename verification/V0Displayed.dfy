/** The symbol of a tree is accepted, and displayed as the tree reads. */
module V0Displayed {
  import opened Common
  import opened V0Parser
  import opened V0Printer
  import opened V0Names
  import opened V0Symbols
  import opened V0Lexemes
  import opened V0Layout
  import opened V0Steps
  import opened V0RoundTrip
  import opened V0Ascii
  import opened V0Theorems
  import opened V0Faults
  import V0Skip
  import Decimals

  /** A path, the crate that instantiates it, and a suffix that some tool has put there. */
  ghost function SymbolText(t: Path, user: Option<Path>, suffix: string): string {
    ManglePath(t) + ((if user.Some? then ManglePath(user.value) else "") + suffix)
  }

  predicate IsSuffix(suffix: string) {
    IsAscii(suffix) && (suffix != "" ==> suffix[0] != '_' && !('A' <= suffix[0] <= 'Z'))
  }

  /** The tree is within the limits in its own symbol, and so is the crate that instantiates it. */
  ghost predicate SymbolFits(t: Path, user: Option<Path>, suffix: string) {
    var s := SymbolText(t, user, suffix);
    && IsSuffix(suffix)
    && PathFits(s, Pos(0, 0), t, 0, true)
    && (user.Some? ==> PathFits(s, Pos(|ManglePath(t)|, 0), user.value, 0, false))
  }

  ghost function Shows(alternate: bool, n: nat, xs: seq<Piece>): Printer {
    Printer(Scanning(Pos(n, 0)), Some(Sink(alternate, xs)), 0)
  }

  lemma TextStands(t: Path, user: Option<Path>, suffix: string)
    requires IsSuffix(suffix)
    ensures var s := SymbolText(t, user, suffix);
            && Stands(s, 0, ManglePath(t)) && s != "" && BeginsPath(s[0]) && IsAscii(s)
            && (user.Some? ==> Stands(s, |ManglePath(t)|, ManglePath(user.value)))
            && s[|ManglePath(t)| + (if user.Some? then |ManglePath(user.value)| else 0)..] == suffix
            && (V0Theorems.StartsPath(s, |ManglePath(t)|) <==> user.Some?)
  {
    hide ManglePath, IsAscii, Stands;
    var m, u := ManglePath(t), if user.Some? then ManglePath(user.value) else "";
    PathAscii(t);
    if user.Some? {
      PathAscii(user.value);
    } else {
      EmptyAscii();
    }
    Join(u, suffix);
    Join(m, u + suffix);
    var s := m + (u + suffix);
    Whole(s);
    SplitEnd(s, 0, m, u + suffix);
    SplitEnd(s, |m|, u, suffix);
    assert u + suffix != "" ==> s[|m|] == (u + suffix)[0];
    assert s[|m| + |u|..] == suffix;
  }

  lemma Whole(s: string)
    ensures Stands(s, 0, s)
  {
  }

  lemma EmptyAscii()
    ensures IsAscii("")
  {
  }

  /** For every tree within the limits, in either form: the pieces displayed are the reading of the tree, and
      the scan ends with the path. */
  lemma SymbolShown(t: Path, user: Option<Path>, suffix: string, alternate: bool)
    requires SymbolFits(t, user, suffix)
    ensures Display(SymbolText(t, user, suffix), alternate) ==
            Shows(alternate, |ManglePath(t)|, RenderPath(t, true, alternate, 0))
  {
    hide PrintPath, ManglePath, RenderPath, PathFits, SymbolText, Stands;
    var s := SymbolText(t, user, suffix);
    TextStands(t, user, suffix);
    PathRead(s, Printer(Scanning(Pos(0, 0)), Some(Sink(alternate, [])), 0), t, true, 0);
    assert [] + RenderPath(t, true, alternate, 0) == RenderPath(t, true, alternate, 0);
  }

  lemma SymbolTried(t: Path, user: Option<Path>, suffix: string)
    requires SymbolFits(t, user, suffix)
    ensures TryPath(SymbolText(t, user, suffix), Pos(0, 0)).state == Scanning(Pos(|ManglePath(t)|, 0))
  {
    hide PrintPath, ManglePath, RenderPath, PathFits, SymbolText, SymbolFits, FaultPath;
    var s := SymbolText(t, user, suffix);
    var p, q := Printer(Scanning(Pos(0, 0)), Some(Sink(false, [])), 0), Printer(Scanning(Pos(0, 0)), None, 0);
    SymbolShown(t, user, suffix, false);
    V0Skip.PathTied(s, p, q, true, false);
  }

  lemma UserTried(t: Path, user: Path, suffix: string)
    requires SymbolFits(t, Some(user), suffix)
    ensures |ManglePath(t)| <= |SymbolText(t, Some(user), suffix)|
    ensures TryPath(SymbolText(t, Some(user), suffix), Pos(|ManglePath(t)|, 0)).state ==
            Scanning(Pos(|ManglePath(t)| + |ManglePath(user)|, 0))
  {
    hide PrintPath, ManglePath, RenderPath, PathFits, SymbolText, Stands;
    var s := SymbolText(t, Some(user), suffix);
    TextStands(t, Some(user), suffix);
    Ends(s, |ManglePath(t)|, ManglePath(user));
    PathRead(s, Printer(Scanning(Pos(|ManglePath(t)|, 0)), None, 0), user, false, 0);
  }

  lemma PrefixTaken(prefix: string, s: string)
    requires (prefix == "_R" || prefix == "R" || prefix == "__R") && s != ""
    ensures Inner(prefix + s) == Some(s)
  {
    var x := prefix + s;
    assert x[|prefix|..] == s;
    if prefix == "_R" {
      assert x[..2] == "_R";
    } else if prefix == "R" {
      assert x[0] == 'R' && x[..2][0] == 'R';
    } else {
      assert x[..3] == "__R" && x[..2][1] == '_' && x[0] == '_';
    }
  }

  /** The symbol of every tree within the limits is accepted, with its suffix split off, and displayed as the
      tree reads; a back reference shows what stands where it leads. */
  lemma SymbolRoundTrip(prefix: string, t: Path, user: Option<Path>, suffix: string, alternate: bool)
    requires prefix == "_R" || prefix == "R" || prefix == "__R"
    requires SymbolFits(t, user, suffix)
    ensures var s := SymbolText(t, user, suffix);
            && Demangle(prefix + s) == Demangled(s, suffix)
            && Display(s, alternate).out == Some(Sink(alternate, RenderPath(t, true, alternate, 0)))
  {
    hide TryPath, Display, ManglePath, RenderPath, PathFits, SymbolText, Inner, SymbolFits, Stands;
    var s := SymbolText(t, user, suffix);
    SuffixOf(t, user, suffix);
    TextStands(t, user, suffix);
    PrefixTaken(prefix, s);
    SymbolTried(t, user, suffix);
    SymbolShown(t, user, suffix, alternate);
    if user.Some? {
      UserTried(t, user.value, suffix);
    }
  }

  lemma SuffixOf(t: Path, user: Option<Path>, suffix: string)
    requires SymbolFits(t, user, suffix)
    ensures IsSuffix(suffix)
  {
  }

  // Examples ---------------------------------------------------------------------------------

  /** The value `b` of crate `a`. */
  function Sample(): Path {
    Nested('v', Crate(0, Ident("a", "")), 0, Ident("b", ""))
  }

  lemma OneLetter(name: string)
    requires |name| == 1 && 'a' <= name[0] <= 'z'
    ensures IsLabel(Ident(name, "")) && MangleLabel(0, Ident(name, "")) == "1" + name
  {
    assert Decimals.Decimal(1) == "1";
  }

  lemma SampleText()
    ensures ManglePath(Sample()) == "NvC1a1b" && SymbolText(Sample(), None, "") == "NvC1a1b"
  {
    hide MangleLabel, MangleType, MangleItems, Opt62, Base62;
    OneLetter("a");
    OneLetter("b");
    assert ManglePath(Crate(0, Ident("a", ""))) == "C1a";
  }

  lemma SampleFits()
    ensures SymbolFits(Sample(), None, "")
  {
    hide ManglePath, TypeFits, ItemsFit, Opt62;
  }

  lemma SampleReading(alternate: bool)
    ensures RenderPath(Sample(), true, alternate, 0) ==
            [Name(Ident("a", ""))] + (if alternate then [] else [Text("["), Piece.Hex(0), Text("]")]) + [Text("::"), Name(Ident("b", ""))]
  {
    hide RenderType, RenderItems;
    assert Segment('v', 0, Ident("b", "")) == [Text("::"), Name(Ident("b", ""))];
  }

  /** It is displayed as `a[0]::b`, and as `a::b` in the alternate form. */
  lemma SampleShown(alternate: bool)
    ensures Demangle("_RNvC1a1b") == Demangled("NvC1a1b", "")
    ensures Display("NvC1a1b", alternate).out ==
            Some(Sink(alternate, [Name(Ident("a", ""))] + (if alternate then [] else [Text("["), Piece.Hex(0), Text("]")])
                                 + [Text("::"), Name(Ident("b", ""))]))
  {
    hide Demangle, Display, SymbolText, SymbolFits, RenderPath, ManglePath, Sample;
    SampleText();
    SampleFits();
    SampleReading(alternate);
    assert "_R" + "NvC1a1b" == "_RNvC1a1b";
    SymbolRoundTrip("_R", Sample(), None, "", alternate);
  }

  function CrateA(): Path {
    Crate(0, Ident("a", ""))
  }

  /** The type `b` of crate `a`, as the trait `c` of the same crate, which is referred to by its place in the symbol. */
  function BackSample(): Path {
    TraitMember(Adt(Nested('t', CrateA(), 0, Ident("b", ""))), Nested('t', PathBack(3, CrateA()), 0, Ident("c", "")))
  }

  lemma BackText()
    ensures ManglePath(CrateA()) == "C1a" && |MangleType(BackSample().ty)| == 7
    ensures ManglePath(BackSample()) == "YNtC1a1bNtB2_1c" && SymbolText(BackSample(), None, "") == "YNtC1a1bNtB2_1c"
  {
    hide MangleLabel, MangleItems, MangleConst, Opt62, Base62;
    OneLetter("a");
    OneLetter("b");
    OneLetter("c");
    SampleNumbers();
    var t := BackSample();
    assert ManglePath(CrateA()) == "C1a";
    assert MangleType(t.ty) == "NtC1a1b" by { assert ManglePath(t.ty.path) == "NtC1a1b"; }
    assert ManglePath(t.bound) == "NtB2_1c" by { assert ManglePath(PathBack(3, CrateA())) == "B2_"; }
  }

  lemma BackFits()
    ensures SymbolFits(BackSample(), None, "")
  {
    hide ManglePath, MangleType, ItemsFit, ConstFits, Opt62, SymbolText;
    BackText();
    var s, t := "YNtC1a1bNtB2_1c", BackSample();
    assert Stands(s, 3, "C1a");
    assert TypeFits(s, Pos(1, 1), t.ty, 0, true) by { assert PathFits(s, Pos(1, 2), t.ty.path, 0, true); }
    assert PathFits(s, Pos(8, 1), t.bound, 0, true) by { assert PathFits(s, Pos(10, 2), t.bound.parent, 0, true); }
  }

  ghost function CratePieces(alternate: bool): seq<Piece> {
    [Name(Ident("a", ""))] + if alternate then [] else [Text("["), Piece.Hex(0), Text("]")]
  }

  lemma BackReading(alternate: bool)
    ensures RenderPath(BackSample(), true, alternate, 0) ==
            Qualified(CratePieces(alternate) + [Text("::"), Name(Ident("b", ""))],
                      CratePieces(alternate) + [Text("::"), Name(Ident("c", ""))])
  {
    hide RenderItems, RenderConst, Qualified;
    var t := BackSample();
    assert RenderPath(CrateA(), false, alternate, 0) == CratePieces(alternate);
    assert RenderType(t.ty, alternate, 0) == CratePieces(alternate) + [Text("::"), Name(Ident("b", ""))] by {
      assert RenderPath(t.ty.path, false, alternate, 0) == CratePieces(alternate) + [Text("::"), Name(Ident("b", ""))];
    }
    assert RenderPath(t.bound, false, alternate, 0) == CratePieces(alternate) + [Text("::"), Name(Ident("c", ""))] by {
      assert RenderPath(t.bound.parent, false, alternate, 0) == CratePieces(alternate);
    }
  }

  /** It is displayed as `<a[0]::b as a[0]::c>`: the back reference shows the crate. */
  lemma BackShown(alternate: bool)
    ensures Demangle("_RYNtC1a1bNtB2_1c") == Demangled("YNtC1a1bNtB2_1c", "")
    ensures Display("YNtC1a1bNtB2_1c", alternate).out ==
            Some(Sink(alternate, Qualified(CratePieces(alternate) + [Text("::"), Name(Ident("b", ""))],
                                           CratePieces(alternate) + [Text("::"), Name(Ident("c", ""))])))
  {
    hide Demangle, Display, SymbolText, SymbolFits, RenderPath, ManglePath, MangleType, BackSample, Qualified, CratePieces;
    BackText();
    BackFits();
    BackReading(alternate);
    assert "_R" + "YNtC1a1bNtB2_1c" == "_RYNtC1a1bNtB2_1c";
    SymbolRoundTrip("_R", BackSample(), None, "", alternate);
  }

  /** `for<'a> fn(&'a u8)` */
  function SampleFn(): Type {
    Fn(1, false, Rust, Cons(TypeItem(SampleRef()), Nil), Basic('u'))
  }

  function SampleRef(): Type {
    Ref(false, Some(1), Basic('h'))
  }

  lemma SampleFnText()
    ensures MangleType(SampleFn()) == "FG_RL0_hEu"
  {
    hide ManglePath, MangleConst, Opt62, Base62;
    SampleNumbers();
    var r := SampleRef();
    assert MangleType(r) == "RL0_h";
    assert MangleItems(Cons(TypeItem(r), Nil)) == "RL0_hE" by {
      assert MangleItem(TypeItem(r)) == "RL0_h" && MangleItems(Nil) == "E";
    }
  }

  lemma SampleNumbers()
    ensures Base62(1) == "0_" && Base62(3) == "2_" && Opt62('G', 1) == "G_"
  {
  }

  lemma SampleRefReading(a: bool)
    ensures RenderType(SampleRef(), a, 1) == [Text("&"), Text("'"), Text("a"), Text(" "), Text("u8")]
  {
    hide RenderPath, RenderItems, RenderConst;
    assert Lifetime(0) == [Text("'"), Text("a")];
    assert RenderRef(false, Some(1), 1) == [Text("&"), Text("'"), Text("a"), Text(" ")];
  }

  lemma SampleBinder()
    ensures RenderBinder(0, 1) == [Text("for<"), Text("'"), Text("a"), Text("> ")]
  {
    assert Lifetime(0) == [Text("'"), Text("a")];
    assert RenderNew(0, 1, 1) == [];
  }

  lemma SampleFnReading(a: bool)
    ensures RenderType(SampleFn(), a, 0) ==
            [Text("for<"), Text("'"), Text("a"), Text("> "), Text("fn("), Text("&"), Text("'"), Text("a"), Text(" "), Text("u8"), Text(")")]
  {
    hide RenderPath, RenderConst, RenderBinder, RenderRef;
    SampleRefReading(a);
    SampleBinder();
    assert RenderItems(Cons(TypeItem(SampleRef()), Nil), ", ", true, a, 1) == RenderType(SampleRef(), a, 1);
    assert RenderFn(false, Rust) == [Text("fn(")];
  }
}
