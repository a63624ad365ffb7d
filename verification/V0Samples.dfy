/** Symbols that demangle and are displayed with an error. */
module V0Samples {
  import opened Common
  import opened V0Parser
  import opened V0Printer
  import opened V0Faults
  import opened V0Shown
  import opened V0Theorems

  // A loose lifetime -------------------------------------------------------------------------

  /** The method of an inherent `impl` of crate `a` for a reference to `u8`, whose lifetime has index 1. */
  function LooseSymbol(): string {
    "_RMC1aRL0_h"
  }

  ghost predicate Spells(s: string) {
    |s| == 9 && s[0] == 'M' && s[1] == 'C' && s[2] == '1' && s[3] == 'a' && s[4] == 'R' && s[5] == 'L' && s[6] == '0'
    && s[7] == '_' && s[8] == 'h'
  }

  lemma CrateScanned(s: string)
    requires Spells(s)
    ensures PrintPath(s, Printer(Scanning(Pos(1, 1)), None, 0), false) == Printer(Scanning(Pos(4, 1)), None, 0)
  {
    NameScanned(s);
    var p := Printer(Scanning(Pos(2, 2)), None, 0);
    assert CrateRoot(s, p) == Printer(Scanning(Pos(4, 2)), None, 0);
  }

  lemma NameScanned(s: string)
    requires Spells(s)
    ensures ScanIdent(s, Pos(2, 2)) == Got(Ident("a", ""), Pos(4, 2))
  {
    assert Length(s, Pos(3, 2), 1) == Got(1, Pos(3, 2));
    assert s[3..4] == "a";
  }

  lemma IndexScanned(s: string)
    requires Spells(s)
    ensures Integer62(s, Pos(6, 2)) == Got(1, Pos(8, 2))
  {
    assert Digits62(s, Pos(7, 2), 0) == Got(0, Pos(8, 2));
  }

  lemma ReferenceScanned(s: string)
    requires Spells(s)
    ensures var q := Printer(Scanning(Pos(4, 1)), None, 0);
            FaultType(s, q, 0, false) && PrintType(s, q) == Printer(Scanning(Pos(9, 1)), None, 0)
  {
    hide Integer62;
    IndexScanned(s);
    var q := Printer(Scanning(Pos(5, 2)), None, 0);
    ByteScanned(s);
    assert FaultReference(s, q, 0, false);
    assert Reference(s, q, false) == Printer(Scanning(Pos(9, 2)), None, 0);
  }

  lemma ByteScanned(s: string)
    requires Spells(s)
    ensures PrintType(s, Printer(Scanning(Pos(8, 2)), None, 0)) == Printer(Scanning(Pos(9, 2)), None, 0)
  {
  }

  lemma ImplScanned(s: string)
    requires Spells(s)
    ensures Loose(s) && TryPath(s, Pos(0, 0)).state == Scanning(Pos(9, 0))
  {
    hide PrintType, FaultType, Loose, TryPath;
    CrateScanned(s);
    ReferenceScanned(s);
    var q := Printer(Scanning(Pos(1, 1)), None, 0);
    assert Disambiguator(s, Pos(1, 1)) == Got(0, Pos(1, 1));
    assert FaultImpl(s, q, 'M', 0, false);
    assert ImplPath(s, q, 'M') == Printer(Scanning(Pos(9, 1)), None, 0);
    OuterScanned(s, q);
  }

  lemma OuterScanned(s: string, q: Printer)
    requires Spells(s) && q == Printer(Scanning(Pos(1, 1)), None, 0)
    requires FaultImpl(s, q, 'M', 0, false) && ImplPath(s, q, 'M') == Printer(Scanning(Pos(9, 1)), None, 0)
    ensures Loose(s) && TryPath(s, Pos(0, 0)).state == Scanning(Pos(9, 0))
  {
    hide FaultImpl, ImplPath;
    assert FaultPathBody(s, q, 'M', false, 0, false);
    assert PathBody(s, q, 'M', false) == ImplPath(s, q, 'M');
  }

  /** The scan of a symbol that demangles can fail when it prints. */
  lemma DisplayCanFail(alternate: bool)
    ensures Demangle(LooseSymbol()).Demangled?
    ensures Display(Demangle(LooseSymbol()).inner, alternate).state.Failed?
    ensures !Clean(Display(Demangle(LooseSymbol()).inner, alternate))
  {
    hide PrintPath, FaultPath;
    var inner := LooseSymbol()[2..];
    ImplScanned(inner);
    DisplayExact(LooseSymbol(), alternate);
  }

  // A back reference to something else ---------------------------------------------------------

  /** A name in the crate that a back reference leads to, which leads to no path. */
  function BrokenSymbol(): string {
    "_RNvB0_1a"
  }

  ghost predicate SpellsBroken(s: string) {
    |s| == 7 && s[0] == 'N' && s[1] == 'v' && s[2] == 'B' && s[3] == '0' && s[4] == '_' && s[5] == '1' && s[6] == 'a'
  }

  lemma BackrefScanned(s: string)
    requires SpellsBroken(s)
    ensures Backref(s, Pos(3, 2)) == Got(Pos(1, 3), Pos(5, 2))
  {
    assert Digits62(s, Pos(4, 2), 0) == Got(0, Pos(5, 2));
    assert Integer62(s, Pos(3, 2)) == Got(1, Pos(5, 2));
  }

  /** The target of the back reference is not the start of a path. */
  lemma TargetFails(s: string)
    requires SpellsBroken(s)
    ensures PrintPath(s, Printer(Scanning(Pos(1, 3)), None, 0), false).state.Failed?
  {
    assert PathBody(s, Printer(Scanning(Pos(2, 4)), None, 0), 'v', false).state.Failed?;
  }

  lemma ParentScanned(s: string)
    requires SpellsBroken(s)
    ensures var q := Printer(Scanning(Pos(2, 1)), None, 0);
            && PrintPath(s, q, false) == Printer(Scanning(Pos(5, 1)), None, 0)
            && FaultPath(s, q, false, 0, true) && !FaultPath(s, q, false, 0, false)
  {
    hide Backref;
    BackrefScanned(s);
    TargetFails(s);
    var q := Printer(Scanning(Pos(3, 2)), None, 0);
    assert PathBackref(s, q, false) == Printer(Scanning(Pos(5, 2)), None, 0);
    assert FaultPathTarget(s, q, false, 0);
    assert FaultPathBody(s, q, 'B', false, 0, true) && !FaultPathBody(s, q, 'B', false, 0, false);
  }

  lemma LastNameScanned(s: string)
    requires SpellsBroken(s)
    ensures NestedName(s, Printer(Scanning(Pos(5, 1)), None, 0), None) == Printer(Scanning(Pos(7, 1)), None, 0)
  {
    assert Length(s, Pos(6, 1), 1) == Got(1, Pos(6, 1));
    assert ScanIdent(s, Pos(5, 1)).Got?;
  }

  lemma NestedScanned(s: string)
    requires SpellsBroken(s)
    ensures Faulty(s) && !Loose(s) && TryPath(s, Pos(0, 0)).state == Scanning(Pos(7, 0))
  {
    hide NestedName;
    ParentScanned(s);
    LastNameScanned(s);
    var q := Printer(Scanning(Pos(1, 1)), None, 0);
    assert Namespace(s, Pos(1, 1)) == Got(None, Pos(2, 1));
    assert PathBody(s, q, 'N', false) == Printer(Scanning(Pos(7, 1)), None, 0);
    assert FaultPathBody(s, q, 'N', false, 0, true) && !FaultPathBody(s, q, 'N', false, 0, false);
  }

  /** An error can be shown although the scan does not fail. */
  lemma BackrefShowsError(alternate: bool)
    ensures Demangle(BrokenSymbol()).Demangled?
    ensures var shown := Display(Demangle(BrokenSymbol()).inner, alternate);
            shown.state.Scanning? && !Clean(shown)
  {
    hide PrintPath, FaultPath;
    var inner := BrokenSymbol()[2..];
    NestedScanned(inner);
    DisplayExact(BrokenSymbol(), alternate);
  }

  // A failure while printing is skipped ----------------------------------------------------------

  /** Generics whose argument is a back reference into a name, to an `impl` whose own path is none. */
  function LostSymbol(): string {
    "_RIC2MzB2_E"
  }

  ghost predicate SpellsLost(s: string) {
    |s| == 9 && s[0] == 'I' && s[1] == 'C' && s[2] == '2' && s[3] == 'M' && s[4] == 'z' && s[5] == 'B' && s[6] == '2'
    && s[7] == '_' && s[8] == 'E'
  }

  /** No message of an error. */
  ghost predicate Silent(xs: seq<Piece>) {
    forall i :: 0 <= i < |xs| ==> !xs[i].Message? && !xs[i].BadLifetime?
  }

  /** A printing run at a place. */
  ghost function Printing(at: Pos, out: Sink): Printer {
    Printer(Scanning(at), Some(out), 0)
  }

  /** The sink after these pieces. */
  ghost function With(out: Sink, xs: seq<Piece>): Sink {
    out.(pieces := out.pieces + xs)
  }

  ghost function CratePieces(alternate: bool): seq<Piece> {
    [Name(Ident("Mz", ""))] + if alternate then [] else [Text("["), Hex(0), Text("]")]
  }

  lemma CrateNameScanned(s: string)
    requires SpellsLost(s)
    ensures ScanIdent(s, Pos(2, 2)) == Got(Ident("Mz", ""), Pos(5, 2))
  {
    assert Length(s, Pos(3, 2), 2) == Got(2, Pos(3, 2));
    assert s[3..5] == "Mz";
  }

  lemma CratePrinted(s: string, out: Sink, v: bool)
    requires SpellsLost(s)
    ensures PrintPath(s, Printing(Pos(1, 1), out), v) == Printing(Pos(5, 1), With(out, CratePieces(out.alternate)))
  {
    hide ScanIdent;
    CrateNameScanned(s);
    assert CrateRoot(s, Printing(Pos(2, 2), out)) == Printing(Pos(5, 2), With(out, CratePieces(out.alternate)));
  }

  /** The own path of the `impl` fails without a word. */
  lemma OwnPathLost(s: string)
    requires SpellsLost(s)
    ensures PrintPath(s, Printer(Scanning(Pos(4, 5)), None, 0), false) == Printer(Failed(Invalid), None, 0)
  {
    assert PathBody(s, Printer(Scanning(Pos(5, 6)), None, 0), 'z', false) == Printer(Failed(Invalid), None, 0);
  }

  ghost function LostPieces(): seq<Piece> {
    [Text("<"), Placeholder, Text(">")]
  }

  lemma ImplLost(s: string, out: Sink)
    requires SpellsLost(s)
    ensures ImplPath(s, Printing(Pos(4, 5), out), 'M') == Printer(Failed(Invalid), Some(With(out, LostPieces())), 0)
  {
    hide PrintPath;
    OwnPathLost(s);
    assert Disambiguator(s, Pos(4, 5)) == Got(0, Pos(4, 5));
    var p := Printer(Failed(Invalid), Some(out), 0);
    assert (out.pieces + [Text("<")]) + [Placeholder] + [Text(">")] == out.pieces + LostPieces();
    assert QualifiedSelf(s, p, 'M') == Printer(Failed(Invalid), Some(With(out, LostPieces())), 0);
  }

  lemma TargetLost(s: string, out: Sink)
    requires SpellsLost(s)
    ensures PrintType(s, Printing(Pos(3, 3), out)) == Printer(Failed(Invalid), Some(With(out, LostPieces())), 0)
  {
    hide ImplPath;
    ImplLost(s, out);
    assert PathBody(s, Printing(Pos(4, 5), out), 'M', false) == ImplPath(s, Printing(Pos(4, 5), out), 'M');
    assert PrintPath(s, Printing(Pos(3, 4), out), false) == Printer(Failed(Invalid), Some(With(out, LostPieces())), 0);
  }

  lemma ArgumentPrinted(s: string, out: Sink)
    requires SpellsLost(s)
    ensures PrintGenericArg(s, Printing(Pos(5, 1), out)) == Printing(Pos(8, 1), With(out, LostPieces()))
  {
    hide PrintPath;
    TargetLost(s, out);
    assert Digits62(s, Pos(7, 2), 2) == Got(2, Pos(8, 2));
    assert Backref(s, Pos(6, 2)) == Got(Pos(3, 3), Pos(8, 2));
    var p := Printing(Pos(6, 2), out);
    assert TypeBackref(s, p) == Printing(Pos(8, 2), With(out, LostPieces()));
    assert TypeBody(s, p, 'B') == TypeBackref(s, p);
    assert PrintType(s, Printing(Pos(5, 1), out)) == Printing(Pos(8, 1), With(out, LostPieces()));
  }

  lemma ArgumentsPrinted(s: string, out: Sink)
    requires SpellsLost(s)
    ensures PrintList(s, Printing(Pos(5, 1), out), GenericArgs, 0).0 == Printing(Pos(9, 1), With(out, LostPieces()))
  {
    hide PrintGenericArg;
    ArgumentPrinted(s, out);
    assert With(out, []) == out;
    assert PrintItem(s, Printing(Pos(5, 1), out), GenericArgs) == Printing(Pos(8, 1), With(out, LostPieces()));
  }

  lemma GenericsPrinted(s: string, alternate: bool)
    requires SpellsLost(s)
    ensures var shown := Display(s, alternate);
            shown.state == Scanning(Pos(9, 0)) && Silent(shown.out.value.pieces) && Placeholder in shown.out.value.pieces
  {
    hide PrintList, PrintPath;
    var out := Sink(alternate, []);
    CratePrinted(s, out, true);
    var begun := With(With(out, CratePieces(alternate)), [Text("::"), Text("<")]);
    ArgumentsPrinted(s, begun);
    var closed := With(With(begun, LostPieces()), [Text(">")]);
    assert GenericPath(s, Printing(Pos(1, 1), out), true) == Printing(Pos(9, 1), closed);
    GenericsDisplayed(s, out, closed);
    assert closed.pieces[|begun.pieces| + 1] == Placeholder;
  }

  /** A question mark can be all there is to see of an error. */
  lemma OnlyQuestionMark(alternate: bool)
    ensures Demangle(LostSymbol()).Demangled?
    ensures var shown := Display(Demangle(LostSymbol()).inner, alternate);
            && shown.state.Scanning?
            && Silent(shown.out.value.pieces)
            && !Clean(shown)
  {
    hide PrintPath;
    var inner := LostSymbol()[2..];
    GenericsPrinted(inner, alternate);
    GenericsScanned(inner);
    var ps := Display(inner, alternate).out.value.pieces;
    var i :| 0 <= i < |ps| && ps[i] == Placeholder;
  }

  lemma GenericsScanned(s: string)
    requires SpellsLost(s)
    ensures TryPath(s, Pos(0, 0)).state == Scanning(Pos(9, 0))
  {
    hide PrintList, PrintPath;
    CrateSkipped(s);
    ArgumentsSkipped(s);
    var q := Printer(Scanning(Pos(1, 1)), None, 0);
    assert GenericPath(s, q, false) == Printer(Scanning(Pos(9, 1)), None, 0);
    GenericsTried(s, q);
  }

  lemma GenericsTried(s: string, q: Printer)
    requires SpellsLost(s) && q == Printer(Scanning(Pos(1, 1)), None, 0)
    requires GenericPath(s, q, false) == Printer(Scanning(Pos(9, 1)), None, 0)
    ensures TryPath(s, Pos(0, 0)).state == Scanning(Pos(9, 0))
  {
    hide GenericPath;
    assert PathBody(s, q, 'I', false) == GenericPath(s, q, false);
  }

  lemma CrateSkipped(s: string)
    requires SpellsLost(s)
    ensures PrintPath(s, Printer(Scanning(Pos(1, 1)), None, 0), false) == Printer(Scanning(Pos(5, 1)), None, 0)
  {
    hide ScanIdent;
    CrateNameScanned(s);
    assert CrateRoot(s, Printer(Scanning(Pos(2, 2)), None, 0)) == Printer(Scanning(Pos(5, 2)), None, 0);
  }

  lemma ArgumentsSkipped(s: string)
    requires SpellsLost(s)
    ensures PrintList(s, Printer(Scanning(Pos(5, 1)), None, 0), GenericArgs, 0).0 == Printer(Scanning(Pos(9, 1)), None, 0)
  {
    hide PrintPath;
    var q, r := Printer(Scanning(Pos(6, 2)), None, 0), Printer(Scanning(Pos(8, 2)), None, 0);
    assert Digits62(s, Pos(7, 2), 2) == Got(2, Pos(8, 2));
    assert Backref(s, Pos(6, 2)) == Got(Pos(3, 3), Pos(8, 2));
    assert TypeBackref(s, q) == r;
    assert TypeBody(s, q, 'B') == TypeBackref(s, q);
    ArgumentsEnd(s, Printer(Scanning(Pos(5, 1)), None, 0), Printer(Scanning(Pos(8, 1)), None, 0));
  }

  lemma ArgumentsEnd(s: string, q: Printer, r: Printer)
    requires SpellsLost(s) && q == Printer(Scanning(Pos(5, 1)), None, 0) && r == Printer(Scanning(Pos(8, 1)), None, 0)
    requires PrintType(s, q) == r
    ensures PrintList(s, q, GenericArgs, 0).0 == Printer(Scanning(Pos(9, 1)), None, 0)
  {
    hide PrintType;
    assert PrintItem(s, q, GenericArgs) == r;
  }

  lemma GenericsDisplayed(s: string, out: Sink, closed: Sink)
    requires SpellsLost(s) && GenericPath(s, Printing(Pos(1, 1), out), true) == Printing(Pos(9, 1), closed)
    ensures PrintPath(s, Printing(Pos(0, 0), out), true) == Printing(Pos(9, 0), closed)
  {
    hide GenericPath;
    assert PathBody(s, Printing(Pos(1, 1), out), 'I', true) == GenericPath(s, Printing(Pos(1, 1), out), true);
  }
}
