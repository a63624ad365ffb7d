/** What the v0 demangler promises: a symbol it accepts is printed by the same scan. */
module V0Theorems {
  import opened Common
  import opened V0Parser
  import opened V0Printer
  import opened V0Faults
  import opened V0Skip
  import opened V0Shown

  datatype Demangled = Demangled(inner: string, suffix: string) | Refused(error: ParseError)

  /** The symbol without the prefix that marks it: `_R`, or `R` or `__R` as some platforms spell it. */
  function Inner(s: string): Option<string> {
    if |s| > 2 && s[..2] == "_R" then Some(s[2..])
    else if |s| > 1 && s[0] == 'R' then Some(s[1..])
    else if |s| > 3 && s[..3] == "__R" then Some(s[3..])
    else None
  }

  predicate StartsPath(s: string, i: nat) {
    i < |s| && 'A' <= s[i] <= 'Z'
  }

  /** A dummy printer validates the path. */
  function TryPath(inner: string, at: Pos): (r: Printer)
    requires at.next <= |inner| && at.depth <= MAX_DEPTH
    ensures r.state.Scanning? ==> at.next < r.state.at.next <= |inner| && r.state.at.depth == at.depth
  {
    PrintPath(inner, Printer(Scanning(at), None, 0), false)
  }

  function Demangle(s: string): (r: Demangled)
  {
    match Inner(s)
    case None => Refused(Invalid)
    case Some(inner) =>
      if !StartsPath(inner, 0) || exists i :: 0 <= i < |inner| && inner[i] >= 128 as char then Refused(Invalid)
      else
        match TryPath(inner, Pos(0, 0)).state
        case Failed(e) => Refused(e)
        case Scanning(at) =>
          if !StartsPath(inner, at.next) then Demangled(inner, inner[at.next..])
          else
            match TryPath(inner, at).state
            case Failed(e) => Refused(e)
            case Scanning(end) => Demangled(inner, inner[end.next..])
  }

  /** `Display::fmt` of a demangled symbol. */
  function Display(inner: string, alternate: bool): Printer {
    PrintPath(inner, Printer(Scanning(Pos(0, 0)), Some(Sink(alternate, [])), 0), true)
  }

  /** Whatever the printer has around it: the printing run fails where the text names a loose lifetime,
      and otherwise ends exactly as the skipping run from the same place does. */
  lemma SkippingAgrees(s: string, p: Printer, v: bool, w: bool)
    requires Wf(s, p) && p.out.Some?
    ensures AgreesUnless(FaultPath(s, p.(out := None), w, p.lifetimes, false),
                         PrintPath(s, p, v), PrintPath(s, p.(out := None), w))
    ensures AgreesUnless(FaultType(s, p.(out := None), p.lifetimes, false),
                         PrintType(s, p), PrintType(s, p.(out := None)))
    ensures AgreesUnless(FaultConst(s, p.(out := None), v, p.lifetimes, false),
                         PrintConst(s, p, v), PrintConst(s, p.(out := None), v))
  {
    hide PrintPath, PrintType, PrintConst, FaultPath, FaultType, FaultConst;
    PathTied(s, p, p.(out := None), v, w);
    TypeTied(s, p, p.(out := None));
    ConstTied(s, p, p.(out := None), v);
  }

  ghost predicate AgreesUnless(loose: bool, printed: Printer, skipped: Printer) {
    if loose then printed.state.Failed? else printed.state == skipped.state
  }

  /** The path of the symbol names a lifetime, outside back references, that no binder around it binds. */
  ghost predicate Loose(inner: string) {
    FaultPath(inner, Printer(Scanning(Pos(0, 0)), None, 0), false, 0, false)
  }

  /** It does, or it reaches a back reference to something whose scan fails there, or that is faulty there
      itself, with the depth and the lifetimes of that place. */
  ghost predicate Faulty(inner: string) {
    FaultPath(inner, Printer(Scanning(Pos(0, 0)), None, 0), false, 0, true)
  }

  /** The text displayed for a symbol that demangles shows no error if and only if the symbol is not
      faulty. The printing scan itself fails if and only if the symbol names a loose lifetime, and
      otherwise reaches the end of the path that was validated. */
  lemma DisplayExact(s: string, alternate: bool)
    requires Demangle(s).Demangled?
    ensures var inner := Demangle(s).inner;
            var shown, validated := Display(inner, alternate), TryPath(inner, Pos(0, 0));
            && validated.state.Scanning?
            && validated.state.at.depth == 0
            && (Clean(shown) <==> !Faulty(inner))
            && (shown.state.Failed? <==> Loose(inner))
            && (!Loose(inner) ==> shown.state == validated.state)
            && (Loose(inner) ==> Faulty(inner))
    ensures Demangle(s).suffix == Demangle(s).inner[|Demangle(s).inner| - |Demangle(s).suffix|..]
  {
    hide PrintPath, FaultPath;
    var inner := Demangle(s).inner;
    var p, q := Printer(Scanning(Pos(0, 0)), Some(Sink(alternate, [])), 0), Printer(Scanning(Pos(0, 0)), None, 0);
    PathTied(inner, p, q, true, false);
    PathShown(inner, p, q, true, false);
  }

  /** A reference type that names a loose lifetime stops a printing run and no skipping run. */
  lemma ReferenceStops(s: string, p: Printer, lt: nat, at: Pos, mutable: bool)
    requires Wf(s, p) && p.out.Some? && Eats(s, p, 'L') && Integer62(s, Eaten(p).state.at) == Got(lt, at)
    requires lt > p.lifetimes
    ensures Reference(s, p, mutable).state.Failed?
    ensures Reference(s, p.(out := None), mutable) == PrintType(s, At(p.(out := None), at))
  {
    hide PrintType, Integer62;
  }
}
