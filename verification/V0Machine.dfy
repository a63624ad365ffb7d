/** The demangler as it runs: loops over the symbol, and a printer object whose methods move the
    parser, swap it for the target of a back reference, put the formatter aside and count bound
    lifetimes. Each method is proved to do what the function of the same name says. */
module V0Machine {
  import opened Common
  import Decimals
  import opened V0Parser
  import opened V0Printer
  import S = V0Printer
  import opened V0Theorems
  import Utf8

  // Loops of the scanner ---------------------------------------------------------------------

  ghost function Prefixed(s: string, r: Scan<string>): Scan<string> {
    if r.Got? then Got(s + r.value, r.at) else r
  }

  lemma PrefixedOnce(s: string, c: char, r: Scan<string>)
    ensures Prefixed(s + [c], r) == Prefixed(s, Prefixed([c], r))
  {
    if r.Got? {
      assert (s + [c]) + r.value == s + ([c] + r.value);
    }
  }

  method ScanNibbles(sym: string, at: Pos) returns (r: Scan<string>)
    requires at.next <= |sym|
    ensures r == HexNibbles(sym, at)
  {
    var next := at.next;
    assert HexNibbles(sym, at).Got? ==> sym[next..next] + HexNibbles(sym, at).value == HexNibbles(sym, at).value;
    while next < |sym| && IsNibble(sym[next])
      invariant at.next <= next <= |sym|
      invariant HexNibbles(sym, at) == Prefixed(sym[at.next..next], HexNibbles(sym, at.(next := next)))
    {
      PrefixedOnce(sym[at.next..next], sym[next], HexNibbles(sym, at.(next := next + 1)));
      next := next + 1;
      assert sym[at.next..next] == sym[at.next..next - 1] + [sym[next - 1]];
    }
    assert sym[at.next..next] + [] == sym[at.next..next];
    if next == |sym| || sym[next] != '_' {
      return Bad(Invalid);
    }
    return Got(sym[at.next..next], Pos(next + 1, at.depth));
  }

  method ScanInteger62(sym: string, at: Pos) returns (r: Scan<nat>)
    requires at.next <= |sym|
    ensures r == Integer62(sym, at)
  {
    if Sees(sym, at, '_') {
      return Got(0, Skip(at));
    }
    var x: nat, next := 0, at.next;
    while next < |sym| && sym[next] != '_'
      invariant at.next <= next <= |sym|
      invariant Digits62(sym, at, 0) == Digits62(sym, at.(next := next), x)
    {
      var d := Digit62(sym[next]);
      if d.None? || x * 62 + d.value >= TWO_64 {
        return Bad(Invalid);
      }
      x, next := x * 62 + d.value, next + 1;
    }
    if next == |sym| || x + 1 >= TWO_64 {
      return Bad(Invalid);
    }
    return Got(x + 1, Pos(next + 1, at.depth));
  }

  method ScanOptInteger62(sym: string, at: Pos, tag: char) returns (r: Scan<nat>)
    requires at.next <= |sym|
    ensures r == OptInteger62(sym, at, tag) && (tag == 's' ==> r == Disambiguator(sym, at))
  {
    if !Sees(sym, at, tag) {
      return Got(0, at);
    }
    r := ScanInteger62(sym, Skip(at));
    if r.Bad? || r.value + 1 >= TWO_64 {
      return Bad(Invalid);
    }
    return Got(r.value + 1, r.at);
  }

  /** `rposition` */
  method FindUnderscore(s: string) returns (r: Option<nat>)
    ensures r == LastUnderscore(s)
  {
    var i := |s|;
    assert s[..i] == s;
    while i > 0 && s[i - 1] != '_'
      invariant 0 <= i <= |s|
      invariant LastUnderscore(s) == LastUnderscore(s[..i])
    {
      i := i - 1;
      assert s[..i + 1][..i] == s[..i];
    }
    return if i == 0 then None else Some(i - 1);
  }

  /** The further digits of a length. */
  method ScanLength(sym: string, at: Pos, first: nat) returns (r: Scan<nat>)
    requires at.next <= |sym|
    ensures r == Length(sym, at, first)
  {
    var len: nat, next := first, at.next;
    while next < |sym| && Decimals.IsDigit(sym[next])
      invariant at.next <= next <= |sym|
      invariant Length(sym, at, first) == Length(sym, at.(next := next), len)
    {
      len := len * 10 + (sym[next] as nat - '0' as nat);
      if len >= TWO_64 {
        return Bad(Invalid);
      }
      next := next + 1;
    }
    return Got(len, Pos(next, at.depth));
  }

  method TakeName(sym: string, at: Pos, len: nat, punycode: bool) returns (r: Scan<Ident>)
    requires at.next <= |sym|
    ensures r == Named(sym, at, len, punycode)
  {
    hide LastUnderscore;
    var start := if Sees(sym, at, '_') then at.next + 1 else at.next;
    if start + len > |sym| {
      return Bad(Invalid);
    }
    var s, after := sym[start..start + len], Pos(start + len, at.depth);
    if !punycode {
      return Got(Ident(s, ""), after);
    }
    var i := FindUnderscore(s);
    var name := if i.Some? then Ident(s[..i.value], s[i.value + 1..]) else Ident("", s);
    return if name.punycode == "" then Bad(Invalid) else Got(name, after);
  }

  method ScanName(sym: string, at: Pos) returns (r: Scan<Ident>)
    requires at.next <= |sym|
    ensures r == ScanIdent(sym, at)
  {
    hide Length, Named;
    var punycode := Sees(sym, at, 'u');
    var begin := if punycode then Skip(at) else at;
    if begin.next == |sym| || !Decimals.IsDigit(sym[begin.next]) {
      return Bad(Invalid);
    }
    var len := Got(sym[begin.next] as nat - '0' as nat, Skip(begin));
    if len.value != 0 {
      len := ScanLength(sym, len.at, len.value);
    }
    if len.Bad? {
      return Bad(len.error);
    }
    r := TakeName(sym, len.at, len.value, punycode);
  }

  // The printer ------------------------------------------------------------------------------

  lemma BindTurn(p: Printer, i: nat, n: nat)
    requires i < n && p.lifetimes < TWO_32
    ensures var bound := p.(lifetimes := (p.lifetimes + 1) % TWO_32);
            BindLifetimes(p, i, n) ==
            BindLifetimes(S.PrintLifetime(Say(bound, if i > 0 then [Text(", ")] else []), 1), i + 1, n)
  {
  }

  lemma BindEnd(p: Printer, n: nat)
    requires p.lifetimes < TWO_32
    ensures BindLifetimes(p, n, n) == p
  {
  }

  class Demangler {
    const sym: string
    var state: State
    var out: Option<Sink>
    var lifetimes: nat

    function View(): Printer
      reads this
    {
      Printer(state, out, lifetimes)
    }

    ghost predicate Valid()
      reads this
    {
      Wf(sym, View())
    }

    constructor (sym: string, at: Pos, out: Option<Sink>)
      requires at.next <= |sym| && at.depth <= MAX_DEPTH
      ensures Valid() && this.sym == sym && View() == Printer(Scanning(at), out, 0)
    {
      this.sym, this.state, this.out, this.lifetimes := sym, Scanning(at), out, 0;
    }

    method Print(xs: seq<Piece>)
      modifies this`out
      ensures View() == Say(old(View()), xs)
    {
      if out.Some? {
        out := Some(Sink(out.value.alternate, out.value.pieces + xs));
      }
    }

    /** Print the message of an error and drop the parser. */
    method Stop(e: ParseError)
      modifies this
      ensures View() == Fail(old(View()), e)
    {
      Print([Message(e)]);
      state := Failed(e);
    }

    method Eat(c: char) returns (yes: bool)
      modifies this`state
      ensures yes == old(Eats(sym, View(), c))
      ensures View() == if yes then Eaten(old(View())) else old(View())
    {
      yes := state.Scanning? && Sees(sym, state.at, c);
      if yes {
        state := Scanning(Skip(state.at));
      }
    }

    method PopDepth()
      requires state.Scanning? ==> state.at.depth > 0
      modifies this`state
      ensures View() == Leave(old(View()))
    {
      if state.Scanning? {
        state := Scanning(Pos(state.at.next, state.at.depth - 1));
      }
    }

    method PrintLifetime(lt: nat)
      modifies this
      ensures View() == S.PrintLifetime(old(View()), lt)
    {
      if out.None? {
        return;
      }
      if lt == 0 {
        Print([Text("'"), Text("_")]);
      } else if lt > lifetimes {
        Print([Text("'"), BadLifetime]);
        state := Failed(Invalid);
      } else {
        Print([Text("'")] + LifetimeName(lifetimes - lt));
      }
    }

    /** The loop over the lifetimes of a binder. */
    method BindAll(n: nat)
      requires lifetimes < TWO_32
      modifies this
      ensures View() == BindLifetimes(old(View()), 0, n)
    {
      hide S.PrintLifetime, Bumped, BindLifetimes, Say;
      ghost var all := BindLifetimes(View(), 0, n);
      for i := 0 to n
        invariant lifetimes < TWO_32
        invariant BindLifetimes(View(), i, n) == all
      {
        BindTurn(View(), i, n);
        lifetimes := (lifetimes + 1) % TWO_32;
        Print(if i > 0 then [Text(", ")] else []);
        PrintLifetime(1);
      }
      BindEnd(View(), n);
    }

    method EnterBinder(n: nat)
      requires lifetimes < TWO_32
      modifies this
      ensures View() == S.EnterBinder(old(View()), n)
    {
      hide Bumped, BindLifetimes;
      if out.None? || n == 0 {
        return;
      }
      Print([Text("for<")]);
      BindAll(n);
      Print([Text("> ")]);
    }

    method LeaveBinder(n: nat, ghost l: nat)
      requires l < TWO_32 && lifetimes == (if out.None? then l else Bumped(l, n))
      modifies this`lifetimes
      ensures View() == old(View()).(lifetimes := l)
    {
      BumpedBack(l, n);
      if out.Some? {
        lifetimes := (lifetimes - n) % TWO_32;
      }
    }

    method PrintPath(inValue: bool)
      requires Valid()
      modifies this
      ensures Valid() && View() == S.PrintPath(sym, old(View()), inValue)
      decreases Budget(View()), Left(sym, View()), 1
    {
      if state.Failed? {
        Print([Placeholder]);
        return;
      }
      var pushed := PushDepth(state.at);
      if pushed.Bad? {
        Stop(pushed.error);
        return;
      }
      state := Scanning(pushed.at);
      var tag := Next(sym, state.at);
      if tag.Bad? {
        Stop(tag.error);
        return;
      }
      state := Scanning(tag.at);
      PathBody(tag.value, inValue);
      PopDepth();
    }

    method PathBody(tag: char, inValue: bool)
      requires Valid() && state.Scanning? && state.at.next > 0
      modifies this
      ensures Valid() && View() == S.PathBody(sym, old(View()), tag, inValue)
      decreases Budget(View()), Left(sym, View()), 9
    {
      match tag
      case 'C' => CrateRoot();
      case 'N' =>
        var ns := Namespace(sym, state.at);
        if ns.Bad? {
          Stop(ns.error);
          return;
        }
        state := Scanning(ns.at);
        PrintPath(inValue);
        NestedName(ns.value);
      case 'M' => ImplPath(tag);
      case 'X' => ImplPath(tag);
      case 'Y' => QualifiedSelf(tag);
      case 'I' =>
        PrintPath(inValue);
        Print(if inValue then [Text("::"), Text("<")] else [Text("<")]);
        var _ := PrintList(GenericArgs);
        Print([Text(">")]);
      case 'B' => PathBackref(inValue);
      case _ => Stop(Invalid);
    }

    /** The target is printed by a parser of its own, whose failure is forgotten. */
    method PathBackref(inValue: bool)
      requires Valid() && state.Scanning? && state.at.next > 0
      modifies this
      ensures Valid() && View() == S.PathBackref(sym, old(View()), inValue)
      decreases Budget(View()), Left(sym, View()), 8
    {
      var r := Backref(sym, state.at);
      if r.Bad? {
        Stop(r.error);
        return;
      }
      state := Scanning(r.at);
      if out.None? {
        return;
      }
      var saved := state;
      state := Scanning(r.value);
      PrintPath(inValue);
      state := saved;
    }

    method CrateRoot()
      requires Valid() && state.Scanning?
      modifies this
      ensures Valid() && View() == S.CrateRoot(sym, old(View()))
    {
      var dis := ScanOptInteger62(sym, state.at, 's');
      if dis.Bad? {
        Stop(dis.error);
        return;
      }
      state := Scanning(dis.at);
      var name := ScanName(sym, state.at);
      if name.Bad? {
        Stop(name.error);
        return;
      }
      state := Scanning(name.at);
      Print([Name(name.value)] + if S.Alternate(View()) then [] else [Text("["), Hex(dis.value), Text("]")]);
    }

    method NestedName(ns: Option<char>)
      requires Valid()
      modifies this
      ensures Valid() && View() == S.NestedName(sym, old(View()), ns)
    {
      if state.Failed? {
        Print([Text("::")]);
        Print([Placeholder]);
        return;
      }
      var dis := ScanOptInteger62(sym, state.at, 's');
      if dis.Bad? {
        Stop(dis.error);
        return;
      }
      state := Scanning(dis.at);
      var name := ScanName(sym, state.at);
      if name.Bad? {
        Stop(name.error);
        return;
      }
      state := Scanning(name.at);
      Print(S.NestedText(ns, dis.value, name.value));
    }

    method ImplPath(tag: char)
      requires Valid() && state.Scanning?
      modifies this
      ensures Valid() && View() == S.ImplPath(sym, old(View()), tag)
      decreases Budget(View()), Left(sym, View()), 8
    {
      var dis := ScanOptInteger62(sym, state.at, 's');
      if dis.Bad? {
        Stop(dis.error);
        return;
      }
      state := Scanning(dis.at);
      var saved := out;
      out := None;
      PrintPath(false);
      out := saved;
      QualifiedSelf(tag);
    }

    method QualifiedSelf(tag: char)
      requires Valid()
      modifies this
      ensures Valid() && View() == S.QualifiedSelf(sym, old(View()), tag)
      decreases Budget(View()), Left(sym, View()), 7
    {
      Print([Text("<")]);
      PrintType();
      if tag != 'M' {
        Print([Text(" as ")]);
        PrintPath(false);
      }
      Print([Text(">")]);
    }

    /** The elements of a list, and how many there were. */
    method PrintList(kind: S.Kind) returns (count: nat)
      requires Valid()
      modifies this
      ensures Valid() && (View(), count) == S.PrintList(sym, old(View()), kind, 0)
      decreases Budget(View()), Left(sym, View()), 6
    {
      ghost var start := View();
      count := 0;
      while state.Scanning? && !Sees(sym, state.at, 'E')
        invariant Valid() && (state.Scanning? ==> start.state.Scanning? && state.at.depth == start.state.at.depth && state.at.next >= start.state.at.next)
        invariant S.PrintList(sym, View(), kind, count) == S.PrintList(sym, start, kind, 0)
        decreases Budget(View()), Left(sym, View())
      {
        ghost var before := View();
        Print(if count > 0 then [Text(S.Separator(kind))] else []);
        PrintItem(kind);
        count := count + 1;
        assert S.PrintList(sym, before, kind, count - 1) == S.PrintList(sym, View(), kind, count);
      }
      if state.Scanning? {
        state := Scanning(Skip(state.at));
      }
    }

    method PrintItem(kind: S.Kind)
      requires Valid()
      modifies this
      ensures Valid() && View() == S.PrintItem(sym, old(View()), kind)
      decreases Budget(View()), Left(sym, View()), 5
    {
      match kind
      case GenericArgs => PrintGenericArg();
      case Types => PrintType();
      case Traits => PrintTrait();
      case Consts => PrintConst(true);
      case FieldInits => PrintFieldInit();
    }

    method PrintGenericArg()
      requires Valid()
      modifies this
      ensures Valid() && View() == S.PrintGenericArg(sym, old(View()))
      decreases Budget(View()), Left(sym, View()), 4
    {
      var isLifetime := Eat('L');
      if isLifetime {
        var lt := ScanInteger62(sym, state.at);
        if lt.Bad? {
          Stop(lt.error);
          return;
        }
        state := Scanning(lt.at);
        PrintLifetime(lt.value);
        return;
      }
      var isConst := Eat('K');
      if isConst {
        PrintConst(false);
      } else {
        PrintType();
      }
    }

    method PrintFieldInit()
      requires Valid()
      modifies this
      ensures Valid() && View() == S.PrintFieldInit(sym, old(View()))
      decreases Budget(View()), Left(sym, View()), 4
    {
      if state.Failed? {
        Print([Placeholder]);
        return;
      }
      var dis := ScanOptInteger62(sym, state.at, 's');
      if dis.Bad? {
        Stop(dis.error);
        return;
      }
      state := Scanning(dis.at);
      var name := ScanName(sym, state.at);
      if name.Bad? {
        Stop(name.error);
        return;
      }
      state := Scanning(name.at);
      Print([Name(name.value), Text(": ")]);
      PrintConst(true);
    }

    method PrintType()
      requires Valid()
      modifies this
      ensures Valid() && View() == S.PrintType(sym, old(View()))
      decreases Budget(View()), Left(sym, View()), 2
    {
      if state.Failed? {
        Print([Placeholder]);
        return;
      }
      var tag := Next(sym, state.at);
      if tag.Bad? {
        Stop(tag.error);
        return;
      }
      state := Scanning(tag.at);
      var basic := S.BasicType(tag.value);
      if basic.Some? {
        Print([Text(basic.value)]);
        return;
      }
      var pushed := PushDepth(state.at);
      if pushed.Bad? {
        Stop(pushed.error);
        return;
      }
      state := Scanning(pushed.at);
      if S.IsTypeTag(tag.value) {
        TypeBody(tag.value);
      } else {
        state := Scanning(Pos(state.at.next - 1, state.at.depth));
        PrintPath(false);
      }
      PopDepth();
    }

    method TypeBody(tag: char)
      requires Valid() && state.Scanning? && state.at.next > 0
      modifies this
      ensures Valid() && View() == S.TypeBody(sym, old(View()), tag)
      decreases Budget(View()), Left(sym, View()), 10
    {
      match tag
      case 'R' => Reference(false);
      case 'Q' => Reference(true);
      case 'P' =>
        Print([Text("*"), Text("const ")]);
        PrintType();
      case 'O' =>
        Print([Text("*"), Text("mut ")]);
        PrintType();
      case 'A' =>
        Print([Text("[")]);
        PrintType();
        Print([Text("; ")]);
        PrintConst(true);
        Print([Text("]")]);
      case 'S' =>
        Print([Text("[")]);
        PrintType();
        Print([Text("]")]);
      case 'T' =>
        Print([Text("(")]);
        var count := PrintList(Types);
        Print(S.CloseTuple(count));
      case 'F' => FnType();
      case 'D' =>
        Print([Text("dyn ")]);
        DynTraits();
        DynBound();
      case 'B' => TypeBackref();
      case _ => Stop(Invalid);
    }

    method TypeBackref()
      requires Valid() && state.Scanning? && state.at.next > 0
      modifies this
      ensures Valid() && View() == S.TypeBackref(sym, old(View()))
      decreases Budget(View()), Left(sym, View()), 9
    {
      var r := Backref(sym, state.at);
      if r.Bad? {
        Stop(r.error);
        return;
      }
      state := Scanning(r.at);
      if out.None? {
        return;
      }
      var saved := state;
      state := Scanning(r.value);
      PrintType();
      state := saved;
    }

    method Reference(mutable: bool)
      requires Valid() && state.Scanning?
      modifies this
      ensures Valid() && View() == S.Reference(sym, old(View()), mutable)
      decreases Budget(View()), Left(sym, View()), 8
    {
      Print([Text("&")]);
      var named := Eat('L');
      if named {
        var lt := ScanInteger62(sym, state.at);
        if lt.Bad? {
          Stop(lt.error);
          return;
        }
        state := Scanning(lt.at);
        if lt.value != 0 {
          PrintLifetime(lt.value);
          Print([Text(" ")]);
        }
      }
      Print(if mutable then [Text("mut ")] else []);
      PrintType();
    }

    method FnType()
      requires Valid() && state.Scanning?
      modifies this
      ensures Valid() && View() == S.FnType(sym, old(View()))
      decreases Budget(View()), Left(sym, View()), 9
    {
      var n := ScanOptInteger62(sym, state.at, 'G');
      if n.Bad? {
        Stop(n.error);
        return;
      }
      state := Scanning(n.at);
      EnterBinder(n.value);
      FnSig();
      LeaveBinder(n.value, old(lifetimes));
    }

    method FnSig()
      requires Valid()
      modifies this
      ensures Valid() && View() == S.FnSig(sym, old(View()))
      decreases Budget(View()), Left(sym, View()), 8
    {
      var isUnsafe := Eat('U');
      var hasAbi := Eat('K');
      if !hasAbi {
        FnRest(isUnsafe, None);
        return;
      }
      var isC := Eat('C');
      if isC {
        FnRest(isUnsafe, Some("C"));
        return;
      }
      var abi := ScanName(sym, state.at);
      if abi.Bad? {
        Stop(abi.error);
        return;
      }
      state := Scanning(abi.at);
      if abi.value.ascii == "" || abi.value.punycode != "" {
        Stop(Invalid);
        return;
      }
      FnRest(isUnsafe, Some(abi.value.ascii));
    }

    method FnRest(isUnsafe: bool, abi: Option<string>)
      requires Valid()
      modifies this
      ensures Valid() && View() == S.FnRest(sym, old(View()), isUnsafe, abi)
      decreases Budget(View()), Left(sym, View()), 7
    {
      Print(S.FnHead(isUnsafe, abi));
      var _ := PrintList(Types);
      Print([Text(")")]);
      var unit := Eat('u');
      if !unit {
        Print([Text(" -> ")]);
        PrintType();
      }
    }

    method DynTraits()
      requires Valid() && state.Scanning?
      modifies this
      ensures Valid() && View() == S.DynTraits(sym, old(View()))
      decreases Budget(View()), Left(sym, View()), 8
    {
      var n := ScanOptInteger62(sym, state.at, 'G');
      if n.Bad? {
        Stop(n.error);
        return;
      }
      state := Scanning(n.at);
      EnterBinder(n.value);
      var _ := PrintList(Traits);
      LeaveBinder(n.value, old(lifetimes));
    }

    method DynBound()
      requires Valid()
      modifies this
      ensures Valid() && View() == S.DynBound(sym, old(View()))
    {
      var bounded := Eat('L');
      if !bounded {
        Stop(Invalid);
        return;
      }
      var lt := ScanInteger62(sym, state.at);
      if lt.Bad? {
        Stop(lt.error);
        return;
      }
      state := Scanning(lt.at);
      if lt.value != 0 {
        Print([Text(" + ")]);
        PrintLifetime(lt.value);
      }
    }

    /** Whether a `<` is left open. */
    method PrintOpenPath() returns (open: bool)
      requires Valid()
      modifies this
      ensures Valid() && (View(), open) == S.PrintOpenPath(sym, old(View()))
      decreases Budget(View()), Left(sym, View()), 3
    {
      open := false;
      var isBackref := Eat('B');
      if isBackref {
        var r := Backref(sym, state.at);
        if r.Bad? {
          Stop(r.error);
          return;
        }
        state := Scanning(r.at);
        if out.None? {
          return;
        }
        var saved := state;
        state := Scanning(r.value);
        open := PrintOpenPath();
        state := saved;
        return;
      }
      open := Eat('I');
      PrintPath(false);
      if open {
        Print([Text("<")]);
        var _ := PrintList(GenericArgs);
      }
    }

    /** A trait of a trait object, with its associated type bindings. */
    method PrintTrait()
      requires Valid()
      modifies this
      ensures Valid() && View() == S.PrintTrait(sym, old(View()))
      decreases Budget(View()), Left(sym, View()), 4
    {
      ghost var start := View();
      var open := PrintOpenPath();
      while S.Eats(sym, View(), 'p')
        invariant Valid() && (state.Scanning? ==> start.state.Scanning? && state.at.depth == start.state.at.depth && state.at.next > start.state.at.next)
        invariant S.Projections(sym, View(), open) == S.PrintTrait(sym, start)
        decreases Budget(View()), Left(sym, View())
      {
        state := Scanning(Skip(state.at));
        Print([Text(if open then ", " else "<")]);
        open := true;
        var name := ScanName(sym, state.at);
        if name.Bad? {
          Stop(name.error);
          return;
        }
        state := Scanning(name.at);
        Print([Name(name.value), Text(" = ")]);
        PrintType();
      }
      Print(if open then [Text(">")] else []);
    }

    method PrintConst(inValue: bool)
      requires Valid()
      modifies this
      ensures Valid() && View() == S.PrintConst(sym, old(View()), inValue)
      decreases Budget(View()), Left(sym, View()), 2
    {
      if state.Failed? {
        Print([Placeholder]);
        return;
      }
      var tag := Next(sym, state.at);
      if tag.Bad? {
        Stop(tag.error);
        return;
      }
      state := Scanning(tag.at);
      var pushed := PushDepth(state.at);
      if pushed.Bad? {
        Stop(pushed.error);
        return;
      }
      state := Scanning(pushed.at);
      ConstBody(tag.value, inValue);
      PopDepth();
    }

    method ConstBody(tag: char, inValue: bool)
      requires Valid() && state.Scanning? && state.at.next > 0
      modifies this
      ensures Valid() && View() == S.ConstBody(sym, old(View()), tag, inValue)
      decreases Budget(View()), Left(sym, View()), 9
    {
      if S.IsLiteralTag(tag) {
        ConstLiteral(tag);
        return;
      }
      match tag
      case 'e' =>
        Print(S.Open(inValue) + [Text("*")]);
        ConstStr();
        Print(S.Close(inValue));
      case 'R' =>
        var isStr := Eat('e');
        if isStr {
          ConstStr();
        } else {
          ConstRef([Text("&")], inValue);
        }
      case 'Q' => ConstRef([Text("&"), Text("mut ")], inValue);
      case 'A' =>
        Print(S.Open(inValue) + [Text("[")]);
        var _ := PrintList(Consts);
        Print([Text("]")] + S.Close(inValue));
      case 'T' =>
        Print(S.Open(inValue) + [Text("(")]);
        var count := PrintList(Consts);
        Print(S.CloseTuple(count) + S.Close(inValue));
      case 'V' =>
        Print(S.Open(inValue));
        PrintPath(true);
        ConstAdt(inValue);
      case 'B' => ConstBackref(inValue);
      case _ => Stop(Invalid);
    }

    method ConstBackref(inValue: bool)
      requires Valid() && state.Scanning? && state.at.next > 0
      modifies this
      ensures Valid() && View() == S.ConstBackref(sym, old(View()), inValue)
      decreases Budget(View()), Left(sym, View()), 8
    {
      var r := Backref(sym, state.at);
      if r.Bad? {
        Stop(r.error);
        return;
      }
      state := Scanning(r.at);
      if out.None? {
        return;
      }
      var saved := state;
      state := Scanning(r.value);
      PrintConst(inValue);
      state := saved;
    }

    method ConstRef(sigil: seq<Piece>, inValue: bool)
      requires Valid() && state.Scanning?
      modifies this
      ensures Valid() && View() == S.ConstRef(sym, old(View()), sigil, inValue)
      decreases Budget(View()), Left(sym, View()), 8
    {
      Print(S.Open(inValue) + sigil);
      PrintConst(true);
      Print(S.Close(inValue));
    }

    method ConstAdt(inValue: bool)
      requires Valid()
      modifies this
      ensures Valid() && View() == S.ConstAdt(sym, old(View()), inValue)
      decreases Budget(View()), Left(sym, View()), 8
    {
      if state.Failed? {
        Print([Placeholder]);
        return;
      }
      var tag := Next(sym, state.at);
      if tag.Bad? {
        Stop(tag.error);
        return;
      }
      state := Scanning(tag.at);
      match tag.value
      case 'U' => Print(S.Close(inValue));
      case 'T' =>
        Print([Text("(")]);
        var _ := PrintList(Consts);
        Print([Text(")")] + S.Close(inValue));
      case 'S' =>
        Print([Text(" { ")]);
        var _ := PrintList(FieldInits);
        Print([Text(" }")] + S.Close(inValue));
      case _ => Stop(Invalid);
    }

    method ConstLiteral(tag: char)
      requires Valid() && state.Scanning? && S.IsLiteralTag(tag)
      modifies this
      ensures Valid() && View() == S.ConstLiteral(sym, old(View()), tag)
    {
      if tag == 'p' {
        Print([Text("_")]);
      } else if tag == 'b' {
        ConstBool();
      } else if tag == 'c' {
        ConstChar();
      } else {
        var negative := false;
        if tag in "aslxni" {
          negative := Eat('n');
        }
        if negative {
          Print([Text("-")]);
        }
        ConstUint(tag);
      }
    }

    method ConstUint(tag: char)
      requires Valid() && state.Scanning? && S.BasicType(tag).Some?
      modifies this
      ensures Valid() && View() == S.ConstUint(sym, old(View()), tag)
    {
      var hex := ScanNibbles(sym, state.at);
      if hex.Bad? {
        Stop(hex.error);
        return;
      }
      state := Scanning(hex.at);
      var v := ParseUint(hex.value);
      var number := if v.Some? then [Decimal(v.value)] else [Text("0x"), Text(hex.value)];
      Print(number + if S.Alternate(View()) then [] else [Text(S.BasicType(tag).value)]);
    }

    method ConstBool()
      requires Valid() && state.Scanning?
      modifies this
      ensures Valid() && View() == S.ConstBool(sym, old(View()))
    {
      var hex := ScanNibbles(sym, state.at);
      if hex.Bad? {
        Stop(hex.error);
        return;
      }
      state := Scanning(hex.at);
      match ParseUint(hex.value)
      case Some(0) => Print([Text("false")]);
      case Some(1) => Print([Text("true")]);
      case _ => Stop(Invalid);
    }

    method ConstChar()
      requires Valid() && state.Scanning?
      modifies this
      ensures Valid() && View() == S.ConstChar(sym, old(View()))
    {
      var hex := ScanNibbles(sym, state.at);
      if hex.Bad? {
        Stop(hex.error);
        return;
      }
      state := Scanning(hex.at);
      var v := ParseUint(hex.value);
      if v.Some? && Utf8.IsScalar(v.value) {
        Print([Quoted('\'', [v.value as char])]);
      } else {
        Stop(Invalid);
      }
    }

    method ConstStr()
      requires Valid() && state.Scanning?
      modifies this
      ensures Valid() && View() == S.ConstStr(sym, old(View()))
    {
      var hex := ScanNibbles(sym, state.at);
      if hex.Bad? {
        Stop(hex.error);
        return;
      }
      state := Scanning(hex.at);
      match ParseChars(hex.value)
      case Some(t) => Print([Quoted('"', t)]);
      case None => Stop(Invalid);
    }
  }

  // Entry points -----------------------------------------------------------------------------

  method HasHighChar(s: string) returns (yes: bool)
    ensures yes <==> exists i :: 0 <= i < |s| && s[i] >= 128 as char
  {
    for i := 0 to |s|
      invariant forall j :: 0 <= j < i ==> s[j] < 128 as char
    {
      if s[i] >= 128 as char {
        return true;
      }
    }
    return false;
  }

  method TryParsePath(inner: string, at: Pos) returns (r: State)
    requires at.next <= |inner| && at.depth <= MAX_DEPTH
    ensures r == TryPath(inner, at).state
  {
    var dummy := new Demangler(inner, at, None);
    dummy.PrintPath(false);
    return dummy.state;
  }

  method DemangleSymbol(s: string) returns (r: Demangled)
    ensures r == Demangle(s)
  {
    hide TryPath;
    var inner := Inner(s);
    if inner.None? || !StartsPath(inner.value, 0) {
      return Refused(Invalid);
    }
    var high := HasHighChar(inner.value);
    if high {
      return Refused(Invalid);
    }
    var end := TryParsePath(inner.value, Pos(0, 0));
    if end.Scanning? && StartsPath(inner.value, end.at.next) {
      end := TryParsePath(inner.value, end.at);
    }
    return match end
      case Failed(e) => Refused(e)
      case Scanning(at) => Demangled(inner.value, inner.value[at.next..]);
  }

  method Format(inner: string, alternate: bool) returns (printed: Printer)
    ensures printed == Display(inner, alternate)
  {
    var printer := new Demangler(inner, Pos(0, 0), Some(Sink(alternate, [])));
    printer.PrintPath(true);
    return printer.View();
  }
}
