/** What a run that skips printing passes over and a run that prints fails on. These predicates follow a
    skipping run, and carry the number `l` of lifetimes a printing run would have bound on the way. They
    hold where the symbol names a lifetime that nothing around it binds; and if `deep`, also where it
    reaches a back reference to something that cannot be printed there. The path of an `impl`, which is
    not printed, is not looked into. */
module V0Faults {
  import opened Common
  import opened V0Parser
  import opened V0Printer

  ghost predicate Skips(s: string, q: Printer) {
    Wf(s, q) && q.out.None?
  }

  /** A skipping run about to read something. */
  ghost predicate Reading(s: string, q: Printer) {
    Skips(s, q) && q.state.Scanning?
  }

  /** An index beyond the `l` lifetimes bound, read at this place. */
  ghost predicate LooseIndex(r: Scan<nat>, l: nat) {
    r.Got? && r.value > l
  }

  // Paths ------------------------------------------------------------------------------------

  ghost predicate FaultPath(s: string, q: Printer, v: bool, l: nat, deep: bool)
    requires Skips(s, q)
    decreases Budget(q), Left(s, q), 1
  {
    && q.state.Scanning?
    && var inner := PushDepth(q.state.at);
    && inner.Got?
    && var tag := Next(s, inner.at);
    && tag.Got?
    && FaultPathBody(s, At(q, tag.at), tag.value, v, l, deep)
  }

  ghost predicate FaultPathBody(s: string, q: Printer, tag: char, v: bool, l: nat, deep: bool)
    requires Reading(s, q) && q.state.at.next > 0
    decreases Budget(q), Left(s, q), 9
  {
    match tag
    case 'N' => var ns := Namespace(s, q.state.at); ns.Got? && FaultPath(s, At(q, ns.at), v, l, deep)
    case 'M' => FaultImpl(s, q, tag, l, deep)
    case 'X' => FaultImpl(s, q, tag, l, deep)
    case 'Y' => FaultSelf(s, q, tag, l, deep)
    case 'I' => FaultPath(s, q, v, l, deep) || FaultList(s, PrintPath(s, q, v), GenericArgs, l, deep)
    case 'B' => deep && FaultPathTarget(s, q, v, l)
    case _ => false
  }

  /** The scan of the target fails, or it is at fault itself. */
  ghost predicate FaultPathTarget(s: string, q: Printer, v: bool, l: nat)
    requires Reading(s, q) && q.state.at.next > 0
    decreases Budget(q), Left(s, q), 8
  {
    var to := Backref(s, q.state.at);
    to.Got? && (PrintPath(s, At(q, to.value), v).state.Failed? || FaultPath(s, At(q, to.value), v, l, true))
  }

  ghost predicate FaultImpl(s: string, q: Printer, tag: char, l: nat, deep: bool)
    requires Reading(s, q)
    decreases Budget(q), Left(s, q), 8
  {
    var dis := Disambiguator(s, q.state.at);
    dis.Got? && FaultSelf(s, PrintPath(s, At(q, dis.at), false), tag, l, deep)
  }

  ghost predicate FaultSelf(s: string, q: Printer, tag: char, l: nat, deep: bool)
    requires Skips(s, q)
    decreases Budget(q), Left(s, q), 7
  {
    FaultType(s, q, l, deep) || (tag != 'M' && FaultPath(s, PrintType(s, q), false, l, deep))
  }

  // Lists ------------------------------------------------------------------------------------

  ghost predicate FaultList(s: string, q: Printer, kind: Kind, l: nat, deep: bool)
    requires Skips(s, q)
    decreases Budget(q), Left(s, q), 6
  {
    && q.state.Scanning?
    && !Eats(s, q, 'E')
    && (FaultItem(s, q, kind, l, deep) || FaultList(s, PrintItem(s, q, kind), kind, l, deep))
  }

  ghost predicate FaultItem(s: string, q: Printer, kind: Kind, l: nat, deep: bool)
    requires Skips(s, q)
    decreases Budget(q), Left(s, q), 5
  {
    match kind
    case GenericArgs => FaultArg(s, q, l, deep)
    case Types => FaultType(s, q, l, deep)
    case Traits => FaultTrait(s, q, l, deep)
    case Consts => FaultConst(s, q, true, l, deep)
    case FieldInits => FaultField(s, q, l, deep)
  }

  ghost predicate FaultArg(s: string, q: Printer, l: nat, deep: bool)
    requires Skips(s, q)
    decreases Budget(q), Left(s, q), 4
  {
    if Eats(s, q, 'L') then LooseIndex(Integer62(s, Eaten(q).state.at), l)
    else if Eats(s, q, 'K') then FaultConst(s, Eaten(q), false, l, deep)
    else FaultType(s, q, l, deep)
  }

  ghost predicate FaultField(s: string, q: Printer, l: nat, deep: bool)
    requires Skips(s, q)
    decreases Budget(q), Left(s, q), 4
  {
    && q.state.Scanning?
    && var dis := Disambiguator(s, q.state.at);
    && dis.Got?
    && var name := ScanIdent(s, dis.at);
    && name.Got?
    && FaultConst(s, At(q, name.at), true, l, deep)
  }

  // Types ------------------------------------------------------------------------------------

  ghost predicate FaultType(s: string, q: Printer, l: nat, deep: bool)
    requires Skips(s, q)
    decreases Budget(q), Left(s, q), 2
  {
    && q.state.Scanning?
    && var tag := Next(s, q.state.at);
    && tag.Got?
    && BasicType(tag.value).None?
    && var inner := PushDepth(tag.at);
    && inner.Got?
    && if IsTypeTag(tag.value) then FaultTypeBody(s, At(q, inner.at), tag.value, l, deep)
       else FaultPath(s, At(q, Pos(inner.at.next - 1, inner.at.depth)), false, l, deep)
  }

  ghost predicate FaultTypeBody(s: string, q: Printer, tag: char, l: nat, deep: bool)
    requires Reading(s, q) && q.state.at.next > 0
    decreases Budget(q), Left(s, q), 10
  {
    match tag
    case 'R' => FaultReference(s, q, l, deep)
    case 'Q' => FaultReference(s, q, l, deep)
    case 'P' => FaultType(s, q, l, deep)
    case 'O' => FaultType(s, q, l, deep)
    case 'A' => FaultType(s, q, l, deep) || FaultConst(s, PrintType(s, q), true, l, deep)
    case 'S' => FaultType(s, q, l, deep)
    case 'T' => FaultList(s, q, Types, l, deep)
    case 'F' => FaultFn(s, q, l, deep)
    case 'D' => FaultDyn(s, q, l, deep) || FaultBound(s, DynTraits(s, q), l, deep)
    case 'B' => deep && FaultTypeTarget(s, q, l)
    case _ => false
  }

  ghost predicate FaultTypeTarget(s: string, q: Printer, l: nat)
    requires Reading(s, q) && q.state.at.next > 0
    decreases Budget(q), Left(s, q), 8
  {
    var to := Backref(s, q.state.at);
    to.Got? && (PrintType(s, At(q, to.value)).state.Failed? || FaultType(s, At(q, to.value), l, true))
  }

  ghost predicate FaultReference(s: string, q: Printer, l: nat, deep: bool)
    requires Reading(s, q)
    decreases Budget(q), Left(s, q), 8
  {
    if !Eats(s, q, 'L') then FaultType(s, q, l, deep)
    else
      var lt := Integer62(s, Eaten(q).state.at);
      LooseIndex(lt, l) || (lt.Got? && FaultType(s, At(q, lt.at), l, deep))
  }

  /** A binder names its own lifetimes, which succeeds as long as their number fits 32 bits. */
  ghost predicate FaultFn(s: string, q: Printer, l: nat, deep: bool)
    requires Reading(s, q)
    decreases Budget(q), Left(s, q), 9
  {
    var n := OptInteger62(s, q.state.at, 'G');
    n.Got? && (l + n.value >= TWO_32 || FaultSig(s, At(q, n.at), l + n.value, deep))
  }

  ghost predicate FaultSig(s: string, q: Printer, l: nat, deep: bool)
    requires Skips(s, q)
    decreases Budget(q), Left(s, q), 8
  {
    var u := if Eats(s, q, 'U') then Eaten(q) else q;
    if !Eats(s, u, 'K') then FaultRest(s, u, l, deep)
    else if Eats(s, Eaten(u), 'C') then FaultRest(s, Eaten(Eaten(u)), l, deep)
    else
      var abi := ScanIdent(s, Eaten(u).state.at);
      abi.Got? && abi.value.ascii != "" && abi.value.punycode == "" && FaultRest(s, At(u, abi.at), l, deep)
  }

  ghost predicate FaultRest(s: string, q: Printer, l: nat, deep: bool)
    requires Skips(s, q)
    decreases Budget(q), Left(s, q), 7
  {
    || FaultList(s, q, Types, l, deep)
    || var args := PrintList(s, q, Types, 0).0; (!Eats(s, args, 'u') && FaultType(s, args, l, deep))
  }

  // Trait objects ----------------------------------------------------------------------------

  ghost predicate FaultDyn(s: string, q: Printer, l: nat, deep: bool)
    requires Reading(s, q)
    decreases Budget(q), Left(s, q), 8
  {
    var n := OptInteger62(s, q.state.at, 'G');
    n.Got? && (l + n.value >= TWO_32 || FaultList(s, At(q, n.at), Traits, l + n.value, deep))
  }

  ghost predicate FaultBound(s: string, q: Printer, l: nat, deep: bool)
    requires Skips(s, q)
  {
    Eats(s, q, 'L') && LooseIndex(Integer62(s, Eaten(q).state.at), l)
  }

  ghost predicate FaultOpenPath(s: string, q: Printer, l: nat, deep: bool)
    requires Skips(s, q)
    decreases Budget(q), Left(s, q), 3
  {
    if Eats(s, q, 'B') then
      && deep
      && var to := Backref(s, Eaten(q).state.at);
      && to.Got?
      && (PrintOpenPath(s, At(q, to.value)).0.state.Failed? || FaultOpenPath(s, At(q, to.value), l, true))
    else if Eats(s, q, 'I') then
      FaultPath(s, Eaten(q), false, l, deep) || FaultList(s, PrintPath(s, Eaten(q), false), GenericArgs, l, deep)
    else FaultPath(s, q, false, l, deep)
  }

  ghost predicate FaultTrait(s: string, q: Printer, l: nat, deep: bool)
    requires Skips(s, q)
    decreases Budget(q), Left(s, q), 4
  {
    FaultOpenPath(s, q, l, deep) || FaultProjections(s, PrintOpenPath(s, q).0, l, deep)
  }

  ghost predicate FaultProjections(s: string, q: Printer, l: nat, deep: bool)
    requires Skips(s, q)
    decreases Budget(q), Left(s, q), 3
  {
    && Eats(s, q, 'p')
    && var name := ScanIdent(s, Eaten(q).state.at);
    && name.Got?
    && (FaultType(s, At(q, name.at), l, deep) || FaultProjections(s, PrintType(s, At(q, name.at)), l, deep))
  }

  // Constants --------------------------------------------------------------------------------

  ghost predicate FaultConst(s: string, q: Printer, v: bool, l: nat, deep: bool)
    requires Skips(s, q)
    decreases Budget(q), Left(s, q), 2
  {
    && q.state.Scanning?
    && var tag := Next(s, q.state.at);
    && tag.Got?
    && var inner := PushDepth(tag.at);
    && inner.Got?
    && FaultConstBody(s, At(q, inner.at), tag.value, v, l, deep)
  }

  ghost predicate FaultConstBody(s: string, q: Printer, tag: char, v: bool, l: nat, deep: bool)
    requires Reading(s, q) && q.state.at.next > 0
    decreases Budget(q), Left(s, q), 9
  {
    match tag
    case 'R' => !Eats(s, q, 'e') && FaultConst(s, q, true, l, deep)
    case 'Q' => FaultConst(s, q, true, l, deep)
    case 'A' => FaultList(s, q, Consts, l, deep)
    case 'T' => FaultList(s, q, Consts, l, deep)
    case 'V' => FaultPath(s, q, true, l, deep) || FaultAdt(s, PrintPath(s, q, true), l, deep)
    case 'B' => deep && FaultConstTarget(s, q, v, l)
    case _ => false
  }

  ghost predicate FaultConstTarget(s: string, q: Printer, v: bool, l: nat)
    requires Reading(s, q) && q.state.at.next > 0
    decreases Budget(q), Left(s, q), 8
  {
    var to := Backref(s, q.state.at);
    to.Got? && (PrintConst(s, At(q, to.value), v).state.Failed? || FaultConst(s, At(q, to.value), v, l, true))
  }

  ghost predicate FaultAdt(s: string, q: Printer, l: nat, deep: bool)
    requires Skips(s, q)
    decreases Budget(q), Left(s, q), 8
  {
    && q.state.Scanning?
    && var tag := Next(s, q.state.at);
    && tag.Got?
    && match tag.value
       case 'T' => FaultList(s, At(q, tag.at), Consts, l, deep)
       case 'S' => FaultList(s, At(q, tag.at), FieldInits, l, deep)
       case _ => false
  }
}
