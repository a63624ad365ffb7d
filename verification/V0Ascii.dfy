/** The mangling of a tree is ASCII. */
module V0Ascii {
  import opened Common
  import opened V0Parser
  import opened V0Names
  import opened V0Symbols
  import Decimals
  import Utf8

  lemma Join(a: string, b: string)
    requires IsAscii(a) && IsAscii(b)
    ensures IsAscii(a + b)
  {
  }

  lemma {:induction false} Text62Ascii(n: nat)
    ensures IsAscii(Text62(n))
  {
    if n >= 62 {
      Text62Ascii(n / 62);
      Char62Ascii(n % 62);
    } else {
      Char62Ascii(n);
    }
  }

  lemma Char62Ascii(d: nat)
    requires d < 62
    ensures Char62(d) as int < 128
  {
  }

  lemma NumbersAscii(n: nat, tag: Letter)
    ensures IsAscii(Base62(n)) && IsAscii(Opt62(tag, n))
  {
    hide Text62;
    if n > 0 {
      Text62Ascii(n - 1);
    }
    if n > 1 {
      Text62Ascii(n - 2);
    }
  }

  lemma NibblesAscii(t: string)
    requires AllNibbles(t)
    ensures IsAscii(t)
  {
    forall i | 0 <= i < |t| ensures t[i] as int < 128 {
      assert IsNibble(t[i]);
    }
  }

  lemma NameAscii(name: Label)
    ensures IsAscii(Mangled(name))
  {
    hide Decimals.Decimal;
    var ds := Decimals.Decimal(|Bytes(name)|);
    Decimals.DecimalDigits(|Bytes(name)|);
    assert IsAscii(ds);
    assert IsAscii(Bytes(name)) && IsAscii(Gap(Bytes(name)));
  }

  lemma LabelAscii(dis: Number, name: Label)
    ensures IsAscii(MangleLabel(dis, name))
  {
    hide Opt62, Mangled, IsLabel;
    NumbersAscii(dis, 's');
    NameAscii(name);
  }

  lemma FnAscii(isUnsafe: bool, abi: Abi)
    ensures IsAscii(MangleFn(isUnsafe, abi))
  {
    hide Mangled, IsLabel;
    if abi.Other? {
      NameAscii(abi.name);
    }
  }

  lemma {:induction false} PathAscii(t: Path)
    ensures IsAscii(ManglePath(t))
    decreases t
  {
    hide MangleType, MangleItems, MangleLabel, Opt62, Base62, IsAscii;
    match t
    case Crate(dis, name) =>
      LabelAscii(dis, name);
      JoinTag("C", MangleLabel(dis, name));
    case Nested(ns, parent, dis, name) =>
      PathAscii(parent);
      LabelAscii(dis, name);
      Join(ManglePath(parent), MangleLabel(dis, name));
      JoinTag([ns], ManglePath(parent) + MangleLabel(dis, name));
      JoinTag("N", [ns] + (ManglePath(parent) + MangleLabel(dis, name)));
    case InherentImpl(dis, own, ty) =>
      NumbersAscii(dis, 's');
      PathAscii(own);
      TypeAscii(ty);
      Join3("M", Opt62('s', dis), ManglePath(own), MangleType(ty));
    case TraitImpl(dis, own, ty, bound) =>
      NumbersAscii(dis, 's');
      PathAscii(own);
      TypeAscii(ty);
      PathAscii(bound);
      Join(MangleType(ty), ManglePath(bound));
      Join3("X", Opt62('s', dis), ManglePath(own), MangleType(ty) + ManglePath(bound));
    case TraitMember(ty, bound) =>
      TypeAscii(ty);
      PathAscii(bound);
      Join2("Y", MangleType(ty), ManglePath(bound));
    case Generic(base, args) =>
      PathAscii(base);
      ItemsAscii(args);
      Join2("I", ManglePath(base), MangleItems(args));
    case PathBack(to, _) =>
      NumbersAscii(to, 's');
      JoinTag("B", Base62(to));
  }

  lemma JoinTag(tag: string, a: string)
    requires |tag| == 1 && tag[0] as int < 128 && IsAscii(a)
    ensures IsAscii(tag + a)
  {
  }

  lemma Join2(tag: string, a: string, b: string)
    requires |tag| == 1 && tag[0] as int < 128 && IsAscii(a) && IsAscii(b)
    ensures IsAscii(tag + (a + b))
  {
    hide IsAscii;
    Join(a, b);
    JoinTag(tag, a + b);
  }

  lemma Join3(tag: string, a: string, b: string, c: string)
    requires |tag| == 1 && tag[0] as int < 128 && IsAscii(a) && IsAscii(b) && IsAscii(c)
    ensures IsAscii(tag + (a + (b + c)))
  {
    hide IsAscii;
    Join(b, c);
    Join2(tag, a, b + c);
  }

  lemma {:induction false} TypeAscii(t: Type)
    ensures IsAscii(MangleType(t))
    decreases t
  {
    hide ManglePath, MangleConst, MangleItems, MangleFn, Opt62, Base62, IsAscii;
    match t
    case Basic(tag) => OneAscii(tag);
    case Adt(path) => PathAscii(path);
    case Array(elem, len) =>
      TypeAscii(elem);
      ConstAscii(len);
      Join2("A", MangleType(elem), MangleConst(len));
    case Slice(elem) =>
      TypeAscii(elem);
      JoinTag("S", MangleType(elem));
    case Tuple(elems) =>
      ItemsAscii(elems);
      JoinTag("T", MangleItems(elems));
    case Ref(mutable, lifetime, elem) =>
      LifetimeAscii(lifetime);
      TypeAscii(elem);
      Join2(if mutable then "Q" else "R", MangleLifetime(lifetime), MangleType(elem));
    case Pointer(mutable, elem) =>
      TypeAscii(elem);
      JoinTag(if mutable then "O" else "P", MangleType(elem));
    case Fn(binder, isUnsafe, abi, params, ret) =>
      NumbersAscii(binder, 'G');
      FnAscii(isUnsafe, abi);
      ItemsAscii(params);
      TypeAscii(ret);
      Join(MangleItems(params), MangleType(ret));
      Join3("F", Opt62('G', binder), MangleFn(isUnsafe, abi), MangleItems(params) + MangleType(ret));
    case Dyn(binder, bounds, bound) =>
      NumbersAscii(binder, 'G');
      NumbersAscii(bound, 'G');
      ItemsAscii(bounds);
      JoinTag("L", Base62(bound));
      Join3("D", Opt62('G', binder), MangleItems(bounds), "L" + Base62(bound));
    case TypeBack(to, _) =>
      NumbersAscii(to, 's');
      JoinTag("B", Base62(to));
  }

  lemma OneAscii(c: Letter)
    ensures IsAscii([c])
  {
  }

  lemma LifetimeAscii(lifetime: Option<Number>)
    ensures IsAscii(MangleLifetime(lifetime))
  {
    hide Base62;
    if lifetime.Some? {
      NumbersAscii(lifetime.value, 's');
      JoinTag("L", Base62(lifetime.value));
    }
  }

  lemma HexAscii(t: string)
    requires AllNibbles(t)
    ensures IsAscii(t + "_") && IsAscii("n" + (t + "_")) && IsAscii("" + (t + "_"))
  {
    hide AllNibbles;
    NibblesAscii(t);
  }

  lemma {:induction false} ConstAscii(t: Const)
    ensures IsAscii(MangleConst(t))
    decreases t
  {
    hide ManglePath, MangleItems, Base62, Text16, Pairs16, Utf8.Encode, IsAscii;
    match t
    case Inferred => OneAscii('p');
    case Int(tag, negative, value) =>
      HexAscii(Text16(value));
      JoinTag([tag], (if negative then "n" else "") + (Text16(value) + "_"));
    case Bool(b) => BoolAscii(b);
    case Char(c) =>
      HexAscii(Text16(c as nat));
      JoinTag("c", Text16(c as nat) + "_");
    case Str(chars) =>
      HexAscii(Pairs16(Utf8.Encode(chars)));
      JoinTag("e", Pairs16(Utf8.Encode(chars)) + "_");
    case Borrow(mutable, value) =>
      ConstAscii(value);
      JoinTag(if mutable then "Q" else "R", MangleConst(value));
    case List(elems) =>
      ItemsAscii(elems);
      JoinTag("A", MangleItems(elems));
    case Group(elems) =>
      ItemsAscii(elems);
      JoinTag("T", MangleItems(elems));
    case UnitStruct(path) =>
      PathAscii(path);
      OneAscii('U');
      Join2("V", ManglePath(path), "U");
    case TupleStruct(path, fields) =>
      PathAscii(path);
      ItemsAscii(fields);
      JoinTag("T", MangleItems(fields));
      Join2("V", ManglePath(path), "T" + MangleItems(fields));
    case Struct(path, fields) =>
      PathAscii(path);
      ItemsAscii(fields);
      JoinTag("S", MangleItems(fields));
      Join2("V", ManglePath(path), "S" + MangleItems(fields));
    case ConstBack(to, _) =>
      NumbersAscii(to, 's');
      JoinTag("B", Base62(to));
  }

  lemma BoolAscii(b: bool)
    ensures IsAscii("b" + if b then "1_" else "0_")
  {
  }

  lemma {:induction false} ItemsAscii(xs: Items)
    ensures IsAscii(MangleItems(xs))
    decreases xs
  {
    hide MangleItem, IsAscii;
    match xs
    case Nil => OneAscii('E');
    case Cons(x, rest) =>
      ItemAscii(x);
      ItemsAscii(rest);
      Join(MangleItem(x), MangleItems(rest));
  }

  lemma {:induction false} ItemAscii(x: Item)
    ensures IsAscii(MangleItem(x))
    decreases x
  {
    hide ManglePath, MangleType, MangleConst, MangleLabel, MangleBindings, Base62, IsAscii;
    match x
    case LifetimeArg(index) =>
      NumbersAscii(index, 's');
      JoinTag("L", Base62(index));
    case ConstArg(value) =>
      ConstAscii(value);
      JoinTag("K", MangleConst(value));
    case TypeItem(ty) => TypeAscii(ty);
    case TraitItem(path, bindings) =>
      PathAscii(path);
      BindingsAscii(bindings);
      Join(ManglePath(path), MangleBindings(bindings));
    case ConstItem(value) => ConstAscii(value);
    case FieldItem(dis, name, value) =>
      LabelAscii(dis, name);
      ConstAscii(value);
      Join(MangleLabel(dis, name), MangleConst(value));
  }

  lemma {:induction false} BindingsAscii(b: Bindings)
    ensures IsAscii(MangleBindings(b))
    decreases b
  {
    hide Mangled, MangleType, IsLabel;
    if b.Binding? {
      NameAscii(b.name);
      TypeAscii(b.ty);
      BindingsAscii(b.rest);
      Join3("p", Mangled(b.name), MangleType(b.ty), MangleBindings(b.rest));
    }
  }
}
