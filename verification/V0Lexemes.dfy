/** The lexical productions of Rust RFC 2603, scanned back from their mangling anywhere in a symbol. */
module V0Lexemes {
  import opened Common
  import opened Decimals
  import opened V0Parser
  import opened V0Printer
  import opened V0Names
  import opened V0Symbols
  import Utf8

  /** The position after `n` more characters. */
  ghost function Past(at: Pos, n: nat): Pos {
    Pos(at.next + n, at.depth)
  }

  /** Two texts one after the other, the second of which does not start like a separator. */
  lemma Pair(s: string, i: nat, a: string, b: string)
    requires Reads(s, i, a + b)
    ensures Reads(s, i, a) && Reads(s, i + |a|, b)
    ensures b != "" && b[0] != '_' ==> Stands(s, i, a)
  {
    Parts(s, i, a, b);
    if b != "" {
      assert s[i + |a| + 0] == b[0];
    }
  }

  lemma First(s: string, i: nat, t: string)
    requires Reads(s, i, t) && t != ""
    ensures i < |s| && s[i] == t[0]
  {
    assert s[i + 0] == t[0];
  }

  // Numbers ----------------------------------------------------------------------------------

  lemma LowerAt(d: nat)
    requires d < 26
    ensures "abcdefghijklmnopqrstuvwxyz"[d] as int == 'a' as int + d
  {
  }

  lemma UpperAt(d: nat)
    requires d < 26
    ensures "ABCDEFGHIJKLMNOPQRSTUVWXYZ"[d] as int == 'A' as int + d
  {
  }

  lemma CharDigit(d: nat)
    requires d < 62
    ensures Digit62(Char62(d)) == Some(d) && Char62(d) != '_'
  {
    if d < 10 {
      assert "0123456789"[d] as int == '0' as int + d;
    } else if d < 36 {
      LowerAt(d - 10);
    } else {
      UpperAt(d - 36);
    }
  }

  lemma DigitStep(s: string, at: Pos, x: nat, d: nat)
    requires d < 62 && x * 62 + d < TWO_64 && at.next < |s| && s[at.next] == Char62(d)
    ensures Digits62(s, at, x) == Digits62(s, Past(at, 1), x * 62 + d)
  {
    hide Char62, Digit62;
    CharDigit(d);
  }

  lemma Rebuilt(n: nat)
    ensures n / 62 * 62 + n % 62 == n && n / 62 <= n && n / 16 * 16 + n % 16 == n
  {
  }

  lemma {:induction false} DigitsRead(s: string, at: Pos, n: nat)
    requires n < TWO_64 && Reads(s, at.next, Text62(n))
    ensures Digits62(s, at, 0) == Digits62(s, Past(at, |Text62(n)|), n)
  {
    hide Char62, Digits62;
    if n < 62 {
      First(s, at.next, Text62(n));
      DigitStep(s, at, 0, n);
    } else {
      var init := Text62(n / 62);
      Parts(s, at.next, init, [Char62(n % 62)]);
      First(s, at.next + |init|, [Char62(n % 62)]);
      Rebuilt(n);
      DigitsRead(s, at, n / 62);
      DigitStep(s, Past(at, |init|), n / 62, n % 62);
    }
  }

  lemma {:induction false} DigitsPlain(n: nat)
    ensures Text62(n)[0] != '_'
  {
    hide Char62;
    if n < 62 {
      CharDigit(n);
    } else {
      DigitsPlain(n / 62);
    }
  }

  lemma NumberRead(s: string, at: Pos, n: Number)
    requires Reads(s, at.next, Base62(n)) && at.next <= |s|
    ensures Integer62(s, at) == Got(n, Past(at, |Base62(n)|))
  {
    hide Text62, Digits62;
    First(s, at.next, Base62(n));
    if n > 0 {
      var digits := Text62(n - 1);
      Parts(s, at.next, digits, "_");
      DigitsPlain(n - 1);
      DigitsRead(s, at, n - 1);
      First(s, at.next + |digits|, "_");
      DigitsEnd(s, Past(at, |digits|), n - 1);
    }
  }

  lemma DigitsEnd(s: string, at: Pos, x: nat)
    requires Sees(s, at, '_')
    ensures Digits62(s, at, x) == Got(x, Past(at, 1))
  {
  }

  /** A number that is left out when it is zero, before something that does not start with its tag. */
  lemma OptRead(s: string, at: Pos, tag: Letter, n: Number)
    requires Reads(s, at.next, Opt62(tag, n)) && at.next <= |s|
    requires n == 0 ==> !Sees(s, at, tag)
    ensures OptInteger62(s, at, tag) == Got(n, Past(at, |Opt62(tag, n)|))
  {
    hide Base62, Integer62;
    if n > 0 {
      Parts(s, at.next, [tag], Base62(n - 1));
      First(s, at.next, [tag]);
      NumberRead(s, Past(at, 1), n - 1);
    }
  }

  // Names ------------------------------------------------------------------------------------

  lemma NameRead(s: string, at: Pos, name: Label)
    requires Stands(s, at.next, Mangled(name)) && at.next <= |s|
    ensures ScanIdent(s, at) == Got(name, Past(at, |Mangled(name)|))
  {
    hide ScanIdent, Decimals.Decimal;
    if Bytes(name) == "" {
      OneDigit();
    }
    NameScanned(s, at, name);
  }

  /** A name starts with a digit, or with the letter that announces Punycode. */
  lemma NameFirst(name: Label)
    ensures Mangled(name) != "" && (IsDigit(Mangled(name)[0]) || Mangled(name)[0] == 'u')
  {
    DecimalDigits(|Bytes(name)|);
  }

  /** A disambiguator and a name. */
  lemma LabelRead(s: string, at: Pos, dis: Number, name: Label)
    requires Stands(s, at.next, MangleLabel(dis, name)) && at.next <= |s|
    ensures Disambiguator(s, at) == Got(dis, Past(at, |Opt62('s', dis)|))
    ensures ScanIdent(s, Past(at, |Opt62('s', dis)|)) == Got(name, Past(at, |MangleLabel(dis, name)|))
  {
    hide ScanIdent, Opt62, Mangled, OptInteger62, IsLabel;
    Pair(s, at.next, Opt62('s', dis), Mangled(name));
    NameFirst(name);
    First(s, at.next + |Opt62('s', dis)|, Mangled(name));
    if dis == 0 {
      NoTag();
    }
    OptRead(s, at, 's', dis);
    NameRead(s, Past(at, |Opt62('s', dis)|), name);
  }

  lemma NoTag()
    ensures Opt62('s', 0) == "" && Opt62('G', 0) == ""
  {
  }

  // Constants --------------------------------------------------------------------------------

  lemma {:induction false} NibblesRead(s: string, at: Pos, h: string)
    requires AllNibbles(h) && Reads(s, at.next, h + "_") && at.next <= |s|
    ensures HexNibbles(s, at) == Got(h, Past(at, |h| + 1))
    decreases |h|
  {
    First(s, at.next, h + "_");
    if h == "" {
      assert h + "_" == "_";
    } else {
      assert h + "_" == [h[0]] + (h[1..] + "_");
      Parts(s, at.next, [h[0]], h[1..] + "_");
      NibblesRead(s, Past(at, 1), h[1..]);
      assert [h[0]] + h[1..] == h;
    }
  }

  lemma CharNibble(d: nat)
    requires d < 16
    ensures Nibble(Char16(d)) == d
  {
    if d < 10 {
      assert "0123456789abcdef"[d] as int == '0' as int + d;
    } else {
      assert "0123456789abcdef"[d] as int == 'a' as int + (d - 10);
    }
  }

  lemma {:induction false} HexBack(n: nat)
    ensures HexValue(Text16(n)) == n
  {
    hide Char16, Nibble;
    var t := Text16(n);
    if n < 16 {
      CharNibble(n);
      assert t[..0] == "";
    } else {
      CharNibble(n % 16);
      assert t[..|t| - 1] == Text16(n / 16);
      HexBack(n / 16);
      Rebuilt(n);
    }
  }

  lemma UintBack(n: nat)
    ensures ParseUint(Text16(n)) == Bound(n)
  {
    hide ParseUint, Text16;
    HexBack(n);
    UintExact(Text16(n));
  }

  lemma {:induction false} PairsBack(bs: seq<Utf8.Byte>)
    ensures PairBytes(Pairs16(bs)) == bs
  {
    hide Char16, Nibble;
    if bs != [] {
      CharNibble(bs[0] / 16);
      CharNibble(bs[0] % 16);
      Rebuilt(bs[0]);
      assert Pairs16(bs)[2..] == Pairs16(bs[1..]);
      PairsBack(bs[1..]);
      assert [bs[0]] + bs[1..] == bs;
    }
  }

  lemma CharsBack(chars: string)
    ensures ParseChars(Pairs16(Utf8.Encode(chars))) == Some(chars)
  {
    hide Pairs16, PairBytes, AllNibbles, Utf8.Encode, Utf8.Decode;
    PairsBack(Utf8.Encode(chars));
    Utf8.DecodeEncode(chars);
  }

  // Tables -----------------------------------------------------------------------------------

  lemma BasicTable(tag: char)
    ensures BasicType(tag) == if IsTag(tag) then Some(BasicName(tag)) else None
  {
  }

  lemma {:induction false} DashedAll(s: string)
    ensures Dashed(s) == Hyphens(s)
  {
    if s != "" {
      DashedAll(s[1..]);
      assert Dashed(s) == [Dashed(s)[0]] + Dashed(s[1..]);
    }
  }
}
