/** What the escapes of a string are read as, in terms of the characters alone. */
module JsonStrings {
  import opened Common
  import opened JsonValue
  import opened JsonGrammar
  import opened JsonBuilder
  import opened JsonComplete

  /** A digit of a hexadecimal number, in either case. */
  ghost predicate SpellsDigit(c: char, d: nat)
    requires d < 16
  {
    c == "0123456789abcdef"[d] || c == "0123456789ABCDEF"[d]
  }

  /** Four digits of a number, in any mix of cases. */
  ghost predicate Spells(x: string, n: nat)
    requires n < 0x1_0000
  {
    && |x| == 4
    && SpellsDigit(x[0], n / 0x1000) && SpellsDigit(x[1], n / 0x100 % 16)
    && SpellsDigit(x[2], n / 0x10 % 16) && SpellsDigit(x[3], n % 16)
  }

  lemma DigitSpelled(c: char, d: nat)
    requires d < 16 && SpellsDigit(c, d)
    ensures Hexit(c) == Some(d)
  {
    var lower, upper := "0123456789abcdef", "0123456789ABCDEF";
    if d < 10 {
      assert lower[d] as int == '0' as int + d && upper[d] == lower[d];
    } else {
      assert lower[d] as int == 'a' as int + (d - 10) && upper[d] as int == 'A' as int + (d - 10);
    }
  }

  lemma NumberSpelled(x: string, n: nat)
    requires n < 0x1_0000 && Spells(x, n)
    ensures AllHex(x) && HexNumber(x) == n
  {
    hide SpellsDigit, Hexit, HexNumber, AllHex;
    DigitSpelled(x[0], n / 0x1000);
    DigitSpelled(x[1], n / 0x100 % 16);
    DigitSpelled(x[2], n / 0x10 % 16);
    DigitSpelled(x[3], n % 16);
    FourDigits(x, n / 0x1000, n / 0x100 % 16, n / 0x10 % 16, n % 16);
    Rebuilt(n);
  }

  lemma Rebuilt(n: nat)
    ensures n == n / 0x1000 * 0x1000 + n / 0x100 % 16 * 0x100 + n / 0x10 % 16 * 0x10 + n % 16
  {
    assert n / 0x10 == n / 0x100 * 16 + n / 0x10 % 16 && n / 0x100 == n / 0x1000 * 16 + n / 0x100 % 16;
  }

  lemma FourDigits(x: string, a: nat, b: nat, c: nat, d: nat)
    requires |x| == 4 && Hexit(x[0]) == Some(a) && Hexit(x[1]) == Some(b) && Hexit(x[2]) == Some(c) && Hexit(x[3]) == Some(d)
    ensures AllHex(x) && HexNumber(x) == a * 0x1000 + b * 0x100 + c * 0x10 + d
  {
    hide Hexit;
    assert forall i :: 0 <= i < 4 ==> Hexit(x[i]).Some?;
  }

  /** A string of one item is read as its meaning. */
  lemma ItemText(x: StrItem)
    requires WfItem(x)
    ensures FromStr("\"" + (UnparseItem(x) + "\"")) == Done(String([ItemMeaning(x)]))
  {
    hide FromStr, WfItem, UnparseItem, ItemMeaning;
    var t := Text("", StrTree([x]), "");
    assert [x][1..] == [];
    assert UnparseItems([x]) == UnparseItem(x) + UnparseItems([]);
    assert UnparseItem(x) + "" == UnparseItem(x);
    assert ItemsMeaning([x]) == [ItemMeaning(x)] + ItemsMeaning([]);
    assert [ItemMeaning(x)] + "" == [ItemMeaning(x)];
    assert UnparseText(t) == "\"" + (UnparseItem(x) + "\"");
    TextBuilt(t);
  }

  /** A character past the basic plane, written as its two UTF-16 units, is read as itself. */
  lemma PairText(c: char, x: string, y: string)
    requires c as int >= 0x1_0000
    requires var k := c as int - 0x1_0000; Spells(x, 0xD800 + k / 1024) && Spells(y, 0xDC00 + k % 1024)
    ensures FromStr("\"\\u" + x + "\\u" + y + "\"") == Done(String([c]))
  {
    hide FromStr, Spells;
    var k := c as int - 0x1_0000;
    NumberSpelled(x, 0xD800 + k / 1024);
    NumberSpelled(y, 0xDC00 + k % 1024);
    ItemText(Pair(x, y));
    assert "\"" + (("\\u" + (x + ("\\u" + y))) + "\"") == "\"\\u" + x + "\\u" + y + "\"";
  }

  /** Any other character, written as its number, is read as itself. */
  lemma UnitText(c: char, x: string)
    requires c as int < 0x1_0000 && Spells(x, c as int)
    ensures FromStr("\"\\u" + x + "\"") == Done(String([c]))
  {
    hide FromStr, Spells;
    NumberSpelled(x, c as int);
    ItemText(Hex(x));
    assert "\"" + (("\\u" + x) + "\"") == "\"\\u" + x + "\"";
  }

  lemma LetterText(letter: char, c: char)
    requires EscapeMeaning(letter) == Some(c)
    ensures FromStr(['"', '\\', letter, '"']) == Done(String([c]))
  {
    hide FromStr;
    ItemText(Short(letter));
    assert "\"" + (['\\', letter] + "\"") == ['"', '\\', letter, '"'];
  }

  /** The escapes of one letter. */
  lemma LetterTexts()
    ensures FromStr("\"\\\"\"") == Done(String("\"")) && FromStr("\"\\\\\"") == Done(String("\\"))
    ensures FromStr("\"\\/\"") == Done(String("/")) && FromStr("\"\\b\"") == Done(String([8 as char]))
    ensures FromStr("\"\\f\"") == Done(String([12 as char])) && FromStr("\"\\n\"") == Done(String([10 as char]))
    ensures FromStr("\"\\r\"") == Done(String([13 as char])) && FromStr("\"\\t\"") == Done(String([9 as char]))
  {
    hide FromStr;
    LetterText('"', '"');
    LetterText('\\', '\\');
    LetterText('/', '/');
    LetterText('b', 8 as char);
    LetterText('f', 12 as char);
    LetterText('n', 10 as char);
    LetterText('r', 13 as char);
    LetterText('t', 9 as char);
  }
}
