/** Answers that are known from the standards, so that no constant shared by a writer and a reader stays open. */
module KnownAnswers {
  import opened Common
  import opened Punycode
  import opened V0Parser
  import Decimals
  import Leb128
  import Utf8

  // UTF-8: the first and the last example of RFC 3629, section 7, the last without its byte order mark ----

  lemma Utf8Examples()
    ensures Utf8.Encode(['A', 0x2262 as char, 0x0391 as char, '.']) == [0x41, 0xE2, 0x89, 0xA2, 0xCE, 0x91, 0x2E]
    ensures Utf8.Encode([0x233B4 as char]) == [0xF0, 0xA3, 0x8E, 0xB4]
  {
    var a, b, c, d := 'A', 0x2262 as char, 0x0391 as char, '.';
    assert Utf8.EncodeChar(b) == [0xE2, 0x89, 0xA2] && Utf8.EncodeChar(c) == [0xCE, 0x91];
    assert [d][1..] == "" && [c, d][1..] == [d] && [b, c, d][1..] == [c, d] && [a, b, c, d][1..] == [b, c, d];
    assert Utf8.Encode([d]) == [0x2E];
    assert Utf8.Encode([c, d]) == [0xCE, 0x91, 0x2E];
    assert Utf8.Encode([b, c, d]) == [0xE2, 0x89, 0xA2, 0xCE, 0x91, 0x2E];
    assert [0x233B4 as char][1..] == "";
  }

  // LEB128: the examples of the DWARF 5 standard, section 7.6 -----------------------------------

  lemma Leb128Examples()
    ensures Leb128.Unsigned(2) == [2] && Leb128.Unsigned(127) == [127] && Leb128.Unsigned(128) == [0x80, 1]
    ensures Leb128.Unsigned(129) == [0x81, 1] && Leb128.Unsigned(12857) == [57 + 0x80, 100]
    ensures Leb128.Signed(2) == [2] && Leb128.Signed(-2) == [0x7E] && Leb128.Signed(127) == [127 + 0x80, 0]
    ensures Leb128.Signed(-127) == [1 + 0x80, 0x7F] && Leb128.Signed(128) == [0x80, 1] && Leb128.Signed(-128) == [0x80, 0x7F]
    ensures Leb128.Signed(129) == [0x81, 1] && Leb128.Signed(-129) == [0x7F + 0x80, 0x7E]
  {
  }

  // Decimal numbers ----------------------------------------------------------------------------

  lemma DecimalExample()
    ensures Decimals.Decimal(9876543210) == "9876543210"
  {
    assert Decimals.Decimal(9) == "9" && Decimals.Decimal(98) == "98" && Decimals.Decimal(987) == "987";
    assert Decimals.Decimal(9876) == "9876";
    assert Decimals.Decimal(98765) == "98765";
    assert Decimals.Decimal(987654) == "987654";
    assert Decimals.Decimal(9876543) == "9876543";
    assert Decimals.Decimal(98765432) == "98765432";
    assert Decimals.Decimal(987654321) == "987654321";
  }

  // Punycode: sample (R) of RFC 3492, section 7.1 -----------------------------------------------

  /** One delta read and its character inserted. */
  lemma Turn(out: string, i: nat, n: nat, bias: nat, damp: nat, bytes: string, delta: nat, rest: string)
    requires damp > 0 && rest != "" && |out| < 128 && ReadDelta(bytes, 0, bias, 1, 0) == Some(Delta(delta, rest))
    requires var m := n + Quotient(i + delta, |out| + 1); i + delta < TWO_64 && Utf8.IsScalar(m)
    ensures var len, at := |out| + 1, i + delta;
            var m := n + Quotient(at, len);
            DecodeFrom(out, i, n, bias, damp, bytes) ==
            DecodeFrom(Insert(out, Remainder(at, len), m as char), Remainder(at, len) + 1, m, Adapt(delta, damp, len), 2, rest)
  {
    hide ReadDelta, Quotient, Remainder, Adapt, Insert;
  }

  /** A digit that is not the last of its delta, and one that is. */
  lemma Digits(bytes: string, k: nat, bias: nat, w: nat, delta: nat, d: nat, t: nat)
    requires bytes != "" && Digit(bytes[0]) == Some(d) && Threshold(k + BASE, bias) == t
    requires delta + d * w < TWO_64 && w * (BASE - t) < TWO_64
    ensures ReadDelta(bytes, k, bias, w, delta) ==
            if d < t then Some(Delta(delta + d * w, bytes[1..]))
            else ReadDelta(bytes[1..], k + BASE, bias, w * (BASE - t), delta + d * w)
  {
    hide Digit, Threshold;
    assert d * w >= 0;
  }

  lemma Delta0()
    ensures ReadDelta("d9juau41awczczp", 0, 72, 1, 0) == Some(Delta(12253, "uau41awczczp"))
  {
    hide ReadDelta;
    assert "d9juau41awczczp"[1..] == "9juau41awczczp";
    Digits("d9juau41awczczp", 0, 72, 1, 0, 3, 1);
    assert "9juau41awczczp"[1..] == "juau41awczczp";
    Digits("9juau41awczczp", 36, 72, 35, 3, 35, 1);
    assert "juau41awczczp"[1..] == "uau41awczczp";
    Digits("juau41awczczp", 72, 72, 1225, 1228, 9, 26);
  }

  lemma Delta1()
    ensures ReadDelta("uau41awczczp", 0, 17, 1, 0) == Some(Delta(20, "u41awczczp"))
  {
    hide ReadDelta;
    assert "uau41awczczp"[1..] == "au41awczczp";
    Digits("uau41awczczp", 0, 17, 1, 0, 20, 19);
    assert "au41awczczp"[1..] == "u41awczczp";
    Digits("au41awczczp", 36, 17, 17, 20, 0, 26);
  }

  lemma Delta2()
    ensures ReadDelta("u41awczczp", 0, 10, 1, 0) == Some(Delta(20, "41awczczp"))
  {
    hide ReadDelta;
    assert "u41awczczp"[1..] == "41awczczp";
    Digits("u41awczczp", 0, 10, 1, 0, 20, 26);
  }

  lemma Delta3()
    ensures ReadDelta("41awczczp", 0, 9, 1, 0) == Some(Delta(300, "wczczp"))
  {
    hide ReadDelta;
    assert "41awczczp"[1..] == "1awczczp";
    Digits("41awczczp", 0, 9, 1, 0, 30, 26);
    assert "1awczczp"[1..] == "awczczp";
    Digits("1awczczp", 36, 9, 10, 30, 27, 26);
    assert "awczczp"[1..] == "wczczp";
    Digits("awczczp", 72, 9, 100, 300, 0, 26);
  }

  lemma Delta4()
    ensures ReadDelta("wczczp", 0, 29, 1, 0) == Some(Delta(80, "zczp"))
  {
    hide ReadDelta;
    assert "wczczp"[1..] == "czczp";
    Digits("wczczp", 0, 29, 1, 0, 22, 7);
    assert "czczp"[1..] == "zczp";
    Digits("czczp", 36, 29, 29, 22, 2, 26);
  }

  lemma Delta5()
    ensures ReadDelta("zczp", 0, 20, 1, 0) == Some(Delta(65, "zp"))
  {
    hide ReadDelta;
    assert "zczp"[1..] == "czp";
    Digits("zczp", 0, 20, 1, 0, 25, 16);
    assert "czp"[1..] == "zp";
    Digits("czp", 36, 20, 20, 25, 2, 26);
  }

  lemma Delta6()
    ensures ReadDelta("zp", 0, 17, 1, 0) == Some(Delta(280, ""))
  {
    hide ReadDelta;
    assert "zp"[1..] == "p";
    Digits("zp", 0, 17, 1, 0, 25, 19);
    assert "p"[1..] == "";
    Digits("p", 36, 17, 17, 25, 15, 26);
  }

  lemma Bias0()
    ensures Adapt(12253, 700, 1) == 17
  {
  }

  lemma Bias1()
    ensures Adapt(20, 2, 2) == 10
  {
  }

  lemma Bias2()
    ensures Adapt(20, 2, 3) == 9
  {
  }

  lemma Bias3()
    ensures Adapt(300, 2, 4) == 29
  {
  }

  lemma Bias4()
    ensures Adapt(80, 2, 5) == 20
  {
  }

  lemma Bias5()
    ensures Adapt(65, 2, 6) == 17
  {
  }

  lemma Sample0()
    ensures DecodeFrom("", 0, 0x80, 72, 700, "d9juau41awczczp") ==
            DecodeFrom([0x305D as char], 1, 0x305D, 17, 2, "uau41awczczp")
  {
    hide ReadDelta, DecodeFrom, Adapt;
    Delta0();
    Bias0();
    var out := "";
    assert Insert(out, 0, 0x305D as char) == [0x305D as char];
    Turn(out, 0, 0x80, 72, 700, "d9juau41awczczp", 12253, "uau41awczczp");
  }

  lemma Sample1()
    ensures DecodeFrom([0x305D as char], 1, 0x305D, 17, 2, "uau41awczczp") ==
            DecodeFrom([0x305D as char, 0x3067 as char], 2, 0x3067, 10, 2, "u41awczczp")
  {
    hide ReadDelta, DecodeFrom, Adapt;
    Delta1();
    Bias1();
    var out := [0x305D as char];
    assert Insert(out, 1, 0x3067 as char) == [0x305D as char, 0x3067 as char];
    Turn(out, 1, 0x305D, 17, 2, "uau41awczczp", 20, "u41awczczp");
  }

  lemma Sample2()
    ensures DecodeFrom([0x305D as char, 0x3067 as char], 2, 0x3067, 10, 2, "u41awczczp") ==
            DecodeFrom([0x305D as char, 0x306E as char, 0x3067 as char], 2, 0x306E, 9, 2, "41awczczp")
  {
    hide ReadDelta, DecodeFrom, Adapt;
    Delta2();
    Bias2();
    var out := [0x305D as char, 0x3067 as char];
    assert Insert(out, 1, 0x306E as char) == [0x305D as char, 0x306E as char, 0x3067 as char];
    Turn(out, 2, 0x3067, 10, 2, "u41awczczp", 20, "41awczczp");
  }

  lemma Sample3()
    ensures DecodeFrom([0x305D as char, 0x306E as char, 0x3067 as char], 2, 0x306E, 9, 2, "41awczczp") ==
            DecodeFrom([0x305D as char, 0x306E as char, 0x30B9 as char, 0x3067 as char], 3, 0x30B9, 29, 2, "wczczp")
  {
    hide ReadDelta, DecodeFrom, Adapt;
    Delta3();
    Bias3();
    var out := [0x305D as char, 0x306E as char, 0x3067 as char];
    assert Insert(out, 2, 0x30B9 as char) == [0x305D as char, 0x306E as char, 0x30B9 as char, 0x3067 as char];
    Turn(out, 2, 0x306E, 9, 2, "41awczczp", 300, "wczczp");
  }

  lemma Sample4()
    ensures DecodeFrom([0x305D as char, 0x306E as char, 0x30B9 as char, 0x3067 as char], 3, 0x30B9, 29, 2, "wczczp") ==
            DecodeFrom([0x305D as char, 0x306E as char, 0x30B9 as char, 0x30C9 as char, 0x3067 as char], 4, 0x30C9, 20, 2, "zczp")
  {
    hide ReadDelta, DecodeFrom, Adapt;
    Delta4();
    Bias4();
    var out := [0x305D as char, 0x306E as char, 0x30B9 as char, 0x3067 as char];
    assert Insert(out, 3, 0x30C9 as char) == [0x305D as char, 0x306E as char, 0x30B9 as char, 0x30C9 as char, 0x3067 as char];
    Turn(out, 3, 0x30B9, 29, 2, "wczczp", 80, "zczp");
  }

  lemma Sample5()
    ensures DecodeFrom([0x305D as char, 0x306E as char, 0x30B9 as char, 0x30C9 as char, 0x3067 as char], 4, 0x30C9, 20, 2, "zczp") ==
            DecodeFrom([0x305D as char, 0x306E as char, 0x30B9 as char, 0x30D4 as char, 0x30C9 as char, 0x3067 as char], 4, 0x30D4, 17, 2, "zp")
  {
    hide ReadDelta, DecodeFrom, Adapt;
    Delta5();
    Bias5();
    var out := [0x305D as char, 0x306E as char, 0x30B9 as char, 0x30C9 as char, 0x3067 as char];
    assert Insert(out, 3, 0x30D4 as char) == [0x305D as char, 0x306E as char, 0x30B9 as char, 0x30D4 as char, 0x30C9 as char, 0x3067 as char];
    Turn(out, 4, 0x30C9, 20, 2, "zczp", 65, "zp");
  }

  lemma Sample6()
    ensures DecodeFrom([0x305D as char, 0x306E as char, 0x30B9 as char, 0x30D4 as char, 0x30C9 as char, 0x3067 as char], 4, 0x30D4, 17, 2, "zp") == Some([0x305D as char, 0x306E as char, 0x30B9 as char, 0x30D4 as char, 0x30FC as char, 0x30C9 as char, 0x3067 as char])
  {
    hide ReadDelta;
    Delta6();
    var out := [0x305D as char, 0x306E as char, 0x30B9 as char, 0x30D4 as char, 0x30C9 as char, 0x3067 as char];
    assert Insert(out, 4, 0x30FC as char) == [0x305D as char, 0x306E as char, 0x30B9 as char, 0x30D4 as char, 0x30FC as char, 0x30C9 as char, 0x3067 as char];
  }

  /** The Japanese title of the sample. */
  lemma PunycodeExample()
    ensures Decode(Ident("", "d9juau41awczczp")) ==
            Some([0x305D as char, 0x306E as char, 0x30B9 as char, 0x30D4 as char, 0x30FC as char, 0x30C9 as char, 0x3067 as char])
  {
    hide DecodeFrom;
    Sample0();
    Sample1();
    Sample2();
    Sample3();
    Sample4();
    Sample5();
    Sample6();
  }
}
