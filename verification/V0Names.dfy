/** Identifiers through the whole demangler: mangled as Rust RFC 2603 says, scanned, and displayed. */
module V0Names {
  import opened Common
  import opened Decimals
  import opened V0Parser
  import opened Punycode
  import opened PunycodeRoundTrip
  import opened Powers

  predicate IsAscii(u: string) {
    forall i :: 0 <= i < |u| ==> u[i] as int < INITIAL_N
  }

  function NameOf(u: string): Ident {
    if IsAscii(u) then Ident(u, "") else Encode(u)
  }

  /** The characters that are counted: a Punycode name uses the underscore as its delimiter. */
  function Bytes(name: Ident): string {
    if name.punycode == "" then name.ascii
    else if name.ascii == "" then name.punycode
    else name.ascii + "_" + name.punycode
  }

  /** A separator keeps the characters apart from the digits of their number. */
  function Gap(bytes: string): string {
    if bytes != "" && (IsDigit(bytes[0]) || bytes[0] == '_') then "_" else ""
  }

  function Mangled(name: Ident): string {
    (if name.punycode == "" then "" else "u")
    + (Decimal(|Bytes(name)|) + (Gap(Bytes(name)) + Bytes(name)))
  }

  // Digits -----------------------------------------------------------------------------------

  /** The text at a position starts with `t`. */
  ghost predicate Reads(sym: string, i: nat, t: string) {
    i + |t| <= |sym| && forall k :: 0 <= k < |t| ==> sym[i + k] == t[k]
  }

  ghost predicate DigitsOf(ds: string, n: nat) {
    ds == Decimal(n) && AllDigits(ds)
  }

  /** What the digits before position `k` amount to. */
  ghost function Upto(ds: string, k: nat): nat
    requires AllDigits(ds) && k <= |ds|
  {
    DecimalValue(ds[..k])
  }

  lemma UptoNext(ds: string, n: nat, k: nat)
    requires 0 < n && DigitsOf(ds, n) && k < |ds|
    ensures Upto(ds, k + 1) == Upto(ds, k) * 10 + (ds[k] as nat - '0' as nat) && Upto(ds, k + 1) <= n
    ensures IsDigit(ds[k]) && Upto(ds, 0) == 0 && Upto(ds, |ds|) == n
  {
    hide Decimal;
    assert ds[..k + 1][..k] == ds[..k] && ds[..|ds|] == ds;
    DecimalDigits(n);
    DecimalPrefixes(n, k + 1);
  }

  lemma {:induction false} LengthRead(sym: string, at: Pos, n: nat, ds: string, k: nat)
    requires 0 < n < TWO_64 && 0 < k <= |ds| && DigitsOf(ds, n) && Reads(sym, at.next, ds)
    requires at.next + |ds| == |sym| || !IsDigit(sym[at.next + |ds|])
    ensures Length(sym, Pos(at.next + k, at.depth), Upto(ds, k)) == Got(n, Pos(at.next + |ds|, at.depth))
    decreases |ds| - k
  {
    hide Upto, DigitsOf;
    if k < |ds| {
      assert sym[at.next + k] == ds[k];
      UptoNext(ds, n, k);
      LengthRead(sym, at, n, ds, k + 1);
    } else {
      UptoNext(ds, n, 0);
    }
  }

  // The delimiter ------------------------------------------------------------------------------

  ghost predicate NoUnderscore(s: string) {
    '_' !in s
  }

  lemma {:induction false} DeltaPlain(q: nat, k: nat, bias: nat)
    ensures NoUnderscore(WriteDelta(q, k, bias))
    decreases q
  {
    var t := Threshold(k + BASE, bias);
    if q >= t {
      DeltaPlain(Split(q, t).1, k + BASE, bias);
    }
  }

  lemma {:induction false} PassPlain(u: string, j: nat, e: Encoder)
    requires j <= |u| && e.damp > 0 && e.n < MAX_CHAR
    ensures NoUnderscore(Pass(u, j, e))
    decreases MAX_CHAR - e.n, |u| - j, 0
  {
    hide WriteDelta, Adapt, NextPass;
    if j == |u| {
      NextPassPlain(u, e.(n := e.n + 1, delta := e.delta + 1));
    } else if u[j] as int < e.n {
      PassPlain(u, j + 1, e.(delta := e.delta + 1));
    } else if u[j] as int > e.n {
      PassPlain(u, j + 1, e);
    } else {
      DeltaPlain(e.delta, 0, e.bias);
      PassPlain(u, j + 1, Encoder(e.n, e.h + 1, 0, Adapt(e.delta, e.damp, e.h + 1), 2));
    }
  }

  lemma {:induction false} NextPassPlain(u: string, e: Encoder)
    requires e.damp > 0 && e.n <= MAX_CHAR
    ensures NoUnderscore(NextPass(u, e))
    decreases MAX_CHAR - e.n, |u| + 1, 1
  {
    hide Pass, Least;
    match Least(u, e.n)
    case None =>
    case Some(m) => PassPlain(u, 0, e.(n := m, delta := e.delta + Times(m - e.n, e.h + 1)));
  }

  lemma {:induction false} LastFound(a: string, b: string)
    requires NoUnderscore(b)
    ensures LastUnderscore(a + "_" + b) == Some(|a|) && LastUnderscore(b) == None
    decreases |b|
  {
    var s := a + "_" + b;
    if b != "" {
      var init := b[..|b| - 1];
      LastFound(a, init);
      assert s[..|s| - 1] == a + "_" + init && s[|s| - 1] == b[|b| - 1];
    }
  }

  lemma BytesSplit(name: Ident)
    requires name.punycode != "" && NoUnderscore(name.punycode)
    ensures SplitPunycode(Bytes(name)) == name
  {
    LastFound(name.ascii, name.punycode);
  }

  // Scanning back -----------------------------------------------------------------------------

  lemma LengthScanned(sym: string, at: Pos, n: nat, ds: string)
    requires n < TWO_64 && ds == Decimal(n) && Reads(sym, at.next, ds)
    requires at.next + |ds| == |sym| || !IsDigit(sym[at.next + |ds|]) || n == 0
    ensures at.next < |sym| && IsDigit(sym[at.next])
    ensures var first := sym[at.next] as nat - '0' as nat;
            (if first == 0 then Got(0, Skip(at)) else Length(sym, Skip(at), first)) ==
            Got(n, Pos(at.next + |ds|, at.depth))
  {
    DecimalDigits(n);
    assert sym[at.next + 0] == ds[0];
    if n > 0 {
      FirstDigit(ds, n);
      LengthRead(sym, at, n, ds, 1);
    }
  }

  lemma FirstDigit(ds: string, n: nat)
    requires 0 < n && DigitsOf(ds, n)
    ensures Upto(ds, 1) == ds[0] as nat - '0' as nat > 0
  {
    UptoNext(ds, n, 0);
    DecimalDigits(n);
  }

  lemma NameTaken(sym: string, at: Pos, bytes: string, punycode: bool, name: Ident)
    requires Reads(sym, at.next, Gap(bytes)) && Reads(sym, at.next + |Gap(bytes)|, bytes)
    requires bytes == "" ==> at.next == |sym| || sym[at.next] != '_'
    requires name == if punycode then SplitPunycode(bytes) else Ident(bytes, "")
    requires punycode ==> name.punycode != ""
    ensures Named(sym, at, |bytes|, punycode) == Got(name, Pos(at.next + |Gap(bytes)| + |bytes|, at.depth))
  {
    hide SplitPunycode;
    var start := at.next + |Gap(bytes)|;
    if bytes != "" {
      assert sym[start + 0] == bytes[0];
      assert Gap(bytes) != "" ==> sym[at.next + 0] == Gap(bytes)[0];
    }
    assert sym[start..start + |bytes|] == bytes;
  }

  lemma Parts(sym: string, i: nat, a: string, b: string)
    requires Reads(sym, i, a + b)
    ensures Reads(sym, i, a) && Reads(sym, i + |a|, b)
  {
    forall k | 0 <= k < |a| ensures sym[i + k] == a[k] {
      assert sym[i + k] == (a + b)[k];
    }
    forall k | 0 <= k < |b| ensures sym[i + |a| + k] == b[k] {
      assert sym[i + (|a| + k)] == (a + b)[|a| + k];
    }
  }

  /** The pieces of a mangled name where they stand. */
  lemma MangledParts(sym: string, i: nat, name: Ident, mark: string, ds: string, bytes: string)
    requires Reads(sym, i, Mangled(name)) && bytes == Bytes(name) && ds == Decimal(|bytes|)
    requires mark == if name.punycode == "" then "" else "u"
    ensures Reads(sym, i, mark) && Reads(sym, i + |mark|, ds)
    ensures Reads(sym, i + |mark| + |ds|, Gap(bytes)) && Reads(sym, i + |mark| + |ds| + |Gap(bytes)|, bytes)
    ensures |Mangled(name)| == |mark| + |ds| + |Gap(bytes)| + |bytes|
    ensures bytes != "" ==> !IsDigit(sym[i + |mark| + |ds|])
  {
    hide Decimal, Bytes, Reads;
    Parts(sym, i, mark, ds + (Gap(bytes) + bytes));
    Parts(sym, i + |mark|, ds, Gap(bytes) + bytes);
    Parts(sym, i + |mark| + |ds|, Gap(bytes), bytes);
    AfterDigits(sym, i + |mark| + |ds|, bytes);
  }

  lemma AfterDigits(sym: string, e: nat, bytes: string)
    requires Reads(sym, e, Gap(bytes)) && Reads(sym, e + |Gap(bytes)|, bytes)
    ensures bytes != "" ==> e < |sym| && !IsDigit(sym[e])
  {
    if bytes != "" {
      if Gap(bytes) == "" {
        assert sym[e + 0] == bytes[0];
      } else {
        assert sym[e + 0] == Gap(bytes)[0];
      }
    }
  }

  /** Any name is scanned back from its mangling, whatever follows it. */
  lemma NameScanned(sym: string, at: Pos, name: Ident)
    requires |Bytes(name)| < TWO_64 && NoUnderscore(name.punycode) && Reads(sym, at.next, Mangled(name))
    requires Bytes(name) == "" ==> at.next + 1 == |sym| || sym[at.next + 1] != '_'
    ensures ScanIdent(sym, at) == Got(name, Pos(at.next + |Mangled(name)|, at.depth))
  {
    hide Length, Named, SplitPunycode, Mangled, Gap, Decimal;
    var bytes := Bytes(name);
    var ds := Decimal(|bytes|);
    var mark := if name.punycode == "" then "" else "u";
    MangledParts(sym, at.next, name, mark, ds, bytes);
    var begin := Pos(at.next + |mark|, at.depth);
    if name.punycode != "" {
      BytesSplit(name);
      assert sym[at.next + 0] == mark[0];
    }
    LengthScanned(sym, begin, |bytes|, ds);
    if bytes == "" {
      OneDigit();
    }
    NameTaken(sym, Pos(begin.next + |ds|, at.depth), bytes, name.punycode != "", name);
  }

  lemma OneDigit()
    ensures |Decimal(0)| == 1
  {
  }

  lemma DecodedDeltas(name: Ident)
    requires Decode(name).Some?
    ensures name.punycode != ""
  {
  }

  /** Each digit of a delta but the last doubles its weight at least, so that there are at most 64. */
  lemma {:induction false} DeltaShort(bytes: string, k: nat, bias: nat, w: nat, delta: nat, i: nat)
    requires i < 64 && Pow2(i) <= w && ReadDelta(bytes, k, bias, w, delta).Some?
    ensures |bytes| - |ReadDelta(bytes, k, bias, w, delta).value.rest| <= 64 - i
    decreases |bytes|
  {
    hide Pow2, Times, Digit, Threshold;
    var t, d := Threshold(k + BASE, bias), Digit(bytes[0]).value;
    if d >= t {
      var next := Times(w, BASE - t);
      Doubles(w, BASE - t);
      Pow2Values();
      Pow2Monotone(i, i + 1);
      Pow2Next(i);
      Pow2Monotone(64, i + 1);
      DeltaShort(bytes[1..], k + BASE, bias, next, delta + Times(d, w), i + 1);
    }
  }

  lemma Pow2Next(i: nat)
    ensures Pow2(i + 1) == 2 * Pow2(i)
  {
  }

  lemma Doubles(w: nat, b: nat)
    requires b >= 2
    ensures Times(w, b) >= 2 * w
  {
    assert w * (b - 2) >= 0;
  }

  /** Whatever is decoded is no longer than 64 digits for each character inserted. */
  lemma {:induction false} DecodedShort(out: string, i: nat, n: nat, bias: nat, damp: nat, bytes: string)
    requires damp > 0 && DecodeFrom(out, i, n, bias, damp, bytes).Some?
    ensures |out| < SMALL_PUNYCODE_LEN && |bytes| <= 64 * (SMALL_PUNYCODE_LEN - |out|)
    decreases |bytes|
  {
    hide ReadDelta, Insert, Adapt, Quotient, Remainder;
    DeltaShort(bytes, 0, bias, 1, 0, 0);
    var r := ReadDelta(bytes, 0, bias, 1, 0).value;
    if r.rest != "" {
      var len, at := |out| + 1, i + r.value;
      var m := n + Quotient(at, len);
      DecodedShort(Insert(out, Remainder(at, len), m as char), Remainder(at, len) + 1, m,
                   Adapt(r.value, damp, len), 2, r.rest);
    }
  }

  lemma BytesShort(name: Ident)
    requires Decode(name).Some?
    ensures |Bytes(name)| < TWO_64
  {
    DecodedShort(name.ascii, 0, INITIAL_N, INITIAL_BIAS, DAMP, name.punycode);
  }

  lemma BytesWithin(name: Ident)
    ensures |Bytes(name)| <= |Mangled(name)|
  {
  }

  /** Every identifier, if it is not ASCII then of at most 128 characters, mangled anywhere in a symbol, is
      displayed as itself. The length of a symbol fits 64 bits. */
  lemma IdentifierRoundTrip(sym: string, at: Pos, u: string)
    requires 0 < |u| && (IsAscii(u) || |u| <= SMALL_PUNYCODE_LEN) && |sym| < TWO_64
    requires Reads(sym, at.next, Mangled(NameOf(u)))
    ensures ScanIdent(sym, at) == Got(NameOf(u), Pos(at.next + |Mangled(NameOf(u))|, at.depth))
    ensures Rendered(NameOf(u)) == u
  {
    hide Decode, ScanIdent, Mangled, NextPass, Below;
    if IsAscii(u) {
      AsciiRendered(u);
      BytesWithin(NameOf(u));
    } else {
      DecodeEncode(u);
      DecodedDeltas(Encode(u));
      BytesShort(Encode(u));
      NextPassPlain(u, Encoder(INITIAL_N, |Below(u, INITIAL_N)|, 0, INITIAL_BIAS, DAMP));
    }
    NameScanned(sym, at, NameOf(u));
  }
}
