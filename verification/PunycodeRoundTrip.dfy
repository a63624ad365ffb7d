/** The decoder undoes the encoder, for every string that fits its buffer. */
module PunycodeRoundTrip {
  import opened Common
  import Utf8
  import opened Division
  import opened V0Parser
  import opened Punycode

  // Variable-length integers -----------------------------------------------------------------

  /** No 64-bit product or sum overflows below this. */
  const ROOM: nat := 0x400_0000_0000_0000

  lemma SplitProduct(w: nat, q: nat, d: nat, b: nat, q': nat)
    requires q == d + b * q'
    ensures Times(w, q) == Times(d, w) + Times(Times(w, b), q')
  {
    assert w * (b * q') == (w * b) * q';
    assert w * (d + b * q') == w * d + w * (b * q');
  }

  lemma Larger(a: nat, b: nat, w: nat)
    requires a <= b
    ensures Times(a, w) <= Times(b, w)
  {
    assert (b - a) * w >= 0;
  }

  lemma Thirtyfive(w: nat)
    ensures Times(BASE - 1, w) == 35 * w && Times(1, w) == w
  {
  }

  lemma WeightFits(w: nat, q: nat, d: nat, b: nat)
    requires 1 <= w && 1 <= q && d <= q && 1 <= b < BASE && Times(w, q) < ROOM
    ensures Times(d, w) <= Times(w, q) && 1 <= Times(w, b) < TWO_64
  {
    hide Times;
    Commutes(w, q);
    Commutes(w, b);
    Thirtyfive(w);
    Larger(d, q, w);
    Larger(1, q, w);
    Larger(1, b, w);
    Larger(b, BASE - 1, w);
  }

  lemma {:induction false} DeltaRead(q: nat, k: nat, bias: nat, w: nat, delta: nat, rest: string)
    requires w >= 1 && delta + Times(w, q) < ROOM
    ensures ReadDelta(WriteDelta(q, k, bias) + rest, k, bias, w, delta) == Some(Delta(delta + Times(w, q), rest))
    decreases q
  {
    hide Threshold, DigitChar, Digit, Times;
    var t := Threshold(k + BASE, bias);
    var bytes := WriteDelta(q, k, bias) + rest;
    if q < t {
      assert bytes[1..] == rest && Digit(bytes[0]) == Some(q);
      Commutes(q, w);
    } else {
      var d, q' := Split(q, t).0, Split(q, t).1;
      var b := BASE - t;
      assert bytes[1..] == WriteDelta(q', k + BASE, bias) + rest && Digit(bytes[0]) == Some(d);
      DigitSmall(q, t);
      SplitProduct(w, q, d, b, q');
      WeightFits(w, q, d, b);
      DeltaRead(q', k + BASE, bias, Times(w, b), delta + Times(d, w), rest);
    }
  }

  lemma Commutes(a: nat, b: nat)
    ensures Times(a, b) == Times(b, a)
  {
  }

  lemma DigitSmall(q: nat, t: nat)
    requires T_MIN <= t <= T_MAX && t <= q
    ensures Split(q, t).0 <= q
  {
    hide Split;
    assert (BASE - t) * Split(q, t).1 >= 0;
  }

  // Which characters are out ------------------------------------------------------------------

  lemma {:induction false} BelowConcat(a: string, b: string, n: nat)
    ensures Below(a + b, n) == Below(a, n) + Below(b, n)
  {
    if a == "" {
      assert a + b == b;
    } else {
      assert (a + b)[1..] == a[1..] + b;
      BelowConcat(a[1..], b, n);
    }
  }

  lemma {:induction false} BelowAll(u: string, n: nat)
    requires forall i :: 0 <= i < |u| ==> u[i] as int < n
    ensures Below(u, n) == u
  {
    if u != "" {
      BelowAll(u[1..], n);
      assert u == [u[0]] + u[1..];
    }
  }

  lemma {:induction false} BelowSame(u: string, n: nat, m: nat)
    requires n <= m && forall i :: 0 <= i < |u| ==> u[i] as int < n || u[i] as int >= m
    ensures Below(u, n) == Below(u, m)
  {
    if u != "" {
      BelowSame(u[1..], n, m);
    }
  }

  lemma {:induction false} BelowShort(u: string, n: nat)
    ensures |Below(u, n)| <= |u|
  {
    if u != "" {
      BelowShort(u[1..], n);
    }
  }

  /** What is out when the pass for `n` has reached `j`: characters up to `n` on the left, below
      `n` on the right. */
  ghost function Out(u: string, n: nat, j: nat): string
    requires j <= |u|
  {
    Below(u[..j], n + 1) + Below(u[j..], n)
  }

  /** How many of them are on the left. */
  ghost function Rank(u: string, n: nat, j: nat): nat
    requires j <= |u|
  {
    |Below(u[..j], n + 1)|
  }

  lemma StepLeft(u: string, n: nat, j: nat)
    requires j < |u|
    ensures Below(u[..j + 1], n + 1) == Below(u[..j], n + 1) + (if u[j] as int <= n then [u[j]] else [])
    ensures Below(u[j..], n) == (if u[j] as int < n then [u[j]] else []) + Below(u[j + 1..], n)
  {
    assert u[..j + 1] == u[..j] + [u[j]];
    BelowConcat(u[..j], [u[j]], n + 1);
    assert [u[j]][1..] == "";
    assert u[j..][1..] == u[j + 1..];
  }

  lemma StepSame(u: string, n: nat, j: nat)
    requires j < |u| && u[j] as int != n
    ensures Out(u, n, j + 1) == Out(u, n, j)
    ensures Rank(u, n, j + 1) == Rank(u, n, j) + (if u[j] as int < n then 1 else 0)
  {
    hide Below;
    StepLeft(u, n, j);
    var l, r := Below(u[..j], n + 1), Below(u[j + 1..], n);
    assert (l + [u[j]]) + r == l + ([u[j]] + r);
    assert l + [] == l && [] + r == r;
  }

  lemma StepInsert(u: string, n: nat, j: nat)
    requires j < |u| && u[j] as int == n
    ensures Out(u, n, j + 1) == Insert(Out(u, n, j), Rank(u, n, j), u[j])
    ensures Rank(u, n, j + 1) == Rank(u, n, j) + 1
  {
    hide Below;
    StepLeft(u, n, j);
    var l, r := Below(u[..j], n + 1), Below(u[j + 1..], n);
    assert [] + r == r;
    assert (l + r)[..|l|] == l && (l + r)[|l|..] == r;
  }

  lemma OutEnds(u: string, n: nat)
    ensures Out(u, n, |u|) == Below(u, n + 1) && Rank(u, n, |u|) == |Below(u, n + 1)|
    ensures Out(u, n, 0) == Below(u, n) && Rank(u, n, 0) == 0
  {
    assert u[..|u|] == u && u[|u|..] == "" && u[..0] == "" && u[0..] == u;
    assert Below(u, n + 1) + "" == Below(u, n + 1) && "" + Below(u, n) == Below(u, n);
  }

  // The two states in step --------------------------------------------------------------------

  lemma DivMod(a: nat, len: nat, p: nat)
    requires p < len
    ensures Quotient(Times(a, len) + p, len) == a && Remainder(Times(a, len) + p, len) == p
  {
    assert Times(a, len) + p == len * a + p;
    Unique(Times(a, len) + p, len, a, p);
  }

  lemma Distributes(a: nat, b: nat, x: nat)
    ensures Times(a + b, x) == Times(a, x) + Times(b, x)
  {
  }

  lemma Unit(x: nat)
    ensures Times(1, x) == x && Times(0, x) == 0
  {
  }

  /** The decoder, last at code point `n` and position `i`, is `delta` states behind position `rank`
      at code point `e.n`: each code point has `e.h + 1` positions. */
  ghost predicate InStep(e: Encoder, i: nat, n: nat, rank: nat) {
    n <= e.n && e.delta == Times(e.n - n, e.h + 1) + rank - i
  }

  ghost predicate Fits(e: Encoder) {
    e.h <= SMALL_PUNYCODE_LEN && e.damp > 0 && e.n <= MAX_CHAR
  }

  /** What the decoder makes of an encoding: the string, if it has room for it. */
  ghost function Decoded(u: string): Option<string> {
    if |u| <= SMALL_PUNYCODE_LEN then Some(u) else None
  }

  /** Either nothing is left to say and everything is out, or the decoder finishes the string. */
  ghost predicate Finishes(u: string, out: string, i: nat, n: nat, e: Encoder, deltas: string)
    requires e.damp > 0
  {
    if deltas == "" then out == u
    else DecodeFrom(out, i, n, e.bias, e.damp, deltas) == Decoded(u)
  }

  lemma DeltaSmall(e: Encoder, i: nat, n: nat, rank: nat)
    requires InStep(e, i, n, rank) && e.n <= MAX_CHAR && e.h <= SMALL_PUNYCODE_LEN && rank <= e.h
    ensures i + e.delta < 0x1000_0000
  {
    Products(e.n - n, MAX_CHAR, e.h + 1, SMALL_PUNYCODE_LEN + 1);
  }

  lemma Products(a: nat, a': nat, b: nat, b': nat)
    requires a <= a' && b <= b'
    ensures Times(a, b) <= Times(a', b')
  {
    assert a * (b' - b) >= 0;
    assert (a' - a) * b' >= 0;
  }

  /** One delta read: the decoder lands on the character the encoder is at and inserts it there. */
  lemma InsertDecoded(u: string, j: nat, e: Encoder, i: nat, n: nat, rest: string)
    requires j < |u| && u[j] as int == e.n && Fits(e) && e.h == |Out(u, e.n, j)| < SMALL_PUNYCODE_LEN
    requires InStep(e, i, n, Rank(u, e.n, j)) && Rank(u, e.n, j) <= e.h
    ensures DecodeFrom(Out(u, e.n, j), i, n, e.bias, e.damp, WriteDelta(e.delta, 0, e.bias) + rest) ==
            if rest == "" then Some(Out(u, e.n, j + 1))
            else DecodeFrom(Out(u, e.n, j + 1), Rank(u, e.n, j) + 1, e.n, Adapt(e.delta, e.damp, e.h + 1), 2, rest)
  {
    hide ReadDelta, WriteDelta, Adapt, Below, Insert, Quotient, Remainder, Times;
    var p, len := Rank(u, e.n, j), e.h + 1;
    DeltaSmall(e, i, n, p);
    Unit(e.delta);
    DeltaRead(e.delta, 0, e.bias, 1, 0, rest);
    DivMod(e.n - n, len, p);
    StepInsert(u, e.n, j);
    assert Utf8.IsScalar(e.n) && e.n as char == u[j];
  }

  lemma {:induction false} PassDecoded(u: string, j: nat, e: Encoder, i: nat, n: nat)
    requires j <= |u| && Fits(e) && e.n < MAX_CHAR && e.h == |Out(u, e.n, j)|
    requires InStep(e, i, n, Rank(u, e.n, j))
    ensures Finishes(u, Out(u, e.n, j), i, n, e, Pass(u, j, e))
    decreases MAX_CHAR - e.n, |u| - j, 0
  {
    hide DecodeFrom, WriteDelta, Adapt, Below, Insert, NextPass, Times;
    var p := Rank(u, e.n, j);
    assert p <= e.h;
    if j == |u| {
      OutEnds(u, e.n);
      Distributes(e.n - n, 1, e.h + 1);
      Unit(e.h + 1);
      NextPassDecoded(u, e.(n := e.n + 1, delta := e.delta + 1), i, n);
    } else if u[j] as int != e.n {
      StepSame(u, e.n, j);
      PassDecoded(u, j + 1, if u[j] as int < e.n then e.(delta := e.delta + 1) else e, i, n);
    } else {
      StepInsert(u, e.n, j);
      OutShort(u, e.n, j);
      if e.h == SMALL_PUNYCODE_LEN {
        FullRefuses(Out(u, e.n, j), i, n, e, Pass(u, j, e));
        return;
      }
      var next := Encoder(e.n, e.h + 1, 0, Adapt(e.delta, e.damp, e.h + 1), 2);
      Unit(next.h + 1);
      PassDecoded(u, j + 1, next, p + 1, e.n);
      InsertDecoded(u, j, e, i, n, Pass(u, j + 1, next));
    }
  }

  /** A full buffer takes no more. */
  lemma FullRefuses(out: string, i: nat, n: nat, e: Encoder, deltas: string)
    requires |out| >= SMALL_PUNYCODE_LEN && e.damp > 0
    ensures DecodeFrom(out, i, n, e.bias, e.damp, deltas) == None
  {
    hide ReadDelta, Adapt, Insert;
  }

  lemma OutShort(u: string, n: nat, j: nat)
    requires j < |u| && u[j] as int == n
    ensures |Out(u, n, j)| < |u|
  {
    hide Below;
    StepLeft(u, n, j);
    BelowShort(u[..j], n + 1);
    BelowShort(u[j + 1..], n);
    assert [] + Below(u[j + 1..], n) == Below(u[j + 1..], n);
  }

  lemma {:induction false} NextPassDecoded(u: string, e: Encoder, i: nat, n: nat)
    requires Fits(e) && e.h == |Below(u, e.n)| && InStep(e, i, n, 0)
    ensures Finishes(u, Below(u, e.n), i, n, e, NextPass(u, e))
    decreases MAX_CHAR - e.n, |u| + 1, 1
  {
    hide DecodeFrom, Below, Pass, Least, Times;
    match Least(u, e.n)
    case None => BelowAll(u, e.n);
    case Some(m) =>
      BelowSame(u, e.n, m);
      OutEnds(u, m);
      Distributes(e.n - n, m - e.n, e.h + 1);
      PassDecoded(u, 0, e.(n := m, delta := e.delta + Times(m - e.n, e.h + 1)), i, n);
  }

  /** The decoder undoes the encoding of a string that is not ASCII if and only if the string has at most
      128 characters, and refuses it otherwise. */
  lemma DecodeEncode(u: string)
    requires exists x :: 0 <= x < |u| && u[x] as int >= INITIAL_N
    ensures Decode(Encode(u)) == if |u| <= SMALL_PUNYCODE_LEN then Some(u) else None
    ensures |u| <= SMALL_PUNYCODE_LEN ==> Rendered(Encode(u)) == u
  {
    hide DecodeFrom, NextPass, Below, Times;
    var e := Encoder(INITIAL_N, |Below(u, INITIAL_N)|, 0, INITIAL_BIAS, DAMP);
    BelowShort(u, INITIAL_N);
    if e.h <= SMALL_PUNYCODE_LEN {
      Unit(e.h + 1);
      NextPassDecoded(u, e, 0, INITIAL_N);
      BelowLow(u, INITIAL_N);
    }
  }

  lemma {:induction false} BelowLow(u: string, n: nat)
    ensures forall i :: 0 <= i < |Below(u, n)| ==> Below(u, n)[i] as int < n
  {
    if u != "" {
      BelowLow(u[1..], n);
    }
  }

  /** A name without deltas is ASCII, and displayed as it is. */
  lemma AsciiRendered(s: string)
    ensures Decode(Ident(s, "")) == None && Rendered(Ident(s, "")) == s
  {
  }
}
