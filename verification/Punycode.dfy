/** Punycode identifiers: the demangler's decoder, which inserts into a buffer of 128 characters,
    and the encoding procedure of RFC 3492, section 6.3, that it has to undo. */
module Punycode {
  import opened Common
  import Utf8
  import opened Division
  import opened V0Parser

  const SMALL_PUNYCODE_LEN: nat := 128
  const BASE: nat := 36
  const T_MIN: nat := 1
  const T_MAX: nat := 26
  const SKEW: nat := 38
  const DAMP: nat := 700
  const INITIAL_BIAS: nat := 72
  const INITIAL_N: nat := 0x80
  const MAX_CHAR: nat := 0x11_0000

  // Division ---------------------------------------------------------------------------------

  function Quotient(x: nat, b: nat): (q: nat)
    requires b > 0
    ensures q <= x
  {
    Divided(x, b);
    x / b
  }

  function Remainder(x: nat, b: nat): (r: nat)
    requires b > 0
    ensures r < b
  {
    x % b
  }

  // Common to both directions: section 6.1 ----------------------------------------------------

  /** The threshold of a digit position: the distance to the bias, clamped. */
  function Threshold(k: nat, bias: nat): (t: nat)
    ensures T_MIN <= t <= T_MAX
  {
    var d := if k <= bias then 0 else k - bias;
    if d < T_MIN then T_MIN else if d > T_MAX then T_MAX else d
  }

  function Scale(delta: nat, k: nat): nat
    decreases delta
  {
    if delta > (BASE - T_MIN) * T_MAX / 2 then Scale(delta / (BASE - T_MIN), k + BASE)
    else k + (BASE - T_MIN + 1) * delta / (delta + SKEW)
  }

  function Adapt(delta: nat, damp: nat, len: nat): nat
    requires damp > 0 && len > 0
  {
    var d := Quotient(delta, damp);
    Scale(d + Quotient(d, len), 0)
  }

  // The decoder ------------------------------------------------------------------------------

  function Digit(c: char): (d: Option<nat>)
    ensures d.Some? ==> d.value < BASE
  {
    if 'a' <= c <= 'z' then Some(c as nat - 'a' as nat)
    else if '0' <= c <= '9' then Some(26 + (c as nat - '0' as nat))
    else None
  }

  datatype Delta = Delta(value: nat, rest: string)

  /** One variable-length integer, with 64-bit checked arithmetic. */
  function ReadDelta(bytes: string, k: nat, bias: nat, w: nat, delta: nat): (r: Option<Delta>)
    ensures r.Some? ==> |r.value.rest| < |bytes|
    decreases |bytes|
  {
    if bytes == "" || Digit(bytes[0]).None? then None
    else
      var t, d := Threshold(k + BASE, bias), Digit(bytes[0]).value;
      var sum := delta + Times(d, w);
      if Times(d, w) >= TWO_64 || sum >= TWO_64 then None
      else if d < t then Some(Delta(sum, bytes[1..]))
      else if Times(w, BASE - t) >= TWO_64 then None
      else ReadDelta(bytes[1..], k + BASE, bias, Times(w, BASE - t), sum)
  }

  function Times(a: nat, b: nat): nat {
    a * b
  }

  function Insert(s: string, i: nat, c: char): (r: string)
    requires i <= |s|
    ensures |r| == |s| + 1
  {
    s[..i] + [c] + s[i..]
  }

  /** The main loop, from a buffer `out` with room for `SMALL_PUNYCODE_LEN` characters. */
  function DecodeFrom(out: string, i: nat, n: nat, bias: nat, damp: nat, bytes: string): (r: Option<string>)
    requires damp > 0
    ensures r.Some? ==> |out| < |r.value| <= SMALL_PUNYCODE_LEN
    decreases |bytes|
  {
    match ReadDelta(bytes, 0, bias, 1, 0)
    case None => None
    case Some(Delta(delta, rest)) =>
      var len := |out| + 1;
      var at := i + delta;
      var m := n + Quotient(at, len);
      if at >= TWO_64 || m >= TWO_64 || !Utf8.IsScalar(m) || |out| >= SMALL_PUNYCODE_LEN then None
      else
        var grown := Insert(out, Remainder(at, len), m as char);
        if rest == "" then Some(grown)
        else DecodeFrom(grown, Remainder(at, len) + 1, m, Adapt(delta, damp, len), 2, rest)
  }

  /** `try_small_punycode_decode` */
  function Decode(name: Ident): (r: Option<string>)
    ensures r.Some? ==> |name.ascii| < |r.value| <= SMALL_PUNYCODE_LEN
  {
    if name.punycode == "" || |name.ascii| > SMALL_PUNYCODE_LEN then None
    else DecodeFrom(name.ascii, 0, INITIAL_N, INITIAL_BIAS, DAMP, name.punycode)
  }

  /** How an identifier is displayed. */
  function Rendered(name: Ident): string {
    match Decode(name)
    case Some(s) => s
    case None =>
      if name.punycode == "" then name.ascii
      else "punycode{" + (if name.ascii == "" then "" else name.ascii + "-") + name.punycode + "}"
  }

  // The encoder: section 6.3 ------------------------------------------------------------------

  function DigitChar(d: nat): (c: char)
    requires d < BASE
    ensures Digit(c) == Some(d)
  {
    if d < 26 then ('a' as int + d) as char else ('0' as int + (d - 26)) as char
  }

  /** A quantity split by its threshold into a digit and what the further digits carry. */
  function Split(q: nat, t: nat): (r: (nat, nat))
    requires T_MIN <= t <= T_MAX && t <= q
    ensures t <= r.0 < BASE && r.1 < q && q == r.0 + (BASE - t) * r.1
  {
    var b := BASE - t;
    Divided(q - t, b);
    (t + (q - t) % b, (q - t) / b)
  }

  function WriteDelta(q: nat, k: nat, bias: nat): (s: string)
    ensures s != ""
    decreases q
  {
    var t := Threshold(k + BASE, bias);
    if q < t then [DigitChar(q)]
    else [DigitChar(Split(q, t).0)] + WriteDelta(Split(q, t).1, k + BASE, bias)
  }

  /** The characters below a code point, in order. */
  function Below(u: string, n: nat): string {
    if u == "" then ""
    else (if u[0] as int < n then [u[0]] else []) + Below(u[1..], n)
  }

  /** The least code point of the string that is at least `n`. */
  function Least(u: string, n: nat): (m: Option<nat>)
    ensures m.Some? ==> m.value >= n && exists i :: 0 <= i < |u| && u[i] as int == m.value
    ensures m.Some? ==> forall i :: 0 <= i < |u| ==> u[i] as int < n || u[i] as int >= m.value
    ensures m.None? ==> forall i :: 0 <= i < |u| ==> u[i] as int < n
  {
    if u == "" then None
    else
      var m, c := Least(u[1..], n), u[0] as int;
      if c < n || (m.Some? && m.value <= c) then m else Some(c)
  }

  /** Encoder state: the code point handled, how many characters are out, the running delta. */
  datatype Encoder = Encoder(n: nat, h: nat, delta: nat, bias: nat, damp: nat)

  /** A pass over the string from position `j`, and all further passes. */
  function Pass(u: string, j: nat, e: Encoder): string
    requires j <= |u| && e.damp > 0 && e.n < MAX_CHAR
    decreases MAX_CHAR - e.n, |u| - j, 0
  {
    if j == |u| then NextPass(u, e.(n := e.n + 1, delta := e.delta + 1))
    else if u[j] as int < e.n then Pass(u, j + 1, e.(delta := e.delta + 1))
    else if u[j] as int > e.n then Pass(u, j + 1, e)
    else WriteDelta(e.delta, 0, e.bias)
         + Pass(u, j + 1, Encoder(e.n, e.h + 1, 0, Adapt(e.delta, e.damp, e.h + 1), 2))
  }

  function NextPass(u: string, e: Encoder): string
    requires e.damp > 0 && e.n <= MAX_CHAR
    decreases MAX_CHAR - e.n, |u| + 1, 1
  {
    match Least(u, e.n)
    case None => ""
    case Some(m) => Pass(u, 0, e.(n := m, delta := e.delta + Times(m - e.n, e.h + 1)))
  }

  /** The basic characters, and the deltas that put the others among them. */
  function Encode(u: string): Ident {
    var ascii := Below(u, INITIAL_N);
    Ident(ascii, NextPass(u, Encoder(INITIAL_N, |ascii|, 0, INITIAL_BIAS, DAMP)))
  }
}
