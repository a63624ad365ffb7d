/** From a request list to an address: padding, alignment, and where the requested bytes end up. */
module AlignLayout {
  import opened Common
  import opened Division
  import opened Powers
  import opened AlignWord
  import opened AlignAlloc
  import opened AlignCheck

  const MAX_SIZE: nat := 0x7fff_ffff_ffff_ffff

  datatype Layout = Layout(size: nat, align: nat)

  datatype Padded = Padded(layout: Layout, pad: nat)

  /** What the core library guarantees of any `Layout`. */
  predicate IsLayout(l: Layout) {
    IsPow2(l.align) && l.size + (l.align - 1) <= MAX_SIZE
  }

  /** `check_layout` */
  predicate CheckLayout(l: Layout) {
    l.size != 0 && IsPow2(l.align) && l.size <= TWO_64 - 1 - (l.align - 1)
  }

  // Alignment ----------------------------------------------------------------------------------

  function HalveAlign(size: nat, a: nat): nat
    requires a > 0
  {
    if a > 8 && size <= a / 2 then HalveAlign(size, a / 2) else a
  }

  /** `calc_algn` */
  function CalcAlign(al: nat, size: nat): nat {
    if al > 64 then al else HalveAlign(size, 64)
  }

  /** The smallest of 8, 16, 32 and 64 that the padded block fits in, or 64. */
  lemma CalcAlignSmall(al: nat, size: nat)
    requires al <= 64
    ensures var a := CalcAlign(al, size);
            && a in {8, 16, 32, 64}
            && (size <= a || a == 64)
            && (a == 8 || size > a / 2)
  {
    assert HalveAlign(size, 8) == 8;
    assert HalveAlign(size, 16) in {8, 16};
    assert HalveAlign(size, 32) in {8, 16, 32};
  }

  /** `make_aligned_ptr`, with 64-bit wrap-around. */
  function AlignedPtr(raw: nat, align: nat, pad: nat): (p: nat)
    requires align > 0
    ensures p < TWO_64
  {
    (RoundDown((raw + align - 1) % TWO_64, align) + pad) % TWO_64
  }

  function RoundDown(x: nat, a: nat): nat
    requires a > 0
  {
    Divided(x, a);
    x - x % a
  }

  // Masking off low bits rounds down -------------------------------------------------------------

  ghost function ClearLow(v: seq<bool>, n: nat): seq<bool> {
    seq(|v|, i requires 0 <= i < |v| => i >= n && v[i])
  }

  lemma {:induction false} ClearLowValue(v: seq<bool>, n: nat)
    ensures Pow2(n) > 0 && Value(ClearLow(v, n)) == Value(v) - Value(v) % Pow2(n)
    decreases |v|
  {
    Pow2Positive(n);
    if n == 0 {
      assert ClearLow(v, 0) == v;
    } else if v != [] {
      var c := ClearLow(v, n);
      ClearLowValue(v[1..], n - 1);
      assert c[1..] == ClearLow(v[1..], n - 1) && !c[0];
      var b: nat, x, p := if v[0] then 1 else 0, Value(v[1..]), Pow2(n - 1);
      DoubledRemainder(b, x, p);
    } else {
      Unique(0, Pow2(n), 0, 0);
    }
  }

  lemma DoubledRemainder(b: nat, x: nat, p: nat)
    requires b < 2 && p > 0
    ensures (b + 2 * x) % (2 * p) == b + 2 * (x % p)
  {
    Divided(x, p);
    var q, r := x / p, x % p;
    assert (2 * p) * q == 2 * (p * q);
    Unique(b + 2 * x, 2 * p, q, b + 2 * r);
  }

  /** Clearing the bits of `align - 1`, for an alignment of `2^n`, rounds down to a multiple. */
  lemma MaskRounds(w: Word, n: nat)
    requires n < 64
    ensures Pow2(n) > 0 && Value(Low(n)) == Pow2(n) - 1
    ensures Value(And(w, Not(Low(n)))) == RoundDown(Value(w), Pow2(n))
  {
    LowValue(n);
    ClearLowValue(w, n);
    assert And(w, Not(Low(n))) == ClearLow(w, n);
  }

  // Where the pointer lands ------------------------------------------------------------------------

  lemma RoundDownMultiple(x: nat, a: nat)
    requires a > 0
    ensures RoundDown(x, a) <= x < RoundDown(x, a) + a && RoundDown(x, a) % a == 0
  {
    Divided(x, a);
    Unique(RoundDown(x, a), a, x / a, 0);
  }

  /** Without wrap-around the pointer is the next multiple of the alignment, plus the padding. */
  lemma AlignedPtrExact(raw: nat, align: nat, pad: nat)
    requires align > 0 && raw + align <= TWO_64 && pad < TWO_64
    requires AlignedUp(raw, align) + pad < TWO_64
    ensures AlignedPtr(raw, align, pad) == AlignedUp(raw, align) + pad
    ensures AlignedUp(raw, align) % align == 0 && raw <= AlignedUp(raw, align) < raw + align
  {
    hide RoundDown;
    RoundDownMultiple(raw + align - 1, align);
    Small(raw + align - 1, TWO_64);
    Small(AlignedUp(raw, align) + pad, TWO_64);
  }

  function AlignedUp(raw: nat, align: nat): nat
    requires align > 0
  {
    RoundDown(raw + align - 1, align)
  }

  // Placement --------------------------------------------------------------------------------------

  /** What `pad_align_to` answers for a layout and its requests. */
  ghost predicate IsPadded(layout: Layout, reqs: seq<AlignReq>, p: Padded) {
    && IsPow2(layout.align)
    && Accepted(layout.size, reqs)
    && Fitting(layout.align, reqs, p.pad)
    && (forall n: nat :: n < p.pad ==> !Fitting(layout.align, reqs, n))
    && p.layout.align == CalcAlign(layout.align, layout.size + p.pad)
    && p.layout.size == layout.size + p.pad + p.layout.align
  }

  lemma LineMultiple(b: nat, x: nat)
    requires b % 64 == 0
    ensures (b + x) % 64 == x % 64
  {
    ModAdd(b, x);
  }

  /** A line is made of `c` pieces of `a` bytes: a piece starts the line or at least `a` bytes in. */
  lemma PieceStart(b: nat, a: nat, c: nat)
    requires a > 0 && c > 0 && a * c == 64 && b % a == 0
    ensures b % 64 + a <= 64 && (b % 64 == 0 || b % 64 >= a)
  {
    Divided(b, a);
    var q := b / a;
    Divided(q, c);
    var s, t := q / c, q % c;
    PieceIs(a, c, s, t);
    Unique(b, 64, s, a * t);
  }

  lemma PieceIs(a: nat, c: nat, s: nat, t: nat)
    requires a > 0 && a * c == 64 && t < c
    ensures a * (t + c * s) == 64 * s + a * t
    ensures 0 <= a * t && a * t + a <= 64 && (a * t == 0 || a * t >= a)
  {
    assert a * (c * s) == (a * c) * s;
    assert a * (c - 1 - t) >= 0;
    if t > 0 {
      assert a * (t - 1) >= 0;
    }
  }

  /** A block that lies inside one aligned piece smaller than a line: its bytes are at the same
      place of the line, or past the first eight. */
  lemma SmallPiece(b: nat, a: nat, x: nat)
    requires a in {8, 16, 32} && b % a == 0 && x < a && !Exposed(x)
    ensures !Exposed(b + x)
  {
    ModAdd(b, x);
    PieceStart(b, a, if a == 8 then 8 else if a == 16 then 4 else 2);
    Wraps(b % 64 + x);
  }

  /** Secret placement: wherever the raw block is, no requested byte is on an exposed position, even
      when the alignment chosen is smaller than a line. */
  lemma SecretPlacement(layout: Layout, reqs: seq<AlignReq>, p: Padded, base: nat, o: nat)
    requires IsPadded(layout, reqs, p) && p.layout.align > 0 && base % p.layout.align == 0
    requires Requested(reqs, o)
    ensures !Exposed(base + p.pad + o)
  {
    var a, x := p.layout.align, p.pad + o;
    var r :| 0 <= r < |reqs| && Covers(reqs[r], o);
    assert !Exposed(o + p.pad);
    if layout.align > 64 {
      LargePow2(layout.align);
      MultipleOfLine(base, a);
      LineMultiple(base, x);
    } else {
      CalcAlignSmall(layout.align, layout.size + p.pad);
      if a == 64 {
        LineMultiple(base, x);
      } else {
        SmallPiece(base, a, x);
      }
    }
  }

  lemma MultipleOfLine(b: nat, a: nat)
    requires a > 0 && a % 64 == 0 && b % a == 0
    ensures b % 64 == 0
  {
    Divided(b, a);
    var q, m := b / a, a / 64;
    assert b == 64 * (m * q);
    Unique(b, 64, m * q, 0);
  }

  // The alignment asked for ------------------------------------------------------------------------

  lemma {:induction false} Pow2Divides(x: nat, y: nat)
    requires IsPow2(x) && IsPow2(y) && x <= y
    ensures y % x == 0
  {
    if x == y {
      Unique(y, x, 1, 0);
    } else {
      assert y == 2 * (y / 2) && IsPow2(y / 2);
      HalfAtLeast(x, y / 2);
      Pow2Divides(x, y / 2);
      Divided(y / 2, x);
      assert y == x * (2 * (y / 2 / x));
      Unique(y, x, 2 * (y / 2 / x), 0);
    }
  }

  /** Of two powers of two, the smaller is at most half the larger. */
  lemma {:induction false} HalfAtLeast(x: nat, h: nat)
    requires IsPow2(x) && IsPow2(h) && x < 2 * h
    ensures x <= h
  {
    if x > 1 && h > 1 {
      HalfAtLeast(x / 2, h / 2);
    }
  }

  lemma SumMultiple(b: nat, k: nat, al: nat)
    requires al > 0 && k % al == 0
    ensures (b + k) % al == b % al
  {
    Divided(b, al);
    Divided(k, al);
    assert b + k == al * (b / al + k / al) + b % al;
    Unique(b + k, al, b / al + k / al, b % al);
  }

  lemma MultipleOfMultiple(b: nat, a: nat, al: nat)
    requires a > 0 && al > 0 && b % a == 0 && a % al == 0
    ensures b % al == 0
  {
    Divided(b, a);
    Divided(a, al);
    var q, m := b / a, a / al;
    assert al * (m * q) == (al * m) * q;
    Unique(b, al, m * q, 0);
  }

  /** A multiple of `a`, moved by the padding, is a multiple of `al`. */
  ghost predicate KeepsAlign(a: nat, pad: nat, al: nat, base: nat)
    requires a > 0 && al > 0
  {
    base % a == 0 ==> (base + pad) % al == 0
  }

  ghost predicate AlwaysAligned(layout: Layout, p: Padded)
    requires layout.align > 0 && p.layout.align > 0
  {
    forall base: nat :: KeepsAlign(p.layout.align, p.pad, layout.align, base)
  }

  lemma CalcAlignPow2(layout: Layout, reqs: seq<AlignReq>, p: Padded)
    requires IsPadded(layout, reqs, p)
    ensures IsPow2(layout.align) && IsPow2(p.layout.align) && p.layout.align > 0 && p.pad % layout.align == 0
  {
    if layout.align <= 64 {
      CalcAlignSmall(layout.align, layout.size + p.pad);
    }
  }

  /** The block returned has the alignment of the layout, for every raw address, exactly when the
      alignment chosen for it is not smaller. */
  lemma AlignmentExact(layout: Layout, reqs: seq<AlignReq>, p: Padded)
    requires IsPadded(layout, reqs, p) && p.layout.align > 0
    ensures AlwaysAligned(layout, p) <==> layout.align <= p.layout.align
  {
    hide IsPadded, IsPow2, KeepsAlign;
    var al, a := layout.align, p.layout.align;
    CalcAlignPow2(layout, reqs, p);
    if al <= a {
      forall base: nat ensures KeepsAlign(a, p.pad, al, base) {
        LargerKeeps(a, p.pad, al, base);
      }
    } else {
      SmallerLoses(a, p.pad, al);
    }
  }

  lemma LargerKeeps(a: nat, pad: nat, al: nat, base: nat)
    requires IsPow2(a) && IsPow2(al) && 0 < al <= a && pad % al == 0
    ensures KeepsAlign(a, pad, al, base)
  {
    hide IsPow2;
    Pow2Divides(al, a);
    if base % a == 0 {
      MultipleOfMultiple(base, a, al);
      SumMultiple(base, pad, al);
    }
  }

  lemma SmallerLoses(a: nat, pad: nat, al: nat)
    requires 0 < a < al && pad % al == 0
    ensures !KeepsAlign(a, pad, al, a)
  {
    Unique(a, a, 1, 0);
    SumMultiple(a, pad, al);
    Small(a, al);
  }

  /** In terms of the sizes: alignments up to 8 or above 64 always, others when the padded block is
      longer than half of them; a size of at least the alignment is enough. */
  lemma AlignmentCondition(layout: Layout, reqs: seq<AlignReq>, p: Padded)
    requires IsPadded(layout, reqs, p)
    ensures layout.align <= p.layout.align <==>
            layout.align <= 8 || layout.align > 64 || layout.size + p.pad > layout.align / 2
    ensures layout.size >= layout.align ==> layout.align <= p.layout.align
  {
    if layout.align <= 64 {
      SmallPow2(layout.align);
      CalcAlignSmall(layout.align, layout.size + p.pad);
    }
  }

  /** Bytes 1 and 2 of eight, at any multiple of 64. */
  lemma TwoSecretBytes()
    ensures Accepted(8, [AlignReq(1, 2)]) && Clear([AlignReq(1, 2)], 0)
  {
    var reqs := [AlignReq(1, 2)];
    forall o | Requested(reqs, o) ensures !Exposed(o + 0) {
      assert o == 1 || o == 2;
    }
  }

  /** It does fail: eight bytes aligned to 16, 32 or 64 of which bytes 1 and 2 are secret get an alignment
      of 8. For 32 and 64 this shows even at raw addresses that are multiples of 16. */
  lemma AlignmentLost(al: nat)
    requires al == 16 || al == 32 || al == 64
    ensures IsPadded(Layout(8, al), [AlignReq(1, 2)], Padded(Layout(16, 8), 0))
    ensures !AlwaysAligned(Layout(8, al), Padded(Layout(16, 8), 0))
    ensures al > 16 ==> forall raw: nat :: raw % 64 == 16 ==> AlignedUp(raw, 8) % al != 0
  {
    SecretPadded(al);
    hide IsPadded, AlwaysAligned, AlignedUp;
    AlignmentExact(Layout(8, al), [AlignReq(1, 2)], Padded(Layout(16, 8), 0));
    if al > 16 {
      forall raw: nat | raw % 64 == 16 ensures AlignedUp(raw, 8) % al != 0 {
        SixteenPast(raw, al);
      }
    }
  }

  lemma SecretPadded(al: nat)
    requires al == 16 || al == 32 || al == 64
    ensures IsPadded(Layout(8, al), [AlignReq(1, 2)], Padded(Layout(16, 8), 0))
  {
    TwoSecretBytes();
    assert IsPow2(16) && IsPow2(32) && IsPow2(64) && CalcAlign(al, 8) == 8;
  }

  lemma SixteenPast(raw: nat, al: nat)
    requires raw % 64 == 16 && (al == 32 || al == 64)
    ensures AlignedUp(raw, 8) == raw && raw % al == 16
  {
    var k := raw / 64;
    Divided(raw, 64);
    Unique(raw + 7, 8, 8 * k + 2, 7);
    Unique(raw, al, if al == 32 then 2 * k else k, 16);
  }
}
