/** The secret-aware allocator: it pads a block so that no requested byte falls on the exposed
    positions of a 64-byte line, and the bit tricks that find the padding. */
module AlignAlloc {
  import opened AlignWord
  import opened Division

  const LINE: nat := 64

  datatype AlignReq = AlignReq(offset: nat, len: nat)

  // What is asked for ---------------------------------------------------------------------------

  /** Positions of a line that must not hold a requested byte. */
  predicate Exposed(a: int) {
    a % LINE == 0 || 4 <= a % LINE <= 7
  }

  predicate Covers(r: AlignReq, o: int) {
    r.offset <= o < r.offset + r.len
  }

  /** Byte `o` of the block is requested. */
  ghost predicate Requested(reqs: seq<AlignReq>, o: int) {
    exists r :: 0 <= r < |reqs| && Covers(reqs[r], o)
  }

  /** With this padding, in front of a line boundary, every requested byte is kept off them. */
  ghost predicate Clear(reqs: seq<AlignReq>, k: int) {
    forall o :: Requested(reqs, o) ==> !Exposed(o + k)
  }

  ghost predicate Touched(reqs: seq<AlignReq>, j: int) {
    exists o :: Requested(reqs, o) && o % LINE == j
  }

  /** The positions modulo 64 that are requested. */
  ghost function BitmapOf(reqs: seq<AlignReq>): Word {
    seq(64, j => Touched(reqs, j))
  }

  predicate IsPow2(n: nat) {
    n == 1 || (n > 1 && n % 2 == 0 && IsPow2(n / 2))
  }

  // Residues -----------------------------------------------------------------------------------

  lemma ModAdd(a: int, b: int)
    ensures (a + b) % LINE == (a % LINE + b % LINE) % LINE
    ensures (a + b) % LINE == (a % LINE + b) % LINE
  {
  }

  /** `j` is `offset + i` on the line exactly for this `i`. */
  lemma ModSolve(offset: int, i: int, j: int)
    requires 0 <= i < LINE && 0 <= j < LINE
    ensures (offset + i) % LINE == j <==> i == (j - offset) % LINE
  {
  }

  // The bitmap ---------------------------------------------------------------------------------

  /** The word for one request. */
  function RequestWord(r: AlignReq): Word {
    if r.len > 63 then Ones() else Rol(Low(r.len), r.offset)
  }

  lemma RequestBit(r: AlignReq, j: nat)
    requires j < 64
    ensures RequestWord(r)[j] <==> exists o :: Covers(r, o) && o % LINE == j
  {
    var i := (j - r.offset) % LINE;
    ModSolve(r.offset, i, j);
    if r.len <= 63 {
      RolBit(Low(r.len), r.offset, j);
    }
    if i < r.len {
      assert Covers(r, r.offset + i) && (r.offset + i) % LINE == j;
    } else {
      forall o | Covers(r, o) ensures o % LINE != j {
        ModSolve(r.offset, o - r.offset, j);
      }
    }
  }

  lemma TouchedMore(reqs: seq<AlignReq>, n: nat, j: nat)
    requires n < |reqs| && j < 64
    ensures Touched(reqs[..n + 1], j) <==> Touched(reqs[..n], j) || RequestWord(reqs[n])[j]
  {
    RequestBit(reqs[n], j);
    var a, b := reqs[..n], reqs[..n + 1];
    if Touched(b, j) {
      var o :| Requested(b, o) && o % LINE == j;
      var r :| 0 <= r < |b| && Covers(b[r], o);
      if r < n {
        assert Covers(a[r], o) && Requested(a, o);
      }
    }
    if Touched(a, j) {
      var o :| Requested(a, o) && o % LINE == j;
      var r :| 0 <= r < |a| && Covers(a[r], o);
      assert Covers(b[r], o) && Requested(b, o);
    }
    if RequestWord(reqs[n])[j] {
      var o :| Covers(reqs[n], o) && o % LINE == j;
      assert Covers(b[n], o) && Requested(b, o);
    }
  }

  lemma BitmapMore(reqs: seq<AlignReq>, n: nat)
    requires n < |reqs|
    ensures BitmapOf(reqs[..n + 1]) == Or(BitmapOf(reqs[..n]), RequestWord(reqs[n]))
  {
    hide Touched, RequestWord;
    forall j: nat | j < 64 ensures BitmapOf(reqs[..n + 1])[j] == Or(BitmapOf(reqs[..n]), RequestWord(reqs[n]))[j] {
      TouchedMore(reqs, n, j);
    }
  }

  /** `make_bitmap`. A request of more than 63 bytes ends the loop with every bit set. */
  method MakeBitmap(reqs: seq<AlignReq>) returns (bmp: Word)
    ensures bmp == BitmapOf(reqs)
  {
    bmp := Zero();
    for n := 0 to |reqs|
      invariant bmp == BitmapOf(reqs[..n])
    {
      if reqs[n].len > 63 {
        AllTouched(reqs, n);
        return Ones();
      }
      BitmapMore(reqs, n);
      bmp := Or(bmp, Rol(Low(reqs[n].len), reqs[n].offset));
    }
    assert reqs[..|reqs|] == reqs;
  }

  lemma AllTouched(reqs: seq<AlignReq>, n: nat)
    requires n < |reqs| && reqs[n].len > 63
    ensures BitmapOf(reqs) == Ones()
  {
    forall j: nat | j < 64 ensures Touched(reqs, j) {
      RequestBit(reqs[n], j);
      var o :| Covers(reqs[n], o) && o % LINE == j;
      assert Requested(reqs, o);
    }
  }

  // The padding --------------------------------------------------------------------------------

  /** A bit counted from the top. */
  predicate FromTop(w: Word, k: nat)
    requires k < 64
  {
    w[63 - k]
  }

  function Top(): Word {
    seq(64, i => i == 63)
  }

  /** `gen_alignmask` */
  function AlignMask(al: nat, a: nat, m: Word): Word
    requires al > 0
    decreases a
  {
    if a > al then AlignMask(al, a / 2, Or(m, Shr(m, a / 2))) else m
  }

  /** Paddings that put a requested byte on an exposed position, counted from the top bit. */
  function Forbidden(bmp: Word): Word {
    Or(Ror(Or(Or(Or(bmp, Ror(bmp, 1)), Ror(bmp, 2)), Ror(bmp, 3)), 5), Ror(bmp, 1))
  }

  /** `calc_lspc` */
  function CalcLspc(al: nat, bmp: Word): int {
    if !IsPow2(al) then -2 else CountLzb(And(Not(Forbidden(bmp)), AlignMask(al, 64, Top())))
  }

  /** The residue that the padding `k` moves to `e`. */
  function Back(e: int, k: int): (j: nat)
    ensures j < 64
  {
    (e - k) % 64
  }

  lemma BackMoves(e: int, k: int, j: nat)
    requires 0 <= e < 64 && j < 64
    ensures (j + k) % LINE == e <==> j == Back(e, k)
  {
    ModSolve(k, j, e);
  }

  lemma ForbiddenBit(bmp: Word, k: nat)
    requires k < 64
    ensures FromTop(Forbidden(bmp), k) <==>
            bmp[Back(4, k)] || bmp[Back(5, k)] || bmp[Back(6, k)] || bmp[Back(7, k)] || bmp[Back(0, k)]
  {
    hide Ror, Back;
    var spread := Or(Or(Or(bmp, Ror(bmp, 1)), Ror(bmp, 2)), Ror(bmp, 3));
    var i := 63 - k;
    var h := (i + 5) % 64;
    RorBit(spread, 5, i);
    RorBit(bmp, 1, i);
    RorBit(bmp, 1, h);
    RorBit(bmp, 2, h);
    RorBit(bmp, 3, h);
    BackPositions(k, i, h);
  }

  lemma BackPositions(k: nat, i: nat, h: nat)
    requires k < 64 && i == 63 - k && h == (i + 5) % 64
    ensures (i + 1) % 64 == Back(0, k) && h == Back(4, k)
    ensures (h + 1) % 64 == Back(5, k) && (h + 2) % 64 == Back(6, k) && (h + 3) % 64 == Back(7, k)
  {
    hide Back;
    Wraps(i + 1);
    Wraps(i + 5);
    Wraps(h + 1);
    Wraps(h + 2);
    Wraps(h + 3);
    BackIs(0, k);
    BackIs(4, k);
    BackIs(5, k);
    BackIs(6, k);
    BackIs(7, k);
  }

  lemma BackIs(e: nat, k: nat)
    requires e < 64 && k < 64
    ensures Back(e, k) == if e >= k then e - k else e - k + 64
  {
  }

  lemma Wraps(x: nat)
    requires x < 128
    ensures x % 64 == if x < 64 then x else x - 64
  {
  }

  lemma ExposedResidue(o: int, k: int, j: nat)
    requires o % LINE == j
    ensures Exposed(o + k) <==>
            j == Back(4, k) || j == Back(5, k) || j == Back(6, k) || j == Back(7, k) || j == Back(0, k)
  {
    hide Back;
    ModAdd(o, k);
    BackMoves(0, k, j);
    BackMoves(4, k, j);
    BackMoves(5, k, j);
    BackMoves(6, k, j);
    BackMoves(7, k, j);
  }

  /** The word forbids exactly the paddings that are not clear. */
  lemma ForbiddenExact(reqs: seq<AlignReq>, k: nat)
    requires k < 64
    ensures FromTop(Forbidden(BitmapOf(reqs)), k) <==> !Clear(reqs, k)
  {
    hide Back, Exposed, Forbidden;
    var bmp := BitmapOf(reqs);
    ForbiddenBit(bmp, k);
    forall o | Requested(reqs, o)
      ensures bmp[o % LINE]
      ensures Exposed(o + k) ==> FromTop(Forbidden(bmp), k)
    {
      assert Touched(reqs, o % LINE);
      ExposedResidue(o, k, o % LINE);
    }
    if FromTop(Forbidden(bmp), k) {
      var j: nat := if bmp[Back(4, k)] then Back(4, k) else if bmp[Back(5, k)] then Back(5, k)
        else if bmp[Back(6, k)] then Back(6, k) else if bmp[Back(7, k)] then Back(7, k) else Back(0, k);
      assert Touched(reqs, j);
      var o :| Requested(reqs, o) && o % LINE == j;
      ExposedResidue(o, k, j);
    }
  }

  // The mask -----------------------------------------------------------------------------------

  ghost predicate IsMask(m: Word, a: nat)
    requires a > 0
  {
    forall k: nat :: k < 64 ==> (FromTop(m, k) <==> k % a == 0)
  }

  lemma HalfMultiples(h: nat, k: nat)
    requires h > 0
    ensures k % h == 0 <==> k % (2 * h) == 0 || (k >= h && (k - h) % (2 * h) == 0)
  {
    var a := 2 * h;
    var q, r := k / a, k % a;
    Divided(k, a);
    if r < h {
      assert k == h * (2 * q) + r;
      Unique(k, h, 2 * q, r);
      assert k - h == a * (q - 1) + (r + h);
      Unique(k - h, a, q - 1, r + h);
    } else {
      assert k == h * (2 * q + 1) + (r - h);
      Unique(k, h, 2 * q + 1, r - h);
      assert k - h == a * q + (r - h);
      Unique(k - h, a, q, r - h);
      assert k >= h by {
        assert a * q >= 0;
      }
    }
  }

  lemma MaskHalves(m: Word, a: nat)
    requires a in {2, 4, 8, 16, 32, 64} && IsMask(m, a)
    ensures IsMask(Or(m, Shr(m, a / 2)), a / 2)
  {
    var h := a / 2;
    var r := Or(m, Shr(m, h));
    forall k: nat | k < 64 ensures FromTop(r, k) <==> k % h == 0 {
      HalfMultiples(h, k);
      assert FromTop(r, k) <==> FromTop(m, k) || (k >= h && FromTop(m, k - h));
    }
  }

  lemma {:induction false} MaskExact(al: nat, a: nat, m: Word)
    requires IsPow2(al) && a in {1, 2, 4, 8, 16, 32, 64} && al <= a && IsMask(m, a)
    ensures IsMask(AlignMask(al, a, m), al)
    decreases a
  {
    SmallPow2(al);
    if a > al {
      MaskHalves(m, a);
      MaskExact(al, a / 2, Or(m, Shr(m, a / 2)));
    }
  }

  lemma SmallPow2(al: nat)
    requires IsPow2(al) && al <= 64
    ensures al in {1, 2, 4, 8, 16, 32, 64}
  {
  }

  lemma {:induction false} LargePow2(al: nat)
    requires IsPow2(al) && al >= 64
    ensures al % 64 == 0
  {
    if al > 64 {
      assert IsPow2(al / 2) && al == 2 * (al / 2);
      if al / 2 <= 64 {
        SmallPow2(al / 2);
      }
      LargePow2(al / 2);
    }
  }

  lemma Small(k: nat, a: nat)
    requires k < a
    ensures k % a == k
  {
  }

  /** Multiples of the alignment below 64. */
  lemma AlignedPads(al: nat, k: nat)
    requires IsPow2(al) && k < 64
    ensures FromTop(AlignMask(al, 64, Top()), k) <==> k % al == 0
  {
    assert IsMask(Top(), 64);
    if al <= 64 {
      hide AlignMask, IsPow2;
      MaskExact(al, 64, Top());
    } else {
      Small(k, al);
    }
  }

  // The result ---------------------------------------------------------------------------------

  ghost predicate Fitting(al: nat, reqs: seq<AlignReq>, k: nat)
    requires al > 0
  {
    k < 64 && k % al == 0 && Clear(reqs, k)
  }

  /** The rotations, the mask and the leading-zero count find the least padding that fits, and -1
      exactly when none does. */
  lemma PaddingExact(al: nat, reqs: seq<AlignReq>)
    requires IsPow2(al)
    ensures var k := CalcLspc(al, BitmapOf(reqs));
            && (k == -1 <==> forall n: nat :: !Fitting(al, reqs, n))
            && (k != -1 ==> k >= 0 && Fitting(al, reqs, k) && forall n: nat :: n < k ==> !Fitting(al, reqs, n))
  {
    hide Forbidden, AlignMask, Clear, CountLzb, And, Not;
    var f, m := Forbidden(BitmapOf(reqs)), AlignMask(al, 64, Top());
    var w := And(Not(f), m);
    forall n: nat | n < 64 ensures FromTop(w, n) <==> Fitting(al, reqs, n) {
      ForbiddenExact(reqs, n);
      AlignedPads(al, n);
      AndNot(f, m, n);
    }
    CountLzbExact(w);
    forall n: nat | w == Zero() || n < CountLzb(w) ensures !Fitting(al, reqs, n) {
      assert n < 64 ==> !FromTop(w, n);
    }
    assert w != Zero() ==> FromTop(w, CountLzb(w));
  }

  lemma AndNot(f: Word, m: Word, k: nat)
    requires k < 64
    ensures FromTop(And(Not(f), m), k) <==> !FromTop(f, k) && FromTop(m, k)
  {
  }
}
