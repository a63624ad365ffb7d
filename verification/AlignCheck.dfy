/** The validation of a request list, with one bit for every byte of the block. */
module AlignCheck {
  import opened AlignAlloc

  /** A list the allocator serves: not empty, every request inside the block, no byte asked twice. */
  ghost predicate Accepted(size: nat, reqs: seq<AlignReq>) {
    && reqs != []
    && (forall r :: 0 <= r < |reqs| ==> reqs[r].offset + reqs[r].len <= size)
    && Disjoint(reqs)
  }

  ghost predicate Disjoint(reqs: seq<AlignReq>) {
    forall r, t, o :: 0 <= r < t < |reqs| && Covers(reqs[r], o) ==> !Covers(reqs[t], o)
  }

  // Bits of a byte -----------------------------------------------------------------------------

  function Mask(i: nat): bv8
    requires i < 8
  {
    1 << i
  }

  predicate Test(b: bv8, i: nat)
    requires i < 8
  {
    b & Mask(i) != 0
  }

  lemma Masks()
    ensures Mask(0) == 1 && Mask(1) == 2 && Mask(2) == 4 && Mask(3) == 8
    ensures Mask(4) == 16 && Mask(5) == 32 && Mask(6) == 64 && Mask(7) == 128
  {
  }

  lemma SetMask(b: bv8, m: bv8, n: bv8)
    requires m != 0 && (m == n || m & n == 0)
    ensures (b | m) & n != 0 <==> m == n || b & n != 0
  {
  }

  lemma MasksApart(i: nat, j: nat)
    requires i < 8 && j < 8
    ensures i != j ==> Mask(i) & Mask(j) == 0 && Mask(i) != Mask(j)
    ensures Mask(i) != 0
  {
    Masks();
  }

  /** Setting a bit sets that bit and no other. */
  lemma SetBit(b: bv8, i: nat, j: nat)
    requires i < 8 && j < 8
    ensures Test(b | Mask(i), j) <==> i == j || Test(b, j)
  {
    hide Mask;
    MasksApart(i, j);
    SetMask(b, Mask(i), Mask(j));
  }

  // The bitmap ---------------------------------------------------------------------------------

  /** The bit of byte `o`. */
  predicate Marked(bmp: array<bv8>, o: nat)
    requires o / 8 < bmp.Length
    reads bmp
  {
    Test(bmp[o / 8], o % 8)
  }

  /** Set the bit of one byte. */
  method Mark(bmp: array<bv8>, o: nat)
    requires o / 8 < bmp.Length
    modifies bmp
    ensures forall p: nat :: p / 8 < bmp.Length ==> (Marked(bmp, p) <==> p == o || old(Marked(bmp, p)))
  {
    ghost var b := bmp[o / 8];
    bmp[o / 8] := bmp[o / 8] | Mask(o % 8);
    forall p: nat | p / 8 < bmp.Length ensures Marked(bmp, p) <==> p == o || old(Marked(bmp, p)) {
      if p / 8 == o / 8 {
        SetBit(b, o % 8, p % 8);
      }
    }
  }

  /** The inner loop: mark the bytes of one request, unless one is marked already. */
  method MarkRequest(bmp: array<bv8>, size: nat, r: AlignReq) returns (ok: bool)
    requires size <= 8 * bmp.Length && r.offset + r.len <= size
    modifies bmp
    ensures ok <==> forall o: nat :: Covers(r, o) ==> o < size && !old(Marked(bmp, o))
    ensures ok ==> forall o: nat :: o < size ==> (Marked(bmp, o) <==> old(Marked(bmp, o)) || Covers(r, o))
  {
    ghost var before := set o: nat | o < size && Marked(bmp, o);
    for i := 0 to r.len
      invariant forall o: nat :: o < size ==> (Marked(bmp, o) <==> o in before || r.offset <= o < r.offset + i)
      invariant forall o: nat :: r.offset <= o < r.offset + i ==> o !in before
    {
      var o := r.offset + i;
      if Marked(bmp, o) {
        assert Covers(r, o) && o in before;
        return false;
      }
      Mark(bmp, o);
    }
    return true;
  }

  /** `check_align_req`, given whether there is memory for the bitmap. */
  method CheckAlignReq(size: nat, reqs: seq<AlignReq>, room: bool) returns (ok: bool)
    ensures ok <==> room && Accepted(size, reqs)
  {
    if reqs == [] || !room {
      return false;
    }
    var bmp := new bv8[(size + 7) / 8](_ => 0);
    assert forall o: nat :: o < size ==> !Marked(bmp, o);
    for n := 0 to |reqs|
      invariant forall r :: 0 <= r < n ==> reqs[r].offset + reqs[r].len <= size
      invariant Disjoint(reqs[..n])
      invariant forall o: nat :: o < size ==> (Marked(bmp, o) <==> Requested(reqs[..n], o))
    {
      if reqs[n].offset + reqs[n].len > size {
        return false;
      }
      var unmarked := MarkRequest(bmp, size, reqs[n]);
      if !unmarked {
        return false;
      }
    }
    assert reqs[..|reqs|] == reqs;
    return true;
  }
}
