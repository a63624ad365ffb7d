/** The allocator's entry points over a memory of bytes: the block, the word in front of it that
    remembers the raw pointer, and the placement inside a caller's buffer. */
module AlignHeap {
  import opened Common
  import opened Division
  import opened Powers
  import opened AlignWord
  import opened AlignAlloc
  import opened AlignCheck
  import opened AlignLayout

  type Byte = b: nat | b < 256

  // Layouts ------------------------------------------------------------------------------------

  /** `padding_needed_for` */
  method PaddingNeededFor(layout: Layout, reqs: seq<AlignReq>, room: bool) returns (r: Option<nat>)
    requires IsLayout(layout)
    ensures r.Some? <==> layout.size > 0 && room && Accepted(layout.size, reqs) && exists n: nat :: Fitting(layout.align, reqs, n)
    ensures r.Some? ==> Fitting(layout.align, reqs, r.value) && forall n: nat :: n < r.value ==> !Fitting(layout.align, reqs, n)
  {
    if !CheckLayout(layout) {
      return None;
    }
    var ok := CheckAlignReq(layout.size, reqs, room);
    if !ok {
      return None;
    }
    var bmp := MakeBitmap(reqs);
    var offset := CalcLspc(layout.align, bmp);
    PaddingExact(layout.align, reqs);
    return if offset < 0 then None else Some(offset);
  }

  /** `pad_align_to`: it answers exactly when the list is accepted, some padding fits, and the padded
      layout is one. */
  method PadAlignTo(layout: Layout, reqs: seq<AlignReq>, room: bool) returns (r: Option<Padded>)
    requires IsLayout(layout)
    ensures r.Some? ==> IsPadded(layout, reqs, r.value) && IsLayout(r.value.layout)
    ensures r.None? ==> layout.size == 0 || !room || forall p :: IsPadded(layout, reqs, p) ==> !IsLayout(p.layout)
  {
    hide Accepted, Fitting, CalcAlign, Clear;
    var pad := PaddingNeededFor(layout, reqs, room);
    if pad.None? {
      return None;
    }
    var align := CalcAlign(layout.align, layout.size + pad.value);
    ghost var p := Padded(Layout(layout.size + pad.value + align, align), pad.value);
    forall q | IsPadded(layout, reqs, q) ensures q == p {
      OnePadding(layout, reqs, p, q);
    }
    var total := pad.value + align + layout.size;
    if align == 0 || total > MAX_SIZE - (align - 1) {
      return None;
    }
    CalcAlignPow2(layout, reqs, p);
    return Some(Padded(Layout(total, align), pad.value));
  }

  /** There is one answer at most. */
  lemma OnePadding(layout: Layout, reqs: seq<AlignReq>, p: Padded, q: Padded)
    requires IsPadded(layout, reqs, p) && IsPadded(layout, reqs, q)
    ensures p == q
  {
    hide Accepted, Fitting, CalcAlign;
    var a, b := Fitting(layout.align, reqs, p.pad), Fitting(layout.align, reqs, q.pad);
    assert a && b;
  }

  // Words in memory ------------------------------------------------------------------------------

  function WordBytes(w: nat, n: nat): (bs: seq<Byte>)
    ensures |bs| == n
    decreases n
  {
    if n == 0 then [] else [w % 256] + WordBytes(w / 256, n - 1)
  }

  function BytesWord(bs: seq<Byte>): nat {
    if bs == [] then 0 else bs[0] + 256 * BytesWord(bs[1..])
  }

  function Pow256(n: nat): nat {
    if n == 0 then 1 else 256 * Pow256(n - 1)
  }

  lemma {:induction false} WordReadBack(w: nat, n: nat)
    requires w < Pow256(n)
    ensures BytesWord(WordBytes(w, n)) == w
    decreases n
  {
    if n > 0 {
      WordReadBack(w / 256, n - 1);
      assert WordBytes(w, n)[1..] == WordBytes(w / 256, n - 1);
    }
  }

  lemma EightBytes()
    ensures Pow256(8) == TWO_64
  {
    assert Pow256(4) == 0x1_0000_0000;
    assert Pow256(8) == 0x1_0000_0000 * Pow256(4);
  }

  /** The word at an address. */
  ghost function WordIn(m: seq<Byte>, a: nat): nat
    requires a + 8 <= |m|
  {
    BytesWord(m[a..a + 8])
  }

  method WriteWord(mem: array<Byte>, a: nat, w: nat)
    requires a + 8 <= mem.Length && w < TWO_64
    modifies mem
    ensures WordIn(mem[..], a) == w
    ensures forall x :: 0 <= x < mem.Length && !(a <= x < a + 8) ==> mem[x] == old(mem[x])
  {
    hide WordBytes, BytesWord, Pow256;
    var bs := WordBytes(w, 8);
    for i := 0 to 8
      invariant forall x :: 0 <= x < mem.Length && !(a <= x < a + i) ==> mem[x] == old(mem[x])
      invariant forall k :: 0 <= k < i ==> mem[a + k] == bs[k]
    {
      mem[a + i] := bs[i];
    }
    assert mem[..][a..a + 8] == bs;
    EightBytes();
    WordReadBack(w, 8);
  }

  method WriteZeros(mem: array<Byte>, a: nat, n: nat)
    requires a + n <= mem.Length
    modifies mem
    ensures forall x :: 0 <= x < mem.Length ==> mem[x] == if a <= x < a + n then 0 else old(mem[x])
  {
    for i := 0 to n
      invariant forall x :: 0 <= x < mem.Length ==> mem[x] == if a <= x < a + i then 0 else old(mem[x])
    {
      mem[a + i] := 0;
    }
  }

  // Allocation -----------------------------------------------------------------------------------

  /** The cells an allocation may write. */
  ghost predicate Written(zeroed: bool, raw: nat, size: nat, ptr: nat, x: int) {
    ptr - 8 <= x < ptr || (zeroed && raw <= x < raw + size)
  }

  /** `alloc_with_pad_align_in`, given what `malloc` returned. The block is inside the raw one, the
      word in front of it holds the raw pointer, and nothing else is written but, if asked, zeros. */
  method AllocIn(mem: array<Byte>, zeroed: bool, layout: Layout, padded: Layout, raw: nat) returns (ptr: Option<nat>)
    requires IsLayout(layout) && IsLayout(padded)
    requires raw != 0 ==> 8 <= raw && raw + padded.size + 8 <= mem.Length <= TWO_64
    modifies mem
    ensures ptr.Some? <==> raw != 0 && layout.size > 0 && padded.size >= layout.size + padded.align
    ensures ptr.None? ==> mem[..] == old(mem[..])
    ensures ptr.Some? ==>
              && ptr.value == AlignedUp(raw, padded.align) + (padded.size - padded.align - layout.size)
              && raw <= ptr.value && ptr.value + layout.size < raw + padded.size
              && WordIn(mem[..], ptr.value - 8) == raw
              && (zeroed ==> forall x :: ptr.value <= x < ptr.value + layout.size ==> mem[x] == 0)
              && (forall x :: 0 <= x < mem.Length && !Written(zeroed, raw, padded.size, ptr.value, x) ==> mem[x] == old(mem[x]))
  {
    hide AlignedPtr, AlignedUp, WordIn;
    if !CheckLayout(layout) || !CheckLayout(padded) || padded.size < layout.size + padded.align {
      return None;
    }
    var pad := padded.size - padded.align - layout.size;
    if raw == 0 {
      return None;
    }
    if zeroed {
      WriteZeros(mem, raw, padded.size);
    }
    UpBounds(raw, padded.align);
    AlignedPtrExact(raw, padded.align, pad);
    var p := AlignedPtr(raw, padded.align, pad);
    WriteWord(mem, p - 8, raw);
    return Some(p);
  }

  lemma UpBounds(raw: nat, align: nat)
    requires align > 0
    ensures raw <= AlignedUp(raw, align) < raw + align && AlignedUp(raw, align) % align == 0
  {
    RoundDownMultiple(raw + align - 1, align);
  }

  /** `dealloc`: the pointer that is handed to `free`. */
  method Dealloc(mem: array<Byte>, ptr: nat) returns (freed: nat)
    requires 8 <= ptr <= mem.Length
    ensures freed == WordIn(mem[..], ptr - 8)
  {
    freed := 0;
    for i := 8 downto 0
      invariant freed == BytesWord(mem[..][ptr - 8 + i..ptr])
    {
      freed := mem[ptr - 8 + i] + 256 * freed;
      assert mem[..][ptr - 8 + i..ptr][1..] == mem[..][ptr - 8 + (i + 1)..ptr];
    }
  }

  /** Whatever the owner of a block writes into it, freeing it finds the raw pointer again. */
  lemma BlockWritesKeepRaw(before: seq<Byte>, after: seq<Byte>, ptr: nat, size: nat)
    requires |before| == |after| && 8 <= ptr && ptr + size <= |before|
    requires forall x :: 0 <= x < |before| && !(ptr <= x < ptr + size) ==> after[x] == before[x]
    ensures WordIn(after, ptr - 8) == WordIn(before, ptr - 8)
  {
    assert after[ptr - 8..ptr] == before[ptr - 8..ptr];
  }

  /** That word is inside the raw block, for every raw address, exactly when the padding leaves room
      for it: on an aligned address there is no gap besides. */
  lemma BackPointerInside(align: nat, pad: nat)
    requires align > 0
    ensures (forall raw: nat :: raw >= 8 ==> raw <= AlignedUp(raw, align) + pad - 8) <==> pad >= 8
    ensures AlignedUp(16 * align, align) == 16 * align
  {
    Unique(align * 16 + (align - 1), align, 16, align - 1);
    if pad >= 8 {
      forall raw: nat | raw >= 8 ensures raw <= AlignedUp(raw, align) + pad - 8 {
        UpBounds(raw, align);
      }
    } else {
      var raw := 16 * align;
      assert raw >= 8 && raw > AlignedUp(raw, align) + pad - 8;
    }
  }

  /** It does leave the raw block: eight bytes of which bytes 1 and 2 are secret are placed at the very
      start of a raw block at an address that is a multiple of 16, and the word goes in front of it. */
  lemma BackPointerOutside()
    ensures Answers(Layout(8, 16), [AlignReq(1, 2)], Padded(Layout(16, 8), 0))
    ensures forall raw: nat :: raw % 16 == 0 ==> AlignedUp(raw, 8) + 0 == raw && AlignedUp(raw, 8) + 0 - 8 < raw
  {
    SecretPadded(16);
    assert IsPow2(8);
    hide AlignedUp, IsPow2, IsPadded;
    forall raw: nat | raw % 16 == 0 ensures AlignedUp(raw, 8) == raw {
      AlignedAlready(raw);
    }
  }

  lemma AlignedAlready(raw: nat)
    requires raw % 16 == 0
    ensures AlignedUp(raw, 8) == raw
  {
    Divided(raw, 16);
    Unique(raw + 7, 8, 2 * (raw / 16), 7);
  }

  // Inside a caller's buffer -----------------------------------------------------------------------

  ghost predicate Answers(layout: Layout, reqs: seq<AlignReq>, p: Padded) {
    IsPadded(layout, reqs, p) && IsLayout(p.layout)
  }

  /** An empty list asks for the whole block. */
  function Effective(layout: Layout, reqs: seq<AlignReq>): seq<AlignReq> {
    if reqs == [] then [AlignReq(0, layout.size)] else reqs
  }

  /** No requested byte of the block at `ptr` is exposed. */
  ghost predicate Hidden(reqs: seq<AlignReq>, ptr: nat) {
    forall o: nat :: Requested(reqs, o) ==> !Exposed(ptr + o)
  }

  lemma PlacedHidden(layout: Layout, reqs: seq<AlignReq>, p: Padded, base: nat)
    requires IsPadded(layout, reqs, p) && p.layout.align > 0 && base % p.layout.align == 0
    ensures Hidden(reqs, base + p.pad)
  {
    hide IsPadded, Exposed;
    forall o: nat | Requested(reqs, o) ensures !Exposed(base + p.pad + o) {
      SecretPlacement(layout, reqs, p, base, o);
    }
  }

  /** A block as it is handed out: inside the raw one, no requested byte exposed, and the raw pointer
      in front of it. */
  ghost predicate Block(m: seq<Byte>, layout: Layout, reqs: seq<AlignReq>, p: Padded, raw: nat, ptr: nat) {
    && Answers(layout, reqs, p)
    && 8 <= raw <= ptr && ptr + layout.size < raw + p.layout.size <= |m|
    && Hidden(reqs, ptr)
    && WordIn(m, ptr - 8) == raw
  }

  /** No byte of the block at `ptr` is exposed. */
  ghost predicate WholeHidden(layout: Layout, ptr: nat) {
    forall x: nat :: ptr <= x < ptr + layout.size ==> !Exposed(x)
  }

  /** Every cell that the allocation may not write is as before. */
  ghost predicate OnlyWritten(before: seq<Byte>, after: seq<Byte>, zeroed: bool, raw: nat, size: nat, ptr: nat) {
    && |before| == |after|
    && forall x :: 0 <= x < |after| && !Written(zeroed, raw, size, ptr, x) ==> after[x] == before[x]
  }

  /** What `malloc` answers for a size: 0, or the address of a block that is inside the memory. */
  ghost predicate IsMalloc(malloc: nat -> nat, top: nat) {
    forall n :: malloc(n) != 0 ==> 8 <= malloc(n) && malloc(n) + n <= top
  }

  /** `alloc_with_req` and `alloc_with_req_zeroed` */
  method AllocWithReq(mem: array<Byte>, malloc: nat -> nat, zeroed: bool, layout: Layout, reqs: seq<AlignReq>, room: bool)
      returns (ptr: Option<nat>, ghost p: Padded)
    requires IsLayout(layout) && IsMalloc(malloc, mem.Length) && mem.Length <= TWO_64
    modifies mem
    ensures ptr.Some? ==> Block(mem[..], layout, Effective(layout, reqs), p, malloc(p.layout.size + 8), ptr.value)
    ensures ptr.Some? && zeroed ==> forall x :: ptr.value <= x < ptr.value + layout.size ==> mem[x] == 0
    ensures ptr.Some? ==> OnlyWritten(old(mem[..]), mem[..], zeroed, malloc(p.layout.size + 8), p.layout.size, ptr.value)
    ensures ptr.Some? && reqs == [] ==> WholeHidden(layout, ptr.value)
    ensures ptr.None? ==> mem[..] == old(mem[..])
    ensures ptr.None? ==>
              || layout.size == 0 || !room
              || forall q :: Answers(layout, Effective(layout, reqs), q) ==> malloc(q.layout.size + 8) == 0
  {
    hide IsPadded, Exposed, Hidden, IsPow2, WordIn, AlignedUp;
    p := Padded(layout, 0);
    if !CheckLayout(layout) {
      return None, p;
    }
    var r := PadAlignTo(layout, Effective(layout, reqs), room);
    if r.None? {
      return None, p;
    }
    p := r.value;
    PaddedFits(layout, Effective(layout, reqs), p);
    var raw := malloc(r.value.layout.size + 8);
    ptr := AllocIn(mem, zeroed, layout, r.value.layout, raw);
    OnlyAnswer(layout, Effective(layout, reqs), p);
    UpBounds(raw, p.layout.align);
    PlacedHidden(layout, Effective(layout, reqs), p, AlignedUp(raw, p.layout.align));
    if reqs == [] && ptr.Some? { EmptyListHides(layout, ptr.value); }
  }

  /** An empty list hides the whole block. */
  lemma EmptyListHides(layout: Layout, ptr: nat)
    requires Hidden(Effective(layout, []), ptr)
    ensures WholeHidden(layout, ptr)
  {
    hide Exposed;
    var reqs := Effective(layout, []);
    forall x: nat | ptr <= x < ptr + layout.size ensures !Exposed(x) {
      assert Covers(reqs[0], x - ptr);
      assert Requested(reqs, x - ptr);
    }
  }

  lemma OnlyAnswer(layout: Layout, reqs: seq<AlignReq>, p: Padded)
    requires Answers(layout, reqs, p)
    ensures forall q :: Answers(layout, reqs, q) ==> q == p
  {
    forall q | Answers(layout, reqs, q) ensures q == p {
      OnePadding(layout, reqs, p, q);
    }
  }

  lemma PaddedFits(layout: Layout, reqs: seq<AlignReq>, p: Padded)
    requires Answers(layout, reqs, p)
    ensures p.layout.align > 0 && p.layout.size == layout.size + p.pad + p.layout.align && p.layout.size <= MAX_SIZE
    ensures IsLayout(p.layout)
  {
  }

  /** `sgx_get_aligned_ptr`; a null pointer, refused or computed, is `None`. Unless the address of the buffer
      is so high that rounding it up wraps around, the block is inside the buffer. */
  method GetAlignedPtr(raw: nat, rawSize: nat, size: nat, align: nat, reqs: seq<AlignReq>, room: bool)
      returns (ptr: Option<nat>, ghost p: Padded)
    requires raw < TWO_64
    ensures ptr.Some? ==>
              && Answers(Layout(size, align), Effective(Layout(size, align), reqs), p)
              && ptr.value == AlignedPtr(raw, p.layout.align, p.pad) != 0
              && ptr.value + size <= raw + rawSize < TWO_64
              && (raw <= ptr.value <==> raw + p.layout.align <= TWO_64)
              && Hidden(Effective(Layout(size, align), reqs), ptr.value)
    ensures ptr.None? ==>
              || raw == 0 || size == 0 || size > rawSize || raw + rawSize >= TWO_64
              || !IsLayout(Layout(size, align)) || !room
              || forall q :: Answers(Layout(size, align), Effective(Layout(size, align), reqs), q) ==>
                   || AlignedPtr(raw, q.layout.align, q.pad) == 0
                   || AlignedPtr(raw, q.layout.align, q.pad) + size > raw + rawSize
  {
    hide IsPadded, AlignedPtr, Hidden;
    p := Padded(Layout(size, align), 0);
    if raw == 0 || rawSize == 0 || size == 0 || align == 0 || size > rawSize || raw + rawSize >= TWO_64 {
      return None, p;
    }
    var layout := Layout(size, align);
    if !IsLayout(layout) {
      return None, p;
    }
    var r := PadAlignTo(layout, Effective(layout, reqs), room);
    if r.None? {
      return None, p;
    }
    p := r.value;
    var a := AlignedPtr(raw, r.value.layout.align, r.value.pad);
    OnlyAnswer(layout, Effective(layout, reqs), p);
    if a + size >= TWO_64 || a + size > raw + rawSize {
      return None, p;
    }
    PlacedAbove(layout, Effective(layout, reqs), r.value, raw);
    PlacedMultiple(layout, Effective(layout, reqs), r.value, raw);
    PlacedHidden(layout, Effective(layout, reqs), r.value, a - r.value.pad);
    return if a == 0 then None else Some(a), p;
  }

  /** Rounding does wrap: eight bytes with the first two secret, in a buffer of eight bytes that ends one
      below the top of memory, are placed at address 1. */
  lemma RoundingWraps()
    ensures var raw, reqs, p := TWO_64 - 9, [AlignReq(0, 2)], Padded(Layout(25, 16), 1);
            && Answers(Layout(8, 1), reqs, p)
            && raw + 8 < TWO_64
            && AlignedPtr(raw, p.layout.align, p.pad) == 1
            && 1 + 8 <= raw + 8 && 1 < raw
  {
    FirstTwoBytes();
    assert IsPow2(1) && IsPow2(16) && CalcAlign(1, 9) == 16;
    hide Accepted, Clear, IsPow2, CalcAlign;
    assert Fitting(1, [AlignReq(0, 2)], 1) && !Fitting(1, [AlignReq(0, 2)], 0);
    WrappedPtr();
  }

  lemma FirstTwoBytes()
    ensures Accepted(8, [AlignReq(0, 2)]) && Clear([AlignReq(0, 2)], 1) && !Clear([AlignReq(0, 2)], 0)
  {
    var reqs := [AlignReq(0, 2)];
    forall o | Requested(reqs, o) ensures !Exposed(o + 1) {
      assert o == 0 || o == 1;
    }
    assert Covers(reqs[0], 0);
    assert Requested(reqs, 0) && Exposed(0 + 0);
  }

  lemma WrappedPtr()
    ensures AlignedPtr(TWO_64 - 9, 16, 1) == 1
  {
    assert (TWO_64 - 9 + 16 - 1) % TWO_64 == 6;
  }

  lemma PadBelowAlign(layout: Layout, reqs: seq<AlignReq>, p: Padded)
    requires IsPadded(layout, reqs, p) && layout.size > 0
    ensures p.pad < p.layout.align && p.pad < 64
  {
    hide Accepted, Clear, IsPow2;
    if layout.align > 64 {
      Small(p.pad, layout.align);
    } else {
      CalcAlignSmall(layout.align, layout.size + p.pad);
    }
  }

  lemma {:induction false} Pow2IsPow2(n: nat)
    ensures IsPow2(Pow2(n))
  {
    if n > 0 {
      Pow2IsPow2(n - 1);
      assert Pow2(n) / 2 == Pow2(n - 1);
    }
  }

  lemma TopOfMemory()
    ensures IsPow2(TWO_64)
  {
    hide Pow2, IsPow2;
    Pow2Values();
    Pow2IsPow2(64);
  }

  lemma MultiplesApart(a: nat, i: nat, j: nat)
    requires a * i < a * j
    ensures a * i + a <= a * j
  {
    assert a * (j - i) == a * j - a * i;
    PositiveMultiple(a, j - i);
  }

  lemma PositiveMultiple(a: nat, k: int)
    requires a * k > 0
    ensures a * k >= a
  {
    if k > 0 {
      assert a * (k - 1) >= 0;
    }
  }

  /** A multiple below the top of memory leaves room for its alignment. */
  lemma RoomAbove(x: nat, a: nat)
    requires IsPow2(a) && 0 < a <= TWO_64 && x % a == 0 && x < TWO_64
    ensures x + a <= TWO_64
  {
    hide IsPow2;
    TopOfMemory();
    Pow2Divides(a, TWO_64);
    Divided(x, a);
    Divided(TWO_64, a);
    MultiplesApart(a, x / a, TWO_64 / a);
  }

  /** Rounding up stays above the buffer's start exactly when it does not wrap around. */
  lemma PlacedAbove(layout: Layout, reqs: seq<AlignReq>, p: Padded, raw: nat)
    requires Answers(layout, reqs, p) && layout.size > 0 && 0 < raw < TWO_64
    ensures raw <= AlignedPtr(raw, p.layout.align, p.pad) <==> raw + p.layout.align <= TWO_64
  {
    hide IsPadded, IsPow2;
    var a, x := p.layout.align, raw + p.layout.align - 1;
    PadBelowAlign(layout, reqs, p);
    if raw + a <= TWO_64 {
      UpBounds(raw, a);
      RoundDownMultiple(x, a);
      RoomAbove(AlignedUp(raw, a), a);
      AlignedPtrExact(raw, a, p.pad);
    } else {
      Unique(x, TWO_64, 1, x - TWO_64);
      Small(x - TWO_64, a);
      Small(p.pad, TWO_64);
    }
  }

  /** Wrapped or not, the padding is in front of a multiple of the alignment. */
  lemma PlacedMultiple(layout: Layout, reqs: seq<AlignReq>, p: Padded, raw: nat)
    requires Answers(layout, reqs, p) && layout.size > 0 && 0 < raw < TWO_64
    ensures var b := AlignedPtr(raw, p.layout.align, p.pad) - p.pad; b >= 0 && b % p.layout.align == 0
  {
    hide IsPadded, IsPow2;
    var a, x := p.layout.align, raw + p.layout.align - 1;
    PadBelowAlign(layout, reqs, p);
    if raw + a <= TWO_64 {
      UpBounds(raw, a);
      RoundDownMultiple(x, a);
      RoomAbove(AlignedUp(raw, a), a);
      AlignedPtrExact(raw, a, p.pad);
    } else {
      Unique(x, TWO_64, 1, x - TWO_64);
      Small(x - TWO_64, a);
      Small(p.pad, TWO_64);
      Unique(0, a, 0, 0);
    }
  }
}
