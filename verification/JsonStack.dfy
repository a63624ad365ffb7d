/** The parser's position stack: indices, and keys packed into one byte buffer and addressed by
    16-bit offsets and sizes. */
module JsonStack {
  import opened Common
  import opened JsonValue
  import Utf8

  const MAX_KEY_BYTES: nat := 0xFFFF

  datatype InternalElement =
    | InternalIndex(index: nat)
    | InternalKey(start: nat, size: nat)

  datatype Element =
    | Index(index: nat)
    | Key(key: string)

  datatype Stack = Stack(elems: seq<InternalElement>, buffer: seq<Utf8.Byte>)

  const EMPTY := Stack([], [])

  function AsU16(n: nat): nat {
    n % 0x1_0000
  }

  function AsU32(n: nat): nat {
    n % 0x1_0000_0000
  }

  function SizeOf(e: InternalElement): nat {
    if e.InternalKey? then e.size else 0
  }

  ghost function SizeSum(es: seq<InternalElement>): nat {
    if es == [] then 0 else SizeSum(es[..|es| - 1]) + SizeOf(es[|es| - 1])
  }

  /** The buffer is long enough for every pop to come, with `spare` bytes left over. */
  ghost predicate SizesFit(s: Stack, spare: nat) {
    SizeSum(s.elems) + spare <= |s.buffer|
  }

  predicate IsEmpty(s: Stack) {
    s.elems == []
  }

  predicate LastIsIndex(s: Stack) {
    s.elems != [] && s.elems[|s.elems| - 1].InternalIndex?
  }

  predicate LastIsKey(s: Stack) {
    s.elems != [] && s.elems[|s.elems| - 1].InternalKey?
  }

  function PushBytes(s: Stack, bytes: seq<Utf8.Byte>): Stack {
    Stack(s.elems + [InternalKey(AsU16(|s.buffer|), AsU16(|bytes|))], s.buffer + bytes)
  }

  function PushKey(s: Stack, key: string): Stack {
    PushBytes(s, Utf8.Encode(key))
  }

  function PushIndex(s: Stack, index: nat): Stack {
    Stack(s.elems + [InternalIndex(index)], s.buffer)
  }

  /** The length after a truncation by `size`; `SizesFit` says that it never stops at 0 early. */
  function Shrunk(len: nat, size: nat): nat {
    if size <= len then len - size else 0
  }

  function Pop(s: Stack): Stack
    requires !IsEmpty(s)
  {
    var n := |s.elems| - 1;
    Stack(s.elems[..n], s.buffer[..Shrunk(|s.buffer|, SizeOf(s.elems[n]))])
  }

  function BumpIndex(s: Stack): (r: Stack)
    requires LastIsIndex(s)
    ensures LastIsIndex(r)
  {
    var n := |s.elems| - 1;
    Stack(s.elems[n := InternalIndex(AsU32(s.elems[n].index + 1))], s.buffer)
  }

  /** No operation breaks `SizesFit`, and under it a pop truncates by exactly the size on top. */
  lemma OperationsKeepSizes(s: Stack, spare: nat, key: string, index: nat)
    requires SizesFit(s, spare)
    ensures SizesFit(PushKey(s, key), spare) && SizesFit(PushIndex(s, index), spare)
    ensures !IsEmpty(s) ==>
              SizesFit(Pop(s), spare) && |Pop(s).buffer| == |s.buffer| - SizeOf(s.elems[|s.elems| - 1])
    ensures LastIsIndex(s) ==> SizesFit(BumpIndex(s), spare)
  {
    hide Utf8.Encode;
    assert PushKey(s, key).elems[..|s.elems|] == s.elems;
    assert PushIndex(s, index).elems[..|s.elems|] == s.elems;
    if LastIsIndex(s) {
      assert BumpIndex(s).elems[..|s.elems| - 1] == s.elems[..|s.elems| - 1];
    }
  }

  /** A key of more than 65535 bytes leaves at least 65536 of them behind for good. */
  lemma LongKeySpares(s: Stack, key: string)
    requires SizesFit(s, 0) && |Utf8.Encode(key)| > MAX_KEY_BYTES
    ensures SizesFit(PushKey(s, key), 0x1_0000)
  {
    hide Utf8.Encode;
    assert PushKey(s, key).elems[..|s.elems|] == s.elems;
  }

  /** The slice of the buffer that a key refers to; `None` stands for a panic. */
  function Slice(s: Stack, start: nat, end: nat): Option<seq<Utf8.Byte>> {
    if start <= end <= |s.buffer| then Some(s.buffer[start..end]) else None
  }

  /** `str::from_utf8(..).unwrap()`. */
  function AsKey(slice: Option<seq<Utf8.Byte>>): Option<Element> {
    if slice.None? then None else
      match Utf8.Decode(slice.value)
      case Some(k) => Some(Key(k))
      case None => None
  }

  /** `Stack::get`; `None` stands for a panic. */
  function Get(s: Stack, i: nat): Option<Element>
    requires i < |s.elems|
  {
    match s.elems[i]
    case InternalIndex(n) => Some(Index(n))
    case InternalKey(start, size) => AsKey(Slice(s, start, start + size))
  }

  /** `Stack::top` on a non-empty stack, whose end offset is a 16-bit sum. */
  function Top(s: Stack): Option<Element>
    requires !IsEmpty(s)
  {
    match s.elems[|s.elems| - 1]
    case InternalIndex(n) => Some(Index(n))
    case InternalKey(start, size) => AsKey(Slice(s, start, AsU16(start + size)))
  }

  // Representation ---------------------------------------------------------------------------

  /** An element with its key already encoded. */
  datatype Packed = PackedIndex(index: nat) | PackedKey(bytes: seq<Utf8.Byte>)

  ghost function BytesOf(e: Packed): seq<Utf8.Byte> {
    if e.PackedKey? then e.bytes else []
  }

  ghost function KeyBytes(es: seq<Packed>): seq<Utf8.Byte> {
    if es == [] then [] else KeyBytes(es[..|es| - 1]) + BytesOf(es[|es| - 1])
  }

  ghost function PackOne(e: Packed, start: nat): InternalElement {
    if e.PackedKey? then InternalKey(AsU16(start), |e.bytes|) else InternalIndex(e.index)
  }

  /** The intended representation: the keys concatenated in order, each addressed by its own slice,
      as long as its start fits in 16 bits. */
  ghost function PackElems(es: seq<Packed>): (r: seq<InternalElement>)
    ensures |r| == |es|
  {
    if es == [] then []
    else PackElems(es[..|es| - 1]) + [PackOne(es[|es| - 1], |KeyBytes(es[..|es| - 1])|)]
  }

  ghost function Pack(es: seq<Packed>): Stack {
    Stack(PackElems(es), KeyBytes(es))
  }

  ghost predicate IsPacked(s: Stack, es: seq<Packed>) {
    s == Pack(es)
  }

  lemma PackExtends(es: seq<Packed>, e: Packed)
    ensures Pack(es + [e]).elems == Pack(es).elems + [PackOne(e, |KeyBytes(es)|)]
    ensures Pack(es + [e]).buffer == Pack(es).buffer + BytesOf(e)
  {
    var fs := es + [e];
    assert fs[..|es|] == es;
  }

  lemma PushBytesPacked(s: Stack, es: seq<Packed>, bytes: seq<Utf8.Byte>)
    requires IsPacked(s, es) && |bytes| <= MAX_KEY_BYTES
    ensures IsPacked(PushBytes(s, bytes), es + [PackedKey(bytes)])
  {
    PackExtends(es, PackedKey(bytes));
  }

  lemma PushIndexPacked(s: Stack, es: seq<Packed>, index: nat)
    requires IsPacked(s, es)
    ensures IsPacked(PushIndex(s, index), es + [PackedIndex(index)])
  {
    PackExtends(es, PackedIndex(index));
  }

  lemma PopPacked(s: Stack, es: seq<Packed>)
    requires IsPacked(s, es) && !IsEmpty(s)
    ensures IsPacked(Pop(s), es[..|es| - 1])
  {
    var n := |es| - 1;
    assert es == es[..n] + [es[n]];
    PackExtends(es[..n], es[n]);
  }

  lemma BumpPacked(s: Stack, es: seq<Packed>)
    requires IsPacked(s, es) && LastIsIndex(s)
    ensures es[|es| - 1].PackedIndex?
    ensures IsPacked(BumpIndex(s), es[..|es| - 1] + [PackedIndex(AsU32(es[|es| - 1].index + 1))])
  {
    var n := |es| - 1;
    assert es == es[..n] + [es[n]];
    PackExtends(es[..n], es[n]);
    PackExtends(es[..n], PackedIndex(AsU32(es[n].index + 1)));
  }

  lemma {:induction false} KeySlice(es: seq<Packed>, i: nat)
    requires i < |es|
    ensures var a, b := |KeyBytes(es[..i])|, |KeyBytes(es[..i])| + |BytesOf(es[i])|;
            b <= |KeyBytes(es)| && KeyBytes(es)[a..b] == BytesOf(es[i])
    ensures PackElems(es)[i] == PackOne(es[i], |KeyBytes(es[..i])|)
  {
    hide BytesOf, PackOne;
    var n := |es| - 1;
    var front, last := KeyBytes(es[..n]), BytesOf(es[n]);
    assert KeyBytes(es) == front + last;
    if i < n {
      assert es[..n][..i] == es[..i];
      KeySlice(es[..n], i);
      var a := |KeyBytes(es[..i])|;
      PrefixSlice(front, last, a, a + |BytesOf(es[i])|);
    } else {
      assert (front + last)[|front|..] == last;
    }
  }

  lemma PrefixSlice<T>(front: seq<T>, last: seq<T>, a: nat, b: nat)
    requires a <= b <= |front|
    ensures (front + last)[a..b] == front[a..b]
  {
  }

  /** The elements a stack stands for. */
  ghost predicate Represents(s: Stack, es: seq<Element>) {
    IsPacked(s, seq(|es|, i requires 0 <= i < |es| => Encoded(es[i])))
  }

  ghost function Encoded(e: Element): Packed {
    if e.Key? then PackedKey(Utf8.Encode(e.key)) else PackedIndex(e.index)
  }

  lemma RepresentedLength(s: Stack, es: seq<Element>)
    requires Represents(s, es)
    ensures |s.elems| == |es|
  {
  }

  lemma PackedSlice(s: Stack, es: seq<Packed>, i: nat)
    requires IsPacked(s, es) && |s.buffer| <= MAX_KEY_BYTES && i < |es|
    ensures |s.elems| == |es|
    ensures match es[i]
            case PackedIndex(n) => s.elems[i] == InternalIndex(n)
            case PackedKey(bytes) =>
              && s.elems[i].InternalKey?
              && var end := s.elems[i].start + s.elems[i].size;
              && Slice(s, s.elems[i].start, end) == Some(bytes)
              && AsU16(end) == end
  {
    KeySlice(es, i);
  }

  /** Every element of a stack within the byte limit reads back as itself. */
  lemma RepresentedElement(s: Stack, es: seq<Element>, i: nat)
    requires Represents(s, es) && |s.buffer| <= MAX_KEY_BYTES && i < |es|
    ensures |s.elems| == |es|
    ensures Get(s, i) == Some(es[i])
    ensures i == |es| - 1 ==> Top(s) == Some(es[i])
  {
    hide AsKey, Utf8.Encode, IsPacked, Slice, AsU16;
    PackedSlice(s, seq(|es|, i requires 0 <= i < |es| => Encoded(es[i])), i);
    if es[i].Key? { EncodedKey(es[i].key, Some(Utf8.Encode(es[i].key))); }
  }

  lemma EncodedKey(key: string, slice: Option<seq<Utf8.Byte>>)
    requires slice == Some(Utf8.Encode(key))
    ensures AsKey(slice) == Some(Key(key))
  {
    Utf8.DecodeEncode(key);
  }

  // Undoing a push ---------------------------------------------------------------------------

  /** A key is popped cleanly if and only if its size fits in 16 bits. */
  lemma PopPushKey(s: Stack, key: string)
    ensures Pop(PushKey(s, key)).elems == s.elems
    ensures Pop(PushKey(s, key)) == s <==> |Utf8.Encode(key)| <= MAX_KEY_BYTES
  {
    hide Utf8.Encode;
    assert PushKey(s, key).elems[..|s.elems|] == s.elems;
    var n, t := |Utf8.Encode(key)|, PushKey(s, key).buffer;
    if n <= MAX_KEY_BYTES {
      assert t[..|s.buffer|] == s.buffer;
    } else {
      assert AsU16(n) < n;
      assert |Pop(PushKey(s, key)).buffer| != |s.buffer|;
    }
  }

  lemma PopPushIndex(s: Stack, i: nat)
    ensures Pop(PushIndex(s, i)) == s
  {
    assert PushIndex(s, i).elems[..|s.elems|] == s.elems;
  }

  lemma BumpPushIndex(s: Stack, i: nat)
    ensures BumpIndex(PushIndex(s, i)) == PushIndex(s, AsU32(i + 1))
  {
  }

  lemma TopPushBytes(s: Stack, bytes: seq<Utf8.Byte>)
    requires |s.buffer| + |bytes| <= MAX_KEY_BYTES
    ensures Top(PushBytes(s, bytes)) == AsKey(Some(bytes))
  {
    hide AsKey;
    var t := PushBytes(s, bytes);
    assert t.buffer[|s.buffer|..|s.buffer| + |bytes|] == bytes;
  }

  lemma TopPushKey(s: Stack, key: string)
    requires |s.buffer| + |Utf8.Encode(key)| <= MAX_KEY_BYTES
    ensures Top(PushKey(s, key)) == Some(Key(key))
  {
    TopPushBytes(s, Utf8.Encode(key));
    EncodedKey(key, Some(Utf8.Encode(key)));
  }
}
