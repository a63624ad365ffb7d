/** The block function on machine words, and the test vectors of RFC 8439. */
module ChaChaWords {
  import opened Common
  import opened Division
  import opened Powers
  import opened ChaCha

  // Bytes --------------------------------------------------------------------------------------

  function Number(x: bv8): nat {
    x as nat
  }

  lemma HalfByte(x: bv8)
    ensures Number(x) == 2 * Number(x >> 1) + Number(x & 1) && Number(x & 1) < 2
    ensures x != 0 ==> Number(x >> 1) < Number(x)
  {
  }

  lemma HalfXor(x: bv8, y: bv8)
    ensures Number(x ^ y) == 2 * Number((x >> 1) ^ (y >> 1)) + (if Number(x & 1) != Number(y & 1) then 1 else 0)
  {
  }

  lemma ZeroXor(x: bv8)
    ensures Number(0) == 0 && 0 ^ x == x && x ^ 0 == x
  {
  }

  /** Exclusive or of the numbers is that of the bytes. */
  lemma {:induction false} ByteXor(x: bv8, y: bv8)
    ensures BitXor(Number(x), Number(y)) == Number(x ^ y)
    decreases Number(x)
  {
    hide BitXor, Number;
    ZeroXor(x);
    ZeroXor(y);
    if x == 0 || y == 0 {
      NothingXor(Number(x));
      NothingXor(Number(y));
    } else {
      HalfByte(x);
      HalfByte(y);
      HalfXor(x, y);
      ByteXor(x >> 1, y >> 1);
      DoubledXor(Number(x >> 1), Number(y >> 1), Number(x & 1), Number(y & 1));
    }
  }

  lemma NothingXor(x: nat)
    ensures BitXor(0, x) == x && BitXor(x, 0) == x
  {
  }

  lemma DoubledXor(a: nat, b: nat, i: nat, j: nat)
    requires i < 2 && j < 2
    ensures BitXor(2 * a + i, 2 * b + j) == 2 * BitXor(a, b) + (if i != j then 1 else 0)
  {
    var x, y := 2 * a + i, 2 * b + j;
    assert x / 2 == a && y / 2 == b && x % 2 == i && y % 2 == j;
  }

  /** Low and high bits do not mix. */
  lemma {:induction false} SplitXor(a: nat, b: nat, c: nat, d: nat, n: nat)
    requires c < Pow2(n) && d < Pow2(n)
    ensures BitXor(a * Pow2(n) + c, b * Pow2(n) + d) == BitXor(a, b) * Pow2(n) + BitXor(c, d)
    decreases n
  {
    hide BitXor;
    if n == 0 {
      NothingXor(0);
    } else {
      var p := Pow2(n - 1);
      var c', d' := c / 2, d / 2;
      SplitXor(a, b, c', d', n - 1);
      TwiceSum(a, c', p, c % 2);
      TwiceSum(b, d', p, d % 2);
      DoubledXor(a * p + c', b * p + d', c % 2, d % 2);
      DoubledXor(c', d', c % 2, d % 2);
      TwiceSum(BitXor(a, b), BitXor(c', d'), p, 0);
    }
  }

  lemma TwiceSum(a: nat, c: nat, p: nat, i: nat)
    ensures a * (2 * p) + (2 * c + i) == 2 * (a * p + c) + i
  {
  }

  /** The high byte of a sum of two bytes and a carry. */
  function Carry(a: bv8, b: bv8, c: bv8): bv8 {
    (((a as bv16) + (b as bv16) + (c as bv16)) >> 8) as bv8
  }

  function Low(a: bv8): bv8 {
    a & 15
  }

  function High(a: bv8): bv8 {
    a >> 4
  }

  function Sum(a: bv8, b: bv8, c: bv8): bv8 {
    a + b + c
  }

  /** Two nibbles and a carry do not leave the byte. */
  lemma NibbleSum(a: bv8, b: bv8, c: bv8)
    requires a <= 15 && b <= 15 && c <= 1
    ensures Number(Sum(a, b, c)) == Number(a) + Number(b) + Number(c)
  {
  }

  /** The sum of two bytes and a carry, nibble by nibble. */
  function LowSum(a: bv8, b: bv8, c: bv8): bv8 {
    (a & 15) + (b & 15) + c
  }

  function HighSum(a: bv8, b: bv8, c: bv8): bv8 {
    (a >> 4) + (b >> 4) + (((a & 15) + (b & 15) + c) >> 4)
  }

  lemma LowCarry(a: bv8, b: bv8, c: bv8)
    requires c <= 1
    ensures High(LowSum(a, b, c)) <= 1 && Low(Sum(a, b, c)) == Low(LowSum(a, b, c))
  {
  }

  lemma HighCarry(a: bv8, b: bv8, c: bv8)
    requires c <= 1
    ensures High(HighSum(a, b, c)) <= 1 && High(Sum(a, b, c)) == Low(HighSum(a, b, c))
  {
  }

  lemma TopCarry(a: bv8, b: bv8, c: bv8)
    requires c <= 1
    ensures Carry(a, b, c) == High(HighSum(a, b, c))
  {
  }

  lemma LowSums(a: bv8, b: bv8, c: bv8)
    requires c <= 1
    ensures Number(LowSum(a, b, c)) == Number(Low(a)) + Number(Low(b)) + Number(c)
  {
    hide Number;
    NibbleSum(a & 15, b & 15, c);
  }

  lemma HighSums(a: bv8, b: bv8, c: bv8)
    requires c <= 1
    ensures Number(HighSum(a, b, c)) == Number(High(a)) + Number(High(b)) + Number(High(LowSum(a, b, c)))
  {
    hide Number;
    NibbleSum(a >> 4, b >> 4, ((a & 15) + (b & 15) + c) >> 4);
  }

  lemma CarryExact(a: bv8, b: bv8, c: bv8)
    requires c <= 1
    ensures Number(a) + Number(b) + Number(c) == 256 * Number(Carry(a, b, c)) + Number(Sum(a, b, c))
    ensures Carry(a, b, c) <= 1
  {
    hide Number, Carry, Low, High, Sum, LowSum, HighSum;
    LowCarry(a, b, c);
    HighCarry(a, b, c);
    TopCarry(a, b, c);
    LowSums(a, b, c);
    HighSums(a, b, c);
    NibbleExact(a);
    NibbleExact(b);
    NibbleExact(LowSum(a, b, c));
    NibbleExact(HighSum(a, b, c));
    NibbleExact(Sum(a, b, c));
  }

  lemma NibbleExact(a: bv8)
    ensures Number(a) == 16 * Number(High(a)) + Number(Low(a))
  {
  }

  lemma NibblesJoined(a: bv8, b: bv8)
    ensures Number((a << 4) | (b >> 4)) == 16 * Number(Low(a)) + Number(High(b))
  {
  }

  lemma LowBitExact(a: bv8, b: bv8)
    ensures Number(a) == 2 * Number(a >> 1) + Number(a & 1)
    ensures Number((a << 7) | (b >> 1)) == 128 * Number(a & 1) + Number(b >> 1)
  {
  }

  // Words --------------------------------------------------------------------------------------

  /** A byte of a word, the lowest first. */
  function Byte0(x: bv32): bv8 {
    (x & 0xff) as bv8
  }

  function Byte1(x: bv32): bv8 {
    ((x >> 8) & 0xff) as bv8
  }

  function Byte2(x: bv32): bv8 {
    ((x >> 16) & 0xff) as bv8
  }

  function Byte3(x: bv32): bv8 {
    ((x >> 24) & 0xff) as bv8
  }

  function Joined(a: bv8, b: bv8, c: bv8, d: bv8): (w: Word) {
    ByteBound(a);
    ByteBound(b);
    ByteBound(c);
    ByteBound(d);
    ((Number(a) * 256 + Number(b)) * 256 + Number(c)) * 256 + Number(d)
  }

  lemma ByteBound(x: bv8)
    ensures Number(x) < 256
  {
  }

  /** The number in a machine word. */
  function Value(x: bv32): Word {
    Joined(Byte3(x), Byte2(x), Byte1(x), Byte0(x))
  }

  lemma XorBytes(x: bv32, y: bv32)
    ensures Byte0(x ^ y) == Byte0(x) ^ Byte0(y) && Byte1(x ^ y) == Byte1(x) ^ Byte1(y)
    ensures Byte2(x ^ y) == Byte2(x) ^ Byte2(y) && Byte3(x ^ y) == Byte3(x) ^ Byte3(y)
  {
  }

  lemma JoinedXor(a: bv8, b: bv8, c: bv8, d: bv8, e: bv8, f: bv8, g: bv8, h: bv8)
    ensures Xor(Joined(a, b, c, d), Joined(e, f, g, h)) == Joined(a ^ e, b ^ f, c ^ g, d ^ h)
  {
    hide BitXor, Pow2, Number;
    OneByte();
    ByteBound(b);
    ByteBound(c);
    ByteBound(d);
    ByteBound(f);
    ByteBound(g);
    ByteBound(h);
    ByteXor(a, e);
    ByteXor(b, f);
    ByteXor(c, g);
    ByteXor(d, h);
    var x, y := Number(a) * 256 + Number(b), Number(e) * 256 + Number(f);
    SplitXor(Number(a), Number(e), Number(b), Number(f), 8);
    SplitXor(x, y, Number(c), Number(g), 8);
    SplitXor(x * 256 + Number(c), y * 256 + Number(g), Number(d), Number(h), 8);
  }

  lemma XorValue(x: bv32, y: bv32)
    ensures Xor(Value(x), Value(y)) == Value(x ^ y)
  {
    hide Xor, Joined, Byte0, Byte1, Byte2, Byte3;
    XorBytes(x, y);
    JoinedXor(Byte3(x), Byte2(x), Byte1(x), Byte0(x), Byte3(y), Byte2(y), Byte1(y), Byte0(y));
  }

  /** The carry into each byte of a sum. */
  function Carry1(x: bv32, y: bv32): bv8 {
    (((x & 0xff) + (y & 0xff)) >> 8) as bv8
  }

  function Carry2(x: bv32, y: bv32): bv8 {
    (((x & 0xffff) + (y & 0xffff)) >> 16) as bv8
  }

  function Carry3(x: bv32, y: bv32): bv8 {
    (((x & 0xff_ffff) + (y & 0xff_ffff)) >> 24) as bv8
  }

  lemma SumBytes(x: bv32, y: bv32)
    ensures Byte0(x + y) == Sum(Byte0(x), Byte0(y), 0) && Byte1(x + y) == Sum(Byte1(x), Byte1(y), Carry1(x, y))
  {
  }

  lemma SumHighBytes(x: bv32, y: bv32)
    ensures Byte2(x + y) == Sum(Byte2(x), Byte2(y), Carry2(x, y))
  {
  }

  lemma SumTopBytes(x: bv32, y: bv32)
    ensures Byte3(x + y) == Sum(Byte3(x), Byte3(y), Carry3(x, y))
  {
  }

  lemma FirstCarries(x: bv32, y: bv32)
    ensures Carry1(x, y) == Carry(Byte0(x), Byte0(y), 0) && Carry2(x, y) == Carry(Byte1(x), Byte1(y), Carry1(x, y))
  {
  }

  lemma LastCarry(x: bv32, y: bv32)
    ensures Carry3(x, y) == Carry(Byte2(x), Byte2(y), Carry2(x, y))
  {
  }

  lemma AddValue(x: bv32, y: bv32)
    ensures Add(Value(x), Value(y)) == Value(x + y)
  {
    hide Byte0, Byte1, Byte2, Byte3, Carry, Carry1, Carry2, Carry3, Sum, Number;
    var c1, c2, c3 := Carry1(x, y), Carry2(x, y), Carry3(x, y);
    SumBytes(x, y);
    SumHighBytes(x, y);
    SumTopBytes(x, y);
    FirstCarries(x, y);
    LastCarry(x, y);
    ZeroXor(0);
    CarryExact(Byte0(x), Byte0(y), 0);
    CarryExact(Byte1(x), Byte1(y), c1);
    CarryExact(Byte2(x), Byte2(y), c2);
    CarryExact(Byte3(x), Byte3(y), c3);
    var c4 := Carry(Byte3(x), Byte3(y), c3);
    assert Value(x) + Value(y) == TWO_32 * Number(c4) + Value(x + y);
    Unique(Value(x) + Value(y), TWO_32, Number(c4), Value(x + y));
  }

  /** `rotate_left` */
  function Rotated(x: bv32, r: nat): bv32
    requires 0 < r < 32
  {
    (x << r) | (x >> (32 - r))
  }

  lemma RotatedHalves(x: bv32)
    ensures Byte3(Rotated(x, 16)) == Byte1(x) && Byte2(Rotated(x, 16)) == Byte0(x)
    ensures Byte1(Rotated(x, 16)) == Byte3(x) && Byte0(Rotated(x, 16)) == Byte2(x)
  {
  }

  lemma RotatedBytes(x: bv32)
    ensures Byte3(Rotated(x, 8)) == Byte2(x) && Byte2(Rotated(x, 8)) == Byte1(x)
    ensures Byte1(Rotated(x, 8)) == Byte0(x) && Byte0(Rotated(x, 8)) == Byte3(x)
  {
  }

  lemma RotatedNibbles(x: bv32)
    ensures var a, b, c, d := Byte3(x), Byte2(x), Byte1(x), Byte0(x);
            && Byte3(Rotated(x, 12)) == (b << 4) | (c >> 4) && Byte2(Rotated(x, 12)) == (c << 4) | (d >> 4)
            && Byte1(Rotated(x, 12)) == (d << 4) | (a >> 4) && Byte0(Rotated(x, 12)) == (a << 4) | (b >> 4)
  {
  }

  lemma RotatedBits(x: bv32)
    ensures var a, b, c, d := Byte3(x), Byte2(x), Byte1(x), Byte0(x);
            && Byte3(Rotated(x, 7)) == (a << 7) | (b >> 1) && Byte2(Rotated(x, 7)) == (b << 7) | (c >> 1)
            && Byte1(Rotated(x, 7)) == (c << 7) | (d >> 1) && Byte0(Rotated(x, 7)) == (d << 7) | (a >> 1)
  {
  }

  lemma SmallPowers()
    ensures Pow2(7) == 0x80 && Pow2(8) == 0x100 && Pow2(12) == 0x1000 && Pow2(16) == 0x1_0000
    ensures Pow2(20) == 0x10_0000 && Pow2(24) == 0x100_0000 && Pow2(25) == 0x200_0000
  {
    OneByte();
    assert Pow2(8) == 2 * Pow2(7);
    assert Pow2(12) == 16 * Pow2(8);
    assert Pow2(16) == 16 * Pow2(12);
    assert Pow2(20) == 16 * Pow2(16);
    assert Pow2(24) == 16 * Pow2(20);
    assert Pow2(25) == 2 * Pow2(24);
  }

  /** A word of a high and a low part is rotated by the size of the high part. */
  lemma PartsTurned(x: Word, r: nat, high: nat, low: nat)
    requires r <= 32 && low < Pow2(32 - r) && x == high * Pow2(32 - r) + low
    ensures Rotl(x, r) == low * Pow2(r) + high
  {
    hide Pow2;
    RotFacts(x, r);
    Unique(x, Pow2(32 - r), high, low);
  }

  lemma RotateValue(x: bv32, r: nat)
    requires r == 16 || r == 12 || r == 8 || r == 7
    ensures Rotl(Value(x), r) == Value(Rotated(x, r))
  {
    hide Byte0, Byte1, Byte2, Byte3, Number, Low, High, Rotl, Rotated, Pow2;
    SmallPowers();
    var a, b, c, d := Byte3(x), Byte2(x), Byte1(x), Byte0(x);
    ByteBound(a);
    ByteBound(b);
    ByteBound(c);
    ByteBound(d);
    if r == 16 {
      RotatedHalves(x);
      PartsTurned(Value(x), 16, Number(a) * 256 + Number(b), Number(c) * 256 + Number(d));
    } else if r == 8 {
      RotatedBytes(x);
      PartsTurned(Value(x), 8, Number(a), (Number(b) * 256 + Number(c)) * 256 + Number(d));
    } else if r == 12 {
      RotateNibbles(x, a, b, c, d);
    } else {
      RotateBits(x, a, b, c, d);
    }
  }

  lemma RotateNibbles(x: bv32, a: bv8, b: bv8, c: bv8, d: bv8)
    requires a == Byte3(x) && b == Byte2(x) && c == Byte1(x) && d == Byte0(x)
    ensures Rotl(Value(x), 12) == Value(Rotated(x, 12))
  {
    hide Byte0, Byte1, Byte2, Byte3, Number, Low, High, Rotl, Rotated, Pow2;
    SmallPowers();
    RotatedNibbles(x);
    ByteBound(c);
    ByteBound(d);
    LowBound(b);
    NibbleExact(b);
    var high, low := Number(a) * 16 + Number(High(b)), (Number(Low(b)) * 256 + Number(c)) * 256 + Number(d);
    PartsTurned(Value(x), 12, high, low);
    NibblesMoved(a, b, c, d);
  }

  lemma NibblesMoved(a: bv8, b: bv8, c: bv8, d: bv8)
    ensures ((Number(Low(b)) * 256 + Number(c)) * 256 + Number(d)) * 0x1000 + (Number(a) * 16 + Number(High(b))) ==
            Joined((b << 4) | (c >> 4), (c << 4) | (d >> 4), (d << 4) | (a >> 4), (a << 4) | (b >> 4))
  {
    NibblesJoined(b, c);
    NibblesJoined(c, d);
    NibblesJoined(d, a);
    NibblesJoined(a, b);
    hide Number, Low, High;
    NibbleExact(a);
    NibbleExact(c);
    NibbleExact(d);
  }

  lemma LowBound(a: bv8)
    ensures Number(Low(a)) < 16 && Number(a & 1) < 2
  {
  }

  lemma RotateBits(x: bv32, a: bv8, b: bv8, c: bv8, d: bv8)
    requires a == Byte3(x) && b == Byte2(x) && c == Byte1(x) && d == Byte0(x)
    ensures Rotl(Value(x), 7) == Value(Rotated(x, 7))
  {
    hide Byte0, Byte1, Byte2, Byte3, Number, Rotl, Rotated, Pow2;
    SmallPowers();
    RotatedBits(x);
    ByteBound(b);
    ByteBound(c);
    ByteBound(d);
    LowBound(a);
    LowBitExact(a, b);
    var low := ((Number(a & 1) * 256 + Number(b)) * 256 + Number(c)) * 256 + Number(d);
    PartsTurned(Value(x), 7, Number(a >> 1), low);
    BitsMoved(a, b, c, d);
  }

  lemma BitsMoved(a: bv8, b: bv8, c: bv8, d: bv8)
    ensures (((Number(a & 1) * 256 + Number(b)) * 256 + Number(c)) * 256 + Number(d)) * 0x80 + Number(a >> 1) ==
            Joined((a << 7) | (b >> 1), (b << 7) | (c >> 1), (c << 7) | (d >> 1), (d << 7) | (a >> 1))
  {
    hide Number;
    LowBitExact(a, b);
    LowBitExact(b, c);
    LowBitExact(c, d);
    LowBitExact(d, a);
  }
}
