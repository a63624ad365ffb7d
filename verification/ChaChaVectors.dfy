/** The block function on machine words, as the code runs it, and the test vectors of RFC 8439. */
module ChaChaVectors {
  import opened ChaCha
  import opened ChaChaWords

  type Words = s: seq<bv32> | |s| == 16 witness seq(16, _ => 0)

  datatype Four = Four(a: bv32, b: bv32, c: bv32, d: bv32)

  function Plus(x: bv32, y: bv32): bv32 {
    x + y
  }

  /** `d` with `a` folded in and rotated. */
  function Mix16(d: bv32, a: bv32): bv32 {
    Rotated(d ^ a, 16)
  }

  function Mix12(d: bv32, a: bv32): bv32 {
    Rotated(d ^ a, 12)
  }

  function Mix8(d: bv32, a: bv32): bv32 {
    Rotated(d ^ a, 8)
  }

  function Mix7(d: bv32, a: bv32): bv32 {
    Rotated(d ^ a, 7)
  }

  /** Section 2.1: the four lines of the quarter round. */
  function QuarterBits(x: Four): Four {
    var a1 := Plus(x.a, x.b);
    var d1 := Mix16(x.d, a1);
    var c1 := Plus(x.c, d1);
    var b1 := Mix12(x.b, c1);
    var a2 := Plus(a1, b1);
    var d2 := Mix8(d1, a2);
    var c2 := Plus(c1, d2);
    Four(a2, Mix7(b1, c2), c2, d2)
  }

  function Values(x: Four): Quad {
    Quad(Value(x.a), Value(x.b), Value(x.c), Value(x.d))
  }

  lemma PlusValue(x: bv32, y: bv32)
    ensures Add(Value(x), Value(y)) == Value(Plus(x, y))
  {
    hide Value, Add;
    AddValue(x, y);
  }

  lemma MixValue(x: bv32, y: bv32)
    ensures Rotl(Xor(Value(x), Value(y)), 16) == Value(Mix16(x, y)) && Rotl(Xor(Value(x), Value(y)), 12) == Value(Mix12(x, y))
    ensures Rotl(Xor(Value(x), Value(y)), 8) == Value(Mix8(x, y)) && Rotl(Xor(Value(x), Value(y)), 7) == Value(Mix7(x, y))
  {
    hide Value, Xor, Rotl, Rotated;
    XorValue(x, y);
    RotateValue(x ^ y, 16);
    RotateValue(x ^ y, 12);
    RotateValue(x ^ y, 8);
    RotateValue(x ^ y, 7);
  }

  /** The quarter round of the model is that of the machine. */
  lemma QuarterValue(x: Four)
    ensures Quarter(Values(x)) == Values(QuarterBits(x))
  {
    hide Add, Xor, Rotl, Value, Plus, Mix16, Mix12, Mix8, Mix7;
    var a1 := Plus(x.a, x.b);
    var d1 := Mix16(x.d, a1);
    var c1 := Plus(x.c, d1);
    var b1 := Mix12(x.b, c1);
    var a2 := Plus(a1, b1);
    var d2 := Mix8(d1, a2);
    PlusValue(x.a, x.b);
    MixValue(x.d, a1);
    PlusValue(x.c, d1);
    MixValue(x.b, c1);
    PlusValue(a1, b1);
    MixValue(d1, a2);
    PlusValue(c1, d2);
    MixValue(b1, Plus(c1, d2));
  }

  // Whole states -------------------------------------------------------------------------------

  function ValueState(s: Words): State {
    seq(16, i requires 0 <= i < 16 => Value(s[i]))
  }

  /** Four columns side by side. */
  function Columns(q: Four, r: Four, t: Four, u: Four): Words {
    [q.a, r.a, t.a, u.a, q.b, r.b, t.b, u.b, q.c, r.c, t.c, u.c, q.d, r.d, t.d, u.d]
  }

  /** Four diagonals side by side. */
  function Diagonals(q: Four, r: Four, t: Four, u: Four): Words {
    [q.a, r.a, t.a, u.a, u.b, q.b, r.b, t.b, t.c, u.c, q.c, r.c, r.d, t.d, u.d, q.d]
  }

  /** Section 2.3: a column round and a diagonal round. */
  function ColumnBits(s: Words): Words {
    Columns(QuarterBits(Four(s[0], s[4], s[8], s[12])), QuarterBits(Four(s[1], s[5], s[9], s[13])),
            QuarterBits(Four(s[2], s[6], s[10], s[14])), QuarterBits(Four(s[3], s[7], s[11], s[15])))
  }

  function DiagonalBits(s: Words): Words {
    Diagonals(QuarterBits(Four(s[0], s[5], s[10], s[15])), QuarterBits(Four(s[1], s[6], s[11], s[12])),
              QuarterBits(Four(s[2], s[7], s[8], s[13])), QuarterBits(Four(s[3], s[4], s[9], s[14])))
  }

  function DoubleBits(s: Words): Words {
    DiagonalBits(ColumnBits(s))
  }

  function RoundsBits(s: Words, n: nat): Words
    decreases n
  {
    if n == 0 then s else RoundsBits(DoubleBits(s), n - 1)
  }

  function AddBits(r: Words, s: Words): Words {
    seq(16, i requires 0 <= i < 16 => Plus(r[i], s[i]))
  }

  /** Section 2.3: twenty rounds, and the input added. */
  function BlockBits(s: Words): Words {
    AddBits(RoundsBits(s, 10), s)
  }

  // One quarter round after another --------------------------------------------------------------

  function TakeBits(s: Words, p: Places): Four
    requires p.Ok()
  {
    Four(s[p.a], s[p.b], s[p.c], s[p.d])
  }

  function PutBits(s: Words, p: Places, q: Four): Words
    requires p.Ok()
  {
    s[p.a := q.a][p.b := q.b][p.c := q.c][p.d := q.d]
  }

  function StepBits(s: Words, p: Places): Words
    requires p.Ok()
  {
    PutBits(s, p, QuarterBits(TakeBits(s, p)))
  }

  lemma PutValue(s: Words, p: Places, q: Four)
    requires p.Ok()
    ensures Put(ValueState(s), p, Values(q)) == ValueState(PutBits(s, p, q))
  {
    hide Value;
  }

  lemma StepValue(s: Words, ps: seq<Places>)
    requires ps != [] && forall i :: 0 <= i < |ps| ==> ps[i].Ok()
    ensures Apply(ValueState(s), ps) == Apply(ValueState(StepBits(s, ps[0])), ps[1..])
  {
    hide Quarter, QuarterBits, Value, PutBits, Put;
    QuarterValue(TakeBits(s, ps[0]));
    PutValue(s, ps[0], QuarterBits(TakeBits(s, ps[0])));
  }

  ghost predicate Apart(p: Places, r: Places) {
    && p.a != r.a && p.a != r.b && p.a != r.c && p.a != r.d && p.b != r.a && p.b != r.b && p.b != r.c && p.b != r.d
    && p.c != r.a && p.c != r.b && p.c != r.c && p.c != r.d && p.d != r.a && p.d != r.b && p.d != r.c && p.d != r.d
  }

  lemma StepTaken(s: Words, p: Places, r: Places)
    requires p.Ok() && r.Ok() && Apart(p, r)
    ensures TakeBits(StepBits(s, p), p) == QuarterBits(TakeBits(s, p))
    ensures TakeBits(StepBits(s, p), r) == TakeBits(s, r)
  {
    hide QuarterBits;
  }

  /** Four steps at places apart do not disturb one another. */
  lemma FourTaken(s: Words, p: Places, q: Places, r: Places, u: Places, t: Words)
    requires p.Ok() && q.Ok() && r.Ok() && u.Ok()
    requires Apart(p, q) && Apart(p, r) && Apart(p, u) && Apart(q, p) && Apart(q, r) && Apart(q, u)
    requires Apart(r, p) && Apart(r, q) && Apart(r, u) && Apart(u, p) && Apart(u, q) && Apart(u, r)
    requires t == StepBits(StepBits(StepBits(StepBits(s, p), q), r), u)
    ensures TakeBits(t, p) == QuarterBits(TakeBits(s, p)) && TakeBits(t, q) == QuarterBits(TakeBits(s, q))
    ensures TakeBits(t, r) == QuarterBits(TakeBits(s, r)) && TakeBits(t, u) == QuarterBits(TakeBits(s, u))
  {
    hide StepBits, TakeBits, QuarterBits, Apart;
    var s1 := StepBits(s, p);
    var s2 := StepBits(s1, q);
    var s3 := StepBits(s2, r);
    StepTaken(s, p, q);
    StepTaken(s, p, r);
    StepTaken(s, p, u);
    StepTaken(s1, q, p);
    StepTaken(s1, q, r);
    StepTaken(s1, q, u);
    StepTaken(s2, r, p);
    StepTaken(s2, r, q);
    StepTaken(s2, r, u);
    StepTaken(s3, u, p);
    StepTaken(s3, u, q);
    StepTaken(s3, u, r);
  }

  lemma ColumnSteps(s: Words)
    ensures StepBits(StepBits(StepBits(StepBits(s, Places(0, 4, 8, 12)), Places(1, 5, 9, 13)), Places(2, 6, 10, 14)),
                     Places(3, 7, 11, 15)) == ColumnBits(s)
  {
    hide StepBits, QuarterBits;
    var p, q, r, u := Places(0, 4, 8, 12), Places(1, 5, 9, 13), Places(2, 6, 10, 14), Places(3, 7, 11, 15);
    var t := StepBits(StepBits(StepBits(StepBits(s, p), q), r), u);
    FourTaken(s, p, q, r, u, t);
    ColumnsTaken(t);
  }

  lemma ColumnsTaken(t: Words)
    ensures t == Columns(TakeBits(t, Places(0, 4, 8, 12)), TakeBits(t, Places(1, 5, 9, 13)),
                         TakeBits(t, Places(2, 6, 10, 14)), TakeBits(t, Places(3, 7, 11, 15)))
  {
  }

  lemma DiagonalSteps(s: Words)
    ensures StepBits(StepBits(StepBits(StepBits(s, Places(0, 5, 10, 15)), Places(1, 6, 11, 12)), Places(2, 7, 8, 13)),
                     Places(3, 4, 9, 14)) == DiagonalBits(s)
  {
    hide StepBits, QuarterBits;
    var p, q, r, u := Places(0, 5, 10, 15), Places(1, 6, 11, 12), Places(2, 7, 8, 13), Places(3, 4, 9, 14);
    var t := StepBits(StepBits(StepBits(StepBits(s, p), q), r), u);
    FourTaken(s, p, q, r, u, t);
    DiagonalsTaken(t);
  }

  lemma DiagonalsTaken(t: Words)
    ensures t == Diagonals(TakeBits(t, Places(0, 5, 10, 15)), TakeBits(t, Places(1, 6, 11, 12)),
                           TakeBits(t, Places(2, 7, 8, 13)), TakeBits(t, Places(3, 4, 9, 14)))
  {
  }

  lemma FourSteps(s: Words, ps: seq<Places>)
    requires |ps| >= 4 && forall i :: 0 <= i < |ps| ==> ps[i].Ok()
    ensures Apply(ValueState(s), ps) ==
            Apply(ValueState(StepBits(StepBits(StepBits(StepBits(s, ps[0]), ps[1]), ps[2]), ps[3])), ps[4..])
  {
    hide Apply, StepBits, ValueState;
    var s1 := StepBits(s, ps[0]);
    var s2 := StepBits(s1, ps[1]);
    var s3 := StepBits(s2, ps[2]);
    StepValue(s, ps);
    StepValue(s1, ps[1..]);
    assert ps[1..][1..] == ps[2..];
    StepValue(s2, ps[2..]);
    assert ps[2..][1..] == ps[3..];
    StepValue(s3, ps[3..]);
    assert ps[3..][1..] == ps[4..];
  }

  lemma DoubleValue(s: Words)
    ensures Apply(ValueState(s), Schedule()) == ValueState(DoubleBits(s))
  {
    hide StepBits, ValueState, ColumnBits, DiagonalBits, Apply;
    var ps := Schedule();
    FourSteps(s, ps);
    ColumnSteps(s);
    var rest := ps[4..];
    assert rest[0] == ps[4] && rest[1] == ps[5] && rest[2] == ps[6] && rest[3] == ps[7];
    FourSteps(ColumnBits(s), rest);
    DiagonalSteps(ColumnBits(s));
    assert rest[4..] == [];
    NothingApplied(ValueState(DoubleBits(s)), rest[4..]);
  }

  lemma NothingApplied(s: State, ps: seq<Places>)
    requires ps == []
    ensures Apply(s, ps) == s
  {
  }

  lemma {:induction false} RoundsValue(s: Words, n: nat)
    ensures Rounds(ValueState(s), n) == ValueState(RoundsBits(s, n))
    decreases n
  {
    hide Apply, Schedule, ValueState, DoubleBits;
    if n > 0 {
      DoubleValue(s);
      RoundsValue(DoubleBits(s), n - 1);
    }
  }

  /** The block function of the model is that of the machine, for every input. */
  lemma BlockValue(s: Words)
    ensures Block(ValueState(s)) == ValueState(BlockBits(s))
  {
    hide Rounds, RoundsBits, Plus, Add, Value;
    RoundsValue(s, 10);
    var r := RoundsBits(s, 10);
    forall i | 0 <= i < 16 ensures Add(Value(r[i]), Value(s[i])) == Value(Plus(r[i], s[i])) {
      PlusValue(r[i], s[i]);
    }
  }

  // The example of section 2.3.2 ---------------------------------------------------------------

  /** Constants, key, counter and nonce. */
  function Input(): Words {
    [0x61707865, 0x3320646e, 0x79622d32, 0x6b206574, 0x03020100, 0x07060504, 0x0b0a0908, 0x0f0e0d0c,
     0x13121110, 0x17161514, 0x1b1a1918, 0x1f1e1d1c, 0x00000001, 0x09000000, 0x4a000000, 0x00000000]
  }

  function After2(): Words {
    [0xcd52e917, 0x85ab03b4, 0xb3457395, 0xf96de7dd, 0xc4b7cd22, 0x5c2e187a, 0xc95eb461, 0x316c801a,
     0x7bf7d740, 0x7eddd644, 0xf1a1bdf5, 0x761246ca, 0x6b0d58a3, 0x6798471a, 0xd737f167, 0xf173888d]
  }

  function After4(): Words {
    [0xcf1a7584, 0x048927ec, 0x54051fda, 0xc244ff28, 0x901d2f40, 0x7974b81c, 0x378dcfb4, 0xcd47fd0e,
     0x2dafb216, 0x27c89cd6, 0xcd3c9aa0, 0x79fc89c7, 0x10aef18d, 0x16218765, 0x68f76705, 0x04d6ee22]
  }

  function After6(): Words {
    [0x03a14032, 0x66b15927, 0x9d6b6b42, 0xb84c4109, 0xa7143ae0, 0xa09b33dd, 0xa5daaf88, 0x2fd91a73,
     0xc90c6b18, 0x5a202413, 0xc20e01b6, 0x72cd6b74, 0xba35d777, 0xb360f1bf, 0x8178315b, 0x2cd11b1a]
  }

  function After8(): Words {
    [0x9a2d3589, 0x0b23fc4e, 0x40af3b6b, 0xceea8144, 0x0a1bffc6, 0x5e5993f7, 0x9904c2e7, 0x0d334718,
     0xe46c6354, 0xc9503229, 0x04fef5aa, 0xf8933f72, 0x2687d476, 0x54e65231, 0x3594ffc5, 0x2b3bb2ca]
  }

  function After10(): Words {
    [0xc53318c5, 0xca325d96, 0x7e7d11cb, 0x3404e2ca, 0x26d7cf73, 0x6088d379, 0xc0f0e9bd, 0xe310cdb9,
     0xae2ca8db, 0x42f67c72, 0x71669aca, 0x975c171d, 0x9e5ec228, 0x7d85a9f3, 0x201d0756, 0x63fa6953]
  }

  function After12(): Words {
    [0x04a3131a, 0x66176309, 0x0415bab1, 0x61b880a2, 0x36cc86c7, 0xbf8a4465, 0xf77dd720, 0xfc0bdc90,
     0x07d13aca, 0xeb0be9af, 0x61599491, 0x918512dc, 0x33b6686d, 0x795cc671, 0xc0049972, 0xa0a81bde]
  }

  function After14(): Words {
    [0x9b70f51f, 0x7ea8ac11, 0x21e54da9, 0xca393b2f, 0x93b08686, 0x6a4c50ae, 0x19212a5a, 0x9b032958,
     0xd839165e, 0x4c06e28a, 0xd3fde99e, 0x26acc13d, 0xa609f555, 0x2c246549, 0x95151853, 0x2c847a0d]
  }

  function After16(): Words {
    [0xca5c85dd, 0x93a4f90e, 0xd9f0df58, 0x26dd82dd, 0x982563f8, 0x712aa9ff, 0x279a61e8, 0x970f72bd,
     0x1c25931a, 0x5180bb10, 0x779c27e7, 0x54077e08, 0xa9b751fb, 0x382f3ce2, 0x8db1757d, 0xcc38080b]
  }

  function After18(): Words {
    [0xb6b87de6, 0x9a016148, 0x93859815, 0x4915e6cc, 0xdc33c122, 0x98e18fa3, 0x5ffbe8fc, 0xf7154b8b,
     0x28c1fcb3, 0xc4b38f9d, 0x83e2f5d7, 0x7d24b98b, 0x21078b22, 0xb193e7a3, 0xb2f49389, 0x6cde6026]
  }

  function After20(): Words {
    [0x837778ab, 0xe238d763, 0xa67ae21e, 0x5950bb2f, 0xc4f2d0c7, 0xfc62bb2f, 0x8fa018fc, 0x3f5ec7b7,
     0x335271c2, 0xf29489f3, 0xeabda8fc, 0x82e46ebd, 0xd19c12b4, 0xb04e16de, 0x9e83d0cb, 0x4e3c50a2]
  }

  /** The block. */
  function Output(): Words {
    [0xe4e7f110, 0x15593bd1, 0x1fdd0f50, 0xc47120a3, 0xc7f4d1c7, 0x0368c033, 0x9aaa2204, 0x4e6cd4c3,
     0x466482d2, 0x09aa9f07, 0x05d7c214, 0xa2028bd9, 0xd19c12b5, 0xb94e16de, 0xe883d0cb, 0x4e3c50a2]
  }

  lemma Rounds2()
    ensures DoubleBits(Input()) == After2()
  {
  }

  lemma Rounds4()
    ensures DoubleBits(After2()) == After4()
  {
  }

  lemma Rounds6()
    ensures DoubleBits(After4()) == After6()
  {
  }

  lemma Rounds8()
    ensures DoubleBits(After6()) == After8()
  {
  }

  lemma Rounds10()
    ensures DoubleBits(After8()) == After10()
  {
  }

  lemma Rounds12()
    ensures DoubleBits(After10()) == After12()
  {
  }

  lemma Rounds14()
    ensures DoubleBits(After12()) == After14()
  {
  }

  lemma Rounds16()
    ensures DoubleBits(After14()) == After16()
  {
  }

  lemma Rounds18()
    ensures DoubleBits(After16()) == After18()
  {
  }

  lemma Rounds20()
    ensures DoubleBits(After18()) == After20()
  {
  }

  lemma ExampleRounds(n: nat)
    requires n == 10
    ensures RoundsBits(Input(), n) == After20()
  {
    hide DoubleBits, Input, After2, After4, After6, After8, After10, After12, After14, After16, After18, After20;
    Rounds2();
    Rounds4();
    Rounds6();
    Rounds8();
    Rounds10();
    Rounds12();
    Rounds14();
    Rounds16();
    Rounds18();
    Rounds20();
    assert RoundsBits(Input(), n) == RoundsBits(After8(), n - 4);
    assert RoundsBits(After8(), n - 4) == RoundsBits(After16(), n - 8);
  }

  lemma ExampleSum()
    ensures AddBits(After20(), Input()) == Output()
  {
    var r, s, t := After20(), Input(), Output();
    hide AddBits;
    assert Plus(r[0], s[0]) == t[0] && Plus(r[1], s[1]) == t[1] && Plus(r[2], s[2]) == t[2] && Plus(r[3], s[3]) == t[3];
    assert Plus(r[4], s[4]) == t[4] && Plus(r[5], s[5]) == t[5] && Plus(r[6], s[6]) == t[6] && Plus(r[7], s[7]) == t[7];
    assert Plus(r[8], s[8]) == t[8] && Plus(r[9], s[9]) == t[9] && Plus(r[10], s[10]) == t[10] && Plus(r[11], s[11]) == t[11];
    assert Plus(r[12], s[12]) == t[12] && Plus(r[13], s[13]) == t[13] && Plus(r[14], s[14]) == t[14]
           && Plus(r[15], s[15]) == t[15];
    hide Plus;
    SumIs(r, s, t);
  }

  lemma SumIs(r: Words, s: Words, t: Words)
    requires Plus(r[0], s[0]) == t[0] && Plus(r[1], s[1]) == t[1] && Plus(r[2], s[2]) == t[2] && Plus(r[3], s[3]) == t[3]
    requires Plus(r[4], s[4]) == t[4] && Plus(r[5], s[5]) == t[5] && Plus(r[6], s[6]) == t[6] && Plus(r[7], s[7]) == t[7]
    requires Plus(r[8], s[8]) == t[8] && Plus(r[9], s[9]) == t[9] && Plus(r[10], s[10]) == t[10]
    requires Plus(r[11], s[11]) == t[11] && Plus(r[12], s[12]) == t[12] && Plus(r[13], s[13]) == t[13]
    requires Plus(r[14], s[14]) == t[14] && Plus(r[15], s[15]) == t[15]
    ensures AddBits(r, s) == t
  {
    hide Plus;
  }

  lemma ExampleBlock()
    ensures Block(ValueState(Input())) == ValueState(Output())
  {
    hide Block, RoundsBits, AddBits, ValueState, Input, Output, After20;
    BlockValue(Input());
    ExampleRounds(10);
    ExampleSum();
  }

  lemma InputValues()
    ensures ValueState(Input()) ==
            [0x61707865, 0x3320646e, 0x79622d32, 0x6b206574, 0x03020100, 0x07060504, 0x0b0a0908, 0x0f0e0d0c,
             0x13121110, 0x17161514, 0x1b1a1918, 0x1f1e1d1c, 0x00000001, 0x09000000, 0x4a000000, 0x00000000]
  {
  }

  lemma OutputValues()
    ensures ValueState(Output()) ==
            [0xe4e7f110, 0x15593bd1, 0x1fdd0f50, 0xc47120a3, 0xc7f4d1c7, 0x0368c033, 0x9aaa2204, 0x4e6cd4c3,
             0x466482d2, 0x09aa9f07, 0x05d7c214, 0xa2028bd9, 0xd19c12b5, 0xb94e16de, 0xe883d0cb, 0x4e3c50a2]
  {
  }

  /** The block of the example. */
  lemma BlockExample()
    ensures Block([0x61707865, 0x3320646e, 0x79622d32, 0x6b206574, 0x03020100, 0x07060504, 0x0b0a0908, 0x0f0e0d0c,
                   0x13121110, 0x17161514, 0x1b1a1918, 0x1f1e1d1c, 0x00000001, 0x09000000, 0x4a000000, 0x00000000]) ==
            [0xe4e7f110, 0x15593bd1, 0x1fdd0f50, 0xc47120a3, 0xc7f4d1c7, 0x0368c033, 0x9aaa2204, 0x4e6cd4c3,
             0x466482d2, 0x09aa9f07, 0x05d7c214, 0xa2028bd9, 0xd19c12b5, 0xb94e16de, 0xe883d0cb, 0x4e3c50a2]
  {
    hide Block, ValueState, Input, Output;
    InputValues();
    OutputValues();
    ExampleBlock();
  }

  /** The quarter round of section 2.1.1. */
  lemma QuarterExample()
    ensures Quarter(Quad(0x11111111, 0x01020304, 0x9b8d6f43, 0x01234567)) ==
            Quad(0xea2a92f4, 0xcb1cf8ce, 0x4581472e, 0x5881c4bb)
  {
    hide Quarter;
    QuarterValue(Four(0x11111111, 0x01020304, 0x9b8d6f43, 0x01234567));
  }
}
