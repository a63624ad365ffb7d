/** The ChaCha generator: the block function, whose rounds can be undone, and the stream of words it
    produces under a 128-bit counter. */
module ChaCha {
  import opened Common
  import opened Division
  import opened Powers

  const TWO_32: nat := 0x1_0000_0000

  type Word = w: nat | w < TWO_32

  type State = s: seq<Word> | |s| == 16 witness seq(16, _ => 0)

  // Words --------------------------------------------------------------------------------------

  function Add(x: Word, y: Word): Word {
    (x + y) % TWO_32
  }

  function Sub(x: Word, y: Word): Word {
    (x - y) % TWO_32
  }

  function BitXor(a: nat, b: nat): nat
    decreases a + b
  {
    if a == 0 then b
    else if b == 0 then a
    else (if a % 2 != b % 2 then 1 else 0) + 2 * BitXor(a / 2, b / 2)
  }

  lemma {:induction false} XorBound(a: nat, b: nat, n: nat)
    requires a < Pow2(n) && b < Pow2(n)
    ensures BitXor(a, b) < Pow2(n)
    decreases n
  {
    if a != 0 && b != 0 {
      XorBound(a / 2, b / 2, n - 1);
    }
  }

  lemma {:induction false} XorTwice(a: nat, b: nat)
    ensures BitXor(BitXor(a, b), b) == a
    decreases a + b
  {
    if b == 0 {
    } else if a == 0 {
      XorSelf(b);
    } else {
      XorTwice(a / 2, b / 2);
      var h := BitXor(a / 2, b / 2);
      var x := BitXor(a, b);
      assert x / 2 == h && x % 2 == (if a % 2 != b % 2 then 1 else 0);
      if x == 0 {
        assert h == 0 && BitXor(0, b / 2) == b / 2;
      }
    }
  }

  lemma {:induction false} XorSelf(b: nat)
    ensures BitXor(b, b) == 0
  {
    if b != 0 {
      XorSelf(b / 2);
    }
  }

  function Bit(x: nat, i: nat): nat {
    if i == 0 then x % 2 else Bit(x / 2, i - 1)
  }

  /** Every bit of the result is set exactly where the two differ. */
  lemma {:induction false} XorBit(a: nat, b: nat, i: nat)
    ensures Bit(BitXor(a, b), i) == if Bit(a, i) == Bit(b, i) then 0 else 1
    decreases i
  {
    if i == 0 {
    } else if a == 0 || b == 0 {
      ZeroBit(i);
      XorBit(a / 2, b / 2, i - 1);
    } else {
      XorBit(a / 2, b / 2, i - 1);
      assert BitXor(a, b) / 2 == BitXor(a / 2, b / 2);
    }
  }

  lemma {:induction false} ZeroBit(i: nat)
    ensures Bit(0, i) == 0
  {
    if i > 0 {
      ZeroBit(i - 1);
    }
  }

  function Xor(x: Word, y: Word): Word {
    Pow2Values();
    XorBound(x, y, 32);
    BitXor(x, y)
  }

  /** Rotation left by `r`: the upper `r` bits come back below. */
  function Rotl(x: Word, r: nat): Word
    requires r <= 32
  {
    RotFacts(x, r);
    x % Pow2(32 - r) * Pow2(r) + x / Pow2(32 - r)
  }

  lemma RotFacts(x: nat, r: nat)
    requires r <= 32 && x < TWO_32
    ensures Pow2(32 - r) > 0 && Pow2(r) > 0 && Pow2(r) * Pow2(32 - r) == TWO_32
    ensures x / Pow2(32 - r) < Pow2(r)
    ensures 0 <= x % Pow2(32 - r) * Pow2(r) + x / Pow2(32 - r) < TWO_32
  {
    hide Pow2;
    Pow2Positive(r);
    Pow2Positive(32 - r);
    Pow2Sum(r, 32 - r);
    Pow2Values();
    var p, q := Pow2(r), Pow2(32 - r);
    Divided(x, q);
    Parts(p, q, x / q, x % q);
  }

  lemma Parts(p: nat, q: nat, h: nat, l: nat)
    requires p > 0 && q > 0 && l < q && q * h + l < p * q
    ensures h < p && 0 <= l * p + h < p * q
  {
    Monotone(p, h, q);
    Monotone(l, q - 1, p);
    Monotone(0, l, p);
  }

  lemma Monotone(a: nat, b: nat, c: nat)
    ensures a <= b ==> a * c <= b * c
  {
    if a <= b {
      assert (b - a) * c >= 0;
    }
  }

  /** Rotating by the rest of the word undoes it. */
  lemma RotlBack(x: Word, r: nat)
    requires r <= 32
    ensures Rotl(Rotl(x, r), 32 - r) == x
  {
    hide Pow2;
    RotFacts(x, r);
    var p, q := Pow2(r), Pow2(32 - r);
    var h, l := x / q, x % q;
    Divided(x, q);
    var y := l * p + h;
    Unique(y, p, l, h);
    RotFacts(y, 32 - r);
    assert Rotl(y, 32 - r) == h * q + l;
  }

  lemma AddIs(x: Word, y: Word)
    ensures Add(x, y) == if x + y < TWO_32 then x + y else x + y - TWO_32
    ensures Sub(x, y) == if x >= y then x - y else x - y + TWO_32
  {
  }

  lemma AddSub(x: Word, y: Word)
    ensures Sub(Add(x, y), y) == x && Add(Sub(x, y), y) == x
  {
    hide Add, Sub;
    AddIs(x, y);
    AddIs(Add(x, y), y);
    AddIs(Sub(x, y), y);
  }

  // Rounds -------------------------------------------------------------------------------------

  datatype Quad = Quad(a: Word, b: Word, c: Word, d: Word)

  /** Half of a quarter round, with its two rotations. */
  function Half(x: Quad, r1: nat, r2: nat): Quad
    requires r1 <= 32 && r2 <= 32
  {
    var a := Add(x.a, x.b);
    var d := Rotl(Xor(x.d, a), r1);
    var c := Add(x.c, d);
    Quad(a, Rotl(Xor(x.b, c), r2), c, d)
  }

  function Unhalf(y: Quad, r1: nat, r2: nat): Quad
    requires r1 <= 32 && r2 <= 32
  {
    var b := Xor(Rotl(y.b, 32 - r2), y.c);
    var c := Sub(y.c, y.d);
    var d := Xor(Rotl(y.d, 32 - r1), y.a);
    Quad(Sub(y.a, b), b, c, d)
  }

  lemma XorBack(x: Word, y: Word)
    ensures Xor(Xor(x, y), y) == x
  {
    XorTwice(x, y);
  }

  lemma HalfUndone(x: Quad, r1: nat, r2: nat)
    requires r1 <= 32 && r2 <= 32
    ensures Unhalf(Half(x, r1, r2), r1, r2) == x && Half(Unhalf(x, r1, r2), r1, r2) == x
  {
    hide Add, Sub, Xor, Rotl;
    var y := Half(x, r1, r2);
    RotlBack(Xor(x.b, y.c), r2);
    XorBack(x.b, y.c);
    AddSub(x.c, y.d);
    RotlBack(Xor(x.d, y.a), r1);
    XorBack(x.d, y.a);
    AddSub(x.a, x.b);
    var z := Unhalf(x, r1, r2);
    AddSub(x.a, z.b);
    XorBack(Rotl(x.d, 32 - r1), x.a);
    RotlBack(x.d, 32 - r1);
    AddSub(x.c, x.d);
    XorBack(Rotl(x.b, 32 - r2), x.c);
    RotlBack(x.b, 32 - r2);
  }

  /** `quarter_round` */
  function Quarter(x: Quad): Quad {
    Half(Half(x, 16, 12), 8, 7)
  }

  function Unquarter(y: Quad): Quad {
    Unhalf(Unhalf(y, 8, 7), 16, 12)
  }

  lemma QuarterUndone(x: Quad)
    ensures Unquarter(Quarter(x)) == x && Quarter(Unquarter(x)) == x
  {
    hide Half, Unhalf;
    HalfUndone(x, 16, 12);
    HalfUndone(Half(x, 16, 12), 8, 7);
    HalfUndone(x, 8, 7);
    HalfUndone(Unhalf(x, 8, 7), 16, 12);
  }

  /** Four different places of the state. */
  datatype Places = Places(a: nat, b: nat, c: nat, d: nat) {
    predicate Ok() {
      a < 16 && b < 16 && c < 16 && d < 16 && a != b && a != c && a != d && b != c && b != d && c != d
    }
  }

  function Take(s: State, p: Places): Quad
    requires p.Ok()
  {
    Quad(s[p.a], s[p.b], s[p.c], s[p.d])
  }

  function Put(s: State, p: Places, q: Quad): State
    requires p.Ok()
  {
    s[p.a := q.a][p.b := q.b][p.c := q.c][p.d := q.d]
  }

  lemma TakePut(s: State, p: Places, q: Quad, r: Quad)
    requires p.Ok()
    ensures Take(Put(s, p, q), p) == q && Put(Put(s, p, q), p, r) == Put(s, p, r) && Put(s, p, Take(s, p)) == s
  {
  }

  /** Columns, then diagonals. */
  function Schedule(): (ps: seq<Places>)
    ensures forall i :: 0 <= i < |ps| ==> ps[i].Ok()
  {
    [Places(0, 4, 8, 12), Places(1, 5, 9, 13), Places(2, 6, 10, 14), Places(3, 7, 11, 15),
     Places(0, 5, 10, 15), Places(1, 6, 11, 12), Places(2, 7, 8, 13), Places(3, 4, 9, 14)]
  }

  /** Column `i` and diagonal `i` of the four by four square of words. */
  lemma ScheduleExact(i: nat)
    requires i < 4
    ensures |Schedule()| == 8 && Schedule()[i] == Places(i, 4 + i, 8 + i, 12 + i)
    ensures Schedule()[4 + i] == Places(i, 4 + (i + 1) % 4, 8 + (i + 2) % 4, 12 + (i + 3) % 4)
  {
    if i == 0 {
    } else if i == 1 {
    } else if i == 2 {
    } else {
      assert i == 3;
    }
  }

  function Apply(s: State, ps: seq<Places>): State
    requires forall i :: 0 <= i < |ps| ==> ps[i].Ok()
    decreases |ps|
  {
    if ps == [] then s else Apply(Put(s, ps[0], Quarter(Take(s, ps[0]))), ps[1..])
  }

  function Unapply(s: State, ps: seq<Places>): State
    requires forall i :: 0 <= i < |ps| ==> ps[i].Ok()
    decreases |ps|
  {
    if ps == [] then s
    else
      var t := Unapply(s, ps[1..]);
      Put(t, ps[0], Unquarter(Take(t, ps[0])))
  }

  lemma {:induction false} ApplyUndone(s: State, ps: seq<Places>)
    requires forall i :: 0 <= i < |ps| ==> ps[i].Ok()
    ensures Unapply(Apply(s, ps), ps) == s && Apply(Unapply(s, ps), ps) == s
    decreases |ps|
  {
    hide Quarter, Unquarter, Take, Put;
    if ps != [] {
      var p := ps[0];
      var x := Take(s, p);
      ApplyUndone(Put(s, p, Quarter(x)), ps[1..]);
      TakePut(s, p, Quarter(x), x);
      QuarterUndone(x);
      var t := Unapply(s, ps[1..]);
      var y := Take(t, p);
      ApplyUndone(s, ps[1..]);
      TakePut(t, p, Unquarter(y), y);
      QuarterUndone(y);
    }
  }

  /** `n` double rounds. */
  function Rounds(s: State, n: nat): State
    decreases n
  {
    if n == 0 then s else Rounds(Apply(s, Schedule()), n - 1)
  }

  function Unrounds(s: State, n: nat): State
    decreases n
  {
    if n == 0 then s else Unapply(Unrounds(s, n - 1), Schedule())
  }

  /** The rounds, before the final addition, are a bijection on states. */
  lemma {:induction false} RoundsBijective(s: State, n: nat)
    ensures Unrounds(Rounds(s, n), n) == s && Rounds(Unrounds(s, n), n) == s
    decreases n
  {
    hide Apply, Unapply, Schedule;
    if n > 0 {
      RoundsBijective(Apply(s, Schedule()), n - 1);
      ApplyUndone(s, Schedule());
      RoundsBijective(s, n - 1);
      ApplyUndone(Unrounds(s, n - 1), Schedule());
    }
  }

  function DoubleRounds(): nat {
    10
  }

  function AddWords(r: State, s: State): State {
    seq(16, i requires 0 <= i < 16 => Add(r[i], s[i]))
  }

  /** `core`: twenty rounds, and the input added word by word. */
  function Block(s: State): State {
    AddWords(Rounds(s, DoubleRounds()), s)
  }

  // The counter --------------------------------------------------------------------------------

  const TWO_96: nat := 0x1_0000_0000_0000_0000_0000_0000
  const TWO_128: nat := 0x1_0000_0000_0000_0000_0000_0000_0000_0000

  /** The state with its last four words holding a counter, lowest first. */
  function WithCounter(s: State, c: nat): State {
    s[12 := c % TWO_32][13 := c / TWO_32 % TWO_32][14 := c / TWO_64 % TWO_32][15 := c / TWO_96 % TWO_32]
  }

  /** The carry from word to word in `update`. */
  function Bumped(s: State): State {
    var s1 := s[12 := Add(s[12], 1)];
    if s1[12] != 0 then s1
    else
      var s2 := s1[13 := Add(s1[13], 1)];
      if s2[13] != 0 then s2
      else
        var s3 := s2[14 := Add(s2[14], 1)];
        if s3[14] != 0 then s3 else s3[15 := Add(s3[15], 1)]
  }

  lemma WordNext(x: nat)
    ensures Add(x % TWO_32, 1) == (x + 1) % TWO_32
    ensures (x + 1) % TWO_32 != 0 ==> (x + 1) / TWO_32 == x / TWO_32
    ensures (x + 1) % TWO_32 == 0 ==> (x + 1) / TWO_32 == x / TWO_32 + 1
  {
  }

  lemma DivideAgain(c: nat)
    ensures c / TWO_64 == c / TWO_32 / TWO_32 && c / TWO_96 == c / TWO_32 / TWO_32 / TWO_32
  {
  }

  /** Counting up carries from word to word. */
  lemma CounterCarries(s: State, c: nat)
    ensures Bumped(WithCounter(s, c)) == WithCounter(s, c + 1)
  {
    hide Add;
    DivideAgain(c);
    DivideAgain(c + 1);
    WordNext(c);
    WordNext(c / TWO_32);
    WordNext(c / TWO_32 / TWO_32);
    WordNext(c / TWO_32 / TWO_32 / TWO_32);
  }

  /** A multiple of the modulus drops out of a word, and into the next. */
  lemma Peel(c: nat, r: nat, k: nat, m: nat)
    requires c == r + k * (TWO_32 * m)
    ensures c % TWO_32 == r % TWO_32 && c / TWO_32 == r / TWO_32 + k * m
  {
    assert k * (TWO_32 * m) == TWO_32 * (k * m);
    Unique(c, TWO_32, r / TWO_32 + k * m, r % TWO_32);
  }

  /** The counter is taken modulo `2^128`. */
  lemma CounterWraps(s: State, c: nat)
    ensures WithCounter(s, c % TWO_128) == WithCounter(s, c)
  {
    var k, r := c / TWO_128, c % TWO_128;
    Peel(c, r, k, TWO_96);
    Peel(c / TWO_32, r / TWO_32, k, TWO_64);
    Peel(c / TWO_32 / TWO_32, r / TWO_32 / TWO_32, k, TWO_32);
    Peel(c / TWO_32 / TWO_32 / TWO_32, r / TWO_32 / TWO_32 / TWO_32, k, 1);
    DivideAgain(c);
    DivideAgain(r);
  }

  // The generator ------------------------------------------------------------------------------

  datatype Gen = Gen(buffer: State, state: State, index: nat)

  function Update(g: Gen): Gen {
    Gen(Block(g.state), Bumped(g.state), 0)
  }

  /** `next_u32`: the generator after it, and the word. */
  function Next(g: Gen): (Gen, Word) {
    var u := if g.index == 16 then Update(g) else g;
    (u.(index := u.index + 1), u.buffer[u.index % 16])
  }

  function SetCounter(g: Gen, low: nat, high: nat): Gen
    requires low < TWO_64 && high < TWO_64
  {
    var s := g.state[12 := low % TWO_32][13 := low / TWO_32][14 := high % TWO_32][15 := high / TWO_32];
    Gen(g.buffer, s, 16)
  }

  lemma CounterSet(g: Gen, low: nat, high: nat)
    requires low < TWO_64 && high < TWO_64
    ensures SetCounter(g, low, high).state == WithCounter(g.state, high * TWO_64 + low)
  {
    var c := high * TWO_64 + low;
    assert c / TWO_64 == high && c % TWO_32 == low % TWO_32 && c / TWO_32 % TWO_32 == low / TWO_32;
    DivideAgain(c);
  }

  /** The generator after `k` words. */
  function After(g: Gen, k: nat): Gen {
    if k == 0 then g else Next(After(g, k - 1)).0
  }

  /** Where the generator is in the stream of a counter. */
  ghost predicate Tracks(g: Gen, s: State, c: nat, k: nat) {
    if k == 0 then g.index == 16 && g.state == WithCounter(s, c)
    else
      && g.index == (k - 1) % 16 + 1
      && g.buffer == Block(WithCounter(s, c + (k - 1) / 16))
      && g.state == WithCounter(s, c + (k - 1) / 16 + 1)
  }

  lemma NextTracks(g: Gen, s: State, c: nat, k: nat)
    requires Tracks(g, s, c, k)
    ensures Tracks(Next(g).0, s, c, k + 1)
    ensures Next(g).1 == Block(WithCounter(s, c + k / 16))[k % 16]
  {
    hide Block, WithCounter, Bumped;
    CounterCarries(s, c + k / 16);
    if k > 0 {
      assert g.index == 16 ==> k % 16 == 0 && k / 16 == (k - 1) / 16 + 1;
      assert g.index != 16 ==> k % 16 == (k - 1) % 16 + 1 && k / 16 == (k - 1) / 16;
    }
  }

  lemma {:induction false} AfterTracks(g: Gen, s: State, c: nat, k: nat)
    requires Tracks(g, s, c, 0)
    ensures Tracks(After(g, k), s, c, k)
    decreases k
  {
    hide Tracks, Next, Block, WithCounter, Bumped;
    if k > 0 {
      AfterTracks(g, s, c, k - 1);
      NextTracks(After(g, k - 1), s, c, k - 1);
    }
  }

  /** After `set_counter`, the k-th word is word `k % 16` of the block at the counter plus `k / 16`. */
  lemma Stream(g: Gen, low: nat, high: nat, k: nat)
    requires low < TWO_64 && high < TWO_64
    ensures Next(After(SetCounter(g, low, high), k)).1 ==
            Block(WithCounter(g.state, (high * TWO_64 + low + k / 16) % TWO_128))[k % 16]
  {
    hide Block, WithCounter, Next, After;
    var c := high * TWO_64 + low;
    CounterSet(g, low, high);
    CounterWraps(g.state, c + k / 16);
    AfterTracks(SetCounter(g, low, high), g.state, c, k);
    NextTracks(After(SetCounter(g, low, high), k), g.state, c, k);
  }
}
