/** The generator as it runs: rounds that overwrite an array of words, a buffer that is refilled, and
    a counter that is carried in place. */
module ChaChaMachine {
  import opened Common
  import opened ChaCha

  function Words(a: array<Word>): State
    requires a.Length == 16
    reads a
  {
    a[..]
  }

  /** Half of a quarter round, in place. */
  method HalfRound(x: array<Word>, p: Places, r1: nat, r2: nat)
    requires x.Length == 16 && p.Ok() && r1 <= 32 && r2 <= 32
    modifies x
    ensures Words(x) == Put(old(Words(x)), p, Half(Take(old(Words(x)), p), r1, r2))
  {
    hide Add, Xor, Rotl;
    x[p.a] := Add(x[p.a], x[p.b]);
    x[p.d] := Xor(x[p.d], x[p.a]);
    x[p.d] := Rotl(x[p.d], r1);
    x[p.c] := Add(x[p.c], x[p.d]);
    x[p.b] := Xor(x[p.b], x[p.c]);
    x[p.b] := Rotl(x[p.b], r2);
  }

  /** `quarter_round` on four words of the array. */
  method QuarterRound(x: array<Word>, p: Places)
    requires x.Length == 16 && p.Ok()
    modifies x
    ensures Words(x) == Put(old(Words(x)), p, Quarter(Take(old(Words(x)), p)))
  {
    hide Half, Take, Put;
    ghost var s := Words(x);
    ghost var q := Half(Take(s, p), 16, 12);
    HalfRound(x, p, 16, 12);
    TakePut(s, p, q, Half(q, 8, 7));
    HalfRound(x, p, 8, 7);
  }

  method DoubleRound(x: array<Word>)
    requires x.Length == 16
    modifies x
    ensures Words(x) == Apply(old(Words(x)), Schedule())
  {
    hide Quarter, Take, Put;
    var ps := Schedule();
    assert ps[0..] == ps;
    for i := 0 to |ps|
      invariant Apply(Words(x), ps[i..]) == Apply(old(Words(x)), ps)
    {
      assert ps[i..][0] == ps[i] && ps[i..][1..] == ps[i + 1..];
      QuarterRound(x, ps[i]);
    }
  }

  /** `core` */
  method Core(output: array<Word>, input: array<Word>)
    requires output.Length == 16 && input.Length == 16 && output != input
    modifies output
    ensures Words(output) == Block(Words(input))
  {
    hide Apply, Schedule, Add;
    forall i | 0 <= i < 16 {
      output[i] := input[i];
    }
    assert Words(output) == Words(input);
    ghost var n := DoubleRounds();
    for k := 0 to DoubleRounds()
      invariant Rounds(Words(output), n - k) == Rounds(Words(input), n)
    {
      DoubleRound(output);
    }
    ghost var r := Words(output);
    for i := 0 to 16
      invariant forall j :: 0 <= j < i ==> output[j] == Add(r[j], input[j])
      invariant forall j :: i <= j < 16 ==> output[j] == r[j]
    {
      output[i] := Add(output[i], input[i]);
    }
    assert Words(output) == AddWords(r, Words(input));
  }

  class ChaChaRng {
    const buffer: array<Word>
    const state: array<Word>
    var index: nat

    ghost predicate Valid()
      reads this
    {
      buffer.Length == 16 && state.Length == 16 && buffer != state && index <= 16
    }

    ghost function View(): Gen
      requires Valid()
      reads this, buffer, state
    {
      Gen(Words(buffer), Words(state), index)
    }

    /** `init` with a key: the constants, the key and a counter of zero. */
    constructor (key: seq<Word>)
      requires |key| == 8
      ensures Valid() && fresh(buffer) && fresh(state) && index == 16
      ensures Words(state) == [0x61707865, 0x3320646E, 0x79622D32, 0x6B206574] + key + [0, 0, 0, 0]
    {
      buffer := new Word[16](_ => 0);
      var s := [0x61707865, 0x3320646E, 0x79622D32, 0x6B206574] + key + [0, 0, 0, 0];
      state := new Word[16](i requires 0 <= i < 16 => s[i]);
      index := 16;
      new;
      assert Words(state) == s;
    }

    method SetCounter(low: nat, high: nat)
      requires Valid() && low < TWO_64 && high < TWO_64
      modifies this, state
      ensures Valid() && View() == ChaCha.SetCounter(old(View()), low, high)
    {
      state[12] := low % TWO_32;
      state[13] := low / TWO_32;
      state[14] := high % TWO_32;
      state[15] := high / TWO_32;
      index := 16;
    }

    /** Refill the buffer and count up. */
    method Update()
      requires Valid()
      modifies this, buffer, state
      ensures Valid() && View() == ChaCha.Update(old(View()))
    {
      hide Block, Add;
      Core(buffer, state);
      index := 0;
      state[12] := Add(state[12], 1);
      if state[12] != 0 {
        return;
      }
      state[13] := Add(state[13], 1);
      if state[13] != 0 {
        return;
      }
      state[14] := Add(state[14], 1);
      if state[14] != 0 {
        return;
      }
      state[15] := Add(state[15], 1);
    }

    method NextU32() returns (word: Word)
      requires Valid()
      modifies this, buffer, state
      ensures Valid() && (View(), word) == Next(old(View()))
    {
      hide Block, Bumped;
      if index == 16 {
        Update();
      }
      word := buffer[index % 16];
      index := index + 1;
    }
  }
}
