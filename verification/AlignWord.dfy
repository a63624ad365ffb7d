/** 64-bit words as their bits, lowest first, with the shifts and rotations the allocator uses. */
module AlignWord {
  import opened Powers

  type Word = w: seq<bool> | |w| == 64 witness seq(64, _ => false)

  function Zero(): Word {
    seq(64, _ => false)
  }

  function Or(v: Word, w: Word): Word {
    seq(64, i requires 0 <= i < 64 => v[i] || w[i])
  }

  function And(v: Word, w: Word): Word {
    seq(64, i requires 0 <= i < 64 => v[i] && w[i])
  }

  function Not(v: Word): Word {
    seq(64, i requires 0 <= i < 64 => !v[i])
  }

  function Shl(v: Word, c: nat): Word {
    seq(64, i requires 0 <= i < 64 => i >= c && v[i - c])
  }

  function Shr(v: Word, c: nat): Word {
    seq(64, i requires 0 <= i < 64 => i + c < 64 && v[i + c])
  }

  /** `rol`: both shift counts are masked to six bits. */
  function Rol(v: Word, c: int): Word {
    Or(Shl(v, c % 64), Shr(v, (-c) % 64))
  }

  function Ror(v: Word, c: int): Word {
    Rol(v, -c)
  }

  /** Every bit, as `-1`. */
  function Ones(): Word {
    seq(64, _ => true)
  }

  /** The lowest `n` bits, as `(1 << n) - 1`. */
  function Low(n: nat): Word {
    seq(64, i => i < n)
  }

  // Numbers ----------------------------------------------------------------------------------

  /** The number the bits from `i` up stand for, counted from bit `i`. */
  function Value(v: seq<bool>): nat {
    if v == [] then 0 else (if v[0] then 1 else 0) + 2 * Value(v[1..])
  }

  lemma {:induction false} LowBits(v: seq<bool>, n: nat)
    requires n <= |v| && forall i :: 0 <= i < |v| ==> v[i] == (i < n)
    ensures Value(v) == Pow2(n) - 1
  {
    if v != [] {
      LowBits(v[1..], if n == 0 then 0 else n - 1);
    }
  }

  /** The mask is the word one less than a power of two. */
  lemma LowValue(n: nat)
    requires n < 64
    ensures Value(Low(n)) == Pow2(n) - 1
  {
    LowBits(Low(n), n);
  }

  // Rotation ---------------------------------------------------------------------------------

  lemma ModFacts(c: int, i: int)
    requires 0 <= i < 64
    ensures var m := c % 64;
            && (-c) % 64 == (if m == 0 then 0 else 64 - m)
            && (i - c) % 64 == (if i >= m then i - m else i - m + 64)
  {
  }

  /** Rotating left moves every bit up by the count, around the end. */
  lemma RolBit(v: Word, c: int, i: nat)
    requires i < 64
    ensures Rol(v, c)[i] == v[(i - c) % 64]
  {
    ModFacts(c, i);
  }

  lemma RorBit(v: Word, c: int, i: nat)
    requires i < 64
    ensures Ror(v, c)[i] == v[(i + c) % 64]
  {
    RolBit(v, -c, i);
  }

  // Leading zeros ------------------------------------------------------------------------------

  /** How far the highest set bit is from the bottom; 0 when there is none. */
  ghost function Height(v: Word, n: nat): (h: nat)
    requires n <= 64
    ensures h <= n && (h > 0 ==> v[h - 1]) && forall i :: h <= i < n ==> !v[i]
  {
    if n == 0 then 0 else if v[n - 1] then n else Height(v, n - 1)
  }

  lemma HeightShifts(v: Word)
    requires !v[63] && v != Zero()
    ensures Height(v, 64) < 64 && Height(Shl(v, 1), 64) == Height(v, 64) + 1
  {
    var h, w := Height(v, 64), Shl(v, 1);
    assert h == 0 ==> v == Zero();
    assert w[h];
    assert forall i :: h < i < 64 ==> !w[i];
  }

  /** `count_lzb` */
  function CountLzb(v: Word): (k: int)
    decreases 64 - Height(v, 64)
  {
    if v == Zero() then -1
    else if v[63] then 0
    else
      HeightShifts(v);
      CountLzb(Shl(v, 1)) + 1
  }

  /** It is the position of the first set bit from the top, and -1 exactly for the zero word. */
  lemma {:induction false} CountLzbExact(v: Word)
    ensures v == Zero() <==> CountLzb(v) == -1
    ensures v != Zero() ==> 0 <= CountLzb(v) < 64 && v[63 - CountLzb(v)]
    ensures v != Zero() ==> forall i :: 63 - CountLzb(v) < i < 64 ==> !v[i]
    decreases 64 - Height(v, 64)
  {
    if v != Zero() && !v[63] {
      HeightShifts(v);
      var w := Shl(v, 1);
      assert w[Height(v, 64)];
      CountLzbExact(w);
      var k := CountLzb(w);
      forall i | 62 - k < i < 64 ensures !v[i] {
        if i < 63 {
          assert w[i + 1] == v[i];
        }
      }
      assert w[63 - k] == (63 - k >= 1 && v[62 - k]);
    }
  }
}
