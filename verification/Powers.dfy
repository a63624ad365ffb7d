/** Powers of two, and bitwise or of numbers whose bits do not meet. */
module Powers {
  function Pow2(n: nat): nat {
    if n == 0 then 1 else 2 * Pow2(n - 1)
  }

  lemma {:induction false} Pow2Positive(n: nat)
    ensures Pow2(n) > 0
  {
    if n > 0 {
      Pow2Positive(n - 1);
    }
  }

  lemma Doubled(x: nat, y: nat)
    ensures (2 * x) * y == 2 * (x * y)
  {
  }

  lemma {:induction false} Pow2Sum(a: nat, b: nat)
    ensures Pow2(a + b) == Pow2(a) * Pow2(b)
  {
    if a > 0 {
      Pow2Sum(a - 1, b);
      Doubled(Pow2(a - 1), Pow2(b));
    }
  }

  lemma OneByte()
    ensures Pow2(8) == 0x100
  {
  }

  lemma Pow2Values()
    ensures Pow2(16) == 0x1_0000 && Pow2(32) == 0x1_0000_0000 && Pow2(64) == 0x1_0000_0000_0000_0000
  {
    hide Pow2;
    OneByte();
    Pow2Sum(8, 8);
    Pow2Sum(16, 16);
    Pow2Sum(32, 32);
  }

  lemma {:induction false} Pow2Monotone(a: nat, b: nat)
    ensures a <= b ==> Pow2(a) <= Pow2(b)
    ensures a < b ==> 2 * Pow2(a) <= Pow2(b)
    decreases b
  {
    if a < b {
      Pow2Monotone(a, b - 1);
      Pow2Positive(a);
    }
  }

  lemma Pow2Seven(n: nat)
    ensures Pow2(n + 7) == 128 * Pow2(n)
  {
    Pow2Sum(7, n);
    assert Pow2(7) == 128;
  }

  function BitOr(a: nat, b: nat): nat
    decreases a + b
  {
    if a == 0 then b
    else if b == 0 then a
    else (if a % 2 == 1 || b % 2 == 1 then 1 else 0) + 2 * BitOr(a / 2, b / 2)
  }

  /** Low bits and a multiple of the next power: nothing overlaps, so the or is the sum. */
  lemma {:induction false} OrAdds(a: nat, k: nat, s: nat)
    requires a < Pow2(s)
    ensures 0 <= k * Pow2(s) && BitOr(a, k * Pow2(s)) == a + k * Pow2(s)
    decreases s
  {
    if s > 0 {
      var h := k * Pow2(s - 1);
      assert k * Pow2(s) == 2 * h by {
        Doubled(Pow2(s - 1), k);
      }
      OrAdds(a / 2, k, s - 1);
    }
  }
}
