/** Quotients and remainders by a variable divisor, which the verifier does not work out alone. */
module Division {
  lemma ProductsOrdered(a: int, b: int, c: nat)
    ensures a <= b ==> a * c <= b * c
  {
    if a <= b {
      assert (b - a) * c >= 0;
    }
  }

  lemma QuotientBounds(x: nat, b: nat, q: int, r: nat)
    requires x == b * q + r && r < b
    ensures 0 <= q <= x
  {
    ProductsOrdered(q, -1, b);
    assert q >= 0;
    ProductsOrdered(1, b, q);
  }

  lemma Divided(x: nat, b: nat)
    requires b > 0
    ensures x == x % b + b * (x / b) && 0 <= x % b < b && 0 <= x / b <= x
  {
    QuotientBounds(x, b, x / b, x % b);
  }

  lemma NoMultiple(b: nat, k: int, x: int)
    requires b * k == x && -(b as int) < x < b
    ensures k == 0 && x == 0
  {
    ProductsOrdered(1, k, b);
    ProductsOrdered(k, -1, b);
  }

  /** There is only one way to divide. */
  lemma Unique(x: int, b: nat, q: int, r: nat)
    requires x == b * q + r && r < b
    ensures x / b == q && x % b == r
  {
    var p, s := x / b, x % b;
    assert b * (p - q) == b * p - b * q;
    NoMultiple(b, p - q, r - s);
  }
}
