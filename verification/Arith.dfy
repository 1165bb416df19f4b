/** Facts about Euclidean division and powers of two that the other modules share. */
module Arith {

  lemma MultipleIsFar(k: int, d: int)
    requires d > 0
    ensures k != 0 ==> k * d >= d || k * d <= -d
  {
    if k > 0 {
      assert k * d >= d;
    } else if k < 0 {
      assert k * d <= -d;
    }
  }

  /** Quotient and remainder are determined by x == q * d + r with 0 <= r < d. */
  lemma DivModUnique(x: int, d: int, q: int, r: int)
    requires d > 0 && x == q * d + r && 0 <= r < d
    ensures x / d == q && x % d == r
  {
    MultipleIsFar(q - x / d, d);
    assert (q - x / d) * d == x % d - r;
  }

  /** A remainder modulo a multiple of c still has the remainder modulo c. */
  lemma ModOfMod(t: int, c: int, d: int)
    requires c > 0 && d > 0
    ensures d * c > 0 && (t % (d * c)) % c == t % c
  {
    MultipleIsFar(d, c);
    var q, r := t / (d * c), t % (d * c);
    assert q * (d * c) == (q * d) * c;
    assert (q * d) * c + (r / c) * c == (q * d + r / c) * c;
    DivModUnique(t, c, q * d + r / c, r % c);
  }
}
