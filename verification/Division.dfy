/** Facts about quotients and remainders by a positive number. */
module Division {
  lemma Scaled(k: int, d: int)
    requires d > 0
    ensures k >= 1 ==> k * d >= d
    ensures k <= 0 ==> k * d <= 0
    ensures k <= -1 ==> k * d <= -d
  {
    if k >= 1 {
      assert k * d == (k - 1) * d + d;
      assert (k - 1) * d >= 0;
    } else {
      assert k * d <= 0;
      assert k * d == (k + 1) * d - d;
      assert k <= -1 ==> (k + 1) * d <= 0;
    }
  }

  lemma DivModUnique(x: int, d: int, q: int, r: int)
    requires d > 0 && x == q * d + r && 0 <= r < d
    ensures x / d == q && x % d == r
  {
    var k := x / d - q;
    assert k * d == x / d * d - q * d;
    assert -d < k * d < d;
    Scaled(k, d);
  }

  lemma NextMultiple(o: int, d: int)
    requires d > 0 && o % d == 0
    ensures (o + d) % d == 0 && (o - d) % d == 0
  {
    var q := o / d;
    assert (q + 1) * d == q * d + d && (q - 1) * d == q * d - d;
    DivModUnique(o + d, d, q + 1, 0);
    DivModUnique(o - d, d, q - 1, 0);
  }

  // Different multiples are at least d apart.
  lemma Gap(o: int, p: int, d: int)
    requires d > 0 && o % d == 0 && p % d == 0 && o < p
    ensures o + d <= p
  {
    var k := p / d - o / d;
    assert k * d == p / d * d - o / d * d == p - o;
    Scaled(k, d);
  }
}
