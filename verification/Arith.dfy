/** Division with remainder by a divisor that is not a constant. */
module Arith {

  lemma MulAtLeast(e: int, m: int)
    requires e >= 1 && m >= 0
    ensures e * m >= m
  {
  }

  lemma Distribute(a: int, b: int, m: int)
    ensures (a + b) * m == a * m + b * m
  {
  }

  lemma DivModUnique(x: int, m: int, q: int, r: int)
    requires 0 <= r < m && x == q * m + r
    ensures x / m == q && x % m == r
  {
    var p, e := x / m, x / m - q;
    assert p * m + x % m == x;
    Distribute(q, e, m);
    if e >= 1 {
      MulAtLeast(e, m);
    } else if e <= -1 {
      MulAtLeast(-e, m);
    }
  }

  lemma ResidueDrops(x: int, c: int, size: int)
    requires 0 < size
    ensures (x - c * size) % size == x % size
  {
    var q, r := x / size, x % size;
    Distribute(q - c, c, size);
    DivModUnique(x - c * size, size, q - c, r);
  }
}
