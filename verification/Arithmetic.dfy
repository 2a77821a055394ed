/** Facts about division with remainder that the arithmetic kernels share. */
module Arithmetic {

  lemma Distribute(a: int, b: int, c: int)
    ensures a * (b + c) == a * b + a * c
  {
  }

  lemma Reassociate(a: int, b: int, c: int)
    ensures (a * b) * c == a * (b * c)
  {
  }

  lemma Commute(a: int, b: int)
    ensures a * b == b * a
  {
  }

  lemma MultipleGap(m: nat, q: nat, p: nat)
    requires q < p
    ensures m * p >= m * q + m
  {
    var d := p - q - 1;
    Distribute(m, q + 1, d);
    Distribute(m, q, 1);
    assert m * d >= 0;
  }

  lemma DivisionIsUnique(x: nat, q: nat, r: nat, m: nat)
    requires m > 0 && r < m && x == m * q + r
    ensures x % m == r
  {
    var q', r' := x / m, x % m;
    Division(x, m);
    if q' > q {
      MultipleGap(m, q, q');
    } else if q' < q {
      MultipleGap(m, q', q);
    }
  }

  lemma Division(x: nat, m: nat)
    requires m > 0
    ensures x == m * (x / m) + x % m && x % m < m
  {
  }

  lemma AddMultiple(x: nat, k: nat, m: nat)
    requires m > 0
    ensures (x + m * k) % m == x % m
  {
    Division(x, m);
    Distribute(m, x / m, k);
    assert m * k >= 0;
    DivisionIsUnique(x + m * k, x / m + k, x % m, m);
  }

  lemma DoubleModulo(x: nat, m: nat)
    requires m > 0
    ensures (2 * x) % (2 * m) == 2 * (x % m)
  {
    Division(x, m);
    Reassociate(2, m, x / m);
    DivisionIsUnique(2 * x, x / m, 2 * (x % m), 2 * m);
  }

  lemma TwiceIsEven(p: nat, x: nat)
    ensures (2 * p + x) % 2 == x % 2
  {
  }

  lemma OddProductParity(x: nat, q: nat)
    requires q % 2 == 1
    ensures (x * q) % 2 == x % 2
  {
    var h := q / 2;
    TwiceHalf(x, h);
    assert x * h >= 0;
    TwiceIsEven(x * h, x);
  }

  lemma TwiceHalf(x: nat, h: nat)
    ensures x * (2 * h + 1) == 2 * (x * h) + x
  {
    Distribute(x, 2 * h, 1);
  }

  lemma MultipleHasNoRemainder(m: nat, k: nat)
    requires m > 0
    ensures (m * k) % m == 0
  {
    DivisionIsUnique(m * k, k, 0, m);
  }
}
