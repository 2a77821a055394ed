/**
 Newton's integer square root on 32-bit unsigned integers.  The starting point
 (value + 1) / 2 wraps to zero for the largest value, and the first iteration then
 divides by zero; that run is modelled as `None`.
 */
module Isqrt {
  import opened Wrappers
  import opened Arithmetic

  const WORD: nat := 0x1_0000_0000

  /** r is the floor of the square root of v. */
  predicate IsRoot(r: nat, v: nat) {
    r * r <= v < (r + 1) * (r + 1)
  }

  lemma RootIsUnique(r: nat, s: nat, v: nat)
    requires IsRoot(r, v) && IsRoot(s, v)
    ensures r == s
  {
    if r < s {
      SquareMonotone(r + 1, s);
    } else if s < r {
      SquareMonotone(s + 1, r);
    }
  }

  lemma SquareMonotone(a: nat, b: nat)
    requires a <= b
    ensures a * a <= b * b
  {
    ProductMonotone(a, a, b);
    ProductMonotone(b, a, b);
    Commute(a, b);
  }

  lemma ProductMonotone(c: nat, a: nat, b: nat)
    requires a <= b
    ensures c * a <= c * b
  {
    Distribute(c, a, b - a);
    assert c * (b - a) >= 0;
  }

  /** One Newton step from x towards the root of v. */
  function Newton(v: nat, x: nat): nat
    requires x > 0
  {
    (x + v / x) / 2
  }

  predicate AtOrAboveRoot(x: nat, v: nat) {
    v < (x + 1) * (x + 1)
  }

  /** Every Newton iterate lies at or above the root, wherever it is taken from. */
  lemma NewtonStaysAbove(v: nat, x: nat)
    requires x > 0
    ensures AtOrAboveRoot(Newton(v, x), v)
  {
    var q := v / x;
    Division(v, x);
    Distribute(x, q, 1);
    assert v < x * (q + 1);
    FourTimesProduct(x, q + 1);
    var t, u := x + q + 1, Newton(v, x) + 1;
    SquareMonotone(t, 2 * u);
    DoubleSquare(u);
  }

  lemma DoubleSquare(u: nat)
    ensures (2 * u) * (2 * u) == 4 * (u * u)
  {
    Reassociate(2, u, 2 * u);
    Commute(u, 2 * u);
    Reassociate(2, u, u);
  }

  lemma FourTimesProduct(a: nat, b: nat)
    ensures 4 * (a * b) <= (a + b) * (a + b)
  {
    if a <= b {
      SquareOfSum(a, b - a);
    } else {
      SquareOfSum(b, a - b);
      Commute(a, b);
    }
  }

  /** 4 a (a + d) <= (2 a + d)^2. */
  lemma SquareOfSum(a: nat, d: nat)
    ensures 4 * (a * (a + d)) <= (a + (a + d)) * (a + (a + d))
  {
    var s := a + (a + d);
    calc {
      s * s;
    == { Distribute(s, 2 * a, d); }
      s * (2 * a) + s * d;
    == { Commute(s, 2 * a); Reassociate(2, a, s); Distribute(a, a + d, a); Commute(s, d); Distribute(d, 2 * a, d); }
      2 * (a * (a + d) + a * a) + (d * (2 * a) + d * d);
    == { Commute(d, 2 * a); Reassociate(2, a, d); }
      2 * (a * (a + d) + a * a) + 2 * (a * d) + d * d;
    == { Distribute(a, a, d); }
      4 * (a * (a + d)) + d * d;
    }
    assert d * d >= 0;
  }

  /** When the iterate stops falling it is at or below the root. */
  lemma NewtonStops(v: nat, x: nat)
    requires x > 0 && Newton(v, x) >= x
    ensures x * x <= v
  {
    Division(v, x);
    ProductMonotone(x, x, v / x);
  }

  lemma QuotientPositive(v: nat, x: nat)
    requires 0 < x <= v
    ensures v / x >= 1
  {
    Division(v, x);
  }

  lemma ProductBoundsSum(a: nat, b: nat)
    requires a >= 1 && b >= 1
    ensures a + b <= a * b + 1
  {
    var c := a - 1;
    Commute(a, b);
    Distribute(b, c, 1);
    ProductMonotone(c, 1, b);
    Commute(b, c);
  }

  lemma SumFits(v: nat, x: nat)
    requires 0 < x <= v
    ensures 1 <= v / x && x + v / x <= v + 1
  {
    Division(v, x);
    QuotientPositive(v, x);
    ProductBoundsSum(x, v / x);
  }

  lemma SmallModulo(s: nat)
    requires s < WORD
    ensures s % WORD == s
  {
  }

  lemma FirstIterate(v: nat)
    requires 0 < v
    ensures Newton(v, v) == (v + 1) / 2 && AtOrAboveRoot(v, v)
  {
    Division(v, v);
    SquareMonotone(v, v + 1);
    ProductMonotone(v, 1, v);
    assert v / v == 1;
    Distribute(v + 1, v, 1);
    Commute(v + 1, v);
    Distribute(v, v, 1);
  }

  lemma NextIterate(v: nat, x: nat)
    requires 0 < x <= v < WORD - 1
    ensures (x + v / x) % WORD / 2 == Newton(v, x)
    ensures 0 < Newton(v, x) && AtOrAboveRoot(Newton(v, x), v)
  {
    hide AtOrAboveRoot;
    SumFits(v, x);
    NewtonStaysAbove(v, x);
    SmallModulo(x + v / x);
  }

  /**
   The loop.  It is undefined exactly for the largest 32-bit value; elsewhere the sum in
   the Newton step never wraps, the iterate strictly falls, and the result is the root.
   */
  method IntegerSqrt(value: nat) returns (r: Option<nat>)
    requires value < WORD
    ensures r.None? <==> value == WORD - 1
    ensures r.Some? ==> IsRoot(r.value, value)
  {
    if value == 0 {
      return Some(0);
    }
    var x := value;
    var y := (x + 1) % WORD / 2;
    FirstIterate(value);
    if value < WORD - 1 {
      NextIterate(value, value);
    }
    while y < x
      invariant 0 < x <= value
      invariant value < WORD - 1 ==> 0 < y == Newton(value, x) && AtOrAboveRoot(x, value) && AtOrAboveRoot(y, value)
      invariant value == WORD - 1 ==> y == 0
      decreases x
    {
      x := y;
      if x == 0 {
        return None;
      }
      NextIterate(value, x);
      y := (x + value / x) % WORD / 2;
    }
    NewtonStops(value, x);
    r := Some(x);
  }
}
