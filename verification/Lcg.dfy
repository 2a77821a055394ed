/**
 The linear congruential generator behind `zoo_generate_uuid64`, and the ids built
 from it.  The main results: the generator visits every 32-bit value before it
 repeats, and two generated ids coincide exactly when their call numbers are
 congruent modulo 2^31.
 */
module Lcg {
  import opened Arithmetic

  const WORD: nat := 0x1_0000_0000
  const HALF_WORD: nat := 0x8000_0000
  const MULTIPLIER: nat := 1103515245
  const INCREMENT: nat := 12345

  /** One generator step, with the 32-bit wrap-around written out. */
  function Next(seed: nat): nat {
    (seed * MULTIPLIER + INCREMENT) % WORD
  }

  function Iterate(seed: nat, n: nat): nat {
    if n == 0 then seed else Next(Iterate(seed, n - 1))
  }

  /** The same iteration over the integers, never reduced. */
  function Affine(seed: nat, n: nat): nat {
    if n == 0 then seed else Affine(seed, n - 1) * MULTIPLIER + INCREMENT
  }

  /** 1 + a + ... + a^(n-1) for the multiplier a. */
  function Geometric(n: nat): nat {
    if n == 0 then 0 else Geometric(n - 1) * MULTIPLIER + 1
  }

  function Power(n: nat): nat {
    if n == 0 then 1 else Power(n - 1) * MULTIPLIER
  }

  function Pow2(k: nat): (r: nat)
    ensures r > 0
  {
    if k == 0 then 1 else 2 * Pow2(k - 1)
  }

  lemma {:induction false} Pow2Values()
    ensures Pow2(31) == HALF_WORD && Pow2(32) == WORD
  {
    assert Pow2(8) == 256;
    assert Pow2(16) == 65536;
    assert Pow2(24) == 0x100_0000;
    assert Pow2(31) == HALF_WORD;
  }

  // ----- reduction modulo 2^32 commutes with the iteration -----

  lemma StepModulo(x: nat)
    ensures (x * MULTIPLIER + INCREMENT) % WORD == ((x % WORD) * MULTIPLIER + INCREMENT) % WORD
  {
    var q, r := x / WORD, x % WORD;
    assert x * MULTIPLIER + INCREMENT == r * MULTIPLIER + INCREMENT + WORD * (q * MULTIPLIER);
    AddMultiple(r * MULTIPLIER + INCREMENT, q * MULTIPLIER, WORD);
  }

  lemma {:induction false} IterateIsAffine(seed: nat, n: nat)
    requires seed < WORD
    ensures Iterate(seed, n) == Affine(seed, n) % WORD
  {
    if n > 0 {
      IterateIsAffine(seed, n - 1);
      StepModulo(Affine(seed, n - 1));
    }
  }

  lemma AffineStep(s: int, g: int, k: int, a: int, c: int)
    requires k == (a - 1) * s + c
    ensures (s + g * k) * a + c == s + (g * a + 1) * k
  {
    calc {
      (s + g * k) * a;
    == { Commute(s + g * k, a); Distribute(a, s, g * k); }
      a * s + a * (g * k);
    == { Commute(a, g * k); Reassociate(g, k, a); Commute(k, a); Reassociate(g, a, k); }
      a * s + (g * a) * k;
    }
    calc {
      (g * a + 1) * k;
    == { Commute(g * a + 1, k); Distribute(k, g * a, 1); Commute(k, g * a); }
      (g * a) * k + k;
    }
    assert (a - 1) * s == a * s - s by {
      Commute(a - 1, s);
      Distribute(s, a, -1);
      Commute(s, a);
    }
  }

  lemma {:induction false} AffineClosedForm(seed: nat, n: nat)
    ensures Affine(seed, n) == seed + Geometric(n) * ((MULTIPLIER - 1) * seed + INCREMENT)
  {
    if n > 0 {
      AffineClosedForm(seed, n - 1);
      AffineStep(seed, Geometric(n - 1), (MULTIPLIER - 1) * seed + INCREMENT, MULTIPLIER, INCREMENT);
    }
  }

  // ----- the 2-adic valuation of the geometric sum -----

  lemma OneModFourProduct(p: nat, a: nat)
    requires p % 4 == 1 && a % 4 == 1
    ensures (p * a) % 4 == 1
  {
    var i, j := p / 4, a / 4;
    calc {
      p * a;
    == { Distribute(p, 4 * j, 1); }
      p * (4 * j) + p;
    == { Commute(p, 4 * j); Reassociate(4, j, p); }
      4 * (j * p) + p;
    }
    assert j * p >= 0;
    FourTimesPlus(j * p, p);
  }

  lemma FourTimesPlus(k: nat, r: nat)
    ensures (4 * k + r) % 4 == r % 4
  {
  }

  /** The multiplier is 1 modulo 4, so every power of it is. */
  lemma {:induction false} PowerIsOneModFour(n: nat)
    ensures Power(n) % 4 == 1
  {
    if n > 0 {
      PowerIsOneModFour(n - 1);
      OneModFourProduct(Power(n - 1), MULTIPLIER);
    }
  }

  lemma SplitStep(g: int, p: int, h: int, a: int)
    ensures (g * p + h) * a + 1 == g * (p * a) + (h * a + 1)
  {
    Commute(g * p + h, a);
    Distribute(a, g * p, h);
    Commute(a, g * p);
    Reassociate(g, p, a);
    Commute(a, h);
  }

  lemma {:induction false} GeometricSplit(m: nat, n: nat)
    ensures Geometric(m + n) == Geometric(m) * Power(n) + Geometric(n)
  {
    if n > 0 {
      GeometricSplit(m, n - 1);
      SplitStep(Geometric(m), Power(n - 1), Geometric(n - 1), MULTIPLIER);
    }
  }

  lemma {:induction false} GeometricParity(n: nat)
    ensures Geometric(n) % 2 == n % 2
  {
    if n > 0 {
      GeometricParity(n - 1);
      OddProductParity(Geometric(n - 1), MULTIPLIER);
    }
  }

  /** An odd factor does not change divisibility by a power of two. */
  lemma {:induction false} OddFactorCancels(x: nat, q: nat, k: nat)
    requires q % 2 == 1
    ensures x * q >= 0
    ensures (x * q) % Pow2(k) == 0 <==> x % Pow2(k) == 0
  {
    if k > 0 {
      OddProductParity(x, q);
      EvenPowerDividesEven(x, k);
      EvenPowerDividesEven(x * q, k);
      if x % 2 == 0 {
        var y := x / 2;
        Reassociate(2, y, q);
        OddFactorCancels(y, q, k - 1);
        DoubleModulo(y, Pow2(k - 1));
        DoubleModulo(y * q, Pow2(k - 1));
      }
    }
  }

  lemma EvenPowerDividesEven(x: nat, k: nat)
    requires k > 0
    ensures x % Pow2(k) == 0 ==> x % 2 == 0
  {
    if x % Pow2(k) == 0 {
      var h, q := Pow2(k - 1), x / Pow2(k);
      Division(x, 2 * h);
      Reassociate(2, h, q);
      assert h * q >= 0;
      TwiceIsEven(h * q, 0);
    }
  }

  lemma SumIsTwiceOdd(g: nat, p: nat, q: nat)
    requires p % 4 == 1 && q == (p + 1) / 2
    ensures q % 2 == 1 && g * p + g == 2 * (g * q)
  {
    Distribute(g, p, 1);
    Commute(g, 2 * q);
    Reassociate(2, q, g);
    Commute(q, g);
  }

  /** 2^k divides the geometric sum of n terms exactly when it divides n. */
  lemma {:induction false} GeometricTwoAdic(n: nat, k: nat)
    ensures Geometric(n) % Pow2(k) == 0 <==> n % Pow2(k) == 0
    decreases k
  {
    if k > 0 {
      GeometricParity(n);
      EvenPowerDividesEven(n, k);
      EvenPowerDividesEven(Geometric(n), k);
      if n % 2 == 0 {
        var m := n / 2;
        GeometricSplit(m, m);
        PowerIsOneModFour(m);
        var q := (Power(m) + 1) / 2;
        SumIsTwiceOdd(Geometric(m), Power(m), q);
        GeometricTwoAdic(m, k - 1);
        OddFactorCancels(Geometric(m), q, k - 1);
        DoubleModulo(Geometric(m) * q, Pow2(k - 1));
        DoubleModulo(m, Pow2(k - 1));
      }
    }
  }

  // ----- full period -----

  lemma ReturnsIffMultiple(seed: nat, d: nat, m: nat)
    requires seed < m
    ensures (seed + d) % m == seed <==> d % m == 0
  {
    var q, r := d / m, d % m;
    Division(d, m);
    AddMultiple(seed + r, q, m);
    if seed + r < m {
      DivisionIsUnique(seed + r, 0, seed + r, m);
    } else {
      DivisionIsUnique(seed + r, 1, seed + r - m, m);
    }
  }

  lemma OddOffset(seed: nat)
    ensures ((MULTIPLIER - 1) * seed + INCREMENT) % 2 == 1
  {
    Reassociate(2, 551757622, seed);
    TwiceIsEven(551757622 * seed + 6172, 1);
  }

  /** The generator returns to a seed after exactly the multiples of 2^32 steps. */
  lemma FullPeriod(seed: nat, n: nat)
    requires seed < WORD
    ensures Iterate(seed, n) == seed <==> n % WORD == 0
  {
    Pow2Values();
    IterateIsAffine(seed, n);
    AffineClosedForm(seed, n);
    var odd := (MULTIPLIER - 1) * seed + INCREMENT;
    OddOffset(seed);
    assert Geometric(n) * odd >= 0;
    ReturnsIffMultiple(seed, Geometric(n) * odd, WORD);
    OddFactorCancels(Geometric(n), odd, 32);
    GeometricTwoAdic(n, 32);
  }

  lemma {:induction false} IterateSplit(seed: nat, m: nat, n: nat)
    ensures Iterate(seed, m + n) == Iterate(Iterate(seed, m), n)
  {
    if n > 0 {
      IterateSplit(seed, m, n - 1);
    }
  }

  lemma {:induction false} IterateStaysInWord(seed: nat, n: nat)
    requires seed < WORD
    ensures Iterate(seed, n) < WORD
  {
  }

  /** Any two of the visited values coincide exactly when 2^32 divides their distance. */
  lemma VisitsAreDistinct(seed: nat, m: nat, n: nat)
    requires seed < WORD && m <= n
    ensures Iterate(seed, m) == Iterate(seed, n) <==> (n - m) % WORD == 0
  {
    IterateSplit(seed, m, n - m);
    IterateStaysInWord(seed, m);
    FullPeriod(Iterate(seed, m), n - m);
  }

  // ----- the ids -----

  /** Reinterprets a 64-bit pattern as a signed integer. */
  function Signed(bits: nat): int {
    if bits < HALF_WORD * WORD then bits else bits - WORD * WORD
  }

  /** The upper word: the low 16 bits of the call counter above the low 16 bits of the first draw. */
  function Upper(seed: nat, call: nat): nat
    requires call > 0
  {
    (call % WORD) * 0x1_0000 % WORD + Iterate(seed, 2 * call - 1) % 0x1_0000
  }

  /** The id of the given call (calls count from 1) of a generator started from `seed`. */
  function IdOfCall(seed: nat, call: nat): int
    requires call > 0
  {
    Signed(Upper(seed, call) * WORD + Iterate(seed, 2 * call))
  }

  lemma ShiftedCounter(call: nat)
    ensures (call % WORD) * 0x1_0000 % WORD == (call % 0x1_0000) * 0x1_0000
  {
    var c := call % WORD;
    assert c * 0x1_0000 == WORD * (c / 0x1_0000) + (c % 0x1_0000) * 0x1_0000;
    DivisionIsUnique(c * 0x1_0000, c / 0x1_0000, (c % 0x1_0000) * 0x1_0000, WORD);
    assert call == 0x1_0000 * (0x1_0000 * (call / WORD) + c / 0x1_0000) + c % 0x1_0000;
    DivisionIsUnique(call, 0x1_0000 * (call / WORD) + c / 0x1_0000, c % 0x1_0000, 0x1_0000);
  }

  lemma UpperFits(seed: nat, call: nat)
    requires call > 0
    ensures Upper(seed, call) < WORD
  {
    ShiftedCounter(call);
  }

  lemma SameIdSameWords(u1: nat, l1: nat, u2: nat, l2: nat)
    requires u1 < WORD && l1 < WORD && u2 < WORD && l2 < WORD
    ensures Signed(u1 * WORD + l1) == Signed(u2 * WORD + l2) <==> u1 == u2 && l1 == l2
  {
  }

  lemma CongruentCallsAgree(m: nat, n: nat)
    requires m <= n && (n - m) % HALF_WORD == 0
    ensures m % 0x1_0000 == n % 0x1_0000
  {
    var q := (n - m) / HALF_WORD;
    assert n == m + 0x1_0000 * (0x8000 * q);
    AddMultiple(m, 0x8000 * q, 0x1_0000);
  }

  /**
   Two calls return the same id exactly when their numbers are congruent modulo 2^31;
   so any 2^31 consecutive ids are pairwise distinct, and the sequence then repeats.
   */
  lemma IdsCoincideIff(seed: nat, m: nat, n: nat)
    requires seed < WORD && 0 < m <= n
    ensures IdOfCall(seed, m) == IdOfCall(seed, n) <==> (n - m) % HALF_WORD == 0
  {
    UpperFits(seed, m);
    UpperFits(seed, n);
    IterateStaysInWord(seed, 2 * m);
    IterateStaysInWord(seed, 2 * n);
    SameIdSameWords(Upper(seed, m), Iterate(seed, 2 * m), Upper(seed, n), Iterate(seed, 2 * n));
    VisitsAreDistinct(seed, 2 * m, 2 * n);
    VisitsAreDistinct(seed, 2 * m - 1, 2 * n - 1);
    DoubleModulo(n - m, HALF_WORD);
    if (n - m) % HALF_WORD == 0 {
      CongruentCallsAgree(m, n);
      ShiftedCounter(m);
      ShiftedCounter(n);
    }
  }

  /** As an unsigned word an id shows the call number in its top sixteen bits and the second draw in its lower half. */
  lemma IdsDecode(seed: nat, call: nat)
    requires seed < WORD && call > 0
    ensures var id := IdOfCall(seed, call);
            var bits := if id >= 0 then id else id + WORD * WORD;
            && -0x8000_0000_0000_0000 <= id < 0x8000_0000_0000_0000
            && bits / WORD / 65536 == call % 65536
            && bits / WORD % 65536 == Iterate(seed, 2 * call - 1) % 65536
            && bits % WORD == Iterate(seed, 2 * call)
  {
    UpperFits(seed, call);
    ShiftedCounter(call);
    IterateStaysInWord(seed, 2 * call);
    SplitWords(Upper(seed, call), Iterate(seed, 2 * call));
  }

  lemma SplitWords(upper: nat, lower: nat)
    requires upper < WORD && lower < WORD
    ensures var id := Signed(upper * WORD + lower);
            var bits := if id >= 0 then id else id + WORD * WORD;
            && -0x8000_0000_0000_0000 <= id < 0x8000_0000_0000_0000
            && bits / WORD == upper && bits % WORD == lower
  {
  }

  /** The first two ids from seed 1. */
  lemma KnownIds(seed: nat)
    requires seed == 1
    ensures Iterate(seed, 1) == 1103527590 && Iterate(seed, 2) == 2524885223
    ensures IdOfCall(seed, 1) == 420728931266791
  {
    assert Iterate(seed, 1) == Next(seed);
    assert Iterate(seed, 2) == Next(Iterate(seed, 1));
  }

  /** The generator's static state; `calls` is the number of ids handed out so far. */
  class Uuid64 {
    var seed: nat
    var timestampCounter: nat
    ghost const start: nat
    ghost var calls: nat

    ghost predicate Valid()
      reads this
    {
      && start < WORD
      && seed == Iterate(start, 2 * calls)
      && timestampCounter == calls % WORD
    }

    constructor (initialSeed: nat)
      requires initialSeed < WORD
      ensures Valid() && calls == 0 && start == initialSeed
    {
      seed := initialSeed;
      timestampCounter := 0;
      start := initialSeed;
      calls := 0;
    }

    method Generate() returns (id: int)
      requires Valid()
      modifies this
      ensures Valid() && calls == old(calls) + 1
      ensures id == IdOfCall(start, calls)
    {
      timestampCounter := (timestampCounter + 1) % WORD;
      seed := (seed * MULTIPLIER + INCREMENT) % WORD;
      calls := calls + 1;
      assert seed == Iterate(start, 2 * calls - 1);
      // The shifted counter has sixteen zero low bits, so the bitwise or is a sum.
      var upper := timestampCounter * 0x1_0000 % WORD + seed % 0x1_0000;
      seed := (seed * MULTIPLIER + INCREMENT) % WORD;
      CounterStep(old(calls));
      id := Signed(upper * WORD + seed);
    }
  }

  lemma CounterStep(calls: nat)
    ensures (calls % WORD + 1) % WORD == (calls + 1) % WORD
  {
    AddMultiple(calls % WORD + 1, calls / WORD, WORD);
  }
}
