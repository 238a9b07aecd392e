/**
 Modular arithmetic behind the blind-RSA tokens: exponentiation, divisibility and
 the two bigint loops of `token.ts` (square-and-multiply, extended Euclid).
 */
module Numbers {
  import opened Results

  /** Mathematical exponentiation. */
  function Pow(b: int, e: nat): int {
    if e == 0 then 1 else b * Pow(b, e - 1)
  }

  // ---- remainders -------------------------------------------------------

  /** The only multiple of `m` closer to zero than `m` is zero. */
  lemma SmallMultiple(m: int, k: int)
    requires -m < m * k < m
    ensures k == 0
  {
    assert k >= 1 ==> m * k >= m * 1;
    assert k <= -1 ==> m * k <= m * -1;
  }

  /** A number is fixed by its quotient and its remainder. */
  lemma DivModUnique(x: int, m: nat, q: int, r: int)
    requires m > 0 && 0 <= r < m && x == m * q + r
    ensures x / m == q && x % m == r
  {
    var q', r' := x / m, x % m;
    assert m * (q - q') == m * q - m * q' == r' - r;
    SmallMultiple(m, q - q');
  }

  /** Adding a multiple of the modulus changes nothing. */
  lemma ModMultiple(x: int, k: int, m: nat)
    requires m > 0
    ensures (x + m * k) % m == x % m
  {
    DivModUnique(x + m * k, m, x / m + k, x % m);
  }

  lemma MulModRight(a: int, b: int, m: nat)
    requires m > 0
    ensures (a * (b % m)) % m == (a * b) % m
  {
    calc {
      a * b;
      a * (m * (b / m) + b % m);
      a * (b % m) + m * (a * (b / m));
    }
    ModMultiple(a * (b % m), a * (b / m), m);
  }

  lemma MulCongruent(a: int, b: int, c: int, m: nat)
    requires m > 0 && b % m == c % m
    ensures (a * b) % m == (a * c) % m
  {
    MulModRight(a, b, m);
    MulModRight(a, c, m);
  }

  /** A remainder of zero is a multiple, in both directions. */
  lemma ZeroModIsMultiple(x: int, m: nat, k: int)
    requires m > 0 && x == m * k
    ensures x % m == 0
  {
    DivModUnique(x, m, k, 0);
  }

  // ---- powers -----------------------------------------------------------

  lemma {:induction false} PowNonNegative(b: nat, e: nat)
    ensures Pow(b, e) >= 0
    ensures b > 0 ==> Pow(b, e) > 0
  {
    if e > 0 { PowNonNegative(b, e - 1); }
  }

  lemma {:induction false} PowAdds(b: int, d: nat, e: nat)
    ensures Pow(b, d + e) == Pow(b, d) * Pow(b, e)
  {
    if d > 0 {
      PowAdds(b, d - 1, e);
      calc {
        Pow(b, d + e);
        b * Pow(b, (d - 1) + e);
        b * (Pow(b, d - 1) * Pow(b, e));
        (b * Pow(b, d - 1)) * Pow(b, e);
      }
    }
  }

  lemma {:induction false} PowMultiplies(b: int, d: nat, e: nat)
    ensures d * e >= 0 && Pow(Pow(b, d), e) == Pow(b, d * e)
  {
    if e > 0 {
      PowMultiplies(b, d, e - 1);
      assert d * e == d + d * (e - 1);
      PowAdds(b, d, d * (e - 1));
    }
  }

  lemma Regroup(a: int, b: int, x: int, y: int)
    ensures (a * b) * (x * y) == (a * x) * (b * y)
  {
    calc {
      (a * b) * (x * y);
      a * (b * (x * y));
      a * (x * (b * y));
      (a * x) * (b * y);
    }
  }

  lemma {:induction false} PowDistributes(a: int, b: int, e: nat)
    ensures Pow(a * b, e) == Pow(a, e) * Pow(b, e)
  {
    if e > 0 {
      PowDistributes(a, b, e - 1);
      Regroup(a, b, Pow(a, e - 1), Pow(b, e - 1));
    }
  }

  lemma {:induction false} PowIncreases(b: nat, d: nat, e: nat)
    requires b > 0 && d <= e
    ensures Pow(b, d) <= Pow(b, e)
  {
    PowAdds(b, d, e - d);
    PowNonNegative(b, d);
    PowNonNegative(b, e - d);
    var x, y := Pow(b, d), Pow(b, e - d);
    assert x * y >= x * 1;
  }

  /** The base may be reduced before raising it. */
  lemma {:induction false} PowOfRemainder(b: int, e: nat, m: nat)
    requires m > 0
    ensures Pow(b % m, e) % m == Pow(b, e) % m
  {
    if e > 0 {
      PowOfRemainder(b, e - 1, m);
      var p, q := Pow(b % m, e - 1), Pow(b, e - 1);
      MulModRight(b % m, p, m);
      MulModRight(b % m, q, m);
      MulModRight(q, b, m);
      assert (b % m) * q == q * (b % m) && b * q == q * b;
    }
  }

  // ---- square-and-multiply (token.ts, modPow) ---------------------------

  /**
   What the loop of `modPow` leaves: the mathematical power modulo `m`, except that
   with `m == 1` a zero exponent never reaches a reduction and leaves 1.
   */
  function PowMod(b: nat, e: nat, m: nat): (r: nat)
    requires m > 0
    ensures m > 1 ==> r < m
  {
    if e == 0 then 1 else Pow(b, e) % m
  }

  lemma PowModIsPower(b: nat, e: nat, m: nat)
    requires m > 1
    ensures PowMod(b, e, m) == Pow(b, e) % m
  {
    if e == 0 { DivModUnique(1, m, 0, 1); }
  }

  /** One round of the loop: halving the exponent squares the base. */
  lemma SquareStep(b: nat, e: nat, m: nat)
    requires m > 0 && e > 0
    ensures Pow((b * b) % m, e / 2) % m == Pow(b, e - e % 2) % m
  {
    PowOfRemainder(b * b, e / 2, m);
    PowDistributes(b, b, e / 2);
    PowAdds(b, e / 2, e / 2);
    assert e / 2 + e / 2 == e - e % 2;
  }

  /** One round keeps what the loop is about: `result * b^e` modulo the modulus. */
  lemma OneRound(result: nat, b: nat, e: nat, m: nat)
    requires m > 0 && e > 0
    ensures
      var next := if e % 2 == 1 then (result * b) % m else result;
      (next * Pow((b * b) % m, e / 2)) % m == (result * Pow(b, e)) % m
  {
    var next := if e % 2 == 1 then (result * b) % m else result;
    var squared := Pow((b * b) % m, e / 2);
    var rest := Pow(b, e - e % 2);
    SquareStep(b, e, m);
    MulModRight(next, squared, m);
    MulModRight(next, rest, m);
    if e % 2 == 1 {
      MulModRight(rest, result * b, m);
      assert next * rest == rest * next;
      assert rest * (result * b) == result * (b * rest);
    }
  }

  method ModPow(base: nat, exp: nat, mod: nat) returns (result: nat)
    requires mod > 0
    ensures result == PowMod(base, exp, mod)
    ensures mod > 1 ==> result == Pow(base, exp) % mod
  {
    result := 1;
    var b: nat, e: nat := base % mod, exp;
    PowOfRemainder(base, exp, mod);
    assert 1 * Pow(b, e) == Pow(b, e);
    while e > 0
      invariant (result * Pow(b, e)) % mod == Pow(base, exp) % mod
      invariant e == 0 && exp > 0 ==> result < mod
      invariant exp == 0 ==> result == 1
    {
      OneRound(result, b, e, mod);
      if e % 2 == 1 {
        result := (result * b) % mod;
      }
      e := e / 2;
      b := (b * b) % mod;
    }
    assert result * Pow(b, 0) == result;
    if exp > 0 {
      DivModUnique(result, mod, 0, result);
    } else if mod > 1 {
      PowModIsPower(base, 0, mod);
    }
  }

  // ---- extended Euclid (token.ts, modInverse) ----------------------------

  predicate Divides(d: nat, x: int) {
    d > 0 && x % d == 0
  }

  /** No common divisor but one. */
  ghost predicate Coprime(a: int, m: int) {
    forall d: nat :: Divides(d, a) && Divides(d, m) ==> d == 1
  }

  /** The remainder of the source language: truncated, signed like the dividend. */
  function TruncatedRemainder(a: int, m: nat): int
    requires m > 0
  {
    if a >= 0 then a % m else -((-a) % m)
  }

  lemma NormalizedRemainder(a: int, m: nat)
    requires m > 0
    ensures TruncatedRemainder(a, m) + m >= 0
    ensures TruncatedRemainder(TruncatedRemainder(a, m) + m, m) == a % m
  {
    var t := TruncatedRemainder(a, m);
    ModMultiple(t, 1, m);
    if a < 0 {
      var q, r := (-a) / m, (-a) % m;
      assert a == t + m * -q;
      ModMultiple(t, -q, m);
    }
  }

  lemma MultipleDivides(d: nat, x: int, k: int)
    requires d > 0 && x == d * k
    ensures Divides(d, x)
  {
    ZeroModIsMultiple(x, d, k);
  }

  /** A common divisor of two numbers divides what one leaves over of the other. */
  lemma DividesCombination(d: nat, x: int, y: int, q: int)
    requires Divides(d, x) && Divides(d, y)
    ensures Divides(d, x - q * y)
  {
    var k, l := x / d, y / d;
    assert d * k - q * (d * l) == d * (k - q * l);
    MultipleDivides(d, x - q * y, k - q * l);
  }

  /** Two pairs with the same common divisors. */
  ghost predicate SameCommonDivisors(a: int, b: int, x: int, y: int) {
    forall d: nat :: Divides(d, a) && Divides(d, b) <==> Divides(d, x) && Divides(d, y)
  }

  lemma EuclidStep(x: int, y: int, q: int)
    ensures SameCommonDivisors(x, y, y, x - q * y)
  {
    forall d: nat
      ensures Divides(d, x) && Divides(d, y) <==> Divides(d, y) && Divides(d, x - q * y)
    {
      if Divides(d, x) && Divides(d, y) { DividesCombination(d, x, y, q); }
      if Divides(d, y) && Divides(d, x - q * y) {
        DividesCombination(d, x - q * y, y, -q);
        assert x - q * y - (-q) * y == x;
      }
    }
  }

  /** An inverse modulo `m`. */
  predicate IsInverse(a: int, m: nat, y: int)
    requires m > 0
  {
    0 <= y < m && (a * y) % m == 1 % m
  }

  lemma InverseIsUnique(a: int, m: nat, y: int, z: int)
    requires m > 0 && IsInverse(a, m, y) && IsInverse(a, m, z)
    ensures y == z
  {
    DivModUnique(y, m, 0, y);
    DivModUnique(z, m, 0, z);
    MulCongruent(y, a * z, 1, m);
    MulCongruent(z, a * y, 1, m);
    Rotate(y, a, z);
  }

  lemma Rotate(x: int, y: int, z: int)
    ensures x * (y * z) == z * (y * x)
  {
    assert x * (y * z) == (x * y) * z;
  }

  /** Whoever has an inverse is coprime to the modulus. */
  lemma InverseImpliesCoprime(a: int, m: nat, y: int)
    requires m > 0 && IsInverse(a, m, y)
    ensures Coprime(a, m)
  {
    forall d: nat | Divides(d, a) && Divides(d, m)
      ensures d == 1
    {
      var q := (a * y) / m;
      DividesProduct(d, a, y);
      DividesCombination(d, a * y, m, q);
      assert a * y - q * m == (a * y) % m;
      if m == 1 {
        DividesOne(d, m);
      } else {
        DivModUnique(1, m, 0, 1);
        DividesOne(d, 1);
      }
    }
  }

  lemma DividesProduct(d: nat, x: int, y: int)
    requires Divides(d, x)
    ensures Divides(d, x * y)
  {
    var k := x / d;
    assert (d * k) * y == d * (k * y);
    MultipleDivides(d, x * y, k * y);
  }

  lemma DividesOne(d: nat, x: int)
    requires Divides(d, x) && x == 1
    ensures d == 1
  {
    if d > 1 { DivModUnique(1, d, 0, 1); }
  }

  lemma CoprimeOfRemainder(a: int, m: nat)
    requires m > 0
    ensures SameCommonDivisors(a, m, a % m, m)
  {
    EuclidStep(a, m, a / m);
    assert a - (a / m) * m == a % m;
  }

  /** `r` is the combination of `a` and `m` with coefficients `x` and `y`. */
  predicate Combines(a: int, m: int, x: int, y: int, r: int) {
    r == a * x + m * y
  }

  lemma CombineStep(a: int, m: int, x: int, y: int, r: int, x': int, y': int, r': int, q: int)
    requires Combines(a, m, x, y, r) && Combines(a, m, x', y', r')
    ensures Combines(a, m, x - q * x', y - q * y', r - q * r')
  {
    assert a * (q * x') == q * (a * x') && m * (q * y') == q * (m * y');
    assert a * (x - q * x') == a * x - a * (q * x') && m * (y - q * y') == m * y - m * (q * y');
    assert q * r' == q * (a * x') + q * (m * y');
  }

  lemma RemainderOf(x: nat, y: nat)
    requires y > 0
    ensures x - (x / y) * y == x % y && 0 <= x % y < y
  {
  }

  lemma CommonDivisorsStep(a: int, m: int, x: int, y: int, q: int)
    requires SameCommonDivisors(a, m, x, y)
    ensures SameCommonDivisors(a, m, y, x - q * y)
  {
    EuclidStep(x, y, q);
  }

  /** The coefficient of `a` in a combination that is 1 is its inverse. */
  lemma CombinedToOne(a: int, m: nat, x: int, y: int)
    requires m > 0 && Combines(a, m, x, y, 1)
    ensures IsInverse(a, m, x % m) && Coprime(a, m)
    ensures forall z: int :: IsInverse(a, m, z) ==> z == x % m
  {
    MulModRight(a, x, m);
    ModMultiple(a * x, y, m);
    InverseImpliesCoprime(a, m, x % m);
    forall z: int | IsInverse(a, m, z) ensures z == x % m {
      InverseIsUnique(a, m, z, x % m);
    }
  }

  lemma NotCoprime(a: int, m: nat, d: nat)
    requires d > 1 && SameCommonDivisors(a, m, d, 0)
    ensures !Coprime(a, m)
  {
    assert Divides(d, d) && Divides(d, 0);
  }

  lemma FirstRemainder(a: int, m: nat)
    requires m > 0
    ensures Combines(a, m, 1, -(a / m), a % m) && Combines(a, m, 0, 1, m)
  {
  }

  /** Extended Euclid: the inverse when there is one, an error when there is none. */
  method ModInverse(a: int, m: nat) returns (inverse: Result<nat, ()>)
    requires m > 0
    ensures inverse.Ok? <==> Coprime(a, m)
    ensures inverse.Ok? ==> IsInverse(a, m, inverse.value)
    ensures inverse.Ok? ==> forall y: int :: IsInverse(a, m, y) ==> y == inverse.value
  {
    NormalizedRemainder(a, m);
    var oldR, r := TruncatedRemainder(TruncatedRemainder(a, m) + m, m), m;
    var oldS, s := 1, 0;
    CoprimeOfRemainder(a, m);
    FirstRemainder(a, m);
    // The coefficients of `m`, which the source does not keep.
    ghost var oldT, t := -(a / m), 1;
    while r != 0
      invariant oldR >= 0 && r >= 0 && oldR + r > 0
      invariant Combines(a, m, oldS, oldT, oldR) && Combines(a, m, s, t, r)
      invariant SameCommonDivisors(a, m, oldR, r)
      decreases r
    {
      var q := oldR / r;
      RemainderOf(oldR, r);
      CommonDivisorsStep(a, m, oldR, r, q);
      CombineStep(a, m, oldS, oldT, oldR, s, t, r, q);
      oldT, t := t, oldT - q * t;
      oldR, r := r, oldR - q * r;
      oldS, s := s, oldS - q * s;
    }
    if oldR != 1 {
      NotCoprime(a, m, oldR);
      return Err(());
    }
    NormalizedRemainder(oldS, m);
    CombinedToOne(a, m, oldS, oldT);
    return Ok(TruncatedRemainder(TruncatedRemainder(oldS, m) + m, m));
  }
}
