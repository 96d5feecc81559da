/** Trial-division primality (src/maglev/maglev_table.c) and the number theory
    that makes a prime table size work. */
module Primes {
  import opened MachineInts

  predicate Divides(d: int, n: int)
    requires d > 0
  {
    n % d == 0
  }

  ghost predicate IsPrime(n: int) {
    n >= 2 && forall d :: 2 <= d < n ==> !Divides(d, n)
  }

  /** The two factors of a proper divisor. */
  lemma Cofactor(d: int, n: int) returns (k: int)
    requires 2 <= d < n && Divides(d, n)
    ensures 2 <= k < n && d * k == n && Divides(k, n)
  {
    k := n / d;
    assert d * k == n == k * d;
    if k <= 1 {
      MulMono(d, k, 1);
    } else {
      MulMono(k, 2, d);
    }
    MultipleModZero(k, d);
  }

  /** An odd number with no odd divisor below a bound whose square exceeds it
      is prime. */
  lemma NoSmallDivisorPrime(n: int, bound: int)
    requires n >= 3 && n % 2 == 1 && bound >= 3 && bound * bound > n
    requires NoOddDivisorBelow(n, bound)
    ensures IsPrime(n)
  {
    forall d | 2 <= d < n
      ensures !Divides(d, n)
    {
      if Divides(d, n) {
        var k := Cofactor(d, n);
        OddFactors(d, k, n);
        SmallFactor(d, k, bound);
        assert false;
      }
    }
  }

  lemma OddFactors(d: int, k: int, n: int)
    requires d * k == n && n % 2 == 1
    ensures d % 2 == 1 && k % 2 == 1
  {
    var h, g := d / 2, k / 2;
    assert d % 2 == 0 ==> n == 2 * (h * k);
    assert k % 2 == 0 ==> n == 2 * (g * d);
  }

  lemma SmallFactor(d: int, k: int, bound: int)
    requires 0 <= d && 0 <= bound && d * k < bound * bound
    ensures d < bound || k < bound
  {
    if bound <= k {
      MulMono(d, bound, k);
      if bound <= d {
        MulMono(bound, bound, d);
      }
    }
  }

  lemma TrialDivisorRange(n: u32, d: u32)
    requires 3 <= d && d * d <= n
    ensures d < n && d < 0x1_0000
  {
    SmallFactor(d, d, 0x1_0000);
    MulMono(d, 3, d);
  }

  lemma SquareFits(d: int)
    requires 0 <= d < 0x1_0002
    ensures 0 <= d * d < 0x1_0000_0000_0000_0000
  {
    MulMono(d, d, 0x1_0002);
  }

  ghost predicate NoOddDivisorBelow(n: int, bound: int) {
    forall e :: 3 <= e < bound && e % 2 == 1 ==> !Divides(e, n)
  }

  /** `maglev_is_prime`: accepts exactly the primes; the square is formed in 64
      bits and the divisor stays within 32 bits. */
  method IsPrimeU32(n: u32) returns (r: bool)
    ensures r <==> IsPrime(n)
  {
    if n < 2 {
      return false;
    }
    if n % 2 == 0 {
      assert n != 2 ==> Divides(2, n);
      return n == 2;
    }
    var d: u32 := 3;
    var square: u64 := d * d;
    while square <= n
      invariant 3 <= d < 0x1_0002 && d % 2 == 1 && square == d * d
      invariant NoOddDivisorBelow(n, d)
      decreases n - d
    {
      TrialDivisorRange(n, d);
      if n % d == 0 {
        assert Divides(d, n);
        return false;
      }
      assert !Divides(d, n);
      d := d + 2;
      SquareFits(d);
      square := d * d;
    }
    NoSmallDivisorPrime(n, d);
    return true;
  }

  /** Euclid's lemma, by the Euclidean descent on the first factor. */
  lemma {:induction false} Euclid(p: int, a: int, b: int)
    requires IsPrime(p) && 1 <= a < p && Divides(p, a * b)
    ensures Divides(p, b)
    decreases a
  {
    if a > 1 {
      var q, r, k := p / a, p % a, a * b / p;
      assert !Divides(a, p);
      assert r == p - a * q;
      calc {
        r * b;
        p * b - q * (a * b);
        p * b - q * (p * k);
        p * (b - q * k);
      }
      MultipleModZero(p, b - q * k);
      Euclid(p, r, b);
    }
  }
}
