/**
 * The prime tables of the gtest samples (prime_tables.h, sample8_unittest.cc): trial division, the sieve and the
 * hybrid of both against the definition of a prime, over the mathematical integers.
 */
module PrimeTables {
  import opened Arithmetic

  /** `d` is a divisor of `n` other than 1 and `n`. */
  predicate Divides(d: int, n: int) {
    2 <= d < n && n % d == 0
  }

  predicate NoDivisorBelow(n: int, bound: int) {
    forall d :: 2 <= d < bound ==> !Divides(d, n)
  }

  predicate Prime(n: int) {
    n >= 2 && NoDivisorBelow(n, n)
  }

  /** `q` is the least prime above `p`. */
  ghost predicate NextPrime(p: int, q: int) {
    q > p && Prime(q) && forall m :: p < m < q ==> !Prime(m)
  }

  // ---- divisibility

  lemma Quotient(d: int, n: int) returns (k: int)
    requires d > 0 && n % d == 0
    ensures n == d * k
  {
    k := n / d;
  }

  lemma MultipleMod(d: int, k: int)
    requires d > 0
    ensures (d * k) % d == 0
  {
    QuotientIs(d * k, d, k, 0);
  }

  lemma DividesTransitive(d: int, i: int, n: int)
    requires Divides(d, i) && Divides(i, n)
    ensures Divides(d, n)
  {
    var a := Quotient(d, i);
    var b := Quotient(i, n);
    assert n == d * (a * b) by {
      assert (d * a) * b == d * (a * b);
    }
    MultipleMod(d, a * b);
  }

  /** If one factor exceeds the square root, the other does not. */
  lemma SmallFactor(d: int, n: int) returns (f: int)
    requires Divides(d, n)
    ensures Divides(f, n) && f * f <= n
  {
    var k := Quotient(d, n);
    if d * d <= n {
      f := d;
    } else {
      f := k;
      Cofactor(d, k, n);
      MultipleMod(k, d);
      assert k * d == n;
    }
  }

  lemma Cofactor(d: int, k: int, n: int)
    requires 2 <= d < n && n == d * k && d * d > n
    ensures 2 <= k < d && k * k <= n
  {
    if k <= 1 {
      MulGrows(d, k, 1);
    } else if k >= d {
      MulGrows(d, d, k);
    } else {
      MulGrows(k, k, d);
    }
  }

  lemma PrimeBySmallFactors(n: int, i: int)
    requires n >= 2 && i >= 2 && i * i > n && NoDivisorBelow(n, i)
    ensures Prime(n)
  {
    if !NoDivisorBelow(n, n) {
      var d :| 2 <= d < n && Divides(d, n);
      var f := SmallFactor(d, n);
      if f >= i {
        MulGrows(f, i, f);
        MulGrows(i, i, f);
      }
    }
  }

  // ---- there is always a larger prime

  function Factorial(n: nat): nat {
    if n == 0 then 1 else n * Factorial(n - 1)
  }

  lemma {:induction false} FactorialDivisible(n: nat, d: nat)
    requires 1 <= d <= n
    ensures Factorial(n) % d == 0 && Factorial(n) >= 1
  {
    FactorialPositive(n);
    if d == n {
      MultipleMod(n, Factorial(n - 1));
    } else {
      FactorialDivisible(n - 1, d);
      var k := Quotient(d, Factorial(n - 1));
      assert n * (d * k) == d * (n * k);
      MultipleMod(d, n * k);
    }
  }

  lemma {:induction false} FactorialPositive(n: nat)
    ensures Factorial(n) >= 1
  {
    if n > 0 {
      FactorialPositive(n - 1);
      assert n * Factorial(n - 1) >= 1 * 1;
    }
  }

  lemma OneIsNoMultiple(d: int, a: int, b: int)
    requires d >= 2
    ensures d * b != d * a + 1
  {
    var x := b - a;
    assert d * b - d * a == d * x;
    if d * x == 1 {
      SmallMultiple(d, x);
    }
  }

  /** A divisor of a number and of its successor is 1. */
  lemma NoCommonDivisor(d: int, n: int)
    requires d >= 2 && n % d == 0
    ensures (n + 1) % d != 0
  {
    if (n + 1) % d == 0 {
      var a := Quotient(d, n);
      var b := Quotient(d, n + 1);
      OneIsNoMultiple(d, a, b);
    }
  }

  lemma Composite(n: int) returns (d: int)
    requires n >= 2 && !Prime(n)
    ensures 2 <= d < n && Divides(d, n)
  {
    d :| 2 <= d < n && Divides(d, n);
  }

  /** Every number from 2 on is a prime or divisible by one. */
  lemma {:induction false} PrimeFactor(n: int) returns (q: int)
    requires n >= 2
    ensures Prime(q) && (q == n || Divides(q, n))
    decreases n
  {
    hide Prime, Divides;
    if Prime(n) {
      q := n;
    } else {
      var d := Composite(n);
      q := PrimeFactor(d);
      if q != d {
        DividesTransitive(q, d, n);
      }
    }
  }

  /** Euclid: there is a prime above every number. */
  lemma LargerPrime(p: nat) returns (q: int)
    ensures q > p && Prime(q)
  {
    FactorialPositive(p);
    q := PrimeFactor(Factorial(p) + 1);
    if q <= p {
      FactorialDivisible(p, q);
      NoCommonDivisor(q, Factorial(p));
    }
  }

  // ---- the tables

  class OnTheFlyPrimeTable {
    constructor () {
    }

    method IsPrime(n: int) returns (r: bool)
      ensures r <==> Prime(n)
    {
      if n <= 1 {
        return false;
      }
      var i := 2;
      while i * i <= n
        invariant i >= 2 && NoDivisorBelow(n, i)
        decreases n - i
      {
        assert i < n by {
          assert i * i >= 2 * i;
        }
        if n % i == 0 {
          assert Divides(i, n);
          return false;
        }
        i := i + 1;
      }
      PrimeBySmallFactors(n, i);
      return true;
    }

    /** A negative `p` ends the loop before it starts. */
    method GetNextPrime(p: int) returns (q: int)
      ensures NextPrime(p, q) <==> p >= 0
      ensures p < 0 ==> q == -1
    {
      ghost var bound := if p < 0 then 0 else p;
      bound := LargerPrime(bound);
      var n := p + 1;
      while n > 0
        invariant p >= 0 ==> n > p && forall m :: p < m < n ==> !Prime(m)
        invariant if p >= 0 then n <= bound else n <= 0
        decreases bound - n
      {
        var prime := IsPrime(n);
        if prime {
          return n;
        }
        n := n + 1;
      }
      return -1;
    }
  }

  /** Entry `k` of the sieve when the multiples of everything below `i` are out. */
  predicate Sifted(b: bool, k: int, i: int) {
    b <==> k >= 2 && NoDivisorBelow(k, i)
  }

  lemma SiftedNext(b: bool, k: int, i: int)
    requires i >= 2 && Sifted(b, k, i)
    ensures Sifted(b && !Divides(i, k), k, i + 1)
  {
  }

  lemma SiftedBySmaller(k: int, i: int)
    requires 2 <= i && !NoDivisorBelow(i, i)
    ensures NoDivisorBelow(k, i + 1) <==> NoDivisorBelow(k, i)
  {
    if Divides(i, k) {
      var d :| 2 <= d < i && Divides(d, i);
      DividesTransitive(d, i, k);
    }
  }

  lemma NextMultiple(i: int, j: int, k: int)
    requires i > 0 && j % i == 0 && j < k < j + i
    ensures k % i != 0 && (j + i) % i == 0
  {
    var a := Quotient(i, j);
    assert i * (a + 1) == j + i;
    MultipleMod(i, a + 1);
    if k % i == 0 {
      var b := Quotient(i, k);
      var x := b - a;
      assert i * x == i * b - i * a;
      SmallMultiple(i, x);
    }
  }

  class PreCalculatedPrimeTable {
    const isPrimeSize: int
    const isPrime: array<bool>

    /** The table answers for the numbers up to its size. */
    ghost predicate Valid()
      reads isPrime
    {
      isPrimeSize == isPrime.Length && forall k :: 0 <= k < isPrime.Length ==> (isPrime[k] <==> Prime(k))
    }

    constructor (max: int)
      requires max >= 1
      ensures Valid() && isPrimeSize == max + 1
    {
      isPrimeSize := max + 1;
      isPrime := new bool[max + 1];
      new;
      CalculatePrimesUpTo(max);
    }

    method CalculatePrimesUpTo(max: int)
      requires max >= 1 && isPrime.Length == max + 1
      modifies isPrime
      ensures forall k :: 0 <= k <= max ==> (isPrime[k] <==> Prime(k))
    {
      for k := 0 to isPrime.Length
        invariant forall j :: 0 <= j < k ==> isPrime[j]
      {
        isPrime[k] := true;
      }
      isPrime[0], isPrime[1] := false, false;
      var i := 2;
      while i <= max
        invariant 2 <= i <= max + 1
        invariant forall k :: 0 <= k <= max ==> Sifted(isPrime[k], k, i)
      {
        if isPrime[i] {
          MarkMultiples(max, i);
        } else {
          forall k | 0 <= k <= max ensures Sifted(isPrime[k], k, i + 1) {
            assert Sifted(isPrime[k], k, i) && Sifted(isPrime[i], i, i);
            SiftedBySmaller(k, i);
          }
        }
        i := i + 1;
      }
      forall k | 0 <= k <= max ensures isPrime[k] <==> Prime(k) {
        assert Sifted(isPrime[k], k, max + 1);
        assert NoDivisorBelow(k, max + 1) <==> NoDivisorBelow(k, k);
      }
    }

    /** The inner loop: all multiples of `i` but `i` itself are out. */
    method MarkMultiples(max: int, i: int)
      requires 2 <= i <= max && isPrime.Length == max + 1
      requires forall k :: 0 <= k <= max ==> Sifted(isPrime[k], k, i)
      modifies isPrime
      ensures forall k :: 0 <= k <= max ==> Sifted(isPrime[k], k, i + 1)
    {
      hide Sifted;
      var j := 2 * i;
      MultipleMod(i, 1);
      MultipleMod(i, 2);
      forall k | i < k < j ensures !Divides(i, k) {
        NextMultiple(i, i, k);
      }
      while j <= max
        invariant j > i && j % i == 0
        invariant forall k :: 0 <= k <= max ==>
          isPrime[k] == (old(isPrime[k]) && !(Divides(i, k) && k < j))
        decreases max - j
      {
        forall k | j < k < j + i ensures !Divides(i, k) {
          NextMultiple(i, j, k);
        }
        isPrime[j] := false;
        NextMultiple(i, j, j + 1);
        j := j + i;
      }
      forall k | 0 <= k <= max ensures Sifted(isPrime[k], k, i + 1) {
        SiftedNext(old(isPrime[k]), k, i);
      }
    }

    method IsPrime(n: int) returns (r: bool)
      requires Valid()
      ensures r <==> Prime(n) && n < isPrimeSize
    {
      r := 0 <= n && n < isPrimeSize && isPrime[n];
    }

    /** -1 if the next prime is beyond the table. */
    method GetNextPrime(p: int) returns (q: int)
      requires Valid() && p >= -1
      ensures if q == -1 then forall m :: p < m < isPrimeSize ==> !Prime(m) else NextPrime(p, q) && q < isPrimeSize
    {
      var n := p + 1;
      while n < isPrimeSize
        invariant n > p && forall m :: p < m < n ==> !Prime(m)
      {
        if isPrime[n] {
          return n;
        }
        n := n + 1;
      }
      return -1;
    }
  }

  class HybridPrimeTable {
    const onTheFly: OnTheFlyPrimeTable
    const precalc: PreCalculatedPrimeTable?
    const maxPrecalculated: int

    ghost predicate Valid()
      reads if precalc == null then {} else {precalc.isPrime}
    {
      precalc != null ==> precalc.Valid() && precalc.isPrimeSize == maxPrecalculated + 1
    }

    constructor (forceOnTheFly: bool, maxPrecalculated: int)
      requires forceOnTheFly || maxPrecalculated >= 1
      ensures Valid() && this.maxPrecalculated == maxPrecalculated && (precalc == null <==> forceOnTheFly)
    {
      onTheFly := new OnTheFlyPrimeTable();
      this.maxPrecalculated := maxPrecalculated;
      if forceOnTheFly {
        precalc := null;
      } else {
        precalc := new PreCalculatedPrimeTable(maxPrecalculated);
      }
    }

    /** The hybrid answers every number as the definition does, with or without the table. */
    method IsPrime(n: int) returns (r: bool)
      requires Valid()
      ensures r <==> Prime(n)
    {
      if precalc != null && n < maxPrecalculated {
        r := precalc.IsPrime(n);
      } else {
        r := onTheFly.IsPrime(n);
      }
    }

    /** Below -1 the table would be read before its start. */
    method GetNextPrime(p: int) returns (q: int)
      requires Valid() && (precalc != null ==> p >= -1)
      ensures NextPrime(p, q) <==> p >= 0 || (precalc != null && p == -1 && maxPrecalculated >= 2)
      ensures !NextPrime(p, q) ==> q == -1
    {
      var nextPrime := -1;
      if precalc != null && p < maxPrecalculated {
        nextPrime := precalc.GetNextPrime(p);
      }
      if nextPrime != -1 {
        q := nextPrime;
      } else {
        q := onTheFly.GetNextPrime(p);
      }
      assert Prime(2) && !Prime(0) && !Prime(1);
    }
  }
}
