/** The numeric tasks of a worker (src/worker/task.c). */
module Tasks {
  import opened Base

  const PRIME_COUNT_MAX: nat := 100000000
  const FIBONACCI_MAX: nat := 93

  // ---------- decimal arguments ----------

  predicate IsDigit(b: byte) {
    0x30 <= b <= 0x39
  }

  predicate AllDigits(text: bytes) {
    forall i :: 0 <= i < |text| ==> IsDigit(text[i])
  }

  /** The number a digit string denotes. */
  function DecimalValue(text: bytes): nat
    requires AllDigits(text)
  {
    if text == [] then 0 else 10 * DecimalValue(text[..|text| - 1]) + (text[|text| - 1] - 0x30)
  }

  lemma {:induction false} PrefixIsSmaller(text: bytes, n: nat)
    requires AllDigits(text) && n <= |text|
    ensures DecimalValue(text[..n]) <= DecimalValue(text)
    decreases |text|
  {
    if n < |text| {
      var m := |text| - 1;
      PrefixIsSmaller(text[..m], n);
      assert text[..m][..n] == text[..n];
    } else {
      assert text[..n] == text;
    }
  }

  /** The guard of the loop is the bound, without computing past it. */
  lemma GuardIsBound(value: nat, digit: nat, limit: nat)
    requires digit <= 9
    ensures (value > limit / 10 || (value == limit / 10 && digit > limit % 10)) <==> 10 * value + digit > limit
  {}

  /** `parse_number`: exactly the non-empty digit strings whose value is within the
      limit are accepted, and no intermediate value exceeds 64 bits. */
  method ParseNumber(text: bytes, limit: u64) returns (number: Option<u64>)
    ensures number.Some? <==> text != [] && AllDigits(text) && DecimalValue(text) <= limit
    ensures number.Some? ==> number.value == DecimalValue(text)
  {
    var value: u64 := 0;
    if |text| == 0 {
      return None;
    }
    for i := 0 to |text|
      invariant AllDigits(text[..i])
      invariant value == DecimalValue(text[..i]) <= limit
    {
      if text[i] < 0x30 || text[i] > 0x39 {
        assert !IsDigit(text[i]);
        return None;
      }
      var digit: u64 := text[i] - 0x30;
      assert text[..i + 1][..i] == text[..i];
      assert AllDigits(text[..i + 1]);
      GuardIsBound(value, digit, limit);
      if value > limit / 10 || (value == limit / 10 && digit > limit % 10) {
        if AllDigits(text) {
          PrefixIsSmaller(text, i + 1);
        }
        return None;
      }
      value := value * 10 + digit;
    }
    assert text[..|text|] == text;
    number := Some(value);
  }

  // ---------- counting primes ----------

  predicate Divides(d: nat, n: nat)
    requires d > 0
  {
    n % d == 0
  }

  predicate IsPrime(n: nat) {
    n >= 2 && forall d :: 2 <= d < n ==> !Divides(d, n)
  }

  function CountPrimes(n: nat): nat {
    if n == 0 then 0 else CountPrimes(n - 1) + (if IsPrime(n) then 1 else 0)
  }

  /** The loop condition `divisor <= candidate / divisor` is `divisor * divisor <=
      candidate`, without the product that could overflow. */
  lemma DivisionIsSquare(d: nat, n: nat)
    requires d > 0
    ensures d <= n / d <==> d * d <= n
  {
    var q := n / d;
    assert n == d * q + n % d;
    if d <= q {
      Scale(d, d, q);
    } else {
      Scale(d, q + 1, d);
    }
  }

  lemma Scale(d: nat, a: nat, b: nat)
    requires a <= b
    ensures d * a <= d * b
  {}

  /** A number that is not prime has a divisor whose square does not exceed it. */
  lemma SmallDivisor(n: nat, d: nat)
    requires n >= 2 && 2 <= d < n && Divides(d, n)
    ensures exists e: nat :: 2 <= e < n && Divides(e, n) && e * e <= n
  {
    var q := n / d;
    assert n == d * q;
    if d * d <= n {
      assert Divides(d, n);
    } else {
      CofactorBound(n, d, q);
      assert Divides(q, n);
    }
  }

  lemma CofactorBound(n: nat, d: nat, q: nat)
    requires n == d * q && 2 <= d < n && d * d > n
    ensures 2 <= q < n && q * q <= n && n % q == 0
  {
    assert q >= 2 by {
      if q <= 1 { Scale(d, q, 1); }
    }
    assert q < d by {
      if q >= d { Scale(d, d, q); }
    }
    Scale(q, q, d);
    MultipleDivides(d, q);
  }

  lemma MultipleDivides(d: nat, q: nat)
    requires q > 0
    ensures (d * q) % q == 0
  {
    var n := d * q;
    assert n == q * (n / q) + n % q;
    ExactQuotient(q, d - n / q, n % q);
  }

  lemma ExactQuotient(q: int, k: int, r: int)
    requires q > 0 && 0 <= r < q && q * k == r
    ensures r == 0
  {}

  /** No odd divisor below `bound`. */
  predicate NoOddDivisorBelow(n: nat, bound: nat) {
    forall d :: 3 <= d < bound && d % 2 == 1 ==> !Divides(d, n)
  }

  lemma OddHasNoEvenDivisor(n: nat, d: nat)
    requires n % 2 == 1 && d > 0 && d % 2 == 0
    ensures !Divides(d, n)
  {
    var q := n / d;
    assert n == d * q + n % d;
    assert d * q == 2 * ((d / 2) * q);
  }

  /** Trial division by odd numbers up to the root decides primality of odd numbers. */
  lemma TrialDivisionDecides(n: nat, bound: nat)
    requires n >= 3 && n % 2 == 1 && bound > 0 && bound * bound > n && NoOddDivisorBelow(n, bound)
    ensures IsPrime(n)
  {
    forall d | 2 <= d < n ensures !Divides(d, n) {
      if Divides(d, n) {
        SmallDivisor(n, d);
        var e: nat :| 2 <= e < n && Divides(e, n) && e * e <= n;
        if e % 2 == 0 {
          OddHasNoEvenDivisor(n, e);
        }
        if e >= bound {
          Scale(e, bound, e);
          Scale(bound, bound, e);
        }
      }
    }
  }

  /** The inner loop: is this odd candidate prime? */
  method IsOddPrime(candidate: u64) returns (prime: bool)
    requires candidate >= 3 && candidate % 2 == 1
    ensures prime <==> IsPrime(candidate)
  {
    prime := true;
    var divisor: nat := 3;
    while divisor <= candidate / divisor
      invariant divisor >= 3 && divisor % 2 == 1
      invariant NoOddDivisorBelow(candidate, divisor)
      invariant (divisor - 2) * (divisor - 2) <= candidate
      decreases candidate - divisor
    {
      DivisionIsSquare(divisor, candidate);
      DivisorBelow(divisor, candidate);
      if candidate % divisor == 0 {
        assert Divides(divisor, candidate);
        return false;
      }
      NextOdd(candidate, divisor);
      divisor := divisor + 2;
    }
    DivisionIsSquare(divisor, candidate);
    TrialDivisionDecides(candidate, divisor);
  }

  lemma DivisorBelow(d: nat, n: nat)
    requires d >= 3 && d * d <= n
    ensures d + 2 <= n
  {
    Scale(d, 3, d);
  }

  lemma NextOdd(n: nat, d: nat)
    requires NoOddDivisorBelow(n, d) && d % 2 == 1 && d > 0 && !Divides(d, n)
    ensures NoOddDivisorBelow(n, d + 2)
  {}

  lemma EvenNotPrime(n: nat)
    requires n > 2 && n % 2 == 0
    ensures !IsPrime(n)
  {
    assert Divides(2, n);
  }

  /** The prime_count task counts exactly the primes up to its argument. */
  method PrimeCount(number: u64) returns (count: u64)
    requires number <= PRIME_COUNT_MAX
    ensures count == CountPrimes(number)
  {
    count := if number >= 2 then 1 else 0;
    var candidate: u64 := 3;
    SmallCounts();
    while candidate <= number
      invariant candidate >= 3 && candidate % 2 == 1
      invariant number >= 2 ==> candidate <= number + 2
      invariant number < 2 ==> candidate == 3 && count == CountPrimes(number)
      invariant number >= 2 ==> count == CountPrimes(if candidate - 1 <= number then candidate - 1 else number)
      invariant count <= candidate
      decreases number + 2 - candidate
    {
      var prime := IsOddPrime(candidate);
      if prime {
        count := count + 1;
      }
      EvenNotPrime(candidate + 1);
      candidate := candidate + 2;
    }
  }

  lemma SmallCounts()
    ensures CountPrimes(0) == 0 && CountPrimes(1) == 0 && CountPrimes(2) == 1
  {
    assert IsPrime(2);
  }

  // ---------- Fibonacci ----------

  function Fib(n: nat): nat {
    if n < 2 then n else Fib(n - 1) + Fib(n - 2)
  }

  lemma {:induction false} FibGrows(m: nat, n: nat)
    requires m <= n
    ensures Fib(m) <= Fib(n)
    decreases n
  {
    if m < n {
      FibGrows(m, n - 1);
    }
  }

  /** Ten steps at a time. */
  function FibTens(k: nat): (nat, nat) {
    if k == 0 then (0, 1)
    else
      var (a, b) := FibTens(k - 1);
      (34 * a + 55 * b, 55 * a + 89 * b)
  }

  lemma FibLeap(n: nat)
    ensures Fib(n + 3) == Fib(n) + 2 * Fib(n + 1)
    ensures Fib(n + 10) == 34 * Fib(n) + 55 * Fib(n + 1)
    ensures Fib(n + 11) == 55 * Fib(n) + 89 * Fib(n + 1)
  {
    assert Fib(n + 4) == 2 * Fib(n) + 3 * Fib(n + 1);
    assert Fib(n + 6) == 5 * Fib(n) + 8 * Fib(n + 1);
    assert Fib(n + 8) == 13 * Fib(n) + 21 * Fib(n + 1);
  }

  lemma {:induction false} FibByTens(k: nat)
    ensures Fib(10 * k) == FibTens(k).0 && Fib(10 * k + 1) == FibTens(k).1
  {
    if k == 0 {
      FibStart();
    } else {
      hide Fib;
      FibByTens(k - 1);
      FibLeap(10 * (k - 1));
    }
  }

  lemma FibTensValues()
    ensures FibTens(9) == (2880067194370816120, 4660046610375530309)
  {
    assert FibTens(3) == (832040, 1346269);
    assert FibTens(6) == (1548008755920, 2504730781961);
  }

  lemma FibFits()
    ensures Fib(FIBONACCI_MAX) == 12200160415121876738
  {
    hide Fib, FibTens;
    FibByTens(9);
    FibTensValues();
    FibLeap(90);
  }

  lemma FibStep(n: nat)
    requires n >= 2
    ensures Fib(n) == Fib(n - 1) + Fib(n - 2)
  {}

  lemma FibStart()
    ensures Fib(0) == 0 && Fib(1) == 1
  {}

  /** The fibonacci task: exact for every argument up to 93, without leaving 64 bits. */
  method Fibonacci(number: u64) returns (value: u64)
    requires number <= FIBONACCI_MAX
    ensures value == Fib(number)
  {
    hide Fib;
    var previous: u64, current: u64 := 0, 1;
    FibFits();
    FibStart();
    var i: u64 := 2;
    while i <= number
      invariant 2 <= i <= FIBONACCI_MAX + 1
      invariant number >= 2 ==> i <= number + 1
      invariant number < 2 ==> i == 2
      invariant previous == Fib(i - 2) && current == Fib(i - 1)
    {
      FibGrows(i, FIBONACCI_MAX);
      FibStep(i);
      var next: u64 := previous + current;
      previous := current;
      current := next;
      i := i + 1;
    }
    value := if number == 0 then 0 else current;
  }
}
