/**
 * The prime-number check: trial division by 2, by 3, and then by the
 * candidates 6k - 1 and 6k + 1 up to the square root, and the message
 * reporting the verdict.
 */
module PrimeOperation {
  import opened JavaText
  import opened Divisibility

  /** The meaning of "prime": at least 2, and no divisor in [2, n). */
  predicate IsPrimeNumber(n: int) {
    n >= 2 && forall d :: 2 <= d < n ==> n % d != 0
  }

  /**
   * Between a candidate i = 6k - 1 and the next one, every number other than
   * i and i + 2 is a multiple of 2 or of 3.
   */
  lemma OffCandidate(i: int, d: int)
    requires i % 6 == 5 && i <= d < i + 6 && d != i && d != i + 2
    ensures d % 2 == 0 || d % 3 == 0
  {
    var q := i / 6;
    assert i == 6 * q + 5;
    if d == i + 1 {
      MultipleMod(2, 3 * q + 3);
    } else if d == i + 3 {
      MultipleMod(2, 3 * q + 4);
    } else if d == i + 4 {
      MultipleMod(3, 2 * q + 3);
    } else {
      MultipleMod(2, 3 * q + 5);
    }
  }

  /** The candidate after i = 6k - 1 is i + 6 = 6(k + 1) - 1. */
  lemma NextCandidate(i: int)
    requires i % 6 == 5
    ensures (i + 6) % 6 == 5
  {
    var q := i / 6;
    assert i + 6 == 6 * (q + 1) + 5;
  }

  /** One divisor strictly between 1 and n is enough to make n composite. */
  lemma DivisorWitness(n: int, d: int)
    requires 2 <= d < n && n % d == 0
    ensures !IsPrimeNumber(n)
  {
  }

  /** A number divisible by neither 2 nor 3 has no divisor that is a multiple of 2 or of 3. */
  lemma NoEvenOrTripleDivisor(n: int, d: int)
    requires d > 0 && n % 2 != 0 && n % 3 != 0
    requires d % 2 == 0 || d % 3 == 0
    ensures n % d != 0
  {
    if n % d == 0 {
      if d % 2 == 0 {
        DividesTransitive(2, d, n);
      } else {
        DividesTransitive(3, d, n);
      }
    }
  }

  /** The divisor test may stop at the square root: with no divisor below i and i * i > n, n is prime. */
  lemma NoDivisorBelowRoot(n: int, i: int)
    requires n >= 2 && i >= 2 && i * i > n
    requires forall d :: 2 <= d < i ==> n % d != 0
    ensures IsPrimeNumber(n)
  {
    forall d | 2 <= d < n
      ensures n % d != 0
    {
      if n % d == 0 {
        var c := n / d;
        CofactorDivides(n, d);
        QuotientExact(n, d);
        if c <= 1 {
          MulMonotone(c, 1, d);
        } else if c >= i {
          MulMonotone(i, c, d);
          if d >= i {
            MulMonotone(i, d, i);
          }
        }
      }
    }
  }

  /** The step of the 6k±1 scan: with neither i nor i + 2 a divisor, nothing in [i, i + 6) divides n. */
  lemma ScanStep(n: int, i: int)
    requires i >= 5 && i % 6 == 5
    requires n % 2 != 0 && n % 3 != 0
    requires n % i != 0 && n % (i + 2) != 0
    requires forall d :: 2 <= d < i ==> n % d != 0
    ensures forall d :: 2 <= d < i + 6 ==> n % d != 0
    ensures (i + 6) % 6 == 5
  {
    NextCandidate(i);
    forall d | i <= d < i + 6 && d != i && d != i + 2
      ensures n % d != 0
    {
      OffCandidate(i, d);
      NoEvenOrTripleDivisor(n, d);
    }
  }

  /** A candidate whose square is at most n lies, with the one after it, below n. */
  lemma BelowRoot(n: int, i: int)
    requires i >= 5 && i * i <= n
    ensures i + 2 < n
  {
    MulMonotone(5, i, i);
  }

  /** Before the scan: a number above 3 divisible by neither 2 nor 3 has no divisor in [2, 5). */
  lemma ScanStart(n: int)
    requires n > 3 && n % 2 != 0 && n % 3 != 0
    ensures forall d :: 2 <= d < 5 ==> n % d != 0
  {
    NoEvenOrTripleDivisor(n, 4);
  }

  /**
   * `isPrime`, with `i * i` evaluated without overflow (as a `long` would):
   * false for n <= 1, true for 2 and 3, false for multiples of 2 or 3, then
   * trial division by i and i + 2 for i = 5, 11, 17, ... while i * i <= n.
   */
  method IsPrime(number: Int32) returns (r: bool)
    ensures r == IsPrimeNumber(number)
  {
    if number <= 1 {
      return false;
    }
    if number <= 3 {
      return true;
    }
    if number % 2 == 0 || number % 3 == 0 {
      return false;
    }
    ScanStart(number);
    var i: int := 5;
    while i * i <= number
      invariant i >= 5 && i % 6 == 5
      invariant forall d :: 2 <= d < i ==> number % d != 0
      decreases number - i
    {
      BelowRoot(number, i);
      if number % i == 0 {
        DivisorWitness(number, i);
        return false;
      }
      if number % (i + 2) == 0 {
        DivisorWitness(number, i + 2);
        return false;
      }
      ScanStep(number, i);
      i := i + 6;
    }
    NoDivisorBelowRoot(number, i);
    return true;
  }

  /**
   * `isPrime` exactly as written: the guard `i * i <= number` is computed in
   * 32-bit `int` arithmetic and wraps around once i passes 46340. It never
   * answers "prime" for a composite number, but for `number == Integer.MAX_VALUE`
   * (2^31 - 1) the wrapped guard can never fail, so the scan runs on until it
   * divides the number by itself and answers "not prime". Below 46337^2 =
   * 2147117569 every square the scan computes fits in an `int`, and the answer
   * is the intended one.
   */
  method IsPrimeAsWritten(number: Int32) returns (r: bool)
    ensures r ==> IsPrimeNumber(number)
    ensures number < 46337 * 46337 ==> r == IsPrimeNumber(number)
    ensures number == INT_MAX ==> !r
  {
    if number <= 1 {
      return false;
    }
    if number <= 3 {
      return true;
    }
    if number % 2 == 0 || number % 3 == 0 {
      return false;
    }
    ScanStart(number);
    var i: Int32 := 5;
    while WrapInt(i * i) <= number
      invariant 5 <= i <= number && i % 6 == 5
      invariant forall d :: 2 <= d < i ==> number % d != 0
      invariant number < 46337 * 46337 ==> i <= 46337
      decreases number - i
    {
      ghost var squaresFit := number < 46337 * 46337;
      if squaresFit {
        SquareFits(number, i);
      }
      if number % i == 0 {
        if squaresFit {
          DivisorWitness(number, i);
        }
        return false;
      }
      assert i != number by {
        if i == number {
          MultipleMod(i, 1);
        }
      }
      CandidatesBelow(number, i);
      if number % (i + 2) == 0 {
        if squaresFit {
          DivisorWitness(number, i + 2);
        }
        return false;
      }
      assert i + 2 != number by {
        if i + 2 == number {
          MultipleMod(i + 2, 1);
        }
      }
      ScanStep(number, i);
      i := i + 6;
    }
    WrappedAbove(i * i, number);
    NoDivisorBelowRoot(number, i);
    return true;
  }

  /**
   * Below 46337^2, a candidate up to 46337 that passes the as-written guard has
   * a square that fits in an `int`, so the guard tested the true square; the
   * candidate is then below the root and the next one is still at most 46337.
   */
  lemma SquareFits(n: int, i: int)
    requires n < 46337 * 46337 && 5 <= i <= 46337 && i % 6 == 5
    requires WrapInt(i * i) <= n
    ensures i * i <= n && i + 2 < n && i + 6 <= 46337
  {
    MulMonotone(i, 46337, i);
    MulMonotone(i, 46337, 46337);
    BelowRoot(n, i);
  }

  /** A wrapped square above an `int` is above it unwrapped as well. */
  lemma WrappedAbove(x: int, n: int)
    requires x >= 0 && n <= INT_MAX && WrapInt(x) > n
    ensures x > n
  {
  }

  /**
   * The as-written scan never steps past the number itself: after a candidate
   * i that is not the number, i + 2 is still at most the number, and so is the
   * next candidate i + 6 unless i + 2 is the number.
   */
  lemma CandidatesBelow(n: int, i: int)
    requires i % 6 == 5 && i < n
    requires n % 2 != 0 && n % 3 != 0
    ensures i + 2 <= n
    ensures n != i + 2 ==> i + 6 <= n
    ensures (i + 6) % 6 == 5
  {
    NextCandidate(i);
    if n < i + 6 && n != i + 2 {
      OffCandidate(i, n);
    }
  }

  /**
   * The as-written guard passes the square root of 2^31 - 1: 46337 is the last
   * candidate whose square fits in an `int`; the square of the next candidate,
   * 46343, wraps to a negative `int`, which is <= every positive number.
   */
  lemma WrappedGuardPassesRoot()
    ensures 46337 % 6 == 5 && 46343 == 46337 + 6
    ensures 46337 * 46337 <= INT_MAX < 46343 * 46343
    ensures WrapInt(46343 * 46343) == -2147293647
  {
  }

  const BELOW_TWO_SUFFIX: string := " is not prime (prime numbers start from 2)."

  /** What `execute` answers for `n`. */
  function Report(n: int): string {
    if n < 2 then "The number " + IntToString(n) + BELOW_TWO_SUFFIX
    else if IsPrimeNumber(n) then "The number " + IntToString(n) + " is a prime number."
    else "The number " + IntToString(n) + " is not a prime number."
  }

  /** `execute`: numbers below 2 are answered without running the test. */
  method Execute(number: Int32) returns (msg: string)
    ensures msg == Report(number)
  {
    if number < 2 {
      return "The number " + IntToString(number) + BELOW_TWO_SUFFIX;
    }
    var isPrime := IsPrime(number);
    if isPrime {
      msg := "The number " + IntToString(number) + " is a prime number.";
    } else {
      msg := "The number " + IntToString(number) + " is not a prime number.";
    }
  }

  /** For n >= 2, the message says "is a prime number" exactly when n is prime. */
  lemma ReportVerdict(n: int)
    requires n >= 2
    ensures Report(n) == "The number " + IntToString(n) + " is a prime number." <==> IsPrimeNumber(n)
  {
    var p := "The number " + IntToString(n);
    if !IsPrimeNumber(n) {
      assert (p + " is not a prime number.")[|p| + 4] != (p + " is a prime number.")[|p| + 4];
    }
  }

  /** 2 and 3 are prime; numbers above 3 divisible by 2 or 3 are not. */
  lemma SmallCases(n: int)
    ensures n <= 1 ==> !IsPrimeNumber(n)
    ensures (n == 2 || n == 3) ==> IsPrimeNumber(n)
    ensures n > 3 && (n % 2 == 0 || n % 3 == 0) ==> !IsPrimeNumber(n)
  {
    if n > 3 && n % 2 == 0 {
      assert n % 2 == 0 && 2 < n;
    }
    if n > 3 && n % 3 == 0 {
      assert n % 3 == 0 && 3 < n;
    }
  }

  /** 2 is reported prime. */
  lemma Example2()
    ensures Report(2) == "The number " + "2" + " is a prime number."
  {
    SmallCases(2);
    assert IntToString(2) == "2";
  }

  /** 3 is reported prime. */
  lemma Example3()
    ensures Report(3) == "The number " + "3" + " is a prime number."
  {
    SmallCases(3);
    assert IntToString(3) == "3";
  }

  /** 17 is reported prime: no candidate up to its square root divides it. */
  lemma Example17()
    ensures Report(17) == "The number " + "17" + " is a prime number."
  {
    NoDivisorBelowRoot(17, 5);
    assert IntToString(17) == "17";
  }

  /** 4 is reported not prime: 2 divides it. */
  lemma Example4()
    ensures Report(4) == "The number " + "4" + " is not a prime number."
  {
    DivisorWitness(4, 2);
    assert IntToString(4) == "4";
  }

  /** 15 is reported not prime: 3 divides it. */
  lemma Example15()
    ensures Report(15) == "The number " + "15" + " is not a prime number."
  {
    DivisorWitness(15, 3);
    assert IntToString(15) == "15";
  }
}
