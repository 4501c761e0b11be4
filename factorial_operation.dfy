/**
 * The factorial operation: the exact product 1 * 2 * ... * n, accumulated
 * in a big integer (here an unbounded `nat`), and the message reporting it.
 */
module FactorialOperation {
  import opened JavaText

  /** n! by its recursive definition; 0! == 1. */
  function Fact(n: nat): nat {
    if n == 0 then 1 else n * Fact(n - 1)
  }

  /** n! is at least n, and at least 1. */
  lemma {:induction false} FactAtLeast(n: nat)
    ensures Fact(n) >= n && Fact(n) >= 1
  {
    if n > 0 {
      FactAtLeast(n - 1);
    }
  }

  /**
   * `calculateFactorial`: start from ONE and multiply by 2, 3, ..., n.
   * For n < 2 the loop does not run and the result is 1.
   */
  method CalculateFactorial(n: Int32) returns (result: nat)
    ensures n >= 0 ==> result == Fact(n)
    ensures n < 0 ==> result == 1
    ensures result >= 1 && result >= n
  {
    result := 1;
    var i: int := 2;
    while i <= n
      invariant 2 <= i <= if n >= 1 then n + 1 else 2
      invariant result == Fact(i - 1)
    {
      result := result * i;
      i := i + 1;
    }
    assert Fact(1) == 1;
    FactAtLeast(i - 1);
  }

  const NEGATIVE_MESSAGE: string := "Factorial is not defined for negative numbers."

  /** What `execute` answers for `n`: the exact factorial, or the message for negative input. */
  function Report(n: int): string {
    if n < 0 then NEGATIVE_MESSAGE
    else "Factorial of " + IntToString(n) + " = " + IntToString(Fact(n))
  }

  /** `execute`: 0 and 1 are answered directly, larger numbers through `CalculateFactorial`. */
  method Execute(number: Int32) returns (msg: string)
    ensures msg == Report(number)
  {
    if number < 0 {
      return NEGATIVE_MESSAGE;
    }
    if number == 0 || number == 1 {
      return "Factorial of " + IntToString(number) + " = 1";
    }
    var result := CalculateFactorial(number);
    msg := "Factorial of " + IntToString(number) + " = " + IntToString(result);
  }

  /** 5! is 120. */
  lemma Example5()
    ensures Report(5) == "Factorial of " + "5" + " = " + "120"
  {
    assert Fact(5) == 120;
    assert IntToString(5) == "5";
    assert NatToString(120) == NatToString(12) + ['0'];
    assert IntToString(120) == "120";
  }

  /** 1! and 0! are both 1. */
  lemma ExamplesOneAndZero()
    ensures Report(1) == "Factorial of " + "1" + " = " + "1"
    ensures Report(0) == "Factorial of " + "0" + " = " + "1"
  {
    assert Fact(1) == 1;
    assert IntToString(1) == "1" && IntToString(0) == "0";
  }

  /** -1 is refused. */
  lemma ExampleNegative()
    ensures Report(-1) == "Factorial is not defined for negative numbers."
  {
  }
}
