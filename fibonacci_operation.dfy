/**
 * The Fibonacci series operation: the first n terms F(0), F(1), ..., built in
 * a list of Java `long`s by appending the sum of the previous two, and the
 * message listing them.
 */
module FibonacciOperation {
  import opened JavaText

  /** The Fibonacci numbers: F(0) = 0, F(1) = 1, F(k) = F(k - 1) + F(k - 2). */
  function Fib(k: nat): nat {
    if k < 2 then k else Fib(k - 1) + Fib(k - 2)
  }

  /** The k-th term as the source holds it: F(k) in a Java `long`, wrapped modulo 2^64. */
  function LongFib(k: nat): int {
    WrapLong(Fib(k))
  }

  /** The first n terms of the series. */
  function Terms(n: nat): (ts: seq<int>)
    ensures |ts| == n
    ensures forall k :: 0 <= k < n ==> ts[k] == LongFib(k)
  {
    seq(n, k requires 0 <= k => LongFib(k))
  }

  /**
   * `generateFibonacciSeries`: start the list with 0 (if n >= 1) and 1 (if
   * n >= 2), then append the `long` sum of the last two terms until it holds n.
   */
  method GenerateFibonacciSeries(n: Int32) returns (series: seq<int>)
    ensures |series| == if n < 0 then 0 else n
    ensures forall k :: 0 <= k < |series| ==> series[k] == LongFib(k)
  {
    series := [];
    if n >= 1 {
      series := series + [0];
    }
    if n >= 2 {
      series := series + [1];
    }
    var i: int := 2;
    while i < n
      invariant 2 <= i && (n >= 2 ==> i <= n)
      invariant |series| == if n < 2 then (if n < 0 then 0 else n) else i
      invariant forall k :: 0 <= k < |series| ==> series[k] == LongFib(k)
    {
      var next := WrapLong(series[i - 1] + series[i - 2]);
      WrapLongAdd(Fib(i - 1), Fib(i - 2));
      series := series + [next];
      i := i + 1;
    }
  }

  /** Every term after the first two is the `long` sum of the two before it. */
  lemma TermsRecurrence(n: nat, k: nat)
    requires 2 <= k < n
    ensures Terms(n)[k] == WrapLong(Terms(n)[k - 1] + Terms(n)[k - 2])
  {
    WrapLongAdd(Fib(k - 1), Fib(k - 2));
  }

  /** The series never decreases. */
  lemma {:induction false} FibMonotone(j: nat, k: nat)
    requires j <= k
    ensures Fib(j) <= Fib(k)
    decreases k - j
  {
    if j < k {
      FibMonotone(j, k - 1);
    }
  }

  function FibStep(m: nat, a: nat, b: nat): nat {
    if m == 0 then a else FibStep(m - 1, b, a + b)
  }

  /** Stepping m times from two consecutive terms reaches the term m further on. */
  lemma {:induction false} FibStepSound(k: nat, m: nat)
    ensures Fib(k + m) == FibStep(m, Fib(k), Fib(k + 1))
    decreases m
  {
    if m > 0 {
      FibStepSound(k + 1, m - 1);
    }
  }

  /** F(10) and F(11), computed from the definition. */
  lemma Fib10()
    ensures Fib(10) == 55 && Fib(11) == 89
  {
  }

  /** F(20) and F(21), ten steps on from F(10) and F(11). */
  lemma Fib20()
    ensures Fib(20) == 6765 && Fib(21) == 10946
  {
    Fib10();
    FibStepSound(10, 10);
    FibStepSound(11, 10);
  }

  /** F(30) and F(31), ten steps on from F(20) and F(21). */
  lemma Fib30()
    ensures Fib(30) == 832040 && Fib(31) == 1346269
  {
    Fib20();
    FibStepSound(20, 10);
    FibStepSound(21, 10);
  }

  /** F(40) and F(41), ten steps on from F(30) and F(31). */
  lemma Fib40()
    ensures Fib(40) == 102334155 && Fib(41) == 165580141
  {
    Fib30();
    FibStepSound(30, 10);
    FibStepSound(31, 10);
  }

  /** F(50) and F(51), ten steps on from F(40) and F(41). */
  lemma Fib50()
    ensures Fib(50) == 12586269025 && Fib(51) == 20365011074
  {
    Fib40();
    FibStepSound(40, 10);
    FibStepSound(41, 10);
  }

  /** F(60) and F(61), ten steps on from F(50) and F(51). */
  lemma Fib60()
    ensures Fib(60) == 1548008755920 && Fib(61) == 2504730781961
  {
    Fib50();
    FibStepSound(50, 10);
    FibStepSound(51, 10);
  }

  /** F(70) and F(71), ten steps on from F(60) and F(61). */
  lemma Fib70()
    ensures Fib(70) == 190392490709135 && Fib(71) == 308061521170129
  {
    Fib60();
    FibStepSound(60, 10);
    FibStepSound(61, 10);
  }

  /** F(80) and F(81), ten steps on from F(70) and F(71). */
  lemma Fib80()
    ensures Fib(80) == 23416728348467685 && Fib(81) == 37889062373143906
  {
    Fib70();
    FibStepSound(70, 10);
    FibStepSound(71, 10);
  }

  /** F(90) and F(91), ten steps on from F(80) and F(81). */
  lemma Fib90()
    ensures Fib(90) == 2880067194370816120 && Fib(91) == 4660046610375530309
  {
    Fib80();
    FibStepSound(80, 10);
    FibStepSound(81, 10);
  }

  /** F(92) is the largest Fibonacci number a `long` holds; F(93) is the first that does not. */
  lemma LongBoundary()
    ensures Fib(92) == 7540113804746346429 && Fib(92) < 0x8000_0000_0000_0000
    ensures Fib(93) == 12200160415121876738 && Fib(93) >= 0x8000_0000_0000_0000
  {
    Fib90();
    FibStepSound(90, 2);
    FibStepSound(90, 3);
  }

  /** The first 93 terms are exact: for k <= 92 the `long` term is F(k) itself. */
  lemma LongTermsExact(k: nat)
    requires k <= 92
    ensures LongFib(k) == Fib(k)
  {
    FibMonotone(k, 92);
    LongBoundary();
  }

  /** Term 93 is the first to wrap around: it comes out negative. */
  lemma FirstWrappedTerm()
    ensures LongFib(93) == Fib(93) - 0x1_0000_0000_0000_0000 && LongFib(93) < 0
  {
    LongBoundary();
  }

  const NEGATIVE_MESSAGE: string := "Fibonacci series is not defined for negative numbers."

  /** What `execute` answers for `n`: "term" for one term, "terms" otherwise. */
  function Report(n: int): string {
    if n < 0 then NEGATIVE_MESSAGE
    else
      "Fibonacci series with " + IntToString(n) + (if n == 1 then " term: " else " terms: ")
      + ListToString(Terms(n))
  }

  /** `execute`: 0 and 1 terms are answered directly, longer series through `GenerateFibonacciSeries`. */
  method Execute(number: Int32) returns (msg: string)
    ensures msg == Report(number)
  {
    if number < 0 {
      return NEGATIVE_MESSAGE;
    }
    if number == 0 {
      assert Terms(0) == [];
      return "Fibonacci series with 0 terms: []";
    }
    if number == 1 {
      assert Terms(1) == [0];
      return "Fibonacci series with 1 term: [0]";
    }
    var fibonacciSeries := GenerateFibonacciSeries(number);
    assert fibonacciSeries == Terms(number);
    msg := "Fibonacci series with " + IntToString(number) + " terms: " + ListToString(fibonacciSeries);
  }

  /** The first five terms are 0, 1, 1, 2, 3. */
  lemma FirstFiveTerms()
    ensures Terms(5) == [0, 1, 1, 2, 3]
  {
    assert Fib(2) == 1 && Fib(3) == 2 && Fib(4) == 3;
  }

  /** The first two terms are listed as "0, 1". */
  lemma FirstTwoText()
    ensures JoinLongs([0, 1]) == "0, 1"
  {
    assert IntToString(0) == "0" && IntToString(1) == "1";
    JoinLongsSnoc([0], 1);
    assert [0] + [1] == [0, 1];
  }

  /** The first three terms are listed as "0, 1, 1". */
  lemma FirstThreeText()
    ensures JoinLongs([0, 1, 1]) == "0, 1, 1"
  {
    FirstTwoText();
    assert IntToString(1) == "1";
    JoinLongsSnoc([0, 1], 1);
    assert [0, 1] + [1] == [0, 1, 1];
  }

  /** The first four terms are listed as "0, 1, 1, 2". */
  lemma FirstFourText()
    ensures JoinLongs([0, 1, 1, 2]) == "0, 1, 1, 2"
  {
    FirstThreeText();
    assert IntToString(2) == "2";
    JoinLongsSnoc([0, 1, 1], 2);
    assert [0, 1, 1] + [2] == [0, 1, 1, 2];
  }

  /** The first five terms are listed as "0, 1, 1, 2, 3". */
  lemma FirstFiveJoined()
    ensures JoinLongs([0, 1, 1, 2, 3]) == "0, 1, 1, 2, 3"
  {
    FirstFourText();
    assert IntToString(3) == "3";
    JoinLongsSnoc([0, 1, 1, 2], 3);
    assert [0, 1, 1, 2] + [3] == [0, 1, 1, 2, 3];
  }

  /** In brackets, as `List.toString` prints them: "[0, 1, 1, 2, 3]". */
  lemma FirstFiveText()
    ensures ListToString([0, 1, 1, 2, 3]) == "[0, 1, 1, 2, 3]"
  {
    FirstFiveJoined();
  }

  /** The message for five terms lists "[0, 1, 1, 2, 3]". */
  lemma FiveTermsReport()
    ensures Report(5) == "Fibonacci series with " + "5" + " terms: " + "[0, 1, 1, 2, 3]"
  {
    FirstFiveTerms();
    FirstFiveText();
    assert IntToString(5) == "5";
  }

  /** The message for two terms lists "[0, 1]". */
  lemma TwoTermsReport()
    ensures Report(2) == "Fibonacci series with " + "2" + " terms: " + "[0, 1]"
  {
    assert Terms(2) == [0, 1];
    FirstTwoText();
    assert IntToString(2) == "2";
  }
}
