# Servlet calculator: the computation layer in Dafny

A web form sends one integer and a set of operation names. The servlet checks
the input. It then looks up each named operation in a registry and runs it.
The operations are factorial, palindrome check, Fibonacci series, prime check
and cube root. Each answer is a message, stored under the operation's key.
This project models that computation and proves it against mathematical
definitions.

Modules (one per Java class, plus two support modules):

- `JavaText` (`java_text.dfy`) holds the Java behaviour the operations rely on:
  - `String.valueOf(int)` as `IntToString`;
  - `Integer.parseInt` on ASCII text as `ParseInt`;
  - `String.trim` as `Trim`;
  - `List<Long>.toString` as `ListToString`;
  - 32-bit and 64-bit two's-complement wrap-around as `WrapInt` and `WrapLong`.
- `Divisibility` (`divisibility.dfy`) holds small facts about remainders that the prime proofs use.
- `FactorialOperation`, `PrimeOperation`, `PalindromeOperation` and `FibonacciOperation` each contain:
  - the mathematical meaning (`Fact`, `IsPrimeNumber`, `ReadsSameBothWays`, `Fib`/`Terms`);
  - the message function `Report(n)` defined from that meaning;
  - the Java helper loop as a method proved equal to the meaning;
  - `Execute`, which follows the Java branches and is proved to return `Report(n)`.
- The prime check is the one exception to "the helper loop as written". `PrimeOperation.java:43` computes `i * i` in 32-bit `int` arithmetic, and that overflow makes it answer wrongly for 2147483647 (see "## Findings"). `PrimeOperation.IsPrimeAsWritten` keeps the overflow. It is proved exact below 46337^2 = 2147117569 and wrong at 2147483647. From 46337^2 up, the model proves only that it never calls a composite number prime. `PrimeOperation.IsPrime` computes the square without overflow and is proved exact for every `int`. `PrimeOperation.Execute`, and through it the dispatch and `processOperations`, use the corrected `IsPrime`.
- `Operations` (`operation_factory.dfy`) contains:
  - the five operations as a datatype, which stands in for the `MathOperation` interface;
  - the `OperationFactory` class, whose map field is filled by the constructor;
  - `Resolve`, which is what `getOperation` answers;
  - dispatch from an operation to its `execute`.
- `Validation` (`validation_result.dfy`) models the immutable `ValidationResult` as a two-constructor datatype with the Java getters. Java's `null` is `None`.
- `Servlet` (`math_operations_servlet.dfy`) contains:
  - `validateInput`, where the first failing check wins;
  - `processOperations`, where errors are kept per key;
  - `getOperationTitle`.

Numbers and arithmetic:

- Java `int` is the subset type `Int32`.
- `BigInteger` is the unbounded `nat`.
- Java `long` arithmetic is written out with `WrapLong`. The Fibonacci terms are therefore the wrapped values Java computes. The model proves that terms 0 to 92 are exact and that term 93 is the first one that wraps, coming out negative.

## Model

| member | source | states |
|---|---|---|
| JavaText.WrapInt | src/main/java/com/mathservlets/PrimeOperation.java:43 | The result is a 32-bit value congruent to x modulo 2^32. It equals x when x already fits. |
| JavaText.WrapLong | src/main/java/com/mathservlets/FibonacciOperation.java:51 | The result is a 64-bit value congruent to x modulo 2^64. It equals x when x already fits. |
| JavaText.WrapLongAdd | src/main/java/com/mathservlets/FibonacciOperation.java:51 | Adding two wrapped `long`s and wrapping again is the same as wrapping the exact sum. |
| JavaText.NatToString | src/main/java/com/mathservlets/PalindromeOperation.java:30 | The decimal text has at least one digit, only digits, and no leading zero unless the number is 0. |
| JavaText.DigitsValueOfNatToString | src/main/java/com/mathservlets/PalindromeOperation.java:30 | Reading the decimal text back gives the number. |
| JavaText.IntToStringShape | src/main/java/com/mathservlets/PalindromeOperation.java:30 | `String.valueOf` of a negative number starts with '-'. Otherwise it starts with a digit. It always ends with a digit. |
| JavaText.ParseIntOfIntToString | src/main/java/com/mathservlets/MathOperationsServlet.java:69 | `parseInt` of the decimal text of any `int` gives back that `int`. |
| JavaText.ParseIntRejectsBlankEdges | src/main/java/com/mathservlets/MathOperationsServlet.java:69 | Text that starts or ends with a blank does not parse. |
| JavaText.Trim | src/main/java/com/mathservlets/MathOperationsServlet.java:63 | A non-empty trimmed text neither starts nor ends with a character <= ' '. |
| JavaText.TrimEmptyIffBlank | src/main/java/com/mathservlets/MathOperationsServlet.java:63 | The trimmed text is empty exactly when every character is blank. |
| JavaText.TrimPadded | src/main/java/com/mathservlets/MathOperationsServlet.java:63-69 | Trimming blank padding around a body that neither starts nor ends blank gives back the body. |
| JavaText.IntToString | src/main/java/com/mathservlets/PalindromeOperation.java:30 | `String.valueOf(int)` is never empty, and it starts with '-' exactly for negative numbers. |
| JavaText.ParseInt | src/main/java/com/mathservlets/MathOperationsServlet.java:69 | Every value `parseInt` accepts lies in the `int` range. The round trip with `String.valueOf` is `ParseIntOfIntToString`. |
| JavaText.JoinLongs | src/main/java/com/mathservlets/FibonacciOperation.java:30 | The joined elements are empty text exactly for the empty list. |
| JavaText.ListToString | src/main/java/com/mathservlets/FibonacciOperation.java:30 | `List.toString` gives "[]" exactly for the empty list. |
| JavaText.JoinLongsSnoc | src/main/java/com/mathservlets/FibonacciOperation.java:30 | Appending an element to a non-empty list appends ", " and the element's text. |
| FactorialOperation.CalculateFactorial | src/main/java/com/mathservlets/FactorialOperation.java:34-40 | The loop gives n! for n >= 0 and 1 for n < 0, with no overflow. The result is at least 1 and at least n. |
| FactorialOperation.FactAtLeast | src/main/java/com/mathservlets/FactorialOperation.java:35-38 | The product is at least 1 and at least n. |
| FactorialOperation.Execute | src/main/java/com/mathservlets/FactorialOperation.java:12-27 | Negative input gives the "not defined" message. 0 and 1 give "Factorial of n = 1". Larger n gives the exact n!. |
| FactorialOperation.Example5 | src/test/java/com/mathservlets/MathOperationsTest.java:17 | The message for 5 is "Factorial of 5 = 120". |
| FactorialOperation.ExamplesOneAndZero | src/test/java/com/mathservlets/MathOperationsTest.java:18-19 | The messages for 1 and 0 are "Factorial of 1 = 1" and "Factorial of 0 = 1". |
| FactorialOperation.ExampleNegative | src/test/java/com/mathservlets/MathOperationsTest.java:22 | The message for -1 is "Factorial is not defined for negative numbers.". |
| PrimeOperation.IsPrime | src/main/java/com/mathservlets/PrimeOperation.java:29-50 | The 6k±1 trial division answers true exactly when n >= 2 and no d in [2, n) divides n. This is the intended version: `i * i` does not overflow. |
| PrimeOperation.IsPrimeAsWritten | src/main/java/com/mathservlets/PrimeOperation.java:29-50 | The loop with the 32-bit guard never reports a composite number as prime. Below 46337^2 = 2147117569 it answers exactly whether the number is prime. For 2147483647, which is prime, it answers false. |
| PrimeOperation.SquareFits | src/main/java/com/mathservlets/PrimeOperation.java:43 | Below 46337^2, a candidate up to 46337 that passes the 32-bit guard has a square that fits in an `int`. It lies below the root, and the next candidate is still at most 46337. |
| PrimeOperation.WrappedAbove | src/main/java/com/mathservlets/PrimeOperation.java:43 | When the 32-bit guard fails, the true square is also above the number. |
| PrimeOperation.WrappedGuardPassesRoot | src/main/java/com/mathservlets/PrimeOperation.java:43 | 46337 is the last candidate whose square fits in an `int`. The square of 46343, the next candidate, wraps to -2147293647. |
| PrimeOperation.CandidatesBelow | src/main/java/com/mathservlets/PrimeOperation.java:43-44 | In the as-written loop, i + 2 never passes the number, and neither does i + 6 unless i + 2 is the number. |
| PrimeOperation.NextCandidate | src/main/java/com/mathservlets/PrimeOperation.java:43 | Stepping by 6 keeps the candidate of the form 6k - 1. |
| PrimeOperation.BelowRoot | src/main/java/com/mathservlets/PrimeOperation.java:43-44 | A candidate whose square is at most n lies, with the candidate two above it, below n. The loop therefore terminates and tests only proper divisors. |
| PrimeOperation.OffCandidate | src/main/java/com/mathservlets/PrimeOperation.java:42-44 | Between the candidates 6k-1 and 6k+5, every number except i and i + 2 is a multiple of 2 or 3. |
| PrimeOperation.DivisorWitness | src/main/java/com/mathservlets/PrimeOperation.java:44-45 | A divisor strictly between 1 and n makes n composite. |
| PrimeOperation.NoEvenOrTripleDivisor | src/main/java/com/mathservlets/PrimeOperation.java:37-39 | A number divisible by neither 2 nor 3 has no divisor that is a multiple of 2 or 3. |
| PrimeOperation.NoDivisorBelowRoot | src/main/java/com/mathservlets/PrimeOperation.java:43 | With no divisor below i and i * i > n, n is prime, so the scan may stop at the square root. |
| PrimeOperation.ScanStep | src/main/java/com/mathservlets/PrimeOperation.java:43-47 | The loop invariant is kept: when neither i nor i + 2 divides n, nothing in [2, i + 6) does. |
| PrimeOperation.ScanStart | src/main/java/com/mathservlets/PrimeOperation.java:37-43 | The loop invariant holds on entry: nothing in [2, 5) divides n. |
| PrimeOperation.SmallCases | src/main/java/com/mathservlets/PrimeOperation.java:31-39 | n <= 1 is not prime. 2 and 3 are prime. n > 3 divisible by 2 or 3 is not prime. |
| PrimeOperation.Execute | src/main/java/com/mathservlets/PrimeOperation.java:10-22 | n < 2 gives the "prime numbers start from 2" message without running the test. Otherwise the verdict follows primality, through the corrected `IsPrime`. |
| PrimeOperation.ReportVerdict | src/main/java/com/mathservlets/PrimeOperation.java:15-21 | For n >= 2 the message says "is a prime number" exactly when n is prime. |
| PrimeOperation.Example2 | src/test/java/com/mathservlets/MathOperationsTest.java:61 | 2 is reported prime. |
| PrimeOperation.Example3 | src/test/java/com/mathservlets/MathOperationsTest.java:62 | 3 is reported prime. |
| PrimeOperation.Example17 | src/test/java/com/mathservlets/MathOperationsTest.java:63 | 17 is reported prime. |
| PrimeOperation.Example4 | src/test/java/com/mathservlets/MathOperationsTest.java:66 | 4 is reported not prime. |
| PrimeOperation.Example15 | src/test/java/com/mathservlets/MathOperationsTest.java:67 | 15 is reported not prime. |
| PalindromeOperation.Reverse | src/main/java/com/mathservlets/PalindromeOperation.java:31-40 | The reverse has the same length, and position k holds the character mirrored from the end. |
| PalindromeOperation.IsPalindrome | src/main/java/com/mathservlets/PalindromeOperation.java:29-43 | The two-pointer scan answers true exactly when the decimal text equals its reverse. |
| PalindromeOperation.Execute | src/main/java/com/mathservlets/PalindromeOperation.java:10-22 | Negative input gives the "not considered palindromes" message and no verdict. Otherwise the verdict follows the scan. |
| PalindromeOperation.SingleDigitPalindrome | src/main/java/com/mathservlets/PalindromeOperation.java:32-34 | Every number from 0 to 9 reads the same both ways. |
| PalindromeOperation.NegativeNeverReadsSame | src/main/java/com/mathservlets/PalindromeOperation.java:11-13 | The text of a negative number never reads the same both ways. |
| PalindromeOperation.ReportVerdict | src/main/java/com/mathservlets/PalindromeOperation.java:15-21 | For n >= 0 the message says "is a palindrome" exactly when the text reads the same both ways. |
| PalindromeOperation.ReadsSameIffMirrored | src/main/java/com/mathservlets/PalindromeOperation.java:34-40 | The text equals its reverse exactly when every character equals its mirror from the other end, which is what the scan compares. |
| PalindromeOperation.Example121 | src/test/java/com/mathservlets/MathOperationsTest.java:30 | 121 reads the same both ways. |
| PalindromeOperation.Example1221 | src/test/java/com/mathservlets/MathOperationsTest.java:31 | 1221 reads the same both ways. |
| PalindromeOperation.Example123 | src/test/java/com/mathservlets/MathOperationsTest.java:35 | 123 does not. |
| PalindromeOperation.Example1234 | src/test/java/com/mathservlets/MathOperationsTest.java:36 | 1234 does not. |
| FibonacciOperation.Terms | src/main/java/com/mathservlets/FibonacciOperation.java:40-56 | The first n terms: length n, and term k is F(k) as a `long`. |
| FibonacciOperation.GenerateFibonacciSeries | src/main/java/com/mathservlets/FibonacciOperation.java:40-56 | The list has n elements (none for n < 0), and element k is F(k) as a `long`. |
| FibonacciOperation.TermsRecurrence | src/main/java/com/mathservlets/FibonacciOperation.java:50-53 | Every term after the first two is the `long` sum of the two before it. |
| FibonacciOperation.FibMonotone | src/main/java/com/mathservlets/FibonacciOperation.java:51 | The series never decreases. |
| FibonacciOperation.FibStepSound | src/main/java/com/mathservlets/FibonacciOperation.java:50-53 | Stepping m times from two consecutive terms reaches the term m further on. |
| FibonacciOperation.Fib10 | src/main/java/com/mathservlets/FibonacciOperation.java:51 | F(10) and F(11), computed from the definition, as the base for the 64-bit bound. |
| FibonacciOperation.Fib20 | src/main/java/com/mathservlets/FibonacciOperation.java:51 | F(20) and F(21). |
| FibonacciOperation.Fib30 | src/main/java/com/mathservlets/FibonacciOperation.java:51 | F(30) and F(31). |
| FibonacciOperation.Fib40 | src/main/java/com/mathservlets/FibonacciOperation.java:51 | F(40) and F(41). |
| FibonacciOperation.Fib50 | src/main/java/com/mathservlets/FibonacciOperation.java:51 | F(50) and F(51). |
| FibonacciOperation.Fib60 | src/main/java/com/mathservlets/FibonacciOperation.java:51 | F(60) and F(61). |
| FibonacciOperation.Fib70 | src/main/java/com/mathservlets/FibonacciOperation.java:51 | F(70) and F(71). |
| FibonacciOperation.Fib80 | src/main/java/com/mathservlets/FibonacciOperation.java:51 | F(80) and F(81). |
| FibonacciOperation.Fib90 | src/main/java/com/mathservlets/FibonacciOperation.java:51 | F(90) and F(91). |
| FibonacciOperation.LongBoundary | src/main/java/com/mathservlets/FibonacciOperation.java:51 | F(92) fits in a `long` and F(93) does not. |
| FibonacciOperation.LongTermsExact | src/main/java/com/mathservlets/FibonacciOperation.java:51 | Terms 0 to 92 are the exact Fibonacci numbers. |
| FibonacciOperation.FirstWrappedTerm | src/main/java/com/mathservlets/FibonacciOperation.java:51 | Term 93 is the first to wrap around. It is F(93) - 2^64, which is negative. |
| FibonacciOperation.Execute | src/main/java/com/mathservlets/FibonacciOperation.java:13-33 | Negative input gives the "not defined" message. 0 gives "0 terms: []" and 1 gives "1 term: [0]". Otherwise the message lists the generated terms. |
| FibonacciOperation.FirstFiveTerms | src/test/java/com/mathservlets/MathOperationsTest.java:47 | The first five terms are 0, 1, 1, 2, 3. |
| FibonacciOperation.FirstTwoText | src/test/java/com/mathservlets/MathOperationsTest.java:49 | The first two terms are listed as "0, 1". |
| FibonacciOperation.FirstThreeText | src/test/java/com/mathservlets/MathOperationsTest.java:47 | The first three terms are listed as "0, 1, 1". |
| FibonacciOperation.FirstFourText | src/test/java/com/mathservlets/MathOperationsTest.java:47 | The first four terms are listed as "0, 1, 1, 2". |
| FibonacciOperation.FirstFiveJoined | src/test/java/com/mathservlets/MathOperationsTest.java:47 | The first five terms are listed as "0, 1, 1, 2, 3". |
| FibonacciOperation.FirstFiveText | src/test/java/com/mathservlets/MathOperationsTest.java:47 | `List.toString` prints them as "[0, 1, 1, 2, 3]". |
| FibonacciOperation.FiveTermsReport | src/test/java/com/mathservlets/MathOperationsTest.java:47 | The message for 5 lists "[0, 1, 1, 2, 3]". |
| FibonacciOperation.TwoTermsReport | src/test/java/com/mathservlets/MathOperationsTest.java:49 | The message for 2 lists "[0, 1]". |
| Operations.Name | src/main/java/com/mathservlets/MathOperation.java:20 | `getOperationName` gives a non-empty display name, which is never the operation's key. |
| Operations.NamesDistinct | src/main/java/com/mathservlets/MathOperation.java:20 | Different operations have different display names. |
| Operations.Registry | src/main/java/com/mathservlets/OperationFactory.java:22-28 | The registry's keys are exactly the five known keys, and each key maps to the operation with that key. |
| Operations.KeysDistinct | src/main/java/com/mathservlets/OperationFactory.java:23-27 | Different operations are registered under different keys. |
| Operations.EveryOperationRegistered | src/main/java/com/mathservlets/OperationFactory.java:23-27 | Every operation is in the registry, under its own key. |
| Operations.Resolve | src/main/java/com/mathservlets/OperationFactory.java:36-42 | A lookup succeeds exactly for the five keys and returns the operation with that key. Any other key fails with "Unsupported operation: " + key. |
| Operations.ResolveKey | src/main/java/com/mathservlets/OperationFactory.java:36-42 | Looking up an operation's key gives back that operation. |
| Operations.OperationFactory.constructor | src/main/java/com/mathservlets/OperationFactory.java:14-17 | A new factory holds exactly the registry. |
| Operations.OperationFactory.InitializeOperations | src/main/java/com/mathservlets/OperationFactory.java:22-28 | The map afterwards is the map before, with the five operations put under their keys. |
| Operations.OperationFactory.GetOperation | src/main/java/com/mathservlets/OperationFactory.java:36-42 | It succeeds exactly for the five keys, returns the operation for that key, and otherwise fails with "Unsupported operation: " + key. It changes nothing. |
| Operations.OperationFactory.GetAvailableOperations | src/main/java/com/mathservlets/OperationFactory.java:48-50 | The result is exactly the five known keys. It changes nothing. |
| Operations.Execute | src/main/java/com/mathservlets/MathOperationsServlet.java:96-97 | Running an operation gives that operation's message. |
| Validation.GetErrorMessage | src/main/java/com/mathservlets/ValidationResult.java:46-48 | The error message is null exactly for an accepted result. A message determines the rejected result. |
| Validation.IsValid | src/main/java/com/mathservlets/ValidationResult.java:42-44 | The result is valid exactly when it has no error message. |
| Validation.GetOperations | src/main/java/com/mathservlets/ValidationResult.java:54-56 | The operations are present exactly when the result is valid. |
| Validation.GetNumber | src/main/java/com/mathservlets/ValidationResult.java:50-52 | The number is 0 for an invalid result. For a valid one, the number and the operations rebuild the result. |
| Validation.Success | src/main/java/com/mathservlets/ValidationResult.java:29-31 | `success` is valid with no error message, and its getters return the number and the operations. |
| Validation.Error | src/main/java/com/mathservlets/ValidationResult.java:38-40 | `error` is not valid, carries the message, and has number 0 and no operations. |
| Validation.FactoriesCover | src/main/java/com/mathservlets/ValidationResult.java:29-40 | Every result is one the two factories build, and its getters recover the factory arguments. It is valid exactly when it has no error message. |
| Servlet.ElementSet | src/main/java/com/mathservlets/MathOperationsServlet.java:82-83 | The collected set holds exactly the elements of the array. |
| Servlet.ValidateInput | src/main/java/com/mathservlets/MathOperationsServlet.java:61-86 | It accepts exactly when the trimmed number parses, is positive, and the operations array is present and non-empty. An accepted result has that number and the set of the array's elements. |
| Servlet.NumberErrors | src/main/java/com/mathservlets/MathOperationsServlet.java:63-75 | A missing or all-blank number gives "Number is required". Non-blank text that does not parse gives "Invalid number format". A parsed value <= 0 gives "Number must be positive". |
| Servlet.ParseIntNonEmpty | src/main/java/com/mathservlets/MathOperationsServlet.java:69 | Text that parses is not empty. |
| Servlet.NumberCheckedFirst | src/main/java/com/mathservlets/MathOperationsServlet.java:62-80 | When the number is refused, the same error comes back whatever the operations are. |
| Servlet.OperationsRequired | src/main/java/com/mathservlets/MathOperationsServlet.java:78-80 | A good number with a missing or empty operations array gives "At least one operation must be selected". |
| Servlet.AcceptsPaddedNumber | src/main/java/com/mathservlets/MathOperationsServlet.java:63-85 | Any positive `int` in decimal, with blank padding, plus a non-empty array is accepted with that number and the distinct keys. |
| Servlet.ResultForKnown | src/main/java/com/mathservlets/MathOperationsServlet.java:96-98 | A registered key gets its own operation's message. |
| Servlet.ResultForUnknown | src/main/java/com/mathservlets/MathOperationsServlet.java:99-101 | Any other key gets "Error: " followed by "Unsupported operation: " + key. |
| Servlet.GetOperationTitle | src/main/java/com/mathservlets/MathOperationsServlet.java:169-178 | A known key's title is the display name of the operation registered under it. Any other key is returned unchanged. |
| Servlet.TitleIsOperationName | src/main/java/com/mathservlets/MathOperationsServlet.java:169-175 | The title of each known key is the display name of the operation registered under it. |
| Servlet.TitleOfUnknownKey | src/main/java/com/mathservlets/MathOperationsServlet.java:176 | Any other key is shown unchanged. |
| Servlet.MathOperationsServlet.constructor | src/main/java/com/mathservlets/MathOperationsServlet.java:25-28 | The servlet starts with a filled factory. |
| Servlet.MathOperationsServlet.ProcessOperations | src/main/java/com/mathservlets/MathOperationsServlet.java:91-105 | There is one result per requested key, and no other keys. Each result is the operation's message, or "Error: " plus the lookup failure. A failing key does not stop the others. |

## Left out

- The cube root (`CubeRootOperation.java`) uses floating-point Newton iteration and `%.6f` formatting. Floating point is not modelled. Its message reaches the dispatch and `ProcessOperations` as the parameter `cubeRoot`.
- Reading the request and writing HTML (`doPost`, `sendErrorResponse`, `sendSuccessResponse`) is I/O and is not modelled.
- The `MathOperation` interface has no behaviour of its own. The `Operation` datatype and `Operations.Execute` stand in for it. `getOperationName` is `Operations.Name`.
- HashMap and HashSet iteration order is unspecified. Results are a `map` and the request's operations a `set`. `ProcessOperations` takes the keys in an arbitrary order.
- `getAvailableOperations` returns `operations.keySet()`, a live view through which a caller could remove registry entries. `OperationFactory.GetAvailableOperations` returns a set value, so that aliasing is not modelled. No caller in the modelled code changes the set.
- `Integer.parseInt` is modelled for ASCII text only: an optional sign, decimal digits, and the 32-bit range. Non-ASCII Unicode digits, which Java also accepts, are not modelled.
- A `null` element inside the operations array is not modelled. The array is a sequence of strings.
- The factorial's `catch (Exception e)` branch (`FactorialOperation.java:24-25`) is not modelled. `BigInteger` holds magnitudes only below 2^Integer.MAX_VALUE, and `multiply` throws `ArithmeticException` once n! passes that, from about n = 86,000,000. `validateInput` accepts such an n, and Java then answers "Error calculating factorial: " and the exception's message. The model's product is an unbounded `nat`, so `CalculateFactorial` and `FactorialOperation.Execute` return the exact n! for every `int`. Time and memory limits are not modelled either.
- PrimeOperation.Execute: uses the corrected `IsPrime`, not the test as written. It therefore differs from the source for 2147483647, where Java answers "is not a prime number". Below 46337^2 = 2147117569 the as-written test is proved to give the same verdict. From 46337^2 up, the model proves only that the as-written test never calls a composite number prime. It does not state the as-written verdict for the other primes in that range. `Operations.Execute` and `Servlet.MathOperationsServlet.ProcessOperations` inherit this. The as-written test is `PrimeOperation.IsPrimeAsWritten`.
- `ValidationResult.error(null)` and `success(n, null)` are legal Java calls, but the datatype cannot represent them. For `error(null)` Java's "valid exactly when there is no error message" would fail. No call site passes null.
- Exceptions thrown by an operation's `execute` inside `processOperations` are not modelled. Only the lookup failure produces an "Error: " entry, because the modelled operations always return a message.
- The Fibonacci series keeps Java's `long` wrap-around for every length, instead of assuming at most 93 terms. Messages from concrete examples are proved only for small inputs: the factorial 5, 1, 0 and -1, the primes 2, 3 and 17, the composites 4 and 15, and the Fibonacci lists for 5 and 2. The exact text of the prime message for numbers below 2 is stated by `PrimeOperation.Execute` and `PrimeOperation.Report`, not by a concrete example. For the palindromes 121, 1221, 123 and 1234 the examples state the verdict, whether the text reads the same both ways. The message follows from that verdict through `PalindromeOperation.ReportVerdict`.

## Findings

| source | as written | input that shows it | evidently intended | confidence | as-written member | corrected member |
|---|---|---|---|---|---|---|
| src/main/java/com/mathservlets/PrimeOperation.java:43 | `i * i <= number` is computed in 32-bit `int`. Once i reaches 46343 the square wraps to a negative number, so the guard never fails for `Integer.MAX_VALUE`. The scan runs until it divides the number by itself and answers "not prime". | 2147483647 (2^31 - 1) | The scan stops at the square root and reports 2147483647 as prime. Computing `i * i` as a `long`, or testing `i <= number / i`, would do that. | high: 2^31 - 1 is a known Mersenne prime, though its primality is not proved in the model; not executed | PrimeOperation.IsPrimeAsWritten | PrimeOperation.IsPrime |
