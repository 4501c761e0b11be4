/**
 * The palindrome check: the decimal text of the number is scanned with two
 * pointers moving inward from both ends, and the message reports the verdict.
 */
module PalindromeOperation {
  import opened JavaText

  /** The characters of s in the opposite order. */
  function Reverse(s: string): (r: string)
    ensures |r| == |s|
    ensures forall k :: 0 <= k < |s| ==> r[k] == s[|s| - 1 - k]
  {
    if s == [] then [] else Reverse(s[1..]) + [s[0]]
  }

  /** The meaning of "palindrome": the decimal text equals its reverse. */
  predicate ReadsSameBothWays(n: int) {
    IntToString(n) == Reverse(IntToString(n))
  }

  /**
   * `isPalindrome`: compare the characters at `left` and `right`, moving both
   * inward, and answer false at the first mismatch.
   */
  method IsPalindrome(number: Int32) returns (r: bool)
    ensures r == ReadsSameBothWays(number)
  {
    var numberStr := IntToString(number);
    var len := |numberStr|;
    var left := 0;
    var right := len - 1;
    while left < right
      invariant 0 <= left <= right + 1 && left + right == len - 1
      invariant forall j :: 0 <= j < left ==> numberStr[j] == numberStr[len - 1 - j]
      decreases right - left
    {
      if numberStr[left] != numberStr[right] {
        assert Reverse(numberStr)[left] != numberStr[left];
        return false;
      }
      left := left + 1;
      right := right - 1;
    }
    assert forall j :: 0 <= j < len ==> numberStr[j] == Reverse(numberStr)[j] by {
      forall j | 0 <= j < len
        ensures numberStr[j] == numberStr[len - 1 - j]
      {
        if j >= left && len - 1 - j >= left {
          assert j == len - 1 - j;
        }
      }
    }
    return true;
  }

  const NEGATIVE_MESSAGE: string := "Negative numbers are not considered palindromes."

  /** What `execute` answers for `n`: no verdict at all for negative numbers. */
  function Report(n: int): string {
    if n < 0 then NEGATIVE_MESSAGE
    else if ReadsSameBothWays(n) then "The number " + IntToString(n) + " is a palindrome."
    else "The number " + IntToString(n) + " is not a palindrome."
  }

  /** `execute`: negative numbers are turned away before the scan runs. */
  method Execute(number: Int32) returns (msg: string)
    ensures msg == Report(number)
  {
    if number < 0 {
      return NEGATIVE_MESSAGE;
    }
    var isPalindrome := IsPalindrome(number);
    if isPalindrome {
      msg := "The number " + IntToString(number) + " is a palindrome.";
    } else {
      msg := "The number " + IntToString(number) + " is not a palindrome.";
    }
  }

  /** Every single-digit number is a palindrome: the scan has nothing to compare. */
  lemma SingleDigitPalindrome(n: int)
    requires 0 <= n < 10
    ensures ReadsSameBothWays(n)
  {
    assert |IntToString(n)| == 1;
  }

  /** The text of a negative number never reads the same both ways: it starts with '-' and ends with a digit. */
  lemma NegativeNeverReadsSame(n: int)
    requires n < 0
    ensures !ReadsSameBothWays(n)
  {
    var s := IntToString(n);
    IntToStringShape(n);
    assert Reverse(s)[0] == s[|s| - 1] != s[0];
  }

  /** For non-negative n, the message says "is a palindrome" exactly when the digits read the same both ways. */
  lemma ReportVerdict(n: int)
    requires n >= 0
    ensures Report(n) == "The number " + IntToString(n) + " is a palindrome." <==> ReadsSameBothWays(n)
  {
    var p := "The number " + IntToString(n);
    if !ReadsSameBothWays(n) {
      assert (p + " is not a palindrome.")[|p| + 4] != (p + " is a palindrome.")[|p| + 4];
    }
  }

  /** Reading the same both ways is the mirror condition the scan checks pair by pair. */
  lemma ReadsSameIffMirrored(n: int)
    ensures var s := IntToString(n);
      ReadsSameBothWays(n) <==> forall j :: 0 <= j < |s| ==> s[j] == s[|s| - 1 - j]
  {
    var s := IntToString(n);
    if forall j :: 0 <= j < |s| ==> s[j] == s[|s| - 1 - j] {
      assert s == Reverse(s);
    }
  }

  /** 121 reads the same both ways. */
  lemma Example121()
    ensures ReadsSameBothWays(121)
  {
    assert IntToString(121) == "121";
    ReadsSameIffMirrored(121);
  }

  /** 1221 reads the same both ways. */
  lemma Example1221()
    ensures ReadsSameBothWays(1221)
  {
    assert IntToString(1221) == "1221";
    ReadsSameIffMirrored(1221);
  }

  /** 123 does not: its first and last digits differ. */
  lemma Example123()
    ensures !ReadsSameBothWays(123)
  {
    assert IntToString(123) == "123";
    ReadsSameIffMirrored(123);
  }

  /** 1234 does not: its first and last digits differ. */
  lemma Example1234()
    ensures !ReadsSameBothWays(1234)
  {
    assert IntToString(1234) == "1234";
    ReadsSameIffMirrored(1234);
  }
}
