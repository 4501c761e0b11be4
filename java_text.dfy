/**
 * The parts of the Java platform the calculator relies on, as values:
 * fixed-width `int`/`long` arithmetic, `String.valueOf` of an integer,
 * `String.trim`, `Integer.parseInt` and `List.toString` of a list of longs.
 */
module JavaText {

  /** A value that may be absent: Java's `null`. */
  datatype Option<T> = None | Some(value: T)

  /** The outcome of a call that may throw: `Failure` carries the exception's message. */
  datatype Result<T> = Success(value: T) | Failure(error: string)

  const INT_MIN: int := -0x8000_0000
  const INT_MAX: int := 0x7fff_ffff

  /** The values of a Java `int`. */
  type Int32 = x: int | INT_MIN <= x <= INT_MAX

  /** Two's-complement wrap-around of Java `int` arithmetic. */
  function WrapInt(x: int): (r: int)
    ensures INT_MIN <= r <= INT_MAX
    ensures (r - x) % 0x1_0000_0000 == 0
    ensures INT_MIN <= x <= INT_MAX ==> r == x
  {
    (x + 0x8000_0000) % 0x1_0000_0000 - 0x8000_0000
  }

  /** Two's-complement wrap-around of Java `long` arithmetic. */
  function WrapLong(x: int): (r: int)
    ensures -0x8000_0000_0000_0000 <= r < 0x8000_0000_0000_0000
    ensures (r - x) % 0x1_0000_0000_0000_0000 == 0
    ensures -0x8000_0000_0000_0000 <= x < 0x8000_0000_0000_0000 ==> r == x
  {
    (x + 0x8000_0000_0000_0000) % 0x1_0000_0000_0000_0000 - 0x8000_0000_0000_0000
  }

  /** Two numbers congruent modulo 2^64 wrap to the same `long`. */
  lemma WrapLongCongruent(x: int, y: int, k: int)
    requires x == y + 0x1_0000_0000_0000_0000 * k
    ensures WrapLong(x) == WrapLong(y)
  {
  }

  /** Adding two wrapped `long`s wraps to the wrapped exact sum: `long` addition is addition modulo 2^64. */
  lemma WrapLongAdd(a: int, b: int)
    ensures WrapLong(WrapLong(a) + WrapLong(b)) == WrapLong(a + b)
  {
    var M := 0x1_0000_0000_0000_0000;
    var ka := (WrapLong(a) - a) / M;
    var kb := (WrapLong(b) - b) / M;
    assert WrapLong(a) == a + M * ka;
    assert WrapLong(b) == b + M * kb;
    WrapLongCongruent(WrapLong(a) + WrapLong(b), a + b, ka + kb);
  }

  predicate IsDigit(c: char) {
    '0' <= c <= '9'
  }

  predicate AllDigits(s: string) {
    forall i :: 0 <= i < |s| ==> IsDigit(s[i])
  }

  function DigitChar(d: int): (c: char)
    requires 0 <= d < 10
    ensures IsDigit(c) && c as int - '0' as int == d
  {
    (d + '0' as int) as char
  }

  /** Decimal digits of a non-negative number, most significant first, no leading zeros. */
  function NatToString(n: nat): (s: string)
    ensures |s| >= 1 && AllDigits(s)
    ensures s[0] == '0' ==> n == 0
    decreases n
  {
    if n < 10 then [DigitChar(n)] else NatToString(n / 10) + [DigitChar(n % 10)]
  }

  /** `String.valueOf(int)` / `Long.toString`: a minus sign for negative numbers, then the digits. */
  function IntToString(n: int): (r: string)
    ensures |r| >= 1 && (r[0] == '-' <==> n < 0)
  {
    if n < 0 then "-" + NatToString(-n) else NatToString(n)
  }

  /** The value of a string of decimal digits; `DigitsValue("") == 0`. */
  function DigitsValue(s: string): nat
    requires AllDigits(s)
  {
    if |s| == 0 then 0
    else DigitsValue(s[..|s| - 1]) * 10 + (s[|s| - 1] as int - '0' as int)
  }

  /** Reading back the digits of `n` gives `n`. */
  lemma {:induction false} DigitsValueOfNatToString(n: nat)
    ensures DigitsValue(NatToString(n)) == n
    decreases n
  {
    var s := NatToString(n);
    if n >= 10 {
      DigitsValueOfNatToString(n / 10);
      assert s[..|s| - 1] == NatToString(n / 10);
    }
  }

  /** Every character of a printed integer is a digit or a leading minus sign. */
  lemma IntToStringShape(n: int)
    ensures var s := IntToString(n);
      && |s| >= 1
      && (forall i :: 0 <= i < |s| ==> IsDigit(s[i]) || (i == 0 && s[i] == '-'))
      && IsDigit(s[|s| - 1])
      && (s[0] == '-' <==> n < 0)
  {
  }

  /**
   * `Integer.parseInt(s)` over ASCII text: an optional `+` or `-`, then at least one
   * decimal digit, and a value in `int` range; anything else throws
   * `NumberFormatException`, here `None`.
   */
  function ParseInt(s: string): (r: Option<int>)
    ensures r.Some? ==> INT_MIN <= r.value <= INT_MAX
  {
    if |s| == 0 then None
    else
      var signed := s[0] == '-' || s[0] == '+';
      var digits := if signed then s[1..] else s;
      if |digits| == 0 || !AllDigits(digits) then None
      else
        var v: int := if s[0] == '-' then -(DigitsValue(digits) as int) else DigitsValue(digits);
        if INT_MIN <= v <= INT_MAX then Some(v) else None
  }

  /** `parseInt` reads back exactly what `String.valueOf` prints, for every `int`. */
  lemma ParseIntOfIntToString(n: Int32)
    ensures ParseInt(IntToString(n)) == Some(n)
  {
    var s := IntToString(n);
    if n < 0 {
      var m: nat := -(n as int);
      assert s[1..] == NatToString(m);
      DigitsValueOfNatToString(m);
    } else {
      DigitsValueOfNatToString(n);
    }
  }

  /** `parseInt` accepts nothing that begins or ends with a blank. */
  lemma ParseIntRejectsBlankEdges(s: string)
    requires |s| > 0 && (s[0] <= ' ' || s[|s| - 1] <= ' ')
    ensures ParseInt(s) == None
  {
    var digits := if s[0] == '-' || s[0] == '+' then s[1..] else s;
    if |digits| > 0 {
      if IsBlank(s[|s| - 1]) {
        assert digits[|digits| - 1] == s[|s| - 1];
      } else {
        assert digits == s && !IsDigit(digits[0]);
      }
    }
  }

  /** Java treats every character up to and including U+0020 as blank in `trim`. */
  predicate IsBlank(c: char) {
    c <= ' '
  }

  function TrimStart(s: string): string {
    if |s| > 0 && IsBlank(s[0]) then TrimStart(s[1..]) else s
  }

  function TrimEnd(s: string): string {
    if |s| > 0 && IsBlank(s[|s| - 1]) then TrimEnd(s[..|s| - 1]) else s
  }

  /** `String.trim`: drop blank characters from both ends. */
  function Trim(s: string): (r: string)
    ensures |r| > 0 ==> !IsBlank(r[0]) && !IsBlank(r[|r| - 1])
  {
    TrimStartShape(s);
    TrimEndShape(TrimStart(s));
    TrimEnd(TrimStart(s))
  }

  lemma {:induction false} TrimStartShape(s: string)
    ensures var r := TrimStart(s);
      && |r| <= |s| && r == s[|s| - |r|..]
      && (forall i :: 0 <= i < |s| - |r| ==> IsBlank(s[i]))
      && (|r| > 0 ==> !IsBlank(r[0]))
    decreases |s|
  {
    if |s| > 0 && IsBlank(s[0]) {
      TrimStartShape(s[1..]);
    }
  }

  lemma {:induction false} TrimEndShape(s: string)
    ensures var r := TrimEnd(s);
      && |r| <= |s| && r == s[..|r|]
      && (forall i :: |r| <= i < |s| ==> IsBlank(s[i]))
      && (|r| > 0 ==> !IsBlank(r[|r| - 1]))
    decreases |s|
  {
    if |s| > 0 && IsBlank(s[|s| - 1]) {
      TrimEndShape(s[..|s| - 1]);
    }
  }

  /** A string is empty after `trim` exactly when all of its characters are blank. */
  lemma TrimEmptyIffBlank(s: string)
    ensures Trim(s) == [] <==> forall i :: 0 <= i < |s| ==> IsBlank(s[i])
  {
    var t := TrimStart(s);
    TrimStartShape(s);
    TrimEndShape(t);
    if Trim(s) == [] {
      assert t == [];
    } else {
      assert !IsBlank(s[|s| - |t|]);
    }
  }

  lemma {:induction false} TrimStartPadded(pad: string, body: string)
    requires forall i :: 0 <= i < |pad| ==> IsBlank(pad[i])
    requires |body| > 0 && !IsBlank(body[0])
    ensures TrimStart(pad + body) == body
    decreases |pad|
  {
    if |pad| > 0 {
      assert (pad + body)[1..] == pad[1..] + body;
      TrimStartPadded(pad[1..], body);
    }
  }

  lemma {:induction false} TrimEndPadded(body: string, pad: string)
    requires forall i :: 0 <= i < |pad| ==> IsBlank(pad[i])
    requires |body| > 0 && !IsBlank(body[|body| - 1])
    ensures TrimEnd(body + pad) == body
    decreases |pad|
  {
    if |pad| > 0 {
      assert (body + pad)[..|body + pad| - 1] == body + pad[..|pad| - 1];
      TrimEndPadded(body, pad[..|pad| - 1]);
    }
  }

  /** `trim` removes exactly the blank padding around text that neither starts nor ends blank. */
  lemma TrimPadded(before: string, body: string, after: string)
    requires forall i :: 0 <= i < |before| ==> IsBlank(before[i])
    requires forall i :: 0 <= i < |after| ==> IsBlank(after[i])
    requires |body| > 0 && !IsBlank(body[0]) && !IsBlank(body[|body| - 1])
    ensures Trim(before + body + after) == body
  {
    assert before + body + after == before + (body + after);
    TrimStartPadded(before, body + after);
    TrimEndPadded(body, after);
  }

  /** The elements of a list of longs separated by ", ", as `AbstractCollection.toString` does. */
  function JoinLongs(xs: seq<int>): (r: string)
    ensures r == [] <==> xs == []
  {
    if |xs| == 0 then ""
    else if |xs| == 1 then IntToString(xs[0])
    else JoinLongs(xs[..|xs| - 1]) + ", " + IntToString(xs[|xs| - 1])
  }

  /** Appending an element to a non-empty list appends ", " and its text. */
  lemma JoinLongsSnoc(xs: seq<int>, x: int)
    requires |xs| >= 1
    ensures JoinLongs(xs + [x]) == JoinLongs(xs) + ", " + IntToString(x)
  {
    assert (xs + [x])[..|xs|] == xs;
  }

  /** `List<Long>.toString()`: the elements in order, in brackets. */
  function ListToString(xs: seq<int>): (r: string)
    ensures r == "[]" <==> xs == []
  {
    "[" + JoinLongs(xs) + "]"
  }
}
