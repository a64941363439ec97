/** Java's decimal rendering of an `int` (`Integer.toString`, which string concatenation
    and `String.valueOf` use) and the parser that inverts it. */
module Decimal {
  import opened Wrappers

  predicate IsDigit(c: char) {
    '0' <= c <= '9'
  }

  predicate AllDigits(s: string) {
    forall k :: 0 <= k < |s| ==> IsDigit(s[k])
  }

  function DigitChar(n: nat): (c: char)
    requires n < 10
    ensures IsDigit(c) && c as int - '0' as int == n
  {
    "0123456789"[n]
  }

  /** The digits of `n`, most significant first, without leading zeros. */
  function Digits(n: nat): (s: string)
    ensures |s| >= 1
    decreases n
  {
    if n < 10 then [DigitChar(n)] else Digits(n / 10) + [DigitChar(n % 10)]
  }

  /** `Integer.toString(n)`: a minus sign for negative numbers, then the digits. */
  function Show(n: int): (s: string)
    ensures |s| >= 1
    ensures n < 0 ==> |s| >= 2 && s[0] == '-'
  {
    if n >= 0 then Digits(n) else "-" + Digits(-n)
  }

  /** The number a string of decimal digits denotes. */
  function DigitsValue(s: string): nat
    requires AllDigits(s)
    decreases |s|
  {
    if |s| == 0 then 0 else 10 * DigitsValue(s[..|s| - 1]) + (s[|s| - 1] as int - '0' as int)
  }

  /** Reads an optionally negative decimal numeral; anything else is rejected. */
  function Parse(s: string): Option<int> {
    if 0 < |s| && s[0] == '-' then
      if 1 < |s| && AllDigits(s[1..]) then Some(-(DigitsValue(s[1..]) as int)) else None
    else if 0 < |s| && AllDigits(s) then Some(DigitsValue(s))
    else None
  }

  lemma {:induction false} DigitsAreDigits(n: nat)
    ensures AllDigits(Digits(n))
    decreases n
  {
    if n >= 10 {
      DigitsAreDigits(n / 10);
    }
  }

  /** A rendered non-negative number is all digits; a negative one is a minus sign followed
      by digits. */
  lemma ShowShape(n: int)
    ensures n >= 0 ==> AllDigits(Show(n))
    ensures n < 0 ==> AllDigits(Show(n)[1..])
  {
    if n >= 0 {
      DigitsAreDigits(n);
    } else {
      assert Show(n)[1..] == Digits(-n);
      DigitsAreDigits(-n);
    }
  }

  lemma {:induction false} DigitsValueOfDigits(n: nat)
    ensures AllDigits(Digits(n)) && DigitsValue(Digits(n)) == n
    decreases n
  {
    DigitsAreDigits(n);
    if n >= 10 {
      var s := Digits(n);
      assert s[..|s| - 1] == Digits(n / 10);
      DigitsAreDigits(n / 10);
      DigitsValueOfDigits(n / 10);
    }
  }

  /** Rendering an `int` and reading it back gives the same number. */
  lemma ParseShow(n: int)
    ensures Parse(Show(n)) == Some(n)
  {
    if n >= 0 {
      ParseDigits(n);
    } else {
      ParseNegative(-n);
    }
  }

  /** `Digits` writes no leading zero: only the number 0 is written starting with `'0'`. */
  lemma {:induction false} DigitsNoLeadingZero(n: nat)
    ensures Digits(n)[0] == '0' ==> n == 0
    decreases n
  {
    if n >= 10 {
      assert Digits(n)[0] == Digits(n / 10)[0];
      DigitsNoLeadingZero(n / 10);
    }
  }

  /** `Integer.toString` gives the canonical numeral: `"0"` for zero, and otherwise a first
      digit, after the minus sign of a negative number, that is not `'0'`. */
  lemma ShowCanonical(n: int)
    ensures Show(n)[0] == '0' ==> n == 0
    ensures n == 0 ==> Show(n) == "0"
    ensures n < 0 ==> Show(n)[1] != '0'
  {
    if n >= 0 {
      DigitsNoLeadingZero(n);
    } else {
      assert Show(n)[1] == Digits(-n)[0];
      DigitsNoLeadingZero(-n);
    }
  }

  /** A non-negative number's digits read back as the number. */
  lemma ParseDigits(n: nat)
    ensures Parse(Digits(n)) == Some(n)
  {
    var s := Digits(n);
    DigitsValueOfDigits(n);
    assert IsDigit(s[0]);
  }

  /** A minus sign followed by the digits of `n` reads back as `-n`. */
  lemma ParseNegative(n: nat)
    ensures Parse("-" + Digits(n)) == Some(-(n as int))
  {
    var s := "-" + Digits(n);
    assert s[1..] == Digits(n);
    DigitsValueOfDigits(n);
  }

  /** A rendered number consists of digits and at most a minus sign, so it never contains
      a separator such as a comma, a tab or a colon. */
  lemma ShowAvoids(n: int, c: char)
    requires !IsDigit(c) && c != '-'
    ensures c !in Show(n)
  {
    var s := Show(n);
    ShowShape(n);
    forall k | 0 <= k < |s| ensures s[k] != c {
      if n < 0 && k > 0 {
        assert s[k] == s[1..][k - 1];
      }
    }
  }
}
