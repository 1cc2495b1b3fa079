/**
 * Decimal numerals: str() and format(n, "02d") on integers, and int() on
 * strings, as the timers and the image gallery use them.
 */
module Decimal {
  import opened Wrappers
  import opened Text

  predicate IsDigit(c: char)
  {
    '0' <= c <= '9'
  }

  predicate AllDigits(s: string)
  {
    forall i :: 0 <= i < |s| ==> IsDigit(s[i])
  }

  function DigitChar(d: int): (c: char)
    requires 0 <= d < 10
    ensures IsDigit(c) && c as int - '0' as int == d
  {
    ('0' as int + d) as char
  }

  function DigitValue(c: char): (d: int)
    requires IsDigit(c)
    ensures 0 <= d < 10 && DigitChar(d) == c
  {
    c as int - '0' as int
  }

  /** str(n) for n >= 0: its decimal digits, without leading zeros. */
  function Dec(n: nat): (s: string)
    ensures |s| > 0 && AllDigits(s)
    ensures |s| > 1 ==> s[0] != '0'
  {
    if n < 10 then [DigitChar(n)] else Dec(n / 10) + [DigitChar(n % 10)]
  }

  /** The number a string of digits denotes. */
  function Value(s: string): nat
    requires AllDigits(s)
  {
    if |s| == 0 then 0 else 10 * Value(s[..|s| - 1]) + DigitValue(s[|s| - 1])
  }

  /** Reading back the digits of n gives n. */
  lemma {:induction false} ValueDec(n: nat)
    ensures Value(Dec(n)) == n
  {
    var s := Dec(n);
    if n >= 10 {
      ValueDec(n / 10);
      assert s[..|s| - 1] == Dec(n / 10);
    }
  }

  /** Leading zeros do not change the value. */
  lemma ValueZeroPrefix(s: string)
    requires AllDigits(s)
    ensures Value("0" + s) == Value(s)
    decreases |s|
  {
    if |s| > 0 {
      assert ("0" + s)[..|s|] == "0" + s[..|s| - 1];
      ValueZeroPrefix(s[..|s| - 1]);
    }
  }

  /** str(n) for any integer n. */
  function Str(n: int): (s: string)
    ensures |s| > 0
  {
    if n < 0 then "-" + Dec(-n) else Dec(n)
  }

  /** format(n, "02d"): the sign, then at least two digits after zero padding to width 2. */
  function Format02(n: int): (s: string)
    ensures |s| >= 2
  {
    if n < 0 then "-" + Dec(-n) else if n < 10 then "0" + Dec(n) else Dec(n)
  }

  /** Non-negative values print as digits only, and the digits read back as the value. */
  lemma Format02Value(n: int)
    requires n >= 0
    ensures AllDigits(Format02(n)) && Value(Format02(n)) == n
    ensures n < 100 ==> |Format02(n)| == 2
  {
    ValueDec(n);
    if n < 10 {
      ValueZeroPrefix(Dec(n));
    } else if n < 100 {
      assert Dec(n) == Dec(n / 10) + [DigitChar(n % 10)];
    }
  }

  /**
   * int(s) for a decimal literal: surrounding whitespace, an optional sign,
   * then one or more digits.  None is the ValueError of anything else.
   */
  function ParseInt(s: string): (r: Option<int>)
  {
    var t := Strip(s);
    if |t| > 0 && (t[0] == '-' || t[0] == '+') then
      if |t| > 1 && AllDigits(t[1..]) then
        var v: int := Value(t[1..]);
        Some(if t[0] == '-' then -v else v)
      else None
    else if |t| > 0 && AllDigits(t) then Some(Value(t))
    else None
  }

  /** A digit string is not stripped. */
  lemma DigitsTrimmed(s: string)
    requires |s| > 0 && (AllDigits(s) || (s[0] == '-' && AllDigits(s[1..])))
    ensures Strip(s) == s
  {
    assert !IsSpace(s[0]);
    if |s| > 1 {
      assert IsDigit(s[|s| - 1]) by { assert s[1..][|s| - 2] == s[|s| - 1]; }
    }
    StripTrimmed(s);
  }

  /** int(str(n)) == n. */
  lemma ParseIntStr(n: int)
    ensures ParseInt(Str(n)) == Some(n)
  {
    var s := Str(n);
    if n < 0 {
      var d := Dec(-n);
      assert s == "-" + d && s[1..] == d;
      DigitsTrimmed(s);
      ValueDec(-n);
    } else {
      DigitsTrimmed(s);
      assert s[0] != '-' && s[0] != '+';
      ValueDec(n);
    }
  }
}
