/** Base-10 rendering of integers as `%d` / strconv.FormatInt write them, and its inverse. */
module Decimal {

  predicate IsDigit(c: char)
  {
    '0' <= c <= '9'
  }

  predicate AllDigits(s: string)
  {
    forall i :: 0 <= i < |s| ==> IsDigit(s[i])
  }

  function DigitValue(c: char): nat
    requires IsDigit(c)
  {
    (c as int) - ('0' as int)
  }

  function DigitChar(d: nat): (c: char)
    requires d < 10
    ensures IsDigit(c) && DigitValue(c) == d
  {
    (('0' as int) + d) as char
  }

  /** The number a string of digits denotes, most significant digit first. */
  function DigitsValue(s: string): nat
    requires AllDigits(s)
  {
    if s == [] then 0 else DigitsValue(s[..|s| - 1]) * 10 + DigitValue(s[|s| - 1])
  }

  /** Decimal digits of n without leading zeros. */
  function NatToString(n: nat): (s: string)
    ensures |s| >= 1 && AllDigits(s)
    ensures DigitsValue(s) == n
    ensures s[0] == '0' ==> s == "0"
    ensures s[0] == '0' <==> n == 0
    decreases n
  {
    if n < 10 then [DigitChar(n)]
    else
      var prefix := NatToString(n / 10);
      var s := prefix + [DigitChar(n % 10)];
      assert s[..|s| - 1] == prefix;
      s
  }

  /** Text of the form an optional '-' followed by at least one digit. */
  predicate IsIntText(s: string)
  {
    if |s| > 0 && s[0] == '-' then |s| > 1 && AllDigits(s[1..]) else |s| > 0 && AllDigits(s)
  }

  /** The value of integer text (strconv.Atoi on well-formed input). */
  function ParseInt(s: string): int
    requires IsIntText(s)
  {
    if s[0] == '-' then -(DigitsValue(s[1..]) as int) else DigitsValue(s)
  }

  /** Integer text as `%d` writes it: no leading zero, and no sign on zero. */
  predicate IsCanonicalIntText(s: string)
  {
    IsIntText(s) && (if s[0] == '-' then s[1] != '0' else s[0] == '0' ==> |s| == 1)
  }

  /** A string is the decimal text of n as `%d` writes it: no leading zero and no "-0". */
  predicate Denotes(s: string, n: int)
  {
    IsCanonicalIntText(s) && ParseInt(s) == n
  }

  /** `%d` of an int: a minus sign for negative values, then the digits of the magnitude. */
  function IntToString(i: int): (s: string)
    ensures IsCanonicalIntText(s)
    ensures s[0] == '-' <==> i < 0
  {
    if i < 0 then
      var d := NatToString(-i);
      var s := "-" + d;
      assert s[1..] == d;
      s
    else NatToString(i)
  }

  /** The rendering is well-formed integer text that parses back to the same value. */
  lemma IntToStringRoundTrip(i: int)
    ensures IsIntText(IntToString(i)) && ParseInt(IntToString(i)) == i
    ensures forall k :: 0 <= k < |IntToString(i)| ==> IntToString(i)[k] == '-' || IsDigit(IntToString(i)[k])
  {
    if i < 0 {
      assert IntToString(i)[1..] == NatToString(-i);
    }
  }

  /** Digits with no leading zero are exactly the rendering of the number they denote. */
  lemma {:induction false} DigitsAreRendering(s: string)
    requires |s| >= 1 && AllDigits(s) && (s[0] == '0' ==> |s| == 1)
    ensures NatToString(DigitsValue(s)) == s
  {
    if |s| == 1 {
      assert s == [DigitChar(DigitValue(s[0]))];
    } else {
      var p := s[..|s| - 1];
      assert p[0] == s[0];
      DigitsAreRendering(p);
      var v := DigitsValue(p);
      var n := v * 10 + DigitValue(s[|s| - 1]);
      assert n / 10 == v && n % 10 == DigitValue(s[|s| - 1]);
      assert s == p + [DigitChar(n % 10)];
    }
  }

  /** The converse of the round trip: every canonical integer text is the rendering of its value. */
  lemma CanonicalTextIsRendering(s: string)
    requires IsCanonicalIntText(s)
    ensures IntToString(ParseInt(s)) == s
  {
    if s[0] == '-' {
      var d := s[1..];
      assert d[0] == s[1];
      DigitsAreRendering(d);
      assert s == "-" + d;
    } else {
      DigitsAreRendering(s);
    }
  }
}
