/**
  Decimal text of integers, as JavaScript's `Number.prototype.toString()` renders
  a safe integer (magnitude at most 2^53): an optional '-' followed by the exact
  digits, with no leading zeros, no thousands separators and no locale formatting.

  `ParseInt` is the independent reference reading of such a string; the two are
  proved to be mutual inverses between integers and canonical decimal strings.
*/
module Decimal {
  import opened Wrappers

  predicate IsDigit(c: char) {
    '0' <= c <= '9'
  }

  predicate AllDigits(s: string) {
    forall i :: 0 <= i < |s| ==> IsDigit(s[i])
  }

  /** A canonical unsigned numeral: at least one digit and no leading zero. */
  predicate CanonicalNat(s: string) {
    |s| >= 1 && AllDigits(s) && (s[0] == '0' ==> |s| == 1)
  }

  /** A canonical signed numeral: a canonical unsigned one, or '-' before a non-zero one. */
  predicate CanonicalInt(s: string) {
    CanonicalNat(s) || (|s| >= 2 && s[0] == '-' && CanonicalNat(s[1..]) && s[1] != '0')
  }

  function DigitChar(d: nat): (c: char)
    requires d < 10
    ensures IsDigit(c)
  {
    (('0' as int) + d) as char
  }

  function DigitValue(c: char): (d: nat)
    requires IsDigit(c)
    ensures d < 10
    ensures DigitChar(d) == c
  {
    (c as int) - ('0' as int)
  }

  lemma DigitValueOfChar(d: nat)
    requires d < 10
    ensures DigitValue(DigitChar(d)) == d
  {
  }

  /** The digits of `n`, most significant first. */
  function NatToDecimal(n: nat): (s: string)
    ensures CanonicalNat(s)
    ensures n < 10 <==> |s| == 1
    decreases n
  {
    if n < 10 then [DigitChar(n)] else NatToDecimal(n / 10) + [DigitChar(n % 10)]
  }

  /** `Number.prototype.toString()` of an integral number. */
  function IntToDecimal(i: int): (s: string)
    ensures CanonicalInt(s)
    ensures |s| >= 1 && (s[0] == '-' <==> i < 0)
  {
    if i < 0 then "-" + NatToDecimal(-i) else NatToDecimal(i)
  }

  /** The value of a string of digits, read most significant first (the empty string reads as 0). */
  function ParseDigits(s: string): nat
    requires AllDigits(s)
  {
    if |s| == 0 then 0 else ParseDigits(s[..|s| - 1]) * 10 + DigitValue(s[|s| - 1])
  }

  /** Reads a canonical signed numeral; anything else is rejected. */
  function ParseInt(s: string): (r: Option<int>)
    ensures r.Some? <==> CanonicalInt(s)
  {
    if CanonicalNat(s) then Some(ParseDigits(s))
    else if CanonicalInt(s) then Some(-(ParseDigits(s[1..]) as int))
    else None
  }

  lemma {:induction false} ParseDigitsOfNat(n: nat)
    ensures ParseDigits(NatToDecimal(n)) == n
    decreases n
  {
    if n >= 10 {
      var s := NatToDecimal(n);
      var p := NatToDecimal(n / 10);
      assert s == p + [DigitChar(n % 10)];
      assert s[..|s| - 1] == p;
      ParseDigitsOfNat(n / 10);
      DigitValueOfChar(n % 10);
    } else {
      DigitValueOfChar(n);
    }
  }

  /** A numeral with a non-zero leading digit reads as at least 10^(length-1), so at least 10 once it has two digits. */
  lemma {:induction false} ParseDigitsLowerBound(s: string)
    requires AllDigits(s) && |s| >= 1 && s[0] != '0'
    ensures ParseDigits(s) >= 1
    ensures |s| >= 2 ==> ParseDigits(s) >= 10
    decreases |s|
  {
    if |s| >= 2 {
      var p := s[..|s| - 1];
      assert p[0] == s[0];
      ParseDigitsLowerBound(p);
    } else {
      assert DigitChar(DigitValue(s[0])) == s[0];
    }
  }

  lemma {:induction false} NatToDecimalOfParse(s: string)
    requires CanonicalNat(s)
    ensures NatToDecimal(ParseDigits(s)) == s
    decreases |s|
  {
    var n := ParseDigits(s);
    var d := DigitValue(s[|s| - 1]);
    if |s| == 1 {
      assert s[..0] == [];
    } else {
      var p := s[..|s| - 1];
      assert p[0] == s[0];
      ParseDigitsLowerBound(s);
      NatToDecimalOfParse(p);
      assert n / 10 == ParseDigits(p) && n % 10 == d;
      assert s == p + [s[|s| - 1]];
    }
  }

  /** Reading the rendered text of any integer gives the integer back. */
  lemma ParseIntOfDecimal(i: int)
    ensures ParseInt(IntToDecimal(i)) == Some(i)
  {
    if i < 0 {
      var t := NatToDecimal(-i);
      assert ("-" + t)[1..] == t;
      ParseDigitsOfNat(-i);
    } else {
      ParseDigitsOfNat(i);
    }
  }

  /** Every canonical numeral is the rendered text of the integer it reads as. */
  lemma DecimalOfParseInt(s: string)
    requires CanonicalInt(s)
    ensures ParseInt(s).Some? && IntToDecimal(ParseInt(s).value) == s
  {
    if CanonicalNat(s) {
      NatToDecimalOfParse(s);
    } else {
      var t := s[1..];
      NatToDecimalOfParse(t);
      ParseDigitsLowerBound(t);
      assert s == "-" + t;
    }
  }

  /** Distinct integers are rendered as distinct strings. */
  lemma DecimalInjective(i: int, j: int)
    ensures IntToDecimal(i) == IntToDecimal(j) ==> i == j
  {
    ParseIntOfDecimal(i);
    ParseIntOfDecimal(j);
  }

  /** A rendered integer contains only digits and a leading sign. */
  lemma DecimalAlphabet(i: int)
    ensures forall k :: 0 <= k < |IntToDecimal(i)| ==> IsDigit(IntToDecimal(i)[k]) || (k == 0 && IntToDecimal(i)[k] == '-')
  {
  }
}
