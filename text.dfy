/** Decimal text of integers, as JavaScript's `String(n)` and `n.toFixed(1)` write an integral
    number. */
module Text {

  predicate IsDigit(c: char) {
    '0' <= c <= '9'
  }

  predicate IsDigits(s: string) {
    forall i :: 0 <= i < |s| ==> IsDigit(s[i])
  }

  function DigitValue(c: char): int
    requires IsDigit(c)
  {
    c as int - '0' as int
  }

  function DigitChar(d: int): (c: char)
    requires 0 <= d < 10
    ensures IsDigit(c) && DigitValue(c) == d
  {
    ('0' as int + d) as char
  }

  /** The shortest decimal numeral of `n`: at least one digit, and no leading zero unless `n` is 0. */
  function NatToText(n: nat): (s: string)
    ensures |s| >= 1 && IsDigits(s)
    ensures (s[0] == '0') == (n == 0)
  {
    if n < 10 then [DigitChar(n)] else NatToText(n / 10) + [DigitChar(n % 10)]
  }

  /** The value of a numeral, most significant digit first. */
  function DigitsValue(s: string): nat
    requires IsDigits(s)
  {
    if s == [] then 0 else DigitsValue(s[..|s| - 1]) * 10 + DigitValue(s[|s| - 1])
  }

  /** `String(n)` for an integer `n`: a minus sign for negative values, then the digits of `|n|`. */
  function IntToText(n: int): (s: string)
    ensures |s| >= 1
    ensures (s[0] == '-') == (n < 0)
    ensures IsDigits(if n < 0 then s[1..] else s)
  {
    if n < 0 then "-" + NatToText(-n) else NatToText(n)
  }

  /** Reading the numeral back gives the number: the text loses nothing. */
  lemma {:induction false} NatToTextRoundTrip(n: nat)
    ensures DigitsValue(NatToText(n)) == n
  {
    if n >= 10 {
      var t := NatToText(n / 10);
      var s := t + [DigitChar(n % 10)];
      assert s[..|s| - 1] == t;
      NatToTextRoundTrip(n / 10);
    }
  }

  lemma NatToTextInjective(m: nat, n: nat)
    requires NatToText(m) == NatToText(n)
    ensures m == n
  {
    NatToTextRoundTrip(m);
    NatToTextRoundTrip(n);
  }

  /** Different integers are written differently. */
  lemma IntToTextInjective(a: int, b: int)
    requires IntToText(a) == IntToText(b)
    ensures a == b
  {
    var s := IntToText(a);
    assert (a < 0) == (s[0] == '-') == (b < 0);
    if a < 0 {
      assert s == "-" + NatToText(-a) == "-" + NatToText(-b);
      assert s[1..] == NatToText(-a) && s[1..] == NatToText(-b);
      NatToTextInjective(-a, -b);
    } else {
      NatToTextInjective(a, b);
    }
  }

  /** The text of an integer holds only a sign and digits; in particular no `$`. */
  lemma IntToTextHasNoDollar(n: int)
    ensures forall i :: 0 <= i < |IntToText(n)| ==> IntToText(n)[i] != '$'
  {
    var s := IntToText(n);
    var digits := if n < 0 then s[1..] else s;
    forall i | 0 <= i < |s| ensures s[i] != '$' {
      if n < 0 && i > 0 {
        assert s[i] == digits[i - 1];
      }
    }
  }
}
