/** Decimal digit strings: the part of JavaScript's `Number(s)` that the
    parser relies on for integer literals, and the decimal rendering of an
    integer that `Integer.inspect()` produces. */
module Decimal {
  import opened Wrappers

  predicate IsDigitChar(c: char) {
    '0' <= c <= '9'
  }

  predicate AllDigits(s: string) {
    forall i :: 0 <= i < |s| ==> IsDigitChar(s[i])
  }

  function DigitValue(c: char): (d: nat)
    requires IsDigitChar(c)
    ensures d < 10
  {
    c as int - '0' as int
  }

  function DigitChar(d: nat): (c: char)
    requires d < 10
    ensures IsDigitChar(c) && DigitValue(c) == d
  {
    ('0' as int + d) as char
  }

  /** `Number(s)` on a string of decimal digits: its value (the empty string
      is 0); None (`NaN`) as soon as any character is not a digit. */
  function ParseDigits(s: string): (r: Option<nat>)
    ensures r.Some? <==> AllDigits(s)
    decreases |s|
  {
    if |s| == 0 then Some(0)
    else
      var init := ParseDigits(s[..|s| - 1]);
      var last := s[|s| - 1];
      if init.None? || !IsDigitChar(last) then
        assert !AllDigits(s) by {
          if init.None? {
            var i :| 0 <= i < |s| - 1 && !IsDigitChar(s[..|s| - 1][i]);
            assert s[i] == s[..|s| - 1][i];
          }
        }
        None
      else Some(init.value * 10 + DigitValue(last))
  }

  /** The decimal digits of a natural number, most significant first, with
      no leading zero. */
  function NatToString(n: nat): (s: string)
    ensures |s| > 0 && AllDigits(s)
    ensures |s| > 1 ==> s[0] != '0'
    decreases n
  {
    if n < 10 then [DigitChar(n)]
    else NatToString(n / 10) + [DigitChar(n % 10)]
  }

  /** The decimal rendering of an integer: a minus sign before the digits
      of a negative one. */
  function IntToString(i: int): (s: string)
    ensures |s| > 0
    ensures i < 0 <==> s[0] == '-'
  {
    if i < 0 then "-" + NatToString(-i) else NatToString(i)
  }

  /** Reading back the digits of a natural number gives the number. */
  lemma {:induction false} ParseNatToString(n: nat)
    ensures ParseDigits(NatToString(n)) == Some(n)
    decreases n
  {
    var s := NatToString(n);
    if n >= 10 {
      ParseNatToString(n / 10);
      assert s[..|s| - 1] == NatToString(n / 10);
    }
  }

  /** Distinct integers render differently. */
  lemma IntToStringInjective(a: int, b: int)
    requires IntToString(a) == IntToString(b)
    ensures a == b
  {
    if a < 0 && b < 0 {
      assert NatToString(-a) == IntToString(a)[1..];
      ParseNatToString(-a);
      ParseNatToString(-b);
    } else if a >= 0 && b >= 0 {
      ParseNatToString(a);
      ParseNatToString(b);
    }
  }
}
