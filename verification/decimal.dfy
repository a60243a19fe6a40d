/**
 * Decimal text as Python renders and reads it: `str(n)` for an int,
 * `s.isdigit()`, and `int(s)` for the vacancies field. Only ASCII digits
 * are modelled.
 */
module Decimal {
  import opened Wrappers

  predicate IsDigit(c: char) { '0' <= c <= '9' }

  predicate AllDigits(s: string) { forall i :: 0 <= i < |s| ==> IsDigit(s[i]) }

  function DigitChar(d: nat): (c: char)
    requires d < 10
    ensures IsDigit(c)
  {
    ('0' as int + d) as char
  }

  function DigitValue(c: char): (d: nat)
    requires IsDigit(c)
    ensures d < 10 && DigitChar(d) == c
  {
    c as int - '0' as int
  }

  function Pow10(k: nat): (p: nat)
    ensures p >= 1
  {
    if k == 0 then 1 else 10 * Pow10(k - 1)
  }

  /** `str(n)` for a non-negative int: no sign, no leading zero. */
  function NatToString(n: nat): (r: string)
    ensures |r| >= 1 && AllDigits(r)
    ensures |r| > 1 ==> r[0] != '0'
    ensures r[0] == '0' ==> n == 0
  {
    if n < 10 then [DigitChar(n)] else NatToString(n / 10) + [DigitChar(n % 10)]
  }

  /** `str(n)` for any int: a leading '-' for negative values. */
  function IntToString(n: int): (r: string)
    ensures n >= 0 ==> AllDigits(r)
    ensures n < 0 ==> |r| >= 2 && r[0] == '-'
  {
    if n < 0 then "-" + NatToString(-n) else NatToString(n)
  }

  /** The value of a string of decimal digits, read left to right. */
  function DigitsValue(s: string): nat
    requires AllDigits(s)
  {
    if s == [] then 0 else 10 * DigitsValue(s[..|s| - 1]) + DigitValue(s[|s| - 1])
  }

  /**
   * `int(s)` on a string: an optional sign followed by one or more digits;
   * anything else is the ValueError branch (None).
   */
  function ParseInt(s: string): (r: Option<int>)
    ensures r.Some? <==>
      s != [] && (AllDigits(s) || (|s| >= 2 && (s[0] == '-' || s[0] == '+') && AllDigits(s[1..])))
    ensures AllDigits(s) && s != [] ==> r == Some(DigitsValue(s) as int)
    ensures |s| >= 2 && s[0] == '-' && AllDigits(s[1..]) ==> r == Some(-(DigitsValue(s[1..]) as int))
    ensures |s| >= 2 && s[0] == '+' && AllDigits(s[1..]) ==> r == Some(DigitsValue(s[1..]) as int)
  {
    if s == [] then None
    else if s[0] == '-' || s[0] == '+' then
      if |s| >= 2 && AllDigits(s[1..]) then
        Some(if s[0] == '-' then -(DigitsValue(s[1..]) as int) else DigitsValue(s[1..]) as int)
      else None
    else if AllDigits(s) then Some(DigitsValue(s) as int)
    else None
  }

  lemma {:induction false} DigitsValueSnoc(s: string, c: char)
    requires AllDigits(s) && IsDigit(c)
    ensures AllDigits(s + [c]) && DigitsValue(s + [c]) == 10 * DigitsValue(s) + DigitValue(c)
  {
    assert (s + [c])[..|s + [c]| - 1] == s;
  }

  /** Reading back what `str` wrote gives the number. */
  lemma {:induction false} ReadShow(n: nat)
    ensures DigitsValue(NatToString(n)) == n
  {
    if n >= 10 {
      ReadShow(n / 10);
      DigitsValueSnoc(NatToString(n / 10), DigitChar(n % 10));
    }
  }

  /** Writing back what was read gives the text, when it has no leading zero. */
  lemma {:induction false} ShowRead(s: string)
    requires s != [] && AllDigits(s)
    requires |s| > 1 ==> s[0] != '0'
    ensures NatToString(DigitsValue(s)) == s
  {
    var p, c := s[..|s| - 1], s[|s| - 1];
    assert s == p + [c];
    if p == [] {
      assert s == [c];
    } else {
      ShowRead(p);
      DigitsValueSnoc(p, c);
      var v := DigitsValue(p);
      // p starts with s[0], which is not '0', so its value is at least 1
      assert p[0] == s[0];
      var n := 10 * v + DigitValue(c);
      assert n / 10 == v && n % 10 == DigitValue(c);
    }
  }

  /** `str(n)` has k characters exactly when n lies in the k-digit range. */
  lemma {:induction false} LengthBounds(n: nat)
    ensures n < Pow10(|NatToString(n)|)
    ensures |NatToString(n)| > 1 ==> Pow10(|NatToString(n)| - 1) <= n
  {
    if n >= 10 {
      LengthBounds(n / 10);
    }
  }

  lemma {:induction false} Pow10Monotone(a: nat, b: nat)
    requires a <= b
    ensures Pow10(a) <= Pow10(b)
  {
    if a < b { Pow10Monotone(a, b - 1); }
  }

  /** A non-negative number renders as five digits exactly when it is in [10000, 99999]. */
  lemma FiveDigitRange(n: nat)
    ensures |NatToString(n)| == 5 <==> 10000 <= n <= 99999
  {
    LengthBounds(n);
    var k := |NatToString(n)|;
    assert Pow10(4) == 10000 && Pow10(5) == 100000;
    if 10000 <= n <= 99999 {
      if k <= 4 { Pow10Monotone(k, 4); }
      if k >= 6 { Pow10Monotone(5, k - 1); }
    }
  }

  /** `int(str(n)) == n` for the vacancies field. */
  lemma ParseIntShow(n: int)
    ensures ParseInt(IntToString(n)) == Some(n)
  {
    var s := IntToString(n);
    if n < 0 {
      var t := NatToString(-n);
      assert s == "-" + t && s[1..] == t;
      assert |s| >= 2 && s[0] == '-' && AllDigits(s[1..]);
      ReadShow(-n);
      assert DigitsValue(s[1..]) == -n;
    } else {
      assert s != [] && AllDigits(s);
      ReadShow(n);
    }
  }
}
