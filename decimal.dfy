/**
 * Decimal arithmetic used by the profiler: powers of ten (the bucket keys of
 * the partitioned statistics), the decimal exponent of a duration (what
 * `'%E' % d` yields after the `E`), and the decimal rendering of integers
 * (`'%s' % n`, used in line addresses and block keys).
 */
module Decimal {

  /** 10 raised to an integer power, as a real (Python's `10**k`). */
  function Pow10(e: int): (r: real)
    ensures r > 0.0
    decreases if e < 0 then -e else e
  {
    if e == 0 then 1.0
    else if e > 0 then 10.0 * Pow10(e - 1)
    else Pow10(e + 1) / 10.0
  }

  lemma Pow10Step(e: int)
    ensures Pow10(e + 1) == 10.0 * Pow10(e)
  {
  }

  /** Powers of ten grow strictly with the exponent. */
  lemma {:induction false} Pow10Monotone(a: int, b: int)
    requires a < b
    ensures Pow10(a) < Pow10(b)
    decreases b - a
  {
    Pow10Step(b - 1);
    if a < b - 1 {
      Pow10Monotone(a, b - 1);
    }
  }

  lemma Pow10Injective(a: int, b: int)
    requires Pow10(a) == Pow10(b)
    ensures a == b
  {
    if a < b {
      Pow10Monotone(a, b);
    } else if b < a {
      Pow10Monotone(b, a);
    }
  }

  /** Exponent of a value of at least one. */
  function ExponentAbove(d: real): (e: int)
    requires d >= 1.0
    ensures e >= 0 && Pow10(e) <= d < Pow10(e + 1)
    decreases d.Floor
  {
    if d < 10.0 then 0
    else
      var e := ExponentAbove(d / 10.0);
      Pow10Step(e);
      Pow10Step(e + 1);
      e + 1
  }

  /** Exponent of a value strictly between zero and one. */
  function ExponentBelow(d: real): (e: int)
    requires 0.0 < d < 1.0
    ensures e < 0 && Pow10(e) <= d < Pow10(e + 1)
    decreases (1.0 / d).Floor
  {
    if d * 10.0 >= 1.0 then
      Pow10Step(-1);
      -1
    else
      assert 1.0 / (d * 10.0) == (1.0 / d) / 10.0;
      assert (1.0 / d) * d == 1.0;
      assert 1.0 / d > 10.0;
      var e := ExponentBelow(d * 10.0);
      Pow10Step(e - 1);
      Pow10Step(e);
      e - 1
  }

  function Abs(d: real): real
  {
    if d < 0.0 then -d else d
  }

  /**
   * The decimal exponent of `d` in scientific notation: the e with
   * 10^e <= |d| < 10^(e+1), and 0 for d == 0.
   */
  function Exponent(d: real): (e: int)
    ensures d == 0.0 ==> e == 0
    ensures d != 0.0 ==> Pow10(e) <= Abs(d) < Pow10(e + 1)
  {
    if d == 0.0 then 0
    else if Abs(d) >= 1.0 then ExponentAbove(Abs(d))
    else ExponentBelow(Abs(d))
  }

  /** The exponent is the only e whose decade holds |d|. */
  lemma ExponentUnique(d: real, e: int)
    requires Pow10(e) <= Abs(d) < Pow10(e + 1)
    ensures Exponent(d) == e
  {
    var x := Exponent(d);
    if x < e {
      if x + 1 < e { Pow10Monotone(x + 1, e); }
    } else if e < x {
      if e + 1 < x { Pow10Monotone(e + 1, x); }
    }
  }

  /** Rendering of one decimal digit. */
  function DigitChar(d: nat): (c: char)
    requires d < 10
    ensures '0' <= c <= '9'
  {
    (('0' as int) + d) as char
  }

  predicate IsDigits(s: string)
  {
    forall i :: 0 <= i < |s| ==> '0' <= s[i] <= '9'
  }

  /** Decimal rendering of a natural number, most significant digit first. */
  function NatToString(n: nat): (s: string)
    ensures |s| >= 1 && IsDigits(s)
  {
    if n < 10 then [DigitChar(n)]
    else NatToString(n / 10) + [DigitChar(n % 10)]
  }

  /** Decimal rendering of an integer, with a leading '-' when negative (`str(i)`). */
  function IntToString(i: int): (s: string)
    ensures |s| >= 1 && ':' !in s
  {
    if i < 0 then "-" + NatToString(-i) else NatToString(i)
  }

  /** The value of a digit string (the inverse of NatToString). */
  function ParseDigits(s: string): nat
    requires IsDigits(s)
  {
    if s == [] then 0
    else 10 * ParseDigits(s[..|s| - 1]) + ((s[|s| - 1] as int) - ('0' as int))
  }

  lemma {:induction false} ParseNatToString(n: nat)
    ensures ParseDigits(NatToString(n)) == n
  {
    if n >= 10 {
      var s := NatToString(n);
      assert s[..|s| - 1] == NatToString(n / 10);
      ParseNatToString(n / 10);
    }
  }

  lemma NatToStringInjective(a: nat, b: nat)
    requires NatToString(a) == NatToString(b)
    ensures a == b
  {
    ParseNatToString(a);
    ParseNatToString(b);
  }

  /** Distinct integers render differently: the sign and the digits determine the value. */
  lemma IntToStringInjective(a: int, b: int)
    requires IntToString(a) == IntToString(b)
    ensures a == b
  {
    assert (IntToString(a)[0] == '-') == (a < 0);
    assert (IntToString(b)[0] == '-') == (b < 0);
    if a < 0 {
      assert NatToString(-a) == IntToString(a)[1..] == IntToString(b)[1..] == NatToString(-b);
      NatToStringInjective(-a, -b);
    } else {
      NatToStringInjective(a, b);
    }
  }

  /** ':' is not a digit, so a rendered number never contains one. */
  lemma DigitsHaveNoColon(s: string)
    requires IsDigits(s)
    ensures ':' !in s
  {
    forall i | 0 <= i < |s| ensures s[i] != ':' {
      assert '0' <= s[i] <= '9';
    }
  }

  /**
   * A string ending in ':' followed by text without ':' splits there in one
   * way only: the prefix and the suffix are determined.
   */
  lemma ColonSplitUnique(p1: string, s1: string, p2: string, s2: string)
    requires p1 + ":" + s1 == p2 + ":" + s2
    requires ':' !in s1 && ':' !in s2
    ensures p1 == p2 && s1 == s2
  {
    var a := p1 + ":" + s1;
    assert a[|p1|] == ':' && a[|p2|] == ':';
    assert forall q :: |p1| < q < |a| ==> a[q] == s1[q - |p1| - 1] != ':';
    assert forall q :: |p2| < q < |a| ==> a[q] == s2[q - |p2| - 1] != ':';
    assert |p1| == |p2|;
    assert p1 == a[..|p1|] == p2;
    assert s1 == a[|p1| + 1..] == s2;
  }
}
