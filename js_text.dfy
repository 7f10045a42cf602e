/**
 * Decimal rendering of non-negative integers as JavaScript's `String(n)` and template
 * literals produce it, and the `padStart(2, '0')` used by the time formatters.
 */
module JsText {
  predicate IsDigit(c: char) { '0' <= c <= '9' }

  predicate AllDigits(s: string) { forall i :: 0 <= i < |s| ==> IsDigit(s[i]) }

  function DigitChar(d: nat): (c: char)
    requires d < 10
    ensures IsDigit(c) && c as int - '0' as int == d
  {
    ('0' as int + d) as char
  }

  /** `String(n)` for a non-negative integer: its decimal digits, most significant first. */
  function NatToString(n: nat): (s: string)
    ensures 1 <= |s| && AllDigits(s)
    ensures (n < 10) == (|s| == 1)
    ensures s[|s| - 1] == DigitChar(n % 10)
  {
    if n < 10 then [DigitChar(n)] else NatToString(n / 10) + [DigitChar(n % 10)]
  }

  /** Two different numbers never print the same. */
  lemma {:induction false} NatToStringInjective(a: nat, b: nat)
    requires NatToString(a) == NatToString(b)
    ensures a == b
  {
    var sa, sb := NatToString(a), NatToString(b);
    assert DigitChar(a % 10) == DigitChar(b % 10);
    if a >= 10 && b >= 10 {
      assert NatToString(a / 10) == sa[..|sa| - 1] == sb[..|sb| - 1] == NatToString(b / 10);
      NatToStringInjective(a / 10, b / 10);
    }
  }

  /** `s.padStart(2, '0')`. */
  function PadTwo(s: string): (r: string)
    ensures |s| < 2 ==> |r| == 2 && r[2 - |s|..] == s && forall i :: 0 <= i < 2 - |s| ==> r[i] == '0'
    ensures |s| >= 2 ==> r == s
  {
    if |s| == 0 then "00" else if |s| == 1 then ['0'] + s else s
  }

  /** A number below 100, printed with two digits. */
  function TwoDigits(n: nat): (r: string)
    requires n < 100
    ensures |r| == 2 && AllDigits(r)
    ensures r[0] == DigitChar(n / 10) && r[1] == DigitChar(n % 10)
  {
    PadTwo(NatToString(n))
  }

  /** Parsing back: the value of a string of decimal digits. */
  function DigitsValue(s: string): (v: nat)
    requires AllDigits(s)
  {
    if s == [] then 0 else DigitsValue(s[..|s| - 1]) * 10 + (s[|s| - 1] as int - '0' as int)
  }

  lemma {:induction false} DigitsValueOfNatToString(n: nat)
    ensures DigitsValue(NatToString(n)) == n
  {
    if n >= 10 {
      var s := NatToString(n);
      assert s[..|s| - 1] == NatToString(n / 10);
      DigitsValueOfNatToString(n / 10);
    }
  }

  /**
   * Separator-delimited ids: when two digit strings and a separator containing a
   * non-digit are concatenated, the pieces can be read back.
   */
  lemma DigitsSplitUnique(a: string, b: string, c: string, d: string, sep: string)
    requires AllDigits(a) && AllDigits(c) && |sep| > 0 && !IsDigit(sep[0])
    requires a + sep + b == c + sep + d
    ensures a == c && b == d
  {
    if |a| < |c| {
      SeparatorLandsOnDigit(a, b, c, d, sep);
      assert false;
    } else if |c| < |a| {
      SeparatorLandsOnDigit(c, d, a, b, sep);
      assert false;
    }
    assert a == (a + sep + b)[..|a|];
    assert c == (c + sep + d)[..|c|];
    assert b == (a + sep + b)[|a| + |sep|..];
    assert d == (c + sep + d)[|c| + |sep|..];
  }

  /** If the first digit run is shorter, the separator sits where the other run has a digit. */
  lemma SeparatorLandsOnDigit(a: string, b: string, c: string, d: string, sep: string)
    requires AllDigits(c) && |a| < |c| && |sep| > 0
    requires a + sep + b == c + sep + d
    ensures IsDigit(sep[0])
  {
    assert (a + sep + b)[|a|] == sep[0];
    assert (c + sep + d)[|a|] == c[|a|];
  }

  /** Padding with zeros keeps a digit string's value. */
  lemma PadTwoKeepsValue(s: string)
    requires AllDigits(s)
    ensures AllDigits(PadTwo(s)) && DigitsValue(PadTwo(s)) == DigitsValue(s)
  {
    var r := PadTwo(s);
    if |s| == 1 {
      assert r[..1] == "0" && r[..1][..0] == [];
    } else if |s| == 0 {
      assert r[..1] == "0" && r[..1][..0] == [];
    }
  }

  /** A number printed with `padStart(2, '0')` reads back as itself. */
  lemma PaddedReadsBack(n: nat)
    ensures AllDigits(PadTwo(NatToString(n))) && DigitsValue(PadTwo(NatToString(n))) == n
  {
    PadTwoKeepsValue(NatToString(n));
    DigitsValueOfNatToString(n);
  }

  /** Two numbers below 100 with the same two-digit rendering are equal. */
  lemma TwoDigitsInjective(x: nat, y: nat)
    requires x < 100 && y < 100 && TwoDigits(x) == TwoDigits(y)
    ensures x == y
  {
    assert x / 10 == y / 10 && x % 10 == y % 10;
  }

  /** `"{a}:{x padded}"`, the shape of a clock reading: both fields can be read back. */
  lemma ClockFieldsUnique(a: nat, x: nat, b: nat, y: nat)
    requires x < 100 && y < 100
    requires NatToString(a) + ":" + TwoDigits(x) == NatToString(b) + ":" + TwoDigits(y)
    ensures a == b && x == y
  {
    DigitsSplitUnique(NatToString(a), TwoDigits(x), NatToString(b), TwoDigits(y), ":");
    NatToStringInjective(a, b);
    TwoDigitsInjective(x, y);
  }
}
