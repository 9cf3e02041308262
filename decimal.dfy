/**
 * Invariant-culture decimal rendering of integers, as C# string concatenation
 * renders an `int`, and the parser that inverts it.
 */
module Decimal {
  import opened Wrappers

  predicate IsDigit(c: char) {
    '0' <= c <= '9'
  }

  predicate AllDigits(s: string) {
    forall k :: 0 <= k < |s| ==> IsDigit(s[k])
  }

  function DigitValue(c: char): (d: nat)
    requires IsDigit(c)
    ensures d < 10
  {
    c as int - '0' as int
  }

  function DigitChar(d: nat): (c: char)
    requires d < 10
    ensures IsDigit(c) && DigitValue(c) == d
  {
    ('0' as int + d) as char
  }

  /** The digits of `n`, most significant first, with no leading zero. */
  function NatToString(n: nat): string
    decreases n
  {
    if n < 10 then [DigitChar(n)] else NatToString(n / 10) + [DigitChar(n % 10)]
  }

  /** How `"..." + i` renders an integer: a minus sign for negatives, then the digits of the magnitude. */
  function FromInt(i: int): string {
    if i < 0 then "-" + NatToString(-i) else NatToString(i)
  }

  /** The value of a string of digits, read most significant first. */
  function ParseNat(s: string): nat
    requires AllDigits(s)
    decreases |s|
  {
    if s == [] then 0 else ParseNat(s[..|s| - 1]) * 10 + DigitValue(s[|s| - 1])
  }

  /** Reads an optionally negative decimal integer; None when `s` is not one. */
  function Parse(s: string): Option<int> {
    if |s| > 1 && s[0] == '-' && AllDigits(s[1..]) then Some(-(ParseNat(s[1..]) as int))
    else if s != [] && AllDigits(s) then Some(ParseNat(s) as int)
    else None
  }

  lemma {:induction false} NatToStringIsDigits(n: nat)
    ensures NatToString(n) != [] && AllDigits(NatToString(n))
    decreases n
  {
    if n >= 10 {
      NatToStringIsDigits(n / 10);
    }
  }

  lemma {:induction false} ParseNatToString(n: nat)
    ensures AllDigits(NatToString(n)) && ParseNat(NatToString(n)) == n
    decreases n
  {
    NatToStringIsDigits(n);
    var s := NatToString(n);
    if n < 10 {
      assert s[..|s| - 1] == [];
    } else {
      ParseNatToString(n / 10);
      assert s[..|s| - 1] == NatToString(n / 10);
    }
  }

  /** The rendering of `n` starts with '0' only for zero itself: there is no leading zero. */
  lemma {:induction false} NatToStringCanonical(n: nat)
    ensures NatToString(n) != [] && (NatToString(n)[0] == '0' <==> n == 0)
    decreases n
  {
    if n >= 10 {
      NatToStringCanonical(n / 10);
    }
  }

  /** The rendering of an integer has one form: "0", digits without a leading zero, or '-' before those. */
  lemma FromIntCanonical(i: int)
    ensures FromInt(i) == "0" <==> i == 0
    ensures i > 0 ==> FromInt(i) != [] && IsDigit(FromInt(i)[0]) && FromInt(i)[0] != '0'
    ensures i < 0 ==> |FromInt(i)| > 1 && FromInt(i)[0] == '-' && IsDigit(FromInt(i)[1]) && FromInt(i)[1] != '0'
  {
    var m: nat := if i < 0 then -i else i;
    NatToStringCanonical(m);
    NatToStringIsDigits(m);
  }

  /** Rendering loses nothing: parsing the rendering of `i` gives `i` back. */
  lemma FromIntRoundTrip(i: int)
    ensures Parse(FromInt(i)) == Some(i)
  {
    var m: nat := if i < 0 then -i else i;
    ParseNatToString(m);
    var s := FromInt(i);
    if i < 0 {
      assert s[1..] == NatToString(m);
    } else {
      assert s[0] != '-' by { assert IsDigit(s[0]); }
    }
  }

  /** Different integers render differently. */
  lemma FromIntInjective(i: int, j: int)
    ensures FromInt(i) == FromInt(j) <==> i == j
  {
    FromIntRoundTrip(i);
    FromIntRoundTrip(j);
  }
}
