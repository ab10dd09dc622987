/**
 * How a template literal renders a non-negative integer below 10^21
 * (`${post.id}`, `${Date.now()}`): its decimal digits, most significant
 * first, without sign or leading zeros. JavaScript prints larger numbers in
 * exponent form, which this module does not model.
 * ParseDecimal reads such a string back; the two are proved inverse to each other,
 * which is what makes ids built from distinct numbers distinct.
 */
module Decimal {
  import opened Wrappers

  predicate IsDigit(c: char) {
    '0' <= c <= '9'
  }

  predicate AllDigits(s: string) {
    forall i :: 0 <= i < |s| ==> IsDigit(s[i])
  }

  /** A digit string as JavaScript prints a number: non-empty, no leading zero unless it is "0". */
  predicate Canonical(s: string) {
    |s| >= 1 && AllDigits(s) && (s[0] != '0' || |s| == 1)
  }

  function DigitChar(d: nat): (c: char)
    requires d < 10
    ensures IsDigit(c) && c as int - '0' as int == d
  {
    ('0' as int + d) as char
  }

  /** The decimal rendering of `n`. */
  function DecimalString(n: nat): (s: string)
    ensures Canonical(s)
    ensures |s| == 1 <==> n < 10
    decreases n
  {
    if n < 10 then [DigitChar(n)] else DecimalString(n / 10) + [DigitChar(n % 10)]
  }

  /** The value of a string of decimal digits, most significant first. */
  function DigitsValue(s: string): nat
    requires AllDigits(s)
  {
    if s == [] then 0
    else DigitsValue(s[..|s| - 1]) * 10 + (s[|s| - 1] as int - '0' as int)
  }

  /** Reads back what DecimalString writes; anything else is None. */
  function ParseDecimal(s: string): (r: Option<nat>)
    ensures r.Some? <==> Canonical(s)
  {
    if Canonical(s) then Some(DigitsValue(s)) else None
  }

  lemma {:induction false} DigitsValueOfDecimal(n: nat)
    ensures DigitsValue(DecimalString(n)) == n
    decreases n
  {
    if n >= 10 {
      var p := DecimalString(n / 10);
      assert DecimalString(n) == p + [DigitChar(n % 10)];
      assert DecimalString(n)[..|DecimalString(n)| - 1] == p;
      DigitsValueOfDecimal(n / 10);
    }
  }

  /** Rendering then parsing gives the number back. */
  lemma RenderThenParse(n: nat)
    ensures ParseDecimal(DecimalString(n)) == Some(n)
  {
    DigitsValueOfDecimal(n);
  }

  /** A canonical digit string with at least two digits is worth ten or more. */
  lemma {:induction false} LongCanonicalAtLeastTen(s: string)
    requires Canonical(s) && |s| >= 2
    ensures DigitsValue(s) >= 10
    decreases |s|
  {
    var p := s[..|s| - 1];
    assert p[0] == s[0];
    if |p| >= 2 {
      LongCanonicalAtLeastTen(p);
    } else {
      assert DigitsValue(p) == DigitsValue(p[..0]) * 10 + (p[0] as int - '0' as int);
    }
  }

  lemma {:induction false} DecimalOfDigitsValue(s: string)
    requires Canonical(s)
    ensures DecimalString(DigitsValue(s)) == s
    decreases |s|
  {
    if |s| >= 2 {
      var p := s[..|s| - 1];
      var n := DigitsValue(s);
      assert p[0] == s[0];
      LongCanonicalAtLeastTen(s);
      assert n / 10 == DigitsValue(p);
      assert n % 10 == s[|s| - 1] as int - '0' as int;
      DecimalOfDigitsValue(p);
      assert s == p + [s[|s| - 1]];
    } else {
      assert s[..0] == [];
    }
  }

  /** Parsing then rendering gives the string back. */
  lemma ParseThenRender(s: string)
    requires ParseDecimal(s).Some?
    ensures DecimalString(ParseDecimal(s).value) == s
  {
    DecimalOfDigitsValue(s);
  }

  /** Distinct numbers render to distinct strings. */
  lemma DecimalInjective(a: nat, b: nat)
    ensures DecimalString(a) == DecimalString(b) <==> a == b
  {
    RenderThenParse(a);
    RenderThenParse(b);
  }
}
