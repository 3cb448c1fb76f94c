/**
 * Decimal text of integers: `int.ToString()` and `int.Parse(string)` with the
 * invariant culture, as the claims code and the one-time codes use them.
 */
module Decimal {
  import opened Text
  import opened Wrappers

  const Int32Min: int := -0x8000_0000
  const Int32Max: int := 0x7FFF_FFFF

  predicate IsInt32(n: int) {
    Int32Min <= n <= Int32Max
  }

  function DigitChar(d: nat): (c: char)
    requires d < 10
    ensures IsDigit(c)
  {
    ('0' as int + d) as char
  }

  function DigitValue(c: char): (d: nat)
    requires IsDigit(c)
    ensures d < 10 && DigitChar(d) == c
  {
    c as int - '0' as int
  }

  function Pow10(k: nat): (p: nat)
    ensures p >= 1
  {
    if k == 0 then 1 else 10 * Pow10(k - 1)
  }

  /** `n.ToString()` for a non-negative `n`: shortest decimal text, no sign. */
  function NatText(n: nat): (r: string)
    ensures |r| >= 1 && AllDigits(r)
  {
    if n < 10 then [DigitChar(n)] else NatText(n / 10) + [DigitChar(n % 10)]
  }

  /** The value of a string of decimal digits (most significant first). */
  function DigitsValue(s: string): nat
    requires AllDigits(s)
  {
    if s == [] then 0 else DigitsValue(s[..|s| - 1]) * 10 + DigitValue(s[|s| - 1])
  }

  /** `n.ToString()`. */
  function IntText(n: int): (r: string)
    ensures |r| >= 1
  {
    if n < 0 then "-" + NatText(-n) else NatText(n)
  }

  /**
   * `int.Parse(s)`: surrounding white space, one optional sign, then at least
   * one digit, and the value must fit in 32 bits. `None` stands for the
   * FormatException or OverflowException that `int.Parse` throws otherwise.
   */
  function ParseInt32(s: string): (r: Option<int>)
    ensures r.Some? ==> IsInt32(r.value)
  {
    var t := Trim(s);
    var signed := |t| > 0 && (t[0] == '-' || t[0] == '+');
    var digits := if signed then t[1..] else t;
    if digits == [] || !AllDigits(digits) then None
    else
      var magnitude := DigitsValue(digits) as int;
      var v := if signed && t[0] == '-' then -magnitude else magnitude;
      if IsInt32(v) then Some(v) else None
  }

  // ---------------------------------------------------------------- lemmas

  /** Reading back the text of `n` gives `n`. */
  lemma {:induction false} DigitsValueOfNatText(n: nat)
    ensures DigitsValue(NatText(n)) == n
  {
    var r := NatText(n);
    if n >= 10 {
      assert r[..|r| - 1] == NatText(n / 10);
      DigitsValueOfNatText(n / 10);
    }
  }

  /** The text of a number with `k` digits has length `k`. */
  lemma {:induction false} NatTextLength(n: nat, k: nat)
    requires k >= 1 && Pow10(k - 1) <= n < Pow10(k)
    ensures |NatText(n)| == k
  {
    if n >= 10 {
      NatTextLength(n / 10, k - 1);
    }
  }

  /** A positive number is written without a leading zero. */
  lemma {:induction false} NatTextNoLeadingZero(n: nat)
    requires n >= 1
    ensures NatText(n)[0] != '0'
  {
    if n >= 10 {
      NatTextNoLeadingZero(n / 10);
    }
  }

  lemma NatTextInjective(m: nat, n: nat)
    requires NatText(m) == NatText(n)
    ensures m == n
  {
    DigitsValueOfNatText(m);
    DigitsValueOfNatText(n);
  }

  /** `int.Parse(n.ToString()) == n` for every 32-bit `n`. */
  lemma ParseInt32OfIntText(n: int)
    requires IsInt32(n)
    ensures ParseInt32(IntText(n)) == Some(n)
  {
    var t := IntText(n);
    var m: nat := if n < 0 then -n else n;
    var digits := NatText(m);
    assert IsDigit(digits[0]) && IsDigit(digits[|digits| - 1]);
    assert !IsWhiteSpace(t[0]) && !IsWhiteSpace(t[|t| - 1]);
    TrimOfUnpadded(t);
    DigitsValueOfNatText(m);
    if n < 0 {
      assert t[1..] == digits;
    } else {
      assert t == digits;
    }
  }
}
