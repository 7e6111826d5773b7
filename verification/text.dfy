/** Decimal rendering of unsigned integers, which is what Rust's `{:?}`
    formatting produces for the `u32` values the matchers report. */
module Text {

  /** The character for a decimal digit. */
  function Digit(d: nat): (c: char)
    requires d < 10
    ensures '0' <= c <= '9'
    ensures c as int - '0' as int == d
  {
    ('0' as int + d) as char
  }

  /** The value of a decimal digit character. */
  function DigitValue(c: char): (d: nat)
    requires '0' <= c <= '9'
    ensures d < 10
  {
    (c - '0') as nat
  }

  /** Whether every character of `s` is a decimal digit. */
  predicate IsDigits(s: string)
  {
    forall i :: 0 <= i < |s| ==> '0' <= s[i] <= '9'
  }

  /** A canonical decimal numeral: at least one digit, and no leading zero
      unless the numeral is `0` itself. */
  predicate IsCanonical(s: string)
  {
    && |s| >= 1
    && IsDigits(s)
    && (|s| > 1 ==> s[0] != '0')
  }

  /** Decimal rendering of `n`, most significant digit first, no leading zeros. */
  function Show(n: nat): (s: string)
    ensures IsCanonical(s)
    ensures |s| == 1 <==> n < 10
    decreases n, 1
  {
    if n < 10 then [Digit(n)] else ShowMultiDigit(n)
  }

  /** The rendering of a number of two or more digits: the rendering of all
      but its last digit, then its last digit. */
  function ShowMultiDigit(n: nat): (s: string)
    requires n >= 10
    ensures |s| >= 2
    ensures IsCanonical(s)
    decreases n, 0
  {
    Show(n / 10) + [Digit(n % 10)]
  }

  /** Reads a string of decimal digits back into the number it denotes. */
  function Read(s: string): nat
    requires IsDigits(s)
  {
    if |s| == 0 then 0 else Read(s[..|s| - 1]) * 10 + DigitValue(s[|s| - 1])
  }

  /** The rendering loses nothing: the number can be read back from it. */
  lemma {:induction false} ReadShow(n: nat)
    ensures Read(Show(n)) == n
    decreases n
  {
    var s := Show(n);
    if n < 10 {
      assert s[..0] == [];
    } else {
      assert s == ShowMultiDigit(n) == Show(n / 10) + [Digit(n % 10)];
      assert s[..|s| - 1] == Show(n / 10);
      ReadShow(n / 10);
    }
  }

  /** A numeral of two or more digits without a leading zero denotes at
      least 10. */
  lemma {:induction false} ReadAtLeastTen(s: string)
    requires IsCanonical(s) && |s| >= 2
    ensures Read(s) >= 10
    decreases |s|
  {
    var init := s[..|s| - 1];
    assert init[0] == s[0];
    if |init| >= 2 {
      ReadAtLeastTen(init);
    } else {
      assert init[..0] == [];
      assert Read(init) == DigitValue(s[0]) >= 1;
    }
  }

  /** The rendering is the only canonical numeral: every canonical numeral is
      the rendering of the number it denotes, so `Show` admits no leading
      zeros and no other spelling. */
  lemma {:induction false} ShowRead(s: string)
    requires IsCanonical(s)
    ensures Show(Read(s)) == s
    decreases |s|
  {
    var init, last := s[..|s| - 1], s[|s| - 1];
    var n := Read(s);
    assert n == Read(init) * 10 + DigitValue(last);
    assert Digit(DigitValue(last)) == last;
    if |s| == 1 {
      assert init == [];
      assert s == [last];
    } else {
      ReadAtLeastTen(s);
      assert init[0] == s[0];
      ShowRead(init);
      assert n / 10 == Read(init) && n % 10 == DigitValue(last);
      assert Show(n) == ShowMultiDigit(n) == Show(n / 10) + [Digit(n % 10)];
      assert s == init + [last];
    }
  }
}
