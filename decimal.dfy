/**
 * Decimal numerals: `str(n)` for the surah numbers the index is keyed by, and `int(s)` for a run
 * of decimal digits taken out of an utterance.
 */
module Decimal {
  import opened Wrappers
  import opened UnicodeText

  /** CPython's default `sys.get_int_max_str_digits()`: int() refuses longer digit strings with a
      ValueError (Python 3.11 and later). */
  const MAX_STR_DIGITS: nat := 4300

  predicate IsAsciiDigit(c: char)
  {
    '0' <= c <= '9'
  }

  function DigitChar(d: nat): (c: char)
    requires d < 10
    ensures IsAsciiDigit(c) && c as int - '0' as int == d
  {
    ('0' as int + d) as char
  }

  /** `str(n)` for a non-negative integer: its ASCII decimal numeral, without leading zeros. */
  function DecimalString(n: nat): (s: string)
    ensures s != []
    ensures forall i :: 0 <= i < |s| ==> IsAsciiDigit(s[i])
    ensures s[0] == '0' ==> n == 0
    ensures n < 10 <==> |s| == 1
    decreases n
  {
    if n < 10 then [DigitChar(n)] else DecimalString(n / 10) + [DigitChar(n % 10)]
  }

  predicate AllDecimal(t: CharTables, s: string)
  {
    forall i :: 0 <= i < |s| ==> t.decimal(s[i]).Some?
  }

  /** The value of a string of decimal digits, as int() reads it (digits of any script). */
  function DigitsValue(t: CharTables, s: string): nat
    requires AllDecimal(t, s)
  {
    if s == [] then 0 else DigitsValue(t, s[..|s| - 1]) * 10 + t.decimal(s[|s| - 1]).value
  }

  /** `int(s)` for a run of decimal digits: its value, or None where int() raises ValueError. */
  function ParseDigits(t: CharTables, s: string): (r: Option<nat>)
    requires IsRun(t, Digits, s)
    ensures r.Some? <==> |s| <= MAX_STR_DIGITS
    ensures r.Some? ==> r.value == DigitsValue(t, s)
  {
    if |s| > MAX_STR_DIGITS then None else Some(DigitsValue(t, s))
  }

  /** Reading back `str(n)` gives n. */
  lemma {:induction false} DecimalStringValue(t: CharTables, n: nat)
    requires AsciiConventional(t)
    ensures AllDecimal(t, DecimalString(n))
    ensures DigitsValue(t, DecimalString(n)) == n
    decreases n
  {
    var s := DecimalString(n);
    if n >= 10 {
      DecimalStringValue(t, n / 10);
      assert s[..|s| - 1] == DecimalString(n / 10);
    }
  }

  /** `int(str(n)) == n` whenever `str(n)` is within int()'s digit limit. */
  lemma ParseDecimalString(t: CharTables, n: nat)
    requires AsciiConventional(t)
    requires |DecimalString(n)| <= MAX_STR_DIGITS
    ensures IsRun(t, Digits, DecimalString(n)) && ParseDigits(t, DecimalString(n)) == Some(n)
  {
    DecimalStringValue(t, n);
  }

  /** Past the limit int() refuses a numeral even when its value is small: more than 4300 digits
      of zeros in front of `str(n)` make it raise, whatever n is. */
  lemma ParseRefusesLongNumerals(t: CharTables, z: string, n: nat)
    requires AsciiConventional(t)
    requires forall i :: 0 <= i < |z| ==> z[i] == '0'
    requires |z| + |DecimalString(n)| > MAX_STR_DIGITS
    ensures IsRun(t, Digits, z + DecimalString(n))
    ensures DigitsValue(t, z + DecimalString(n)) == n
    ensures ParseDigits(t, z + DecimalString(n)) == None
  {
    DecimalStringValue(t, n);
    LeadingZeros(t, z, DecimalString(n));
  }

  /** Distinct numbers have distinct numerals. */
  lemma {:induction false} DecimalStringInjective(m: nat, n: nat)
    requires m != n
    ensures DecimalString(m) != DecimalString(n)
    decreases m
  {
    var a, b := DecimalString(m), DecimalString(n);
    if m >= 10 && n >= 10 {
      if m % 10 != n % 10 {
        assert a[|a| - 1] != b[|b| - 1];
      } else {
        DecimalStringInjective(m / 10, n / 10);
        assert a[..|a| - 1] == DecimalString(m / 10);
        assert b[..|b| - 1] == DecimalString(n / 10);
      }
    } else if m < 10 && n < 10 {
      assert a[0] != b[0];
    }
  }

  /** An ASCII numeral that does not start with '0' has a value of at least one. */
  lemma {:induction false} LeadingDigitPositive(t: CharTables, s: string)
    requires AsciiConventional(t)
    requires s != [] && s[0] != '0' && forall i :: 0 <= i < |s| ==> IsAsciiDigit(s[i])
    ensures AllDecimal(t, s) && DigitsValue(t, s) >= 1
    decreases |s|
  {
    if |s| > 1 {
      LeadingDigitPositive(t, s[..|s| - 1]);
    }
  }

  /** `str(int(s)) == s` for an ASCII numeral without a leading zero. */
  lemma {:induction false} ValueDecimalString(t: CharTables, s: string)
    requires AsciiConventional(t)
    requires s != [] && (s[0] == '0' ==> |s| == 1) && forall i :: 0 <= i < |s| ==> IsAsciiDigit(s[i])
    ensures AllDecimal(t, s) && DecimalString(DigitsValue(t, s)) == s
    decreases |s|
  {
    var v := DigitsValue(t, s);
    if |s| > 1 {
      var p := s[..|s| - 1];
      ValueDecimalString(t, p);
      LeadingDigitPositive(t, p);
      var d := t.decimal(s[|s| - 1]).value;
      assert v == DigitsValue(t, p) * 10 + d;
      assert v / 10 == DigitsValue(t, p) && v % 10 == d;
      assert s == p + [s[|s| - 1]];
    }
  }

  /** Leading zeros do not change what int() reads. */
  lemma {:induction false} LeadingZeros(t: CharTables, z: string, s: string)
    requires AsciiConventional(t)
    requires forall i :: 0 <= i < |z| ==> z[i] == '0'
    requires AllDecimal(t, s)
    ensures AllDecimal(t, z + s) && DigitsValue(t, z + s) == DigitsValue(t, s)
    decreases |s|
  {
    if s == [] {
      LeadingZerosOnly(t, z);
      assert z + s == z;
    } else {
      var p := s[..|s| - 1];
      LeadingZeros(t, z, p);
      assert (z + s)[..|z + s| - 1] == z + p;
    }
  }

  lemma {:induction false} LeadingZerosOnly(t: CharTables, z: string)
    requires AsciiConventional(t)
    requires forall i :: 0 <= i < |z| ==> z[i] == '0'
    ensures AllDecimal(t, z) && DigitsValue(t, z) == 0
    decreases |z|
  {
    if z != [] {
      LeadingZerosOnly(t, z[..|z| - 1]);
    }
  }
}
