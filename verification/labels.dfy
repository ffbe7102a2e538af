/**
 The counter labels of the wave HUD. The spawner renders every counter with the
 .NET standard numeric format "D2": the decimal digits of the magnitude, padded
 on the left with zeros to at least two digits, preceded by '-' for a negative
 value. This module defines that rendering and proves that the rendered text
 reads back as the number it came from.
 */
module Labels {

  predicate IsDigit(c: char) {
    '0' <= c <= '9'
  }

  predicate AllDigits(s: string) {
    forall i :: 0 <= i < |s| ==> IsDigit(s[i])
  }

  function DigitChar(d: int): (c: char)
    requires 0 <= d < 10
    ensures IsDigit(c)
  {
    (('0' as int) + d) as char
  }

  function DigitValue(c: char): (d: int)
    requires IsDigit(c)
    ensures 0 <= d < 10
  {
    (c as int) - ('0' as int)
  }

  /** The shortest decimal rendering of a natural number: no leading zero. */
  function Decimal(n: nat): (s: string)
    ensures |s| >= 1
    ensures AllDigits(s)
    ensures |s| > 1 ==> s[0] != '0'
    ensures n < 10 <==> |s| == 1
  {
    if n < 10 then [DigitChar(n)] else Decimal(n / 10) + [DigitChar(n % 10)]
  }

  /** The value of a string of digits, most significant digit first. */
  function DigitsValue(s: string): nat
    requires AllDigits(s)
  {
    if |s| == 0 then 0 else 10 * DigitsValue(s[..|s| - 1]) + DigitValue(s[|s| - 1])
  }

  /** Reads a rendering with an optional leading minus sign. */
  function ReadSigned(s: string): int
    requires |s| > 0 && s[0] == '-' ==> AllDigits(s[1..])
    requires |s| > 0 && s[0] != '-' ==> AllDigits(s)
  {
    if |s| > 0 && s[0] == '-' then -(DigitsValue(s[1..]) as int) else DigitsValue(s)
  }

  lemma {:induction false} DecimalReadsBack(n: nat)
    ensures DigitsValue(Decimal(n)) == n
  {
    if n >= 10 {
      var s := Decimal(n);
      assert s[..|s| - 1] == Decimal(n / 10);
      DecimalReadsBack(n / 10);
    }
  }

  /** A leading zero does not change the value of a digit string. */
  lemma {:induction false} LeadingZeroIsNeutral(s: string)
    requires AllDigits(s)
    ensures AllDigits(['0'] + s)
    ensures DigitsValue(['0'] + s) == DigitsValue(s)
  {
    var z := ['0'] + s;
    if |s| > 0 {
      assert z[..|z| - 1] == ['0'] + s[..|s| - 1];
      LeadingZeroIsNeutral(s[..|s| - 1]);
    }
  }

  function Magnitude(n: int): nat {
    if n < 0 then -n else n
  }

  /** The "D2" rendering of an integer, as used for the wave and kill labels. */
  function FormatD2(n: int): (s: string)
    ensures |s| >= 2
    ensures n >= 0 ==> AllDigits(s) && |s| == if n < 10 then 2 else |Decimal(n)|
    ensures n >= 10 ==> s == Decimal(n)
    ensures 0 <= n < 10 ==> s == ['0', DigitChar(n)]
    ensures n < 0 <==> s[0] == '-'
    ensures n < 0 ==> AllDigits(s[1..]) && |s| >= 3
  {
    var digits := Decimal(Magnitude(n));
    var padded := if |digits| < 2 then ['0'] + digits else digits;
    if n < 0 then "-" + padded else padded
  }

  /** The label reads back as the number it shows, so no two counters share a label. */
  lemma FormatD2ReadsBack(n: int)
    ensures ReadSigned(FormatD2(n)) == n
  {
    var digits := Decimal(Magnitude(n));
    DecimalReadsBack(Magnitude(n));
    if |digits| < 2 {
      LeadingZeroIsNeutral(digits);
    }
    var s := FormatD2(n);
    if n < 0 {
      assert s[1..] == if |digits| < 2 then ['0'] + digits else digits;
    }
  }

  lemma FormatD2Injective(m: int, n: int)
    requires FormatD2(m) == FormatD2(n)
    ensures m == n
  {
    FormatD2ReadsBack(m);
    FormatD2ReadsBack(n);
  }

  /** Text of the wave counter while wave `wave` runs. */
  function WaveLabel(wave: int): string {
    "WAVE " + FormatD2(wave)
  }

  /** Text of the warning shown before wave `wave` starts. */
  function WarningLabel(wave: int): string {
    "\U{A1}WAVE " + FormatD2(wave) + "!"
  }

  /** Text of the kill counter. */
  function KillsLabel(kills: int): string {
    FormatD2(kills)
  }

  /**
   The warning text and the wave counter carry the same rendering of the same
   number, and the number can be read back from either.
   */
  lemma LabelsShowTheirNumber(wave: int)
    ensures WarningLabel(wave) == "\U{A1}" + WaveLabel(wave) + "!"
    ensures ReadSigned(WaveLabel(wave)[5..]) == wave
    ensures ReadSigned(WarningLabel(wave)[6..|WarningLabel(wave)| - 1]) == wave
    ensures ReadSigned(KillsLabel(wave)) == wave
  {
    FormatD2ReadsBack(wave);
    assert WaveLabel(wave)[5..] == FormatD2(wave);
    assert WarningLabel(wave)[6..|WarningLabel(wave)| - 1] == FormatD2(wave);
  }
}
