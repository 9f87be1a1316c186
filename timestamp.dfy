/**
 * The UTC timestamp of a metrics sample: the date-time fields of
 * `datetime.now(timezone.utc)` formatted with `strftime("%Y-%m-%dT%H:%M:%SZ")`.
 * The clock itself is not modelled; the fields are given.
 */
module Timestamp {
  import opened Options

  datatype DateTime = DateTime(year: int, month: int, day: int, hour: int, minute: int, second: int)

  predicate IsLeapYear(year: int) {
    year % 4 == 0 && (year % 100 != 0 || year % 400 == 0)
  }

  function DaysInMonth(year: int, month: int): (n: int)
    requires 1 <= month <= 12
    ensures 28 <= n <= 31
  {
    if month == 2 then (if IsLeapYear(year) then 29 else 28)
    else if month == 4 || month == 6 || month == 9 || month == 11 then 30
    else 31
  }

  /** The range of a Python `datetime` (no leap seconds). */
  predicate Valid(d: DateTime) {
    && 1 <= d.year <= 9999
    && 1 <= d.month <= 12
    && 1 <= d.day <= DaysInMonth(d.year, d.month)
    && 0 <= d.hour < 24
    && 0 <= d.minute < 60
    && 0 <= d.second < 60
  }

  type UtcDateTime = d: DateTime | Valid(d) witness DateTime(1970, 1, 1, 0, 0, 0)

  function Pow10(n: nat): (r: nat)
    ensures r >= 1
  {
    if n == 0 then 1 else 10 * Pow10(n - 1)
  }

  predicate IsDigit(c: char) {
    '0' <= c <= '9'
  }

  predicate AllDigits(s: string) {
    forall i :: 0 <= i < |s| ==> IsDigit(s[i])
  }

  function DigitChar(d: nat): (c: char)
    requires d < 10
    ensures IsDigit(c)
  {
    ('0' as int + d) as char
  }

  function DigitValue(c: char): (d: nat)
    requires IsDigit(c)
    ensures d < 10 && DigitChar(d) == c
  {
    c as int - '0' as int
  }

  /** The last `width` decimal digits of n, padded with leading zeros. */
  function Digits(n: nat, width: nat): (s: string)
    ensures |s| == width && AllDigits(s)
  {
    if width == 0 then [] else Digits(n / 10, width - 1) + [DigitChar(n % 10)]
  }

  /** The number a string of decimal digits denotes. */
  function NumberOf(s: string): (n: nat)
    requires AllDigits(s)
    ensures n < Pow10(|s|)
  {
    if s == [] then 0 else NumberOf(s[..|s| - 1]) * 10 + DigitValue(s[|s| - 1])
  }

  lemma {:induction false} NumberOfDigits(n: nat, width: nat)
    requires n < Pow10(width)
    ensures NumberOf(Digits(n, width)) == n
  {
    if width > 0 {
      var s := Digits(n, width);
      assert s[..|s| - 1] == Digits(n / 10, width - 1);
      assert n / 10 < Pow10(width - 1);
      NumberOfDigits(n / 10, width - 1);
    }
  }

  lemma {:induction false} DigitsOfNumber(s: string)
    requires AllDigits(s)
    ensures Digits(NumberOf(s), |s|) == s
  {
    if s != [] {
      var init, n := s[..|s| - 1], NumberOf(s);
      assert AllDigits(init);
      DigitsOfNumber(init);
      assert n / 10 == NumberOf(init) && n % 10 == DigitValue(s[|s| - 1]);
      assert s == init + [s[|s| - 1]];
    }
  }

  /** `strftime("%Y-%m-%dT%H:%M:%SZ")`: every field zero-padded, the year to four digits. */
  function Format(d: UtcDateTime): (s: string)
    ensures |s| == 20
    ensures s[4] == '-' && s[7] == '-' && s[10] == 'T' && s[13] == ':' && s[16] == ':' && s[19] == 'Z'
    ensures AllDigits(s[0..4]) && AllDigits(s[5..7]) && AllDigits(s[8..10])
    ensures AllDigits(s[11..13]) && AllDigits(s[14..16]) && AllDigits(s[17..19])
  {
    var s := Digits(d.year, 4) + "-" + Digits(d.month, 2) + "-" + Digits(d.day, 2) + "T"
      + Digits(d.hour, 2) + ":" + Digits(d.minute, 2) + ":" + Digits(d.second, 2) + "Z";
    assert s[0..4] == Digits(d.year, 4) && s[5..7] == Digits(d.month, 2) && s[8..10] == Digits(d.day, 2);
    assert s[11..13] == Digits(d.hour, 2) && s[14..16] == Digits(d.minute, 2) && s[17..19] == Digits(d.second, 2);
    s
  }

  /** Whether s has the shape `DDDD-DD-DDTDD:DD:DDZ`, D a decimal digit. */
  predicate WellFormed(s: string) {
    && |s| == 20
    && s[4] == '-' && s[7] == '-' && s[10] == 'T' && s[13] == ':' && s[16] == ':' && s[19] == 'Z'
    && AllDigits(s[0..4]) && AllDigits(s[5..7]) && AllDigits(s[8..10])
    && AllDigits(s[11..13]) && AllDigits(s[14..16]) && AllDigits(s[17..19])
  }

  /** Reads a timestamp back into its fields; None unless it is a well-formed, valid instant. */
  function Parse(s: string): (r: Option<UtcDateTime>)
    ensures r.Some? ==> WellFormed(s)
  {
    if !WellFormed(s) then None
    else
      var d := DateTime(NumberOf(s[0..4]), NumberOf(s[5..7]), NumberOf(s[8..10]),
                        NumberOf(s[11..13]), NumberOf(s[14..16]), NumberOf(s[17..19]));
      if Valid(d) then Some(d) else None
  }

  /** The six digit fields of a formatted timestamp. */
  lemma FormatFields(d: UtcDateTime)
    ensures var s := Format(d);
      && s[0..4] == Digits(d.year, 4) && s[5..7] == Digits(d.month, 2) && s[8..10] == Digits(d.day, 2)
      && s[11..13] == Digits(d.hour, 2) && s[14..16] == Digits(d.minute, 2) && s[17..19] == Digits(d.second, 2)
  {
  }

  /** Two well-formed timestamps with the same digit fields are the same string. */
  lemma WellFormedFieldsEqual(s: string, t: string)
    requires WellFormed(s) && WellFormed(t)
    requires s[0..4] == t[0..4] && s[5..7] == t[5..7] && s[8..10] == t[8..10]
    requires s[11..13] == t[11..13] && s[14..16] == t[14..16] && s[17..19] == t[17..19]
    ensures s == t
  {
    forall i | 0 <= i < 20 ensures s[i] == t[i] {
      if i < 4 { assert s[i] == s[0..4][i]; }
      else if 4 < i < 7 { assert s[i] == s[5..7][i - 5]; }
      else if 7 < i < 10 { assert s[i] == s[8..10][i - 8]; }
      else if 10 < i < 13 { assert s[i] == s[11..13][i - 11]; }
      else if 13 < i < 16 { assert s[i] == s[14..16][i - 14]; }
      else if 16 < i < 19 { assert s[i] == s[17..19][i - 17]; }
    }
  }

  lemma FormatParse(d: UtcDateTime)
    ensures Parse(Format(d)) == Some(d)
  {
    FormatFields(d);
    NumberOfDigits(d.year, 4);
    NumberOfDigits(d.month, 2);
    NumberOfDigits(d.day, 2);
    NumberOfDigits(d.hour, 2);
    NumberOfDigits(d.minute, 2);
    NumberOfDigits(d.second, 2);
  }

  lemma ParseFormat(s: string, d: UtcDateTime)
    requires Parse(s) == Some(d)
    ensures Format(d) == s
  {
    DigitsOfNumber(s[0..4]);
    DigitsOfNumber(s[5..7]);
    DigitsOfNumber(s[8..10]);
    DigitsOfNumber(s[11..13]);
    DigitsOfNumber(s[14..16]);
    DigitsOfNumber(s[17..19]);
    FormatFields(d);
    WellFormedFieldsEqual(Format(d), s);
  }

  /** Two different instants never share a timestamp. */
  lemma FormatInjective(d1: UtcDateTime, d2: UtcDateTime)
    requires Format(d1) == Format(d2)
    ensures d1 == d2
  {
    FormatParse(d1);
    FormatParse(d2);
  }

  lemma FormatExample()
    ensures Format(DateTime(2024, 1, 2, 3, 4, 5)) == "2024-01-02T03:04:05Z"
  {
    var d := DateTime(2024, 1, 2, 3, 4, 5);
    ExampleFields("2024-01-02T03:04:05Z");
    FormatFields(d);
    WellFormedFieldsEqual(Format(d), "2024-01-02T03:04:05Z");
  }

  lemma ExampleFields(t: string)
    requires t == "2024-01-02T03:04:05Z"
    ensures WellFormed(t)
    ensures Digits(2024, 4) == t[0..4] && Digits(1, 2) == t[5..7] && Digits(2, 2) == t[8..10]
    ensures Digits(3, 2) == t[11..13] && Digits(4, 2) == t[14..16] && Digits(5, 2) == t[17..19]
  {
    ExampleWellFormed(t);
    ExampleYear();
    TwoDigits(1);
    TwoDigits(2);
    TwoDigits(3);
    TwoDigits(4);
    TwoDigits(5);
  }

  lemma ExampleWellFormed(t: string)
    requires t == "2024-01-02T03:04:05Z"
    ensures WellFormed(t)
  {
  }

  lemma ExampleYear()
    ensures Digits(2024, 4) == "2024"
  {
    assert Digits(2, 1) == "2";
    assert Digits(20, 2) == "20";
    assert Digits(202, 3) == "202";
  }

  lemma TwoDigits(n: nat)
    requires n < 10
    ensures Digits(n, 2) == ['0', DigitChar(n)]
  {
    assert Digits(n / 10, 1) == [DigitChar(0)];
  }
}
