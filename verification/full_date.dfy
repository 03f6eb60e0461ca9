/** The `full-date` production of section 5.6 of RFC 3339 (`YYYY-MM-DD`, the
    `DEFAULT_DATE_FORMAT` of the application), with the day-of-month and
    leap-year limits of section 5.7. */
module FullDate {
  import opened Wrappers
  import opened Calendar

  /** An ASCII decimal digit (RFC 3339 `DIGIT`). */
  predicate IsDigit(c: char) {
    '0' <= c <= '9'
  }

  function DigitValue(c: char): (v: int)
    requires IsDigit(c)
    ensures 0 <= v <= 9
  {
    c as int - '0' as int
  }

  function DigitChar(v: int): (c: char)
    requires 0 <= v <= 9
    ensures IsDigit(c) && DigitValue(c) == v
  {
    (v + '0' as int) as char
  }

  /** Four digits, a hyphen, two digits, a hyphen, two digits. */
  predicate HasFullDateShape(s: string) {
    && |s| == 10
    && IsDigit(s[0]) && IsDigit(s[1]) && IsDigit(s[2]) && IsDigit(s[3])
    && s[4] == '-'
    && IsDigit(s[5]) && IsDigit(s[6])
    && s[7] == '-'
    && IsDigit(s[8]) && IsDigit(s[9])
  }

  /** The (year, month, day) numbers written in a string of full-date shape. */
  function FieldsOf(s: string): (d: Date)
    requires HasFullDateShape(s)
    ensures 0 <= d.year <= 9999 && 0 <= d.month <= 99 && 0 <= d.day <= 99
  {
    Date(
      1000 * DigitValue(s[0]) + 100 * DigitValue(s[1]) + 10 * DigitValue(s[2]) + DigitValue(s[3]),
      10 * DigitValue(s[5]) + DigitValue(s[6]),
      10 * DigitValue(s[8]) + DigitValue(s[9]))
  }

  /** `s` is an RFC 3339 full-date: the right shape, a month of 01-12 and a
      day within that month's length in that year. */
  predicate IsFullDate(s: string) {
    HasFullDateShape(s) && IsValid(FieldsOf(s))
  }

  /** Strict parser for full-date strings. */
  function ParseFullDate(s: string): (r: Option<Date>)
    ensures r.Some? <==> IsFullDate(s)
    ensures r.Some? ==> IsValid(r.value) && 0 <= r.value.year <= 9999
  {
    if IsFullDate(s) then Some(FieldsOf(s)) else None
  }

  /** Dates that fit the four-digit year and two-digit month and day fields. */
  predicate Formattable(d: Date) {
    0 <= d.year <= 9999 && 0 <= d.month <= 99 && 0 <= d.day <= 99
  }

  /** Writes a date in the `YYYY-MM-DD` format, zero-padded: the dayjs format
      string `Utils.DEFAULT_DATE_FORMAT` names. */
  function FormatFullDate(d: Date): (s: string)
    requires Formattable(d)
    ensures HasFullDateShape(s)
  {
    var hundreds := d.year / 10 / 10;
    [ DigitChar(hundreds / 10), DigitChar(hundreds % 10), DigitChar(d.year / 10 % 10), DigitChar(d.year % 10),
      '-', DigitChar(d.month / 10), DigitChar(d.month % 10),
      '-', DigitChar(d.day / 10), DigitChar(d.day % 10) ]
  }

  /** The digits `FormatFullDate` writes for a year denote that year. */
  lemma FourDigits(y: int)
    requires 0 <= y <= 9999
    ensures 1000 * (y / 10 / 10 / 10) + 100 * (y / 10 / 10 % 10) + 10 * (y / 10 % 10) + y % 10 == y
  {
    var tens := y / 10;
    var hundreds := tens / 10;
    assert y == 10 * tens + y % 10;
    assert tens == 10 * hundreds + tens % 10;
    assert hundreds == 10 * (hundreds / 10) + hundreds % 10;
  }

  /** The digits of a four-digit number are the ones it was built from. */
  lemma DigitsOfFour(a: int, b: int, c: int, e: int)
    requires 0 <= a <= 9 && 0 <= b <= 9 && 0 <= c <= 9 && 0 <= e <= 9
    ensures var y := 1000 * a + 100 * b + 10 * c + e;
      y / 10 / 10 / 10 == a && y / 10 / 10 % 10 == b && y / 10 % 10 == c && y % 10 == e
  {
    var y := 1000 * a + 100 * b + 10 * c + e;
    assert y / 10 == 100 * a + 10 * b + c;
    assert y / 10 / 10 == 10 * a + b;
  }

  /** Formatting and then reading the fields back gives the same date. */
  lemma {:induction false} FieldsOfFormat(d: Date)
    requires Formattable(d)
    ensures FieldsOf(FormatFullDate(d)) == d
  {
    FourDigits(d.year);
  }

  /** Round trip: a valid formattable date is written as a full-date that
      parses back to it. */
  lemma {:induction false} ParseFormat(d: Date)
    requires IsValid(d) && 0 <= d.year <= 9999
    ensures IsFullDate(FormatFullDate(d))
    ensures ParseFullDate(FormatFullDate(d)) == Some(d)
  {
    FieldsOfFormat(d);
  }

  /** Round trip the other way: a full-date is the canonical text of the date
      it parses to, so the accepted strings and the formatted dates coincide. */
  lemma {:induction false} FormatParse(s: string)
    requires IsFullDate(s)
    ensures FormatFullDate(ParseFullDate(s).value) == s
  {
    var d := FieldsOf(s);
    DigitsOfFour(DigitValue(s[0]), DigitValue(s[1]), DigitValue(s[2]), DigitValue(s[3]));
    DigitsOfTwo(DigitValue(s[5]), DigitValue(s[6]));
    DigitsOfTwo(DigitValue(s[8]), DigitValue(s[9]));
    forall i | 0 <= i < 10 && i != 4 && i != 7
      ensures DigitChar(DigitValue(s[i])) == s[i]
    {
    }
    var t := FormatFullDate(d);
    assert t == [s[0], s[1], s[2], s[3], s[4], s[5], s[6], s[7], s[8], s[9]];
  }

  /** The digits of a two-digit number are the ones it was built from. */
  lemma DigitsOfTwo(a: int, b: int)
    requires 0 <= a <= 9 && 0 <= b <= 9
    ensures (10 * a + b) / 10 == a && (10 * a + b) % 10 == b
  {
  }

  /** February 29 is a full-date exactly in Gregorian leap years. */
  lemma FebruaryTwentyNinth(s: string)
    requires HasFullDateShape(s) && s[4..] == "-02-29"
    ensures IsFullDate(s) <==> IsLeapYear(FieldsOf(s).year)
  {
    assert s[5] == '0' && s[6] == '2' && s[8] == '2' && s[9] == '9' by {
      assert s[5] == s[4..][1] && s[6] == s[4..][2] && s[8] == s[4..][4] && s[9] == s[4..][5];
    }
  }

  /** Sample full-dates, including leap days of 2024 and 2000. */
  lemma AcceptedSamples()
    ensures IsFullDate("2023-01-01") && IsFullDate("2024-02-29") && IsFullDate("2000-02-29")
  {
  }

  /** Day-of-month limits: `2023-02-30`, `2023-04-31` and the leap day of the
      common years 2023 and 1900 are rejected. */
  lemma DayLimitSamples()
    ensures !IsFullDate("2023-02-30") && !IsFullDate("2023-04-31")
    ensures !IsFullDate("2023-02-29") && !IsFullDate("1900-02-29")
  {
  }

  /** Month limits and shape: month 13 and month 00, a one-digit month, the
      empty string and `invalid-date` are rejected. */
  lemma ShapeSamples()
    ensures !IsFullDate("2023-13-01") && !IsFullDate("2023-00-10")
    ensures !IsFullDate("invalid-date") && !IsFullDate("") && !IsFullDate("2023-1-01")
  {
  }
}
