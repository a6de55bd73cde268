/** A recording timestamp already broken down into calendar fields, and the
    formatting that the Scheme B keys use: Go's date layout "2006/01/02" and
    the hour padded by hand to two digits. */
module Timestamps {
  import opened Strings

  type Month = m: int | 1 <= m <= 12 witness 1
  type Day = d: int | 1 <= d <= 31 witness 1
  type Hour = h: int | 0 <= h < 24
  type Minute = m: int | 0 <= m < 60
  type Second = s: int | 0 <= s < 60

  /** A `time.Time` read in its own location; the subset types carry the
      ranges that `Month()`, `Day()`, `Hour()`, `Minute()` and `Second()` keep. */
  datatype Timestamp = Timestamp(year: int, month: Month, day: Day, hour: Hour, minute: Minute, second: Second)

  /** Layout element "2006": the year's magnitude zero-padded to four digits,
      preceded by '-' for a negative year. */
  function FormatYear(year: int): String
  {
    if year < 0 then "-" + ZeroPad(Decimal(-year), 4) else ZeroPad(Decimal(year), 4)
  }

  /** Layout elements "01" and "02": a number zero-padded to two digits. */
  function TwoDigits(n: nat): String
  {
    ZeroPad(Decimal(n), 2)
  }

  /** The layout "2006/01/02". */
  function FormatDate(t: Timestamp): String
  {
    FormatYear(t.year) + "/" + TwoDigits(t.month) + "/" + TwoDigits(t.day)
  }

  /** The hour string built by hand: a "0" in front of hours below ten, the
      plain decimal rendering otherwise. */
  function HourString(hour: Hour): String
  {
    if hour < 10 then "0" + Decimal(hour) else Decimal(hour)
  }

  /** Every hour renders as exactly two digits that read back as that hour. */
  lemma HourStringRoundTrip(hour: Hour)
    ensures |HourString(hour)| == 2 && AllDigits(HourString(hour))
    ensures ParseDecimal(HourString(hour)) == hour
  {
    ParseDecimalOfDecimal(hour);
    if hour < 10 {
      ParseDecimalLeadingZero(Decimal(hour));
    }
  }

  /** The two cases of the hand-written branch: a leading zero below ten,
      the hour as it is from ten on. */
  lemma HourStringCases(hour: Hour)
    ensures hour < 10 ==> HourString(hour) == ['0', DigitChar(hour)]
    ensures hour >= 10 ==> HourString(hour) == [DigitChar(hour / 10), DigitChar(hour % 10)]
  {
    if hour >= 10 {
      assert Decimal(hour / 10) == [DigitChar(hour / 10)];
    }
  }

  /** The hand-padded hour agrees with the fixed-width rendering the date
      layout uses for months and days. */
  lemma HourStringIsTwoDigits(hour: Hour)
    ensures HourString(hour) == TwoDigits(hour)
  {
    if hour < 10 {
      assert ZeroPad(Decimal(hour), 1) == Decimal(hour);
    }
  }

  /** A number below 100 renders as two digits that read back as itself. */
  lemma TwoDigitsRoundTrip(n: nat)
    requires n < 100
    ensures |TwoDigits(n)| == 2 && AllDigits(TwoDigits(n))
    ensures ParseDecimal(TwoDigits(n)) == n
  {
    PaddedDecimalRoundTrip(n, 2);
  }

  /** A number zero-padded to any width reads back as itself. */
  lemma PaddedDecimalRoundTrip(n: nat, width: nat)
    ensures AllDigits(ZeroPad(Decimal(n), width))
    ensures ParseDecimal(ZeroPad(Decimal(n), width)) == n
  {
    ParseDecimalOfDecimal(n);
    ParseDecimalZeroPad(Decimal(n), width);
  }

  /** A year of the common era below 10000 renders as four digits that read
      back as that year. */
  lemma FormatYearRoundTrip(year: int)
    requires 0 <= year < 10000
    ensures |FormatYear(year)| == 4 && AllDigits(FormatYear(year))
    ensures ParseDecimal(FormatYear(year)) == year
  {
    PaddedDecimalRoundTrip(year, 4);
  }

  /** Removing the sign of a signed digit string leaves its digits. */
  lemma DropSign(digits: String, n: nat)
    requires AllDigits(digits) && ParseDecimal(digits) == n
    ensures AllDigits(("-" + digits)[1..]) && ParseDecimal(("-" + digits)[1..]) == n
  {
    assert ("-" + digits)[1..] == digits;
  }

  /** A negative year keeps its sign and at least four digits. */
  lemma FormatYearNegative(year: int)
    requires year < 0
    ensures |FormatYear(year)| >= 5 && FormatYear(year)[0] == '-'
    ensures AllDigits(FormatYear(year)[1..]) && ParseDecimal(FormatYear(year)[1..]) == -year
  {
    PaddedDecimalRoundTrip(-year, 4);
    DropSign(ZeroPad(Decimal(-year), 4), -year);
  }

  /** Where the fields of a "YYYY/MM/DD" string stand. */
  lemma DateSlices(y: String, m: String, d: String)
    requires |y| == 4 && |m| == 2 && |d| == 2
    ensures var s := y + "/" + m + "/" + d;
      && |s| == 10 && s[4] == '/' && s[7] == '/'
      && s[..4] == y && s[5..7] == m && s[8..] == d
  {
    var s := y + "/" + m + "/" + d;
    assert s[..4] == y;
    assert s[5..7] == m;
    assert s[8..] == d;
  }

  /** For a four-digit year the date is exactly "YYYY/MM/DD", with each field
      reading back as the timestamp's own. */
  lemma FormatDateFields(t: Timestamp)
    requires 0 <= t.year < 10000
    ensures var d := FormatDate(t);
      && |d| == 10 && d[4] == '/' && d[7] == '/'
      && AllDigits(d[..4]) && AllDigits(d[5..7]) && AllDigits(d[8..])
      && ParseDecimal(d[..4]) == t.year
      && ParseDecimal(d[5..7]) == t.month
      && ParseDecimal(d[8..]) == t.day
  {
    FormatYearRoundTrip(t.year);
    TwoDigitsRoundTrip(t.month);
    TwoDigitsRoundTrip(t.day);
    DateSlices(FormatYear(t.year), TwoDigits(t.month), TwoDigits(t.day));
  }
}
