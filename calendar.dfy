/**
 * The proleptic Gregorian calendar as Go's `time` package uses it: leap
 * years, day of year (`Time.YearDay`), a running day count used to compare
 * instants, and the `2006-01-02` layout, which is the full-date form of
 * section 5.6 of RFC 3339 with the day checked against the month's length.
 * Time zones are not modelled: every date and instant is in one zone.
 */
module Calendar {
  import opened Wrappers

  /** A calendar date; `ValidDate` says when it names a real day. */
  datatype Date = Date(year: int, month: int, day: int)

  /**
   * A point in time: a date, the second within that day and the
   * millisecond within that second (the precision of a stored BSON date).
   */
  datatype Instant = Instant(date: Date, second: int, millisecond: int)

  const SecondsPerDay: int := 86400

  predicate IsLeapYear(y: int) {
    y % 4 == 0 && (y % 100 != 0 || y % 400 == 0)
  }

  function YearLength(leap: bool): int {
    if leap then 366 else 365
  }

  function DaysInMonth(leap: bool, m: int): (n: int)
    requires 1 <= m <= 12
    ensures 28 <= n <= 31
  {
    if m == 2 then (if leap then 29 else 28)
    else if m == 4 || m == 6 || m == 9 || m == 11 then 30
    else 31
  }

  /** Days of the year that lie in the months before month m (m = 13 gives the whole year). */
  function DaysBeforeMonth(leap: bool, m: int): nat
    requires 1 <= m <= 13
  {
    if m == 1 then 0 else DaysBeforeMonth(leap, m - 1) + DaysInMonth(leap, m - 1)
  }

  /** Years 0000 to 9999, the range the four-digit layout can express. */
  predicate ValidDate(d: Date) {
    0 <= d.year <= 9999 && 1 <= d.month <= 12 && 1 <= d.day <= DaysInMonth(IsLeapYear(d.year), d.month)
  }

  predicate ValidInstant(t: Instant) {
    ValidDate(t.date) && 0 <= t.second < SecondsPerDay && 0 <= t.millisecond < 1000
  }

  /** Go's `YearDay`: 1 for January 1st, up to 365 or 366 for December 31st. */
  function DayOfYear(d: Date): (n: int)
    requires ValidDate(d)
    ensures 1 <= n <= YearLength(IsLeapYear(d.year))
  {
    MonthsFitInYear(IsLeapYear(d.year), d.month, 13);
    MonthsMakeYear(IsLeapYear(d.year));
    DaysBeforeMonth(IsLeapYear(d.year), d.month) + d.day
  }

  /** Days from 0000-01-01 to January 1st of year y. */
  function DaysBeforeYear(y: nat): nat {
    if y == 0 then 0 else DaysBeforeYear(y - 1) + YearLength(IsLeapYear(y - 1))
  }

  /** Days from 0000-01-01 to d: the day count that orders instants. */
  function DayNumber(d: Date): nat
    requires ValidDate(d)
  {
    DaysBeforeYear(d.year) + DayOfYear(d) - 1
  }

  /** Midnight at the start of d, in seconds since 0000-01-01T00:00:00. */
  function StartOfDay(d: Date): int
    requires ValidDate(d)
  {
    DayNumber(d) * SecondsPerDay
  }

  /** An instant in milliseconds since 0000-01-01T00:00:00, as the store compares them. */
  function Millis(t: Instant): int
    requires ValidInstant(t)
  {
    (StartOfDay(t.date) + t.second) * 1000 + t.millisecond
  }

  /** Calendar order: year first, then month, then day. */
  predicate Before(a: Date, b: Date) {
    a.year < b.year
    || (a.year == b.year && a.month < b.month)
    || (a.year == b.year && a.month == b.month && a.day < b.day)
  }

  predicate NotAfter(a: Date, b: Date) {
    a == b || Before(a, b)
  }

  lemma {:induction false} MonthsFitInYear(leap: bool, m: int, k: int)
    requires 1 <= m <= 12 && m < k <= 13
    ensures DaysBeforeMonth(leap, m) + DaysInMonth(leap, m) <= DaysBeforeMonth(leap, k)
    decreases k
  {
    if k > m + 1 {
      MonthsFitInYear(leap, m, k - 1);
    }
  }

  /** The twelve months add up to the length of the year. */
  lemma {:induction false} MonthsMakeYear(leap: bool)
    ensures DaysBeforeMonth(leap, 13) == YearLength(leap)
  {
    var feb := if leap then 29 else 28;
    assert DaysBeforeMonth(leap, 2) == 31;
    assert DaysBeforeMonth(leap, 3) == 31 + feb;
    assert DaysBeforeMonth(leap, 4) == 62 + feb;
    assert DaysBeforeMonth(leap, 5) == 92 + feb;
    assert DaysBeforeMonth(leap, 6) == 123 + feb;
    assert DaysBeforeMonth(leap, 7) == 153 + feb;
    assert DaysBeforeMonth(leap, 8) == 184 + feb;
    assert DaysBeforeMonth(leap, 9) == 215 + feb;
    assert DaysBeforeMonth(leap, 10) == 245 + feb;
    assert DaysBeforeMonth(leap, 11) == 276 + feb;
    assert DaysBeforeMonth(leap, 12) == 306 + feb;
  }

  /** Within one year, calendar order and day-of-year order agree. */
  lemma {:induction false} DayOfYearOrder(a: Date, b: Date)
    requires ValidDate(a) && ValidDate(b) && a.year == b.year
    ensures Before(a, b) <==> DayOfYear(a) < DayOfYear(b)
  {
    var leap := IsLeapYear(a.year);
    if a.month < b.month {
      MonthsFitInYear(leap, a.month, b.month);
    } else if b.month < a.month {
      MonthsFitInYear(leap, b.month, a.month);
    }
  }

  lemma {:induction false} DaysBeforeYearGrows(y: nat, z: nat)
    requires y < z
    ensures DaysBeforeYear(y) + YearLength(IsLeapYear(y)) <= DaysBeforeYear(z)
    decreases z
  {
    if z > y + 1 {
      DaysBeforeYearGrows(y, z - 1);
    }
  }

  /** Calendar order and day-number order agree on valid dates. */
  lemma {:induction false} DayNumberOrder(a: Date, b: Date)
    requires ValidDate(a) && ValidDate(b)
    ensures Before(a, b) <==> DayNumber(a) < DayNumber(b)
  {
    if a.year == b.year {
      DayOfYearOrder(a, b);
    } else if a.year < b.year {
      DaysBeforeYearGrows(a.year, b.year);
    } else {
      DaysBeforeYearGrows(b.year, a.year);
    }
  }

  /** Distinct valid dates have distinct day numbers. */
  lemma {:induction false} DayNumberInjective(a: Date, b: Date)
    requires ValidDate(a) && ValidDate(b)
    ensures a == b <==> DayNumber(a) == DayNumber(b)
  {
    DayNumberOrder(a, b);
    DayNumberOrder(b, a);
  }

  // ----- The 2006-01-02 layout -----

  predicate IsDigit(c: char) {
    '0' <= c <= '9'
  }

  function DigitChar(n: int): (c: char)
    requires 0 <= n <= 9
    ensures IsDigit(c) && c as int - '0' as int == n
  {
    ('0' as int + n) as char
  }

  /** The value of a run of decimal digits, most significant first. */
  function DecimalValue(s: string): (n: nat)
    requires forall i :: 0 <= i < |s| ==> IsDigit(s[i])
  {
    if |s| == 0 then 0
    else
      var last := s[|s| - 1];
      assert IsDigit(last);
      DecimalValue(s[..|s| - 1]) * 10 + (last as int - '0' as int)
  }

  function TwoDigits(n: int): (s: string)
    requires 0 <= n <= 99
  {
    [DigitChar(n / 10), DigitChar(n % 10)]
  }

  function FourDigits(n: int): (s: string)
    requires 0 <= n <= 9999
  {
    TwoDigits(n / 100) + TwoDigits(n % 100)
  }

  /** Go's `t.Format("2006-01-02")`: zero-padded year, month and day joined by '-'. */
  function FormatDate(d: Date): (s: string)
    requires ValidDate(d)
    ensures |s| == 10 && s[4] == '-' && s[7] == '-'
  {
    FourDigits(d.year) + "-" + TwoDigits(d.month) + "-" + TwoDigits(d.day)
  }

  /** The shape of the layout: four digits, '-', two digits, '-', two digits. */
  predicate DateShaped(s: string) {
    |s| == 10 && s[4] == '-' && s[7] == '-'
    && (forall i :: 0 <= i < 4 ==> IsDigit(s[i]))
    && IsDigit(s[5]) && IsDigit(s[6]) && IsDigit(s[8]) && IsDigit(s[9])
  }

  /**
   * Go's `time.Parse("2006-01-02", s)`: the text must have the exact shape,
   * the month must lie in 1..12 and the day must exist in that month of
   * that year; anything else is a parse error.
   */
  function ParseDate(s: string): (r: Option<Date>)
    ensures r.Some? ==> ValidDate(r.value)
  {
    if !DateShaped(s) then None
    else
      DecimalOfFour(s[..4]);
      var d := Date(DecimalValue(s[..4]), DecimalValue(s[5..7]), DecimalValue(s[8..10]));
      if 1 <= d.month <= 12 && 1 <= d.day <= DaysInMonth(IsLeapYear(d.year), d.month) then Some(d)
      else None
  }

  lemma {:induction false} DecimalOfFour(s: string)
    requires |s| == 4 && forall i :: 0 <= i < 4 ==> IsDigit(s[i])
    ensures DecimalValue(s) == (s[0] as int - '0' as int) * 1000 + (s[1] as int - '0' as int) * 100
                               + (s[2] as int - '0' as int) * 10 + (s[3] as int - '0' as int)
  {
    assert DecimalValue(s[..1]) == s[0] as int - '0' as int;
    assert DecimalValue(s[..2]) == DecimalValue(s[..2][..1]) * 10 + (s[1] as int - '0' as int);
    assert s[..2][..1] == s[..1];
    assert DecimalValue(s[..3]) == DecimalValue(s[..3][..2]) * 10 + (s[2] as int - '0' as int);
    assert s[..3][..2] == s[..2];
    assert s[..4] == s;
    assert s[..4][..3] == s[..3];
  }

  lemma {:induction false} DecimalOfTwo(s: string)
    requires |s| == 2 && IsDigit(s[0]) && IsDigit(s[1])
    ensures DecimalValue(s) == (s[0] as int - '0' as int) * 10 + (s[1] as int - '0' as int)
  {
    assert DecimalValue(s[..1]) == s[0] as int - '0' as int;
    assert s[..2] == s;
    assert s[..2][..1] == s[..1];
  }

  lemma {:induction false} FourDigitsValue(n: int)
    requires 0 <= n <= 9999
    ensures DecimalValue(FourDigits(n)) == n
  {
    var hi, lo := n / 100, n % 100;
    var s := FourDigits(n);
    assert s[0] == DigitChar(hi / 10) && s[1] == DigitChar(hi % 10);
    assert s[2] == DigitChar(lo / 10) && s[3] == DigitChar(lo % 10);
    DecimalOfFour(s);
    assert DecimalValue(s) == (hi / 10 * 10 + hi % 10) * 100 + (lo / 10 * 10 + lo % 10);
  }

  lemma {:induction false} TwoDigitsValue(n: int)
    requires 0 <= n <= 99
    ensures DecimalValue(TwoDigits(n)) == n
  {
    DecimalOfTwo(TwoDigits(n));
  }

  /** Formatting a valid date and parsing the text back gives the same date. */
  lemma {:induction false} ParseFormatRoundTrip(d: Date)
    requires ValidDate(d)
    ensures ParseDate(FormatDate(d)) == Some(d)
  {
    var s := FormatDate(d);
    assert s[..4] == FourDigits(d.year);
    assert s[5..7] == TwoDigits(d.month);
    assert s[8..10] == TwoDigits(d.day);
    FourDigitsValue(d.year);
    TwoDigitsValue(d.month);
    TwoDigitsValue(d.day);
  }

  lemma {:induction false} FourDigitsOfValue(s: string)
    requires |s| == 4 && forall i :: 0 <= i < 4 ==> IsDigit(s[i])
    ensures DecimalValue(s) <= 9999 && FourDigits(DecimalValue(s)) == s
  {
    DecimalOfFour(s);
    var a, b, c, e := s[0] as int - '0' as int, s[1] as int - '0' as int, s[2] as int - '0' as int, s[3] as int - '0' as int;
    var n := DecimalValue(s);
    QuotientBy100(10 * a + b, 10 * c + e);
    assert n / 100 == 10 * a + b && n % 100 == 10 * c + e;
    var front, back := s[..2], s[2..];
    assert front[0] == s[0] && front[1] == s[1] && back[0] == s[2] && back[1] == s[3];
    DecimalOfTwo(front);
    DecimalOfTwo(back);
    TwoDigitsOfValue(front);
    TwoDigitsOfValue(back);
    assert s == front + back;
  }

  /** Division by a hundred recovers quotient and remainder. */
  lemma {:induction false} QuotientBy100(q: int, r: int)
    requires 0 <= r < 100
    ensures (q * 100 + r) / 100 == q && (q * 100 + r) % 100 == r
  {
  }

  lemma {:induction false} TwoDigitsOfValue(s: string)
    requires |s| == 2 && IsDigit(s[0]) && IsDigit(s[1])
    ensures DecimalValue(s) <= 99 && TwoDigits(DecimalValue(s)) == s
  {
    DecimalOfTwo(s);
  }

  /** Every accepted text is the canonical spelling of the date it denotes. */
  lemma {:induction false} FormatParseRoundTrip(s: string)
    requires ParseDate(s).Some?
    ensures FormatDate(ParseDate(s).value) == s
  {
    FourDigitsOfValue(s[..4]);
    TwoDigitsOfValue(s[5..7]);
    TwoDigitsOfValue(s[8..10]);
    assert s == s[..4] + "-" + s[5..7] + "-" + s[8..10];
  }
}
