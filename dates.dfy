/** Calendar dates as the dashboard uses them through `Temporal.PlainDate`:
    proleptic-Gregorian ISO dates, compared field by field, with the day
    arithmetic (`subtract`, `until`, `dayOfWeek`) and the year-month
    projection that the bucketing needs.  `DayNumber` numbers the days
    consecutively (day 0 is 0000-01-01) and is the integer day model that
    every arithmetic property is stated against. */
module Dates {
  import opened Wrappers

  /** The ISO fields of a plain date. */
  datatype Date = Date(year: int, month: int, day: int)

  /** Gregorian leap-year rule (section 5.7 of RFC 3339). */
  predicate IsLeapYear(year: int) {
    year % 4 == 0 && (year % 100 != 0 || year % 400 == 0)
  }

  /** Day-of-month limits (section 5.7 of RFC 3339). */
  function DaysInMonth(year: int, month: int): (n: int)
    requires 1 <= month <= 12
    ensures 28 <= n <= 31
    ensures month == 2 ==> (n == 29 <==> IsLeapYear(year))
  {
    if month == 2 then (if IsLeapYear(year) then 29 else 28)
    else if month == 4 || month == 6 || month == 9 || month == 11 then 30
    else 31
  }

  predicate ValidDate(d: Date) {
    1 <= d.month <= 12 && 1 <= d.day <= DaysInMonth(d.year, d.month)
  }

  /** A `Temporal.PlainDate` always holds a valid ISO date. */
  type PlainDate = d: Date | ValidDate(d) witness Date(1970, 1, 1)

  function YearLength(year: int): int {
    if IsLeapYear(year) then 366 else 365
  }

  /** Days of `year` that precede the first of `month` (month 13 = whole year). */
  function DaysBeforeMonth(year: int, month: int): int
    requires 1 <= month <= 13
    decreases month
  {
    if month == 1 then 0 else DaysBeforeMonth(year, month - 1) + DaysInMonth(year, month - 1)
  }

  /** Number of leap years in [0, year) (negative for negative years). */
  function LeapYearsBefore(year: int): int {
    (year + 3) / 4 - (year + 99) / 100 + (year + 399) / 400
  }

  function DaysBeforeYear(year: int): int {
    365 * year + LeapYearsBefore(year)
  }

  /** Consecutive day number; 0000-01-01 is day 0. */
  function DayNumber(d: PlainDate): int {
    DaysBeforeYear(d.year) + DaysBeforeMonth(d.year, d.month) + d.day - 1
  }

  /** `Temporal.PlainDate.compare`: -1, 0 or 1, comparing year, month, day. */
  function Compare(a: Date, b: Date): (c: int)
    ensures -1 <= c <= 1
    ensures c == 0 <==> a == b
  {
    if a.year != b.year then (if a.year < b.year then -1 else 1)
    else if a.month != b.month then (if a.month < b.month then -1 else 1)
    else if a.day != b.day then (if a.day < b.day then -1 else 1)
    else 0
  }

  predicate Before(a: Date, b: Date) {
    Compare(a, b) < 0
  }

  lemma CompareAntisymmetric(a: Date, b: Date)
    ensures Compare(a, b) == -Compare(b, a)
  {
  }

  lemma LeapYearsStep(year: int)
    ensures LeapYearsBefore(year + 1) == LeapYearsBefore(year) + (if IsLeapYear(year) then 1 else 0)
  {
    CeilingStep4(year);
    CeilingStep100(year);
    CeilingStep400(year);
    MultipleOf400(year);
    MultipleOf100(year);
    assert LeapYearsBefore(year + 1) - LeapYearsBefore(year)
      == ((year + 4) / 4 - (year + 3) / 4) - ((year + 100) / 100 - (year + 99) / 100)
         + ((year + 400) / 400 - (year + 399) / 400);
  }

  lemma MultipleOf400(y: int)
    ensures y % 400 == 0 ==> y % 100 == 0
  {
    if y % 400 == 0 {
      var q := y / 400;
      assert y == 100 * (4 * q);
    }
  }

  lemma MultipleOf100(y: int)
    ensures y % 100 == 0 ==> y % 4 == 0
  {
    if y % 100 == 0 {
      var q := y / 100;
      assert y == 4 * (25 * q);
    }
  }

  /** `(y + m - 1) / m` grows by one exactly when `y` is a multiple of `m`. */
  lemma CeilingStep4(y: int)
    ensures (y + 4) / 4 - (y + 3) / 4 == (if y % 4 == 0 then 1 else 0)
  {
    var q, r := y / 4, y % 4;
    assert y == 4 * q + r;
  }

  lemma CeilingStep100(y: int)
    ensures (y + 100) / 100 - (y + 99) / 100 == (if y % 100 == 0 then 1 else 0)
  {
    var q, r := y / 100, y % 100;
    assert y == 100 * q + r;
  }

  lemma CeilingStep400(y: int)
    ensures (y + 400) / 400 - (y + 399) / 400 == (if y % 400 == 0 then 1 else 0)
  {
    var q, r := y / 400, y % 400;
    assert y == 400 * q + r;
  }

  lemma DaysBeforeYearStep(year: int)
    ensures DaysBeforeYear(year + 1) == DaysBeforeYear(year) + YearLength(year)
  {
    LeapYearsStep(year);
  }

  lemma WholeYear(year: int)
    ensures DaysBeforeMonth(year, 13) == YearLength(year)
  {
    assert DaysBeforeMonth(year, 3) == 59 + (if IsLeapYear(year) then 1 else 0);
    assert DaysBeforeMonth(year, 7) == 181 + (if IsLeapYear(year) then 1 else 0);
    assert DaysBeforeMonth(year, 10) == 273 + (if IsLeapYear(year) then 1 else 0);
  }

  lemma {:induction false} DaysBeforeMonthGrows(year: int, m1: int, m2: int)
    requires 1 <= m1 < m2 <= 13
    ensures DaysBeforeMonth(year, m1) + DaysInMonth(year, m1) <= DaysBeforeMonth(year, m2)
    decreases m2
  {
    if m2 > m1 + 1 {
      DaysBeforeMonthGrows(year, m1, m2 - 1);
    }
  }

  lemma {:induction false} DaysBeforeYearGrows(y1: int, y2: int)
    requires y1 < y2
    ensures DaysBeforeYear(y1) + YearLength(y1) <= DaysBeforeYear(y2)
    decreases y2 - y1
  {
    DaysBeforeYearStep(y2 - 1);
    if y2 > y1 + 1 {
      DaysBeforeYearGrows(y1, y2 - 1);
    }
  }

  /** A date's number lies within its own year. */
  lemma DayNumberInYear(d: PlainDate)
    ensures DaysBeforeYear(d.year) <= DayNumber(d) < DaysBeforeYear(d.year) + YearLength(d.year)
  {
    WholeYear(d.year);
    if d.month < 12 {
      DaysBeforeMonthGrows(d.year, d.month, 13);
    }
  }

  lemma DayNumberMonotone(a: PlainDate, b: PlainDate)
    requires Before(a, b)
    ensures DayNumber(a) < DayNumber(b)
  {
    if a.year < b.year {
      DayNumberInYear(a);
      DayNumberInYear(b);
      DaysBeforeYearGrows(a.year, b.year);
    } else if a.month < b.month {
      DaysBeforeMonthGrows(a.year, a.month, b.month);
    }
  }

  /** Field-wise comparison is exactly comparison of day numbers. */
  lemma CompareIsDayNumberOrder(a: PlainDate, b: PlainDate)
    ensures Compare(a, b) < 0 <==> DayNumber(a) < DayNumber(b)
    ensures Compare(a, b) == 0 <==> DayNumber(a) == DayNumber(b)
    ensures Compare(a, b) > 0 <==> DayNumber(a) > DayNumber(b)
  {
    if Compare(a, b) < 0 {
      DayNumberMonotone(a, b);
    } else if Compare(a, b) > 0 {
      DayNumberMonotone(b, a);
    }
  }

  lemma DayNumberInjective(a: PlainDate, b: PlainDate)
    requires DayNumber(a) == DayNumber(b)
    ensures a == b
  {
    CompareIsDayNumberOrder(a, b);
  }

  /** `Before` is a strict total order on plain dates. */
  lemma BeforeTransitive(a: Date, b: Date, c: Date)
    requires Before(a, b) && Before(b, c)
    ensures Before(a, c)
  {
  }

  /** The day before `d`. */
  function PrevDay(d: PlainDate): (r: PlainDate)
    ensures DayNumber(r) == DayNumber(d) - 1
  {
    if d.day > 1 then
      Date(d.year, d.month, d.day - 1)
    else if d.month > 1 then
      MonthEndBefore(d.year, d.month);
      Date(d.year, d.month - 1, DaysInMonth(d.year, d.month - 1))
    else
      YearEndBefore(d.year);
      Date(d.year - 1, 12, 31)
  }

  lemma MonthEndBefore(year: int, month: int)
    requires 1 < month <= 12
    ensures DayNumber(Date(year, month - 1, DaysInMonth(year, month - 1))) == DayNumber(Date(year, month, 1)) - 1
  {
  }

  lemma YearEndBefore(year: int)
    ensures DayNumber(Date(year - 1, 12, 31)) == DayNumber(Date(year, 1, 1)) - 1
  {
    WholeYear(year - 1);
    DaysBeforeYearStep(year - 1);
  }

  /** `date.subtract({ days: n })`. */
  function SubtractDays(d: PlainDate, n: nat): (r: PlainDate)
    ensures DayNumber(r) == DayNumber(d) - n
    decreases n
  {
    if n == 0 then d else SubtractDays(PrevDay(d), n - 1)
  }

  /** The weekday of day number `n` (day 0, 0000-01-01, was a Saturday). */
  function Weekday(n: int): (w: int)
    ensures 1 <= w <= 7
  {
    (n + 5) % 7 + 1
  }

  /** `date.dayOfWeek`: 1 = Monday .. 7 = Sunday. */
  function DayOfWeek(d: PlainDate): (w: int)
    ensures 1 <= w <= 7
  {
    Weekday(DayNumber(d))
  }

  /** Index of the Monday-to-Sunday week that contains `d`. */
  function WeekIndex(d: PlainDate): int {
    (DayNumber(d) + 5) / 7
  }

  /** The weekly bucket key: `date.subtract({ days: date.dayOfWeek })`. */
  function WeekStart(d: PlainDate): PlainDate {
    SubtractDays(d, DayOfWeek(d))
  }

  /** The arithmetic behind the weekly key, on the day number `n` alone. */
  lemma WeekArithmetic(n: int, k: int)
    requires k == Weekday(n)
    ensures Weekday(n - k) == 7
    ensures n - 7 <= n - k <= n - 1
    ensures n - k == 7 * ((n + 5) / 7) - 6
  {
    var q, r := (n + 5) / 7, (n + 5) % 7;
    assert n + 5 == 7 * q + r;
    assert n - k + 5 == 7 * q - 1;
    assert (7 * q - 1) % 7 == 6;
  }

  lemma SundayKey(w: PlainDate, n: int, k: int)
    requires k == Weekday(n) && DayNumber(w) == n - k
    ensures DayOfWeek(w) == 7
    ensures n - 7 <= DayNumber(w) <= n - 1
    ensures DayNumber(w) == 7 * ((n + 5) / 7) - 6
  {
    WeekArithmetic(n, k);
  }

  lemma WeekStartIsPreviousSunday(d: PlainDate)
    ensures DayOfWeek(WeekStart(d)) == 7
    ensures DayNumber(d) - 7 <= DayNumber(WeekStart(d)) <= DayNumber(d) - 1
    ensures DayNumber(WeekStart(d)) == 7 * WeekIndex(d) - 6
  {
    var w := WeekStart(d);
    assert DayNumber(w) == DayNumber(d) - DayOfWeek(d);
    SundayKey(w, DayNumber(d), DayOfWeek(d));
  }

  /** Two days share a weekly key exactly when they lie in the same
      Monday-to-Sunday week. */
  lemma SameWeekStart(a: PlainDate, b: PlainDate)
    ensures WeekStart(a) == WeekStart(b) <==> WeekIndex(a) == WeekIndex(b)
  {
    WeekStartIsPreviousSunday(a);
    WeekStartIsPreviousSunday(b);
    if WeekIndex(a) == WeekIndex(b) {
      DayNumberInjective(WeekStart(a), WeekStart(b));
    }
  }

  /** Weekly keys never run backwards as the day advances. */
  lemma WeekStartMonotone(a: PlainDate, b: PlainDate)
    requires !Before(b, a)
    ensures !Before(WeekStart(b), WeekStart(a))
  {
    CompareIsDayNumberOrder(a, b);
    WeekStartIsPreviousSunday(a);
    WeekStartIsPreviousSunday(b);
    DivMonotone(DayNumber(a) + 5, DayNumber(b) + 5);
    assert WeekIndex(a) <= WeekIndex(b);
    assert DayNumber(WeekStart(a)) <= DayNumber(WeekStart(b));
    CompareIsDayNumberOrder(WeekStart(a), WeekStart(b));
  }

  lemma DivMonotone(x: int, y: int)
    requires x <= y
    ensures x / 7 <= y / 7
  {
  }

  /** 2021-01-04 is a Monday and 2021-01-10 the Sunday that ends its week:
      the day numbering agrees with the real calendar. */
  lemma WeekdayAnchor()
    ensures DayOfWeek(Date(2021, 1, 4)) == 1
    ensures DayOfWeek(Date(2021, 1, 10)) == 7
    ensures WeekStart(Date(2021, 1, 6)) == Date(2021, 1, 3)
  {
    assert DayNumber(Date(2021, 1, 4)) == 738159;
    var w := Date(2021, 1, 6);
    assert DayOfWeek(w) == 3;
    WeekStartIsPreviousSunday(w);
    assert DayNumber(Date(2021, 1, 3)) == DayNumber(WeekStart(w));
    DayNumberInjective(Date(2021, 1, 3), WeekStart(w));
  }

  /** `Temporal.PlainYearMonth`. */
  datatype YearMonth = YearMonth(year: int, month: int)

  predicate YearMonthBefore(p: YearMonth, q: YearMonth) {
    p.year < q.year || (p.year == q.year && p.month < q.month)
  }

  /** `Temporal.PlainYearMonth.from(date)`: the monthly bucket key. */
  function MonthOf(d: PlainDate): (r: YearMonth)
    ensures r.year == d.year && r.month == d.month && 1 <= r.month <= 12
  {
    YearMonth(d.year, d.month)
  }

  /** `a.until(b, { largestUnit: "days" }).days`. */
  function DaysUntil(a: PlainDate, b: PlainDate): (n: int)
    ensures n == DayNumber(b) - DayNumber(a)
    ensures n == 0 <==> a == b
    ensures n > 0 <==> Before(a, b)
  {
    CompareIsDayNumberOrder(a, b);
    DayNumber(b) - DayNumber(a)
  }

  /** `until` undoes `subtract`: from n days back to the date is n days. */
  lemma UntilSubtract(d: PlainDate, n: nat)
    ensures DaysUntil(SubtractDays(d, n), d) == n
    ensures DaysUntil(d, SubtractDays(d, n)) == -(n as int)
  {
  }

  // ----- RFC 3339 full-date text (date-fullyear "-" date-month "-" date-mday) -----

  predicate IsDigit(c: char) {
    '0' <= c <= '9'
  }

  function DigitValue(c: char): int
    requires IsDigit(c)
  {
    c as int - '0' as int
  }

  function DigitChar(n: int): (c: char)
    requires 0 <= n <= 9
    ensures IsDigit(c) && DigitValue(c) == n
  {
    ('0' as int + n) as char
  }

  predicate IsFullDateShape(s: string) {
    |s| == 10 && s[4] == '-' && s[7] == '-' &&
    forall i :: 0 <= i < 10 && i != 4 && i != 7 ==> IsDigit(s[i])
  }

  /** The value of the decimal digits s[i], s[i+1]. */
  function Read2(s: string, i: nat): int
    requires i + 2 <= |s| && IsDigit(s[i]) && IsDigit(s[i + 1])
  {
    10 * DigitValue(s[i]) + DigitValue(s[i + 1])
  }

  /** The value of the decimal digits s[i] .. s[i+3]. */
  function Read4(s: string, i: nat): int
    requires i + 4 <= |s| && IsDigit(s[i]) && IsDigit(s[i + 1]) && IsDigit(s[i + 2]) && IsDigit(s[i + 3])
  {
    100 * Read2(s, i) + Read2(s, i + 2)
  }

  function Digits2(n: int): (s: string)
    requires 0 <= n <= 99
    ensures |s| == 2 && IsDigit(s[0]) && IsDigit(s[1]) && Read2(s, 0) == n
  {
    [DigitChar(n / 10), DigitChar(n % 10)]
  }

  function Digits4(n: int): (s: string)
    requires 0 <= n <= 9999
    ensures |s| == 4 && IsDigit(s[0]) && IsDigit(s[1]) && IsDigit(s[2]) && IsDigit(s[3]) && Read4(s, 0) == n
  {
    var s := Digits2(n / 100) + Digits2(n % 100);
    assert Read2(s, 2) == n % 100;
    s
  }

  /** `Temporal.PlainDate.from(s)` for the full-date form; `None` is the
      RangeError thrown on malformed text or an out-of-range month or day. */
  function Parse(s: string): (r: Option<PlainDate>)
    ensures r.Some? ==> IsFullDateShape(s) && 0 <= r.value.year <= 9999
  {
    if !IsFullDateShape(s) then None
    else
      var y, m, d := Read4(s, 0), Read2(s, 5), Read2(s, 8);
      if 1 <= m <= 12 && 1 <= d <= DaysInMonth(y, m) then Some(Date(y, m, d)) else None
  }

  /** `date.toString()` for four-digit years. */
  function Format(d: PlainDate): (s: string)
    requires 0 <= d.year <= 9999
    ensures IsFullDateShape(s)
  {
    Digits4(d.year) + "-" + Digits2(d.month) + "-" + Digits2(d.day)
  }

  lemma ParseFormat(d: PlainDate)
    requires 0 <= d.year <= 9999
    ensures Parse(Format(d)) == Some(d)
  {
    var s := Format(d);
    assert s[..4] == Digits4(d.year) && s[5..7] == Digits2(d.month) && s[8..] == Digits2(d.day);
    assert Read4(s, 0) == Read4(s[..4], 0);
    assert Read2(s, 5) == Read2(s[5..7], 0);
    assert Read2(s, 8) == Read2(s[8..], 0);
  }

  lemma Read2Digits(s: string, i: nat)
    requires i + 2 <= |s| && IsDigit(s[i]) && IsDigit(s[i + 1])
    ensures 0 <= Read2(s, i) <= 99 && Digits2(Read2(s, i)) == s[i..i + 2]
  {
    var n := Read2(s, i);
    assert n / 10 == DigitValue(s[i]) && n % 10 == DigitValue(s[i + 1]);
  }

  lemma FormatParse(s: string)
    requires Parse(s).Some?
    ensures Format(Parse(s).value) == s
  {
    var d := Parse(s).value;
    Read2Digits(s, 0);
    Read2Digits(s, 2);
    Read2Digits(s, 5);
    Read2Digits(s, 8);
    var y := Read4(s, 0);
    assert y / 100 == Read2(s, 0) && y % 100 == Read2(s, 2);
    assert Digits4(y) == s[..4];
    assert s == s[..4] + "-" + s[5..7] + "-" + s[8..];
  }

  /** Day-of-month limits in action: 2020 is a leap year ... */
  lemma ParseLeapDay()
    ensures Parse("2020-02-29") == Some(Date(2020, 2, 29))
  {
    var s := "2020-02-29";
    assert IsFullDateShape(s);
    assert Read4(s, 0) == 2020 && Read2(s, 5) == 2 && Read2(s, 8) == 29;
  }

  /** ... and 2021 is not. */
  lemma ParseCommonYearLeapDay()
    ensures Parse("2021-02-29") == None
  {
    var s := "2021-02-29";
    assert IsFullDateShape(s);
    assert Read4(s, 0) == 2021 && Read2(s, 5) == 2 && Read2(s, 8) == 29;
  }
}
