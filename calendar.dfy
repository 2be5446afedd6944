/** The proleptic Gregorian calendar that Python's `datetime.date` and JavaScript's
    `Date` both use. A day is identified by its ordinal, Python's `toordinal()`:
    0001-01-01 is day 1. Times of day are minutes counted from local midnight of
    ordinal 0, so the day of a timestamp t is t / 1440. */
module Calendar {

  datatype Date = Date(year: int, month: int, day: int)

  const MinutesPerDay: int := 1440

  predicate IsLeap(y: int) {
    y % 4 == 0 && (y % 100 != 0 || y % 400 == 0)
  }

  function DaysInYear(y: int): int {
    if IsLeap(y) then 366 else 365
  }

  function DaysInMonth(y: int, m: int): (n: int)
    requires 1 <= m <= 12
    ensures 28 <= n <= 31
  {
    if m == 2 then (if IsLeap(y) then 29 else 28)
    else if m == 4 || m == 6 || m == 9 || m == 11 then 30
    else 31
  }

  /** A day that exists in the calendar, in year 1 or later. */
  predicate IsCivil(d: Date) {
    1 <= d.year && 1 <= d.month <= 12 && 1 <= d.day <= DaysInMonth(d.year, d.month)
  }

  /** A date Python's `datetime` accepts: years 1 to 9999 (MINYEAR..MAXYEAR). */
  predicate IsValid(d: Date) {
    IsCivil(d) && d.year <= 9999
  }

  /** Days in the months of year y before month m (m = 13 gives the whole year). */
  function DaysBeforeMonth(y: int, m: int): int
    requires 1 <= m <= 13
  {
    var common := [0, 31, 59, 90, 120, 151, 181, 212, 243, 273, 304, 334, 365];
    common[m - 1] + (if m > 2 && IsLeap(y) then 1 else 0)
  }

  lemma DaysBeforeMonthStep(y: int, m: int)
    requires 1 <= m <= 12
    ensures DaysBeforeMonth(y, m + 1) == DaysBeforeMonth(y, m) + DaysInMonth(y, m)
    ensures DaysBeforeMonth(y, 1) == 0 && DaysBeforeMonth(y, 13) == DaysInYear(y)
  {
  }

  /** Days in the years before year y, counted from year 1. */
  function DaysBeforeYear(y: int): int
    requires y >= 1
    decreases y
  {
    if y == 1 then 0 else DaysBeforeYear(y - 1) + DaysInYear(y - 1)
  }

  /** The closed form Python's `_days_before_year` uses, for y = n + 1. */
  function ClosedDays(n: int): int {
    365 * n + n / 4 - n / 100 + n / 400
  }

  lemma ClosedDaysStep(x: int)
    requires x >= 0
    ensures ClosedDays(x + 1) == ClosedDays(x) + DaysInYear(x + 1)
  {
    DivStep(x, 4);
    DivStep(x, 100);
    DivStep(x, 400);
    assert 365 * (x + 1) == 365 * x + 365;
  }

  lemma {:induction false} DaysBeforeYearClosed(y: int)
    requires y >= 1
    ensures DaysBeforeYear(y) == 365 * (y - 1) + (y - 1) / 4 - (y - 1) / 100 + (y - 1) / 400
    decreases y
  {
    if y > 1 {
      DaysBeforeYearClosed(y - 1);
      ClosedDaysStep(y - 2);
    }
  }

  lemma DivStep(x: int, k: int)
    requires x >= 0 && (k == 4 || k == 100 || k == 400)
    ensures (x + 1) / k == x / k + (if (x + 1) % k == 0 then 1 else 0)
  {
    if k == 4 {
    } else if k == 100 {
    } else {
    }
  }

  /** Ordinal of 9999-12-31, the last day Python's `date` can hold. */
  const MaxOrdinal: int := 3652059

  lemma MaxOrdinalIsLastDay()
    ensures IsValid(Date(9999, 12, 31)) && ToOrdinal(Date(9999, 12, 31)) == MaxOrdinal
  {
    DaysBeforeYearClosed(9999);
  }

  /** Python's `date.toordinal()`. */
  function ToOrdinal(d: Date): int
    requires IsCivil(d)
  {
    DaysBeforeYear(d.year) + DaysBeforeMonth(d.year, d.month) + d.day
  }

  /** Python's `date.fromordinal(n)`: the date whose ordinal is n. */
  function FromOrdinal(n: int): Date
    requires n >= 1
  {
    YearFrom(n, 1)
  }

  /** The date that is day n counted from January 1 of year y. */
  function YearFrom(n: int, y: int): Date
    requires n >= 1 && y >= 1
    decreases n
  {
    if n <= DaysInYear(y) then MonthFrom(y, n, 1)
    else YearFrom(n - DaysInYear(y), y + 1)
  }

  /** The date that is day n of year y counted from the first of month m. */
  function MonthFrom(y: int, n: int, m: int): Date
    requires 1 <= m <= 12 && n >= 1
    decreases 12 - m
  {
    if m == 12 || n <= DaysInMonth(y, m) then Date(y, m, n)
    else MonthFrom(y, n - DaysInMonth(y, m), m + 1)
  }

  // ---------------------------------------------------------------------------
  // Ordinals and dates are inverse to each other

  lemma {:induction false} MonthFromCorrect(y: int, n: int, m: int)
    requires y >= 1 && 1 <= m <= 12 && n >= 1
    requires DaysBeforeMonth(y, m) + n <= DaysInYear(y)
    ensures IsCivil(MonthFrom(y, n, m)) && MonthFrom(y, n, m).year == y
    ensures m <= MonthFrom(y, n, m).month
    ensures DaysBeforeMonth(y, MonthFrom(y, n, m).month) + MonthFrom(y, n, m).day
            == DaysBeforeMonth(y, m) + n
    decreases 12 - m
  {
    DaysBeforeMonthStep(y, m);
    if m < 12 && n > DaysInMonth(y, m) {
      MonthFromCorrect(y, n - DaysInMonth(y, m), m + 1);
    }
  }

  lemma {:induction false} MonthFromInverse(y: int, m: int, d: Date)
    requires IsCivil(d) && d.year == y && 1 <= m <= d.month
    ensures DaysBeforeMonth(y, d.month) - DaysBeforeMonth(y, m) + d.day >= 1
    ensures MonthFrom(y, DaysBeforeMonth(y, d.month) - DaysBeforeMonth(y, m) + d.day, m) == d
    decreases d.month - m
  {
    DaysBeforeMonthStep(y, m);
    MonthsIncrease(y, m, d.month);
    if m < d.month {
      MonthFromInverse(y, m + 1, d);
      MonthFromSkip(y, DaysBeforeMonth(y, d.month) - DaysBeforeMonth(y, m) + d.day, m);
    } else {
      MonthFromHere(y, d.day, m);
    }
  }

  lemma MonthFromSkip(y: int, n: int, m: int)
    requires 1 <= m < 12 && n > DaysInMonth(y, m)
    ensures MonthFrom(y, n, m) == MonthFrom(y, n - DaysInMonth(y, m), m + 1)
  {
  }

  lemma MonthFromHere(y: int, n: int, m: int)
    requires 1 <= m <= 12 && 1 <= n <= DaysInMonth(y, m)
    ensures MonthFrom(y, n, m) == Date(y, m, n)
  {
  }

  lemma {:induction false} MonthsIncrease(y: int, m1: int, m2: int)
    requires 1 <= m1 <= m2 <= 13
    ensures DaysBeforeMonth(y, m1) <= DaysBeforeMonth(y, m2)
    ensures m1 < m2 ==> DaysBeforeMonth(y, m1) + DaysInMonth(y, m1) <= DaysBeforeMonth(y, m2)
  {
  }

  lemma {:induction false} YearsIncrease(y1: int, y2: int)
    requires 1 <= y1 < y2
    ensures DaysBeforeYear(y1) + DaysInYear(y1) <= DaysBeforeYear(y2)
    decreases y2 - y1
  {
    if y1 + 1 < y2 {
      YearsIncrease(y1 + 1, y2);
    }
  }

  /** Day n counted from January 1 of year y is a calendar day in year y or later,
      with ordinal DaysBeforeYear(y) + n. */
  predicate YearFromLands(n: int, y: int)
    requires n >= 1 && y >= 1
  {
    IsCivil(YearFrom(n, y)) && YearFrom(n, y).year >= y
    && ToOrdinal(YearFrom(n, y)) == DaysBeforeYear(y) + n
  }

  lemma {:induction false} YearFromCorrect(n: int, y: int)
    requires n >= 1 && y >= 1
    ensures YearFromLands(n, y)
    decreases n
  {
    if n <= DaysInYear(y) {
      YearFromHere(n, y);
    } else {
      YearFromCorrect(n - DaysInYear(y), y + 1);
      YearFromLater(n, y);
    }
  }

  /** Day n of year y, when year y has that many days. */
  lemma YearFromHere(n: int, y: int)
    requires y >= 1 && 1 <= n <= DaysInYear(y)
    ensures YearFromLands(n, y)
  {
    assert YearFrom(n, y) == MonthFrom(y, n, 1);
    DaysBeforeMonthStep(y, 1);
    MonthFromCorrect(y, n, 1);
  }

  /** Day n of year y, when it lies in a later year: what holds for the next
      year carries back. */
  lemma YearFromLater(n: int, y: int)
    requires y >= 1 && n > DaysInYear(y)
    requires YearFromLands(n - DaysInYear(y), y + 1)
    ensures YearFromLands(n, y)
  {
    assert YearFrom(n, y) == YearFrom(n - DaysInYear(y), y + 1);
  }

  lemma {:induction false} YearFromInverse(y0: int, d: Date)
    requires IsCivil(d) && 1 <= y0 <= d.year
    ensures ToOrdinal(d) - DaysBeforeYear(y0) >= 1
    ensures YearFrom(ToOrdinal(d) - DaysBeforeYear(y0), y0) == d
    decreases d.year - y0
  {
    DayWithinYear(d);
    if y0 < d.year {
      YearsIncrease(y0, d.year);
      YearFromInverse(y0 + 1, d);
      assert YearFrom(ToOrdinal(d) - DaysBeforeYear(y0), y0)
             == YearFrom(ToOrdinal(d) - DaysBeforeYear(y0 + 1), y0 + 1);
    } else {
      DaysBeforeMonthStep(d.year, 1);
      MonthFromInverse(d.year, 1, d);
    }
  }

  /** A day's ordinal lies within its year. */
  lemma DayWithinYear(d: Date)
    requires IsCivil(d)
    ensures DaysBeforeYear(d.year) < ToOrdinal(d) <= DaysBeforeYear(d.year) + DaysInYear(d.year)
  {
    DaysBeforeMonthStep(d.year, d.month);
    MonthsIncrease(d.year, d.month + 1, 13);
    DaysBeforeMonthStep(d.year, 12);
  }

  /** Every ordinal names a calendar day, and that day's ordinal is the one we started from. */
  lemma OrdinalRoundTrip(n: int)
    requires n >= 1
    ensures IsCivil(FromOrdinal(n)) && ToOrdinal(FromOrdinal(n)) == n
  {
    YearFromCorrect(n, 1);
  }

  /** Every calendar day is found again from its ordinal. */
  lemma DateRoundTrip(d: Date)
    requires IsCivil(d)
    ensures ToOrdinal(d) >= 1 && FromOrdinal(ToOrdinal(d)) == d
  {
    YearFromInverse(1, d);
  }

  // ---------------------------------------------------------------------------
  // Order

  /** Python compares dates field by field: year, then month, then day. */
  predicate Before(a: Date, b: Date) {
    a.year < b.year
    || (a.year == b.year && a.month < b.month)
    || (a.year == b.year && a.month == b.month && a.day < b.day)
  }

  lemma {:induction false} OrdinalBefore(a: Date, b: Date)
    requires IsCivil(a) && IsCivil(b) && Before(a, b)
    ensures ToOrdinal(a) < ToOrdinal(b)
  {
    DaysBeforeMonthStep(a.year, a.month);
    MonthsIncrease(a.year, a.month + 1, 13);
    DaysBeforeMonthStep(a.year, 12);
    if a.year < b.year {
      YearsIncrease(a.year, b.year);
    } else if a.month < b.month {
      MonthsIncrease(a.year, a.month, b.month);
    }
  }

  /** Ordinals order days exactly as the field-by-field comparison does. */
  lemma OrdinalOrder(a: Date, b: Date)
    requires IsCivil(a) && IsCivil(b)
    ensures Before(a, b) <==> ToOrdinal(a) < ToOrdinal(b)
    ensures a == b <==> ToOrdinal(a) == ToOrdinal(b)
  {
    if Before(a, b) {
      OrdinalBefore(a, b);
    } else if Before(b, a) {
      OrdinalBefore(b, a);
    }
  }

  // ---------------------------------------------------------------------------
  // Timestamps and weekdays

  /** The ordinal of the day a timestamp (in minutes) falls on. */
  function DayOf(t: int): int {
    t / MinutesPerDay
  }

  /** Hour of the day, 0..23, as `Date.getHours()` reports it. */
  function HourOf(t: int): (h: int)
    ensures 0 <= h < 24
  {
    (t % MinutesPerDay) / 60
  }

  /** Local midnight of the day t falls on: `setHours(0, 0, 0, 0)`. */
  function StartOfDay(t: int): (r: int)
    ensures r <= t < r + MinutesPerDay && DayOf(r) == DayOf(t) && r % MinutesPerDay == 0
  {
    DayOf(t) * MinutesPerDay
  }

  /** JavaScript's `getDate()` for the day with the given ordinal. The calendar
      repeats every 400 years (146097 days), so a day before year 1 is read off
      the day at the same place in the first cycle. */
  function DayOfMonth(ordinal: int): (d: int)
    ensures 1 <= d <= 31
  {
    var n := if ordinal >= 1 then ordinal else (ordinal - 1) % 146097 + 1;
    OrdinalRoundTrip(n);
    FromOrdinal(n).day
  }

  /** JavaScript's `getDay()`: 0 for Sunday. Ordinal 1, 0001-01-01, was a Monday. */
  function WeekdayIndex(ordinal: int): (w: int)
    ensures 0 <= w < 7
  {
    ordinal % 7
  }

  /** `toLocaleDateString('en-US', { weekday: 'short' })`. */
  function WeekdayShort(ordinal: int): string {
    ["Sun", "Mon", "Tue", "Wed", "Thu", "Fri", "Sat"][WeekdayIndex(ordinal)]
  }

  lemma WeekdayCycle(ordinal: int)
    ensures WeekdayIndex(ordinal + 7) == WeekdayIndex(ordinal)
    ensures WeekdayIndex(ordinal + 1) == (WeekdayIndex(ordinal) + 1) % 7
  {
  }
}
