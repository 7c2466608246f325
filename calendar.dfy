/**
 * The proleptic Gregorian calendar as Python's `datetime.date` sees it.
 * A day is its ordinal (`date.toordinal()`): day 1 is 0001-01-01 and the
 * last representable day, 9999-12-31, is MaxOrdinal.
 */
module Calendar {

  const MinYear := 1
  const MaxYear := 9999
  const MaxOrdinal := 3652059

  /** A day Python can represent: stepping outside this range raises OverflowError. */
  type Day = n: int | 1 <= n <= MaxOrdinal witness 1

  datatype Ymd = Ymd(year: int, month: int, day: int)

  predicate IsLeap(y: int) {
    y % 4 == 0 && (y % 100 != 0 || y % 400 == 0)
  }

  function DaysInYear(y: int): int {
    if IsLeap(y) then 366 else 365
  }

  function DaysInMonth(y: int, m: int): int
    requires 1 <= m <= 12
  {
    if m == 2 then (if IsLeap(y) then 29 else 28)
    else if m == 4 || m == 6 || m == 9 || m == 11 then 30
    else 31
  }

  /** Days in the years strictly before year y (zero for year 1). */
  function DaysBeforeYear(y: int): int
    requires y >= 1
  {
    var k := y - 1;
    365 * k + k / 4 - k / 100 + k / 400
  }

  /** Days in year y before the first day of month m. */
  function DaysBeforeMonth(y: int, m: int): int
    requires 1 <= m <= 12
  {
    [0, 31, 59, 90, 120, 151, 181, 212, 243, 273, 304, 334][m - 1]
      + (if m > 2 && IsLeap(y) then 1 else 0)
  }

  predicate ValidYmd(d: Ymd) {
    MinYear <= d.year <= MaxYear && 1 <= d.month <= 12 && 1 <= d.day <= DaysInMonth(d.year, d.month)
  }

  function ToOrdinal(d: Ymd): int
    requires ValidYmd(d)
  {
    DaysBeforeYear(d.year) + DaysBeforeMonth(d.year, d.month) + d.day
  }

  /** Python's `date.weekday()`: Monday is 0 and Sunday is 6. */
  function Weekday(n: int): int {
    (n + 6) % 7
  }

  lemma DaysBeforeYearStep(y: int)
    requires y >= 1
    ensures DaysBeforeYear(y + 1) == DaysBeforeYear(y) + DaysInYear(y)
  {
    var k := y - 1;
    assert (k + 1) / 4 - k / 4 == (if y % 4 == 0 then 1 else 0);
    assert (k + 1) / 100 - k / 100 == (if y % 100 == 0 then 1 else 0);
    assert (k + 1) / 400 - k / 400 == (if y % 400 == 0 then 1 else 0);
  }

  /** Every year has 365 or 366 days, so DaysBeforeYear grows by that much per year. */
  lemma {:induction false} DaysBeforeYearBounds(a: int, b: int)
    requires 1 <= a <= b
    ensures DaysBeforeYear(a) + 365 * (b - a) <= DaysBeforeYear(b) <= DaysBeforeYear(a) + 366 * (b - a)
    decreases b - a
  {
    if a < b {
      DaysBeforeYearBounds(a, b - 1);
      DaysBeforeYearStep(b - 1);
    }
  }

  lemma DaysBeforeMonthStep(y: int, m: int)
    requires 1 <= m < 12
    ensures DaysBeforeMonth(y, m + 1) == DaysBeforeMonth(y, m) + DaysInMonth(y, m)
  {
  }

  lemma DaysBeforeDecember(y: int)
    ensures DaysBeforeMonth(y, 12) + DaysInMonth(y, 12) == DaysInYear(y)
  {
  }

  /** Months are laid out one after the other: a later month starts after an earlier one ends. */
  lemma {:induction false} DaysBeforeMonthOrdered(y: int, m1: int, m2: int)
    requires 1 <= m1 < m2 <= 12
    ensures DaysBeforeMonth(y, m1) + DaysInMonth(y, m1) <= DaysBeforeMonth(y, m2)
    decreases m2 - m1
  {
    if m1 + 1 < m2 {
      DaysBeforeMonthOrdered(y, m1, m2 - 1);
      DaysBeforeMonthStep(y, m2 - 1);
    } else {
      DaysBeforeMonthStep(y, m1);
    }
  }

  /** The year holding ordinal n, searched upwards from a year known to start before n. */
  function YearSearch(n: int, y: int): (r: int)
    requires y >= 1 && DaysBeforeYear(y) < n
    ensures r >= y && DaysBeforeYear(r) < n <= DaysBeforeYear(r + 1)
    decreases n - DaysBeforeYear(y)
  {
    DaysBeforeYearStep(y);
    if n <= DaysBeforeYear(y + 1) then y else YearSearch(n, y + 1)
  }

  /** The month of year y holding day-of-year doy, searched upwards from month m. */
  function MonthSearch(y: int, doy: int, m: int): (r: int)
    requires 1 <= m <= 12 && DaysBeforeMonth(y, m) < doy <= DaysInYear(y)
    ensures m <= r <= 12 && DaysBeforeMonth(y, r) < doy <= DaysBeforeMonth(y, r) + DaysInMonth(y, r)
    decreases 12 - m
  {
    if m == 12 then
      DaysBeforeDecember(y);
      12
    else if doy <= DaysBeforeMonth(y, m) + DaysInMonth(y, m) then
      m
    else
      DaysBeforeMonthStep(y, m);
      MonthSearch(y, doy, m + 1)
  }

  lemma YearSearchStart(n: int)
    requires n >= 1
    ensures DaysBeforeYear((n - 1) / 366 + 1) < n
  {
    var y := (n - 1) / 366 + 1;
    DaysBeforeYearBounds(1, y);
  }

  /** Python's `date.fromordinal`: the calendar date of day n. */
  function FromOrdinal(n: Day): (r: Ymd)
    ensures ValidYmd(r)
  {
    YearSearchStart(n);
    var y := YearSearch(n, (n - 1) / 366 + 1);
    assert y <= MaxYear by {
      DaysBeforeLastYear();
      if y > MaxYear {
        DaysBeforeYearBounds(MaxYear + 1, y);
      }
    }
    DaysBeforeYearStep(y);
    var doy := n - DaysBeforeYear(y);
    var m := MonthSearch(y, doy, 1);
    Ymd(y, m, doy - DaysBeforeMonth(y, m))
  }

  /** One half of the round trip: the ordinal of the date of day n is n. */
  lemma FromToOrdinal(n: Day)
    ensures ToOrdinal(FromOrdinal(n)) == n
  {
  }

  lemma DaysBeforeLastYear()
    ensures DaysBeforeYear(MaxYear + 1) == MaxOrdinal
  {
  }

  /** At most one year brackets a given ordinal. */
  lemma YearUnique(n: int, y1: int, y2: int)
    requires y1 >= 1 && DaysBeforeYear(y1) < n <= DaysBeforeYear(y1 + 1)
    requires y2 >= 1 && DaysBeforeYear(y2) < n <= DaysBeforeYear(y2 + 1)
    ensures y1 == y2
  {
    if y1 < y2 {
      DaysBeforeYearBounds(y1 + 1, y2);
    } else if y2 < y1 {
      DaysBeforeYearBounds(y2 + 1, y1);
    }
  }

  /** At most one month brackets a given day of the year. */
  lemma MonthUnique(y: int, doy: int, m1: int, m2: int)
    requires 1 <= m1 <= 12 && DaysBeforeMonth(y, m1) < doy <= DaysBeforeMonth(y, m1) + DaysInMonth(y, m1)
    requires 1 <= m2 <= 12 && DaysBeforeMonth(y, m2) < doy <= DaysBeforeMonth(y, m2) + DaysInMonth(y, m2)
    ensures m1 == m2
  {
    if m1 < m2 {
      DaysBeforeMonthOrdered(y, m1, m2);
    } else if m2 < m1 {
      DaysBeforeMonthOrdered(y, m2, m1);
    }
  }

  /** A valid date lies inside its own year: after all earlier years, within its year's length. */
  lemma OrdinalWithinYear(d: Ymd)
    requires ValidYmd(d)
    ensures DaysBeforeYear(d.year) < ToOrdinal(d) <= DaysBeforeYear(d.year + 1)
    ensures 1 <= ToOrdinal(d) <= MaxOrdinal
  {
    DaysBeforeYearStep(d.year);
    if d.month < 12 {
      DaysBeforeMonthOrdered(d.year, d.month, 12);
    }
    DaysBeforeDecember(d.year);
    DaysBeforeYearBounds(d.year + 1, MaxYear + 1);
    DaysBeforeLastYear();
  }

  /** The other half of the round trip: every valid calendar date is a Day and comes back unchanged. */
  lemma ToFromOrdinal(d: Ymd)
    requires ValidYmd(d)
    ensures 1 <= ToOrdinal(d) <= MaxOrdinal
    ensures FromOrdinal(ToOrdinal(d)) == d
  {
    OrdinalWithinYear(d);
    var n := ToOrdinal(d);
    var r := FromOrdinal(n);
    FromToOrdinal(n);
    OrdinalWithinYear(r);
    YearUnique(n, r.year, d.year);
    MonthUnique(d.year, n - DaysBeforeYear(d.year), r.month, d.month);
  }

  function YearOf(n: Day): int { FromOrdinal(n).year }
  function MonthOf(n: Day): int { FromOrdinal(n).month }

  /** `date + timedelta(days=1)` on the calendar fields: the next day, month or year. */
  function NextDay(d: Ymd): Ymd
    requires 1 <= d.month <= 12
  {
    if d.day < DaysInMonth(d.year, d.month) then Ymd(d.year, d.month, d.day + 1)
    else if d.month < 12 then Ymd(d.year, d.month + 1, 1)
    else Ymd(d.year + 1, 1, 1)
  }

  /** The next day starts a new month exactly when it is a first of the month. */
  lemma NextDayMonth(d: Ymd)
    requires ValidYmd(d)
    ensures NextDay(d).day == 1 <==> NextDay(d).month != d.month
  {
  }

  /** The last representable date. */
  lemma LastDate()
    ensures ValidYmd(Ymd(MaxYear, 12, 31)) && ToOrdinal(Ymd(MaxYear, 12, 31)) == MaxOrdinal
  {
    DaysBeforeYearStep(MaxYear);
    DaysBeforeLastYear();
  }

  /**
   * Stepping a valid date other than the last one by a day gives a valid
   * date whose ordinal is one more; on the last date Python raises OverflowError.
   */
  lemma NextDayOrdinal(d: Ymd)
    requires ValidYmd(d) && d != Ymd(MaxYear, 12, 31)
    ensures ValidYmd(NextDay(d)) && ToOrdinal(NextDay(d)) == ToOrdinal(d) + 1
  {
    if d.day == DaysInMonth(d.year, d.month) {
      if d.month < 12 {
        DaysBeforeMonthStep(d.year, d.month);
      } else {
        DaysBeforeYearStep(d.year);
        DaysBeforeDecember(d.year);
      }
    }
  }

  /** NextDay agrees with ordinal arithmetic: it is the date of the following ordinal. */
  lemma NextDayAgrees(d: Ymd)
    requires ValidYmd(d) && d != Ymd(MaxYear, 12, 31)
    ensures 1 <= ToOrdinal(d) < MaxOrdinal
    ensures FromOrdinal(ToOrdinal(d) + 1) == NextDay(d)
  {
    NextDayOrdinal(d);
    ToFromOrdinal(NextDay(d));
  }
}
