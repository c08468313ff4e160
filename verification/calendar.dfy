/**
  Proleptic Gregorian calendar dates as Python's `datetime` sees them: years
  1 through 9999, chronological comparison, and the day ordinal of
  `toordinal()` (0001-01-01 is day 1). Adding a `timedelta` moves the ordinal
  and raises `OverflowError` outside the year range; `replace` rejects an
  out-of-range year with `ValueError`. Both failures show up here as `None`.
*/
module Calendar {
  import opened Wrappers

  const MinYear := 1
  const MaxYear := 9999

  datatype Date = Date(year: int, month: int, day: int)

  /** The last representable date, 9999-12-31. */
  const MaxDate := Date(MaxYear, 12, 31)
  /** Its ordinal, Python's `date.max.toordinal()`. */
  const MaxOrdinal := 3652059

  predicate IsLeap(y: int) {
    y % 4 == 0 && (y % 100 != 0 || y % 400 == 0)
  }

  function DaysInYear(y: int): int {
    if IsLeap(y) then 366 else 365
  }

  function DaysInMonth(y: int, m: int): int
    requires 1 <= m <= 12
  {
    if m == 2 then (if IsLeap(y) then 29 else 28)
    else if m == 4 || m == 6 || m == 9 || m == 11 then 30
    else 31
  }

  predicate Valid(d: Date) {
    && MinYear <= d.year <= MaxYear
    && 1 <= d.month <= 12
    && 1 <= d.day <= DaysInMonth(d.year, d.month)
  }

  /** Chronological order of dates: `a < b` on Python datetimes at midnight. */
  predicate Before(a: Date, b: Date) {
    || a.year < b.year
    || (a.year == b.year && a.month < b.month)
    || (a.year == b.year && a.month == b.month && a.day < b.day)
  }

  /** Number of days in the years before `y`, counted year by year. */
  function DaysBeforeYear(y: int): int
    requires y >= 1
  {
    if y == 1 then 0 else DaysBeforeYear(y - 1) + DaysInYear(y - 1)
  }

  /** Number of days in year `y` before the first of month `m`, counted month by month. */
  function DaysBeforeMonth(y: int, m: int): int
    requires 1 <= m <= 12
  {
    if m == 1 then 0 else DaysBeforeMonth(y, m - 1) + DaysInMonth(y, m - 1)
  }

  /** Days since the epoch, counting 0001-01-01 as day 1. */
  function Ordinal(d: Date): int
    requires Valid(d)
  {
    DaysBeforeYear(d.year) + DaysBeforeMonth(d.year, d.month) + d.day
  }

  /** Months since the epoch; consecutive months differ by one. */
  function MonthIndex(d: Date): int {
    12 * d.year + d.month - 1
  }

  /**
    The closed form CPython uses (`_days_before_year`) counts the same days
    as the year-by-year sum.
  */
  lemma {:induction false} DaysBeforeYearFormula(y: int)
    requires y >= 1
    ensures var p := y - 1; DaysBeforeYear(y) == p * 365 + p / 4 - p / 100 + p / 400
    decreases y
  {
    if y > 1 {
      DaysBeforeYearFormula(y - 1);
      LeapDaysStep(y - 1);
    }
  }

  /** Moving one year on adds one leap day to the count exactly when that year is leap. */
  lemma LeapDaysStep(y: int)
    requires y >= 1
    ensures var p := y - 1;
      (y / 4 - y / 100 + y / 400) - (p / 4 - p / 100 + p / 400) == (if IsLeap(y) then 1 else 0)
  {
    DivStep4(y);
    DivStep100(y);
    DivStep400(y);
    ModNesting(y);
  }

  lemma DivStep4(y: int)
    ensures y / 4 - (y - 1) / 4 == (if y % 4 == 0 then 1 else 0)
  {
  }

  lemma DivStep100(y: int)
    ensures y / 100 - (y - 1) / 100 == (if y % 100 == 0 then 1 else 0)
  {
  }

  lemma DivStep400(y: int)
    ensures y / 400 - (y - 1) / 400 == (if y % 400 == 0 then 1 else 0)
  {
  }

  lemma ModNesting(y: int)
    ensures y % 400 == 0 ==> y % 100 == 0
    ensures y % 100 == 0 ==> y % 4 == 0
  {
    if y % 400 == 0 {
      MultiplesNest(y / 400);
      assert y == 400 * (y / 400);
    }
    if y % 100 == 0 {
      MultiplesNest(y / 100);
      assert y == 100 * (y / 100);
    }
  }

  lemma MultiplesNest(a: int)
    ensures (400 * a) % 100 == 0
    ensures (100 * a) % 4 == 0
  {
    assert 400 * a == 100 * (4 * a);
    assert 100 * a == 4 * (25 * a);
  }

  /** The table CPython uses (`_DAYS_BEFORE_MONTH`, plus one after February in leap years). */
  lemma DaysBeforeMonthTable(y: int, m: int)
    requires 1 <= m <= 12
    ensures DaysBeforeMonth(y, m) ==
      [0, 31, 59, 90, 120, 151, 181, 212, 243, 273, 304, 334][m - 1]
      + (if m > 2 && IsLeap(y) then 1 else 0)
  {
    if m > 1 {
      DaysBeforeMonthTable(y, m - 1);
    }
  }

  lemma {:induction false} DaysBeforeYearGrows(a: int, b: int)
    requires 1 <= a < b
    ensures DaysBeforeYear(a) + DaysInYear(a) <= DaysBeforeYear(b)
    decreases b - a
  {
    if a + 1 < b {
      DaysBeforeYearGrows(a + 1, b);
    }
  }

  lemma {:induction false} DaysBeforeMonthGrows(y: int, a: int, b: int)
    requires 1 <= a < b <= 12
    ensures DaysBeforeMonth(y, a) + DaysInMonth(y, a) <= DaysBeforeMonth(y, b)
    decreases b - a
  {
    if a + 1 < b {
      DaysBeforeMonthGrows(y, a + 1, b);
    }
  }

  /** The ordinal of a date falls inside its own year's block of days. */
  lemma OrdinalWithinYear(d: Date)
    requires Valid(d)
    ensures DaysBeforeYear(d.year) < Ordinal(d) <= DaysBeforeYear(d.year) + DaysInYear(d.year)
  {
    DaysBeforeMonthTable(d.year, d.month);
  }

  /**
    Chronological order and ordinal order agree, and distinct dates have
    distinct ordinals: this is what makes `Ordinal` the days-since-epoch
    reading of a date.
  */
  lemma OrdinalOrder(a: Date, b: Date)
    requires Valid(a) && Valid(b)
    ensures Before(a, b) <==> Ordinal(a) < Ordinal(b)
    ensures a == b <==> Ordinal(a) == Ordinal(b)
  {
    if Before(a, b) {
      OrdinalBefore(a, b);
    } else if Before(b, a) {
      OrdinalBefore(b, a);
    }
  }

  lemma OrdinalBefore(a: Date, b: Date)
    requires Valid(a) && Valid(b) && Before(a, b)
    ensures Ordinal(a) < Ordinal(b)
  {
    OrdinalWithinYear(a);
    OrdinalWithinYear(b);
    if a.year < b.year {
      DaysBeforeYearGrows(a.year, b.year);
    } else if a.month < b.month {
      DaysBeforeMonthGrows(a.year, a.month, b.month);
    }
  }

  lemma MaxDateOrdinal()
    ensures Valid(MaxDate) && Ordinal(MaxDate) == MaxOrdinal
  {
    DaysBeforeYearFormula(MaxYear);
    DaysBeforeMonthTable(MaxYear, 12);
  }

  /** No representable date lies beyond 9999-12-31. */
  lemma OrdinalAtMostMax(d: Date)
    requires Valid(d)
    ensures Ordinal(d) <= MaxOrdinal
    ensures Ordinal(d) == MaxOrdinal <==> d == MaxDate
  {
    MaxDateOrdinal();
    OrdinalOrder(d, MaxDate);
  }

  /**
    `date + timedelta(days=1)`: the date whose ordinal is one larger, or
    `None` where Python raises `OverflowError`.
  */
  function NextDay(d: Date): (r: Option<Date>)
    requires Valid(d)
    ensures r.None? <==> d == MaxDate
    ensures r.None? <==> Ordinal(d) == MaxOrdinal
    ensures r.Some? ==> Valid(r.value) && Ordinal(r.value) == Ordinal(d) + 1
  {
    OrdinalAtMostMax(d);
    if d.day < DaysInMonth(d.year, d.month) then
      Some(Date(d.year, d.month, d.day + 1))
    else if d.month < 12 then
      Some(Date(d.year, d.month + 1, 1))
    else if d.year < MaxYear then
      DaysBeforeMonthTable(d.year, 12);
      Some(Date(d.year + 1, 1, 1))
    else
      None
  }

  /**
    `date + timedelta(days=n)`: defined exactly when the target ordinal is
    still representable, and then it is the date `n` ordinals later.
  */
  function AddDays(d: Date, n: nat): (r: Option<Date>)
    requires Valid(d)
    ensures r.Some? <==> Ordinal(d) + n <= MaxOrdinal
    ensures r.Some? ==> Valid(r.value) && Ordinal(r.value) == Ordinal(d) + n
    decreases n
  {
    OrdinalAtMostMax(d);
    if n == 0 then Some(d)
    else match NextDay(d)
      case None => None
      case Some(e) => AddDays(e, n - 1)
  }

  /**
    The monthly step of the schedule: the same day in the following month,
    with the day clamped to 28, or `None` where `replace` is asked for year
    10000 and raises `ValueError`. The clamp means every other field
    combination is a real date.
  */
  function NextMonth(d: Date): (r: Option<Date>)
    requires Valid(d)
    ensures r.None? <==> d.year == MaxYear && d.month == 12
    ensures r.Some? ==> Valid(r.value) && Before(d, r.value)
    ensures r.Some? ==> MonthIndex(r.value) == MonthIndex(d) + 1
    ensures r.Some? ==> r.value.day == Min(d.day, 28)
  {
    var month := if d.month + 1 > 12 then 1 else d.month + 1;
    var year := if d.month + 1 > 12 then d.year + 1 else d.year;
    var day := Min(d.day, 28);
    if year <= MaxYear then Some(Date(year, month, day)) else None
  }
}
