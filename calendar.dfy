/**
 * The proleptic Gregorian calendar that Python's `datetime` module uses:
 * dates, day ordinals (`date.toordinal()`, where 0001-01-01 is day 1) and
 * the day-by-day arithmetic behind `date - timedelta(days = n)`.
 */
module Calendar {

  /** A calendar date; `WellFormed` says that month and day name a real day. */
  datatype Date = Date(year: int, month: int, day: int)

  /** The smallest and largest year `datetime.date` can hold. */
  const MinYear := 1
  const MaxYear := 9999

  predicate IsLeapYear(y: int) {
    y % 4 == 0 && (y % 100 != 0 || y % 400 == 0)
  }

  function DaysInYear(y: int): int {
    if IsLeapYear(y) then 366 else 365
  }

  function DaysInMonth(y: int, m: int): int
    requires 1 <= m <= 12
  {
    if m == 2 then (if IsLeapYear(y) then 29 else 28)
    else if m == 4 || m == 6 || m == 9 || m == 11 then 30
    else 31
  }

  /** Month and day are those of a real day of the (unbounded) year. */
  predicate WellFormed(d: Date) {
    1 <= d.month <= 12 && 1 <= d.day <= DaysInMonth(d.year, d.month)
  }

  /** A date that `datetime.date` can represent. */
  predicate InRange(d: Date) {
    WellFormed(d) && MinYear <= d.year <= MaxYear
  }

  /** Days in all years before year `y`, counted from 0001-01-01. */
  function DaysBeforeYear(y: int): int {
    var p := y - 1;
    365 * p + p / 4 - p / 100 + p / 400
  }

  /** Days in a common year before the first of each month; index 12 is the whole year. */
  const CumulativeDays: seq<int> := [0, 31, 59, 90, 120, 151, 181, 212, 243, 273, 304, 334, 365]

  /** Days of year `y` before the first of month `m` (`m == 13` gives the whole year). */
  function DaysBeforeMonth(y: int, m: int): int
    requires 1 <= m <= 13
  {
    CumulativeDays[m - 1] + (if m > 2 && IsLeapYear(y) then 1 else 0)
  }

  /** The day number of `d`, as `date.toordinal()` gives it. */
  function Ordinal(d: Date): int
    requires 1 <= d.month <= 12
  {
    DaysBeforeYear(d.year) + DaysBeforeMonth(d.year, d.month) + d.day
  }

  /** The ordinal of 9999-12-31, the last day `datetime.date` can represent. */
  const MaxOrdinal := 3652059

  /** Strict chronological order, compared field by field. */
  predicate Before(a: Date, b: Date) {
    a.year < b.year
    || (a.year == b.year && (a.month < b.month || (a.month == b.month && a.day < b.day)))
  }

  /** The following day. */
  function Succ(d: Date): (r: Date)
    requires WellFormed(d)
    ensures WellFormed(r) && Before(d, r)
  {
    if d.day < DaysInMonth(d.year, d.month) then Date(d.year, d.month, d.day + 1)
    else if d.month < 12 then Date(d.year, d.month + 1, 1)
    else Date(d.year + 1, 1, 1)
  }

  /** The preceding day. */
  function Pred(d: Date): (r: Date)
    requires WellFormed(d)
    ensures WellFormed(r) && Before(r, d)
  {
    if d.day > 1 then Date(d.year, d.month, d.day - 1)
    else if d.month > 1 then Date(d.year, d.month - 1, DaysInMonth(d.year, d.month - 1))
    else Date(d.year - 1, 12, 31)
  }

  /** `d + timedelta(days = n)`, one calendar day at a time, before any range check. */
  function AddDays(d: Date, n: int): (r: Date)
    requires WellFormed(d)
    ensures WellFormed(r)
    decreases if n < 0 then -n else n
  {
    if n == 0 then d
    else if n > 0 then AddDays(Succ(d), n - 1)
    else AddDays(Pred(d), n + 1)
  }

  /** A year adds its own length to the day count. */
  lemma YearLength(y: int)
    ensures DaysBeforeYear(y + 1) == DaysBeforeYear(y) + DaysInYear(y)
  {
    var p := y - 1;
    assert y / 4 == p / 4 + (if y % 4 == 0 then 1 else 0);
    assert y / 100 == p / 100 + (if y % 100 == 0 then 1 else 0);
    assert y / 400 == p / 400 + (if y % 400 == 0 then 1 else 0);
  }

  /** Years before `b` hold at least as many days as years before `a`, and more when `a < b`. */
  lemma {:induction false} DaysBeforeYearIncreasing(a: int, b: int)
    requires a < b
    ensures DaysBeforeYear(a) + DaysInYear(a) <= DaysBeforeYear(b)
    decreases b - a
  {
    YearLength(a);
    if a + 1 < b {
      DaysBeforeYearIncreasing(a + 1, b);
    }
  }

  /** The days of month `m` lie strictly after the months before it and within the year. */
  lemma MonthBounds(y: int, m: int)
    requires 1 <= m <= 12
    ensures DaysBeforeMonth(y, m) + DaysInMonth(y, m) == DaysBeforeMonth(y, m + 1)
    ensures DaysBeforeMonth(y, 13) == DaysInYear(y)
  {
  }

  /** A well-formed date falls inside its month and inside its year. */
  lemma OrdinalBounds(d: Date)
    requires WellFormed(d)
    ensures DaysBeforeYear(d.year) + DaysBeforeMonth(d.year, d.month) < Ordinal(d)
    ensures Ordinal(d) <= DaysBeforeYear(d.year) + DaysBeforeMonth(d.year, d.month + 1)
    ensures DaysBeforeYear(d.year) < Ordinal(d) <= DaysBeforeYear(d.year) + DaysInYear(d.year)
  {
    MonthBounds(d.year, d.month);
    assert DaysBeforeMonth(d.year, d.month + 1) <= DaysBeforeMonth(d.year, 13);
  }

  /** Chronological order and ordinal order agree on well-formed dates. */
  lemma OrdinalOrder(a: Date, b: Date)
    requires WellFormed(a) && WellFormed(b)
    ensures Before(a, b) <==> Ordinal(a) < Ordinal(b)
    ensures a == b <==> Ordinal(a) == Ordinal(b)
  {
    if Before(a, b) {
      OrdinalIncreasing(a, b);
    } else if Before(b, a) {
      OrdinalIncreasing(b, a);
    }
  }

  lemma OrdinalIncreasing(a: Date, b: Date)
    requires WellFormed(a) && WellFormed(b) && Before(a, b)
    ensures Ordinal(a) < Ordinal(b)
  {
    OrdinalBounds(a);
    OrdinalBounds(b);
    if a.year < b.year {
      DaysBeforeYearIncreasing(a.year, b.year);
    } else if a.month < b.month {
      assert DaysBeforeMonth(a.year, a.month + 1) <= DaysBeforeMonth(a.year, b.month);
    }
  }

  /** `Succ` moves one ordinal forward. */
  lemma SuccOrdinal(d: Date)
    requires WellFormed(d)
    ensures Ordinal(Succ(d)) == Ordinal(d) + 1
  {
    MonthBounds(d.year, d.month);
    YearLength(d.year);
  }

  /** `Pred` moves one ordinal back. */
  lemma PredOrdinal(d: Date)
    requires WellFormed(d)
    ensures Ordinal(Pred(d)) == Ordinal(d) - 1
  {
    if d.day == 1 && d.month > 1 {
      MonthBounds(d.year, d.month - 1);
    } else if d.day == 1 {
      YearLength(d.year - 1);
    }
  }

  /** Adding `n` days moves the ordinal by exactly `n`, as `timedelta` arithmetic does. */
  lemma {:induction false} AddDaysOrdinal(d: Date, n: int)
    requires WellFormed(d)
    ensures Ordinal(AddDays(d, n)) == Ordinal(d) + n
    decreases if n < 0 then -n else n
  {
    if n > 0 {
      SuccOrdinal(d);
      AddDaysOrdinal(Succ(d), n - 1);
    } else if n < 0 {
      PredOrdinal(d);
      AddDaysOrdinal(Pred(d), n + 1);
    }
  }

  /** The year is at least 1 exactly when the ordinal is positive. */
  lemma LowerBoundByOrdinal(d: Date)
    requires WellFormed(d)
    ensures MinYear <= d.year <==> 1 <= Ordinal(d)
  {
    OrdinalBounds(d);
    YearLength(d.year);
    if d.year < MinYear {
      DaysBeforeYearIncreasing(d.year, MinYear);
    } else if d.year > MinYear {
      DaysBeforeYearIncreasing(MinYear, d.year);
    }
  }

  /** The year is at most 9999 exactly when the ordinal does not pass that of 9999-12-31. */
  lemma UpperBoundByOrdinal(d: Date)
    requires WellFormed(d)
    ensures d.year <= MaxYear <==> Ordinal(d) <= MaxOrdinal
  {
    OrdinalBounds(d);
    YearLength(d.year);
    assert DaysBeforeYear(MaxYear + 1) == MaxOrdinal;
    if d.year < MaxYear {
      DaysBeforeYearIncreasing(d.year + 1, MaxYear + 1);
    } else if d.year > MaxYear + 1 {
      DaysBeforeYearIncreasing(MaxYear + 1, d.year);
    }
  }

  /** A well-formed date is representable exactly when its ordinal lies between those of 0001-01-01 and 9999-12-31. */
  lemma InRangeByOrdinal(d: Date)
    requires WellFormed(d)
    ensures InRange(d) <==> 1 <= Ordinal(d) <= MaxOrdinal
  {
    LowerBoundByOrdinal(d);
    UpperBoundByOrdinal(d);
  }
}
