/** Proleptic Gregorian calendar arithmetic on whole days counted from the Unix
    epoch 1970-01-01, as JavaScript's `Date` uses it for `getUTCFullYear`,
    `getUTCMonth` and `getUTCDate`. `DaysFromCivil` counts days forward from the
    epoch; `CivilFromDays` is its inverse, found by walking years and then months. */
module CivilDate {

  predicate IsLeapYear(y: int) {
    y % 4 == 0 && (y % 100 != 0 || y % 400 == 0)
  }

  function DaysInYear(y: int): nat {
    if IsLeapYear(y) then 366 else 365
  }

  function DaysInMonth(y: int, m: int): nat
    requires 1 <= m <= 12
  {
    if m == 2 then (if IsLeapYear(y) then 29 else 28)
    else if m == 4 || m == 6 || m == 9 || m == 11 then 30
    else 31
  }

  datatype Date = Date(year: int, month: int, day: int)

  predicate Valid(d: Date) {
    1 <= d.month <= 12 && 1 <= d.day <= DaysInMonth(d.year, d.month)
  }

  /** Signed count of leap years in 1..x (Dafny's division by a positive constant
      rounds down, so this also counts correctly below year 1). */
  function LeapYearsThrough(x: int): int {
    x / 4 - x / 100 + x / 400
  }

  /** Days from 1970-01-01 to January 1 of year `y` (negative before 1970). */
  function DaysBeforeYear(y: int): int {
    365 * (y - 1970) + LeapYearsThrough(y - 1) - LeapYearsThrough(1969)
  }

  /** Days from January 1 to the first day of month `m` of year `y`. */
  function DaysBeforeMonth(y: int, m: int): nat
    requires 1 <= m <= 12
  {
    var common := [0, 31, 59, 90, 120, 151, 181, 212, 243, 273, 304, 334][m - 1];
    common + (if m > 2 && IsLeapYear(y) then 1 else 0)
  }

  /** Day number of a calendar date, counted from 1970-01-01. */
  function DaysFromCivil(d: Date): int
    requires Valid(d)
  {
    DaysBeforeYear(d.year) + DaysBeforeMonth(d.year, d.month) + d.day - 1
  }

  lemma LeapYearsStep(y: int)
    ensures LeapYearsThrough(y) - LeapYearsThrough(y - 1) == if IsLeapYear(y) then 1 else 0
  {
    var q := y / 400;
    var r := y % 400;
    assert y == 400 * q + r;
    assert y / 4 == 100 * q + r / 4;
    assert y / 100 == 4 * q + r / 100;
    if r == 0 {
      assert (y - 1) / 4 == 100 * q - 1;
      assert (y - 1) / 100 == 4 * q - 1;
      assert (y - 1) / 400 == q - 1;
    } else {
      assert (y - 1) / 4 == 100 * q + (r - 1) / 4;
      assert (y - 1) / 100 == 4 * q + (r - 1) / 100;
      assert (y - 1) / 400 == q;
    }
  }

  /** Consecutive year starts are one year-length apart. */
  lemma YearStep(y: int)
    ensures DaysBeforeYear(y + 1) == DaysBeforeYear(y) + DaysInYear(y)
  {
    LeapYearsStep(y);
  }

  /** Year starts increase strictly with the year. */
  lemma {:induction false} YearStartsIncrease(a: int, b: int)
    requires a < b
    ensures DaysBeforeYear(a) < DaysBeforeYear(b)
    decreases b - a
  {
    YearStep(a);
    if a + 1 < b {
      YearStartsIncrease(a + 1, b);
    }
  }

  lemma MonthStarts(y: int)
    ensures DaysBeforeMonth(y, 1) == 0
    ensures forall m | 1 <= m < 12 ::
      DaysBeforeMonth(y, m + 1) == DaysBeforeMonth(y, m) + DaysInMonth(y, m)
    ensures DaysBeforeMonth(y, 12) + DaysInMonth(y, 12) == DaysInYear(y)
  {
  }

  /** The year containing day `n`, searched upwards from a year `y` that starts
      no later than `n`. */
  function YearForward(n: int, y: int): (r: int)
    requires DaysBeforeYear(y) <= n
    ensures DaysBeforeYear(r) <= n < DaysBeforeYear(r + 1)
    decreases n - DaysBeforeYear(y)
  {
    YearStep(y);
    if n < DaysBeforeYear(y + 1) then y else YearForward(n, y + 1)
  }

  /** Between two years the leap-year count grows by at most one per year. */
  lemma {:induction false} LeapYearsBetween(a: int, b: int)
    requires a <= b
    ensures 0 <= LeapYearsThrough(b) - LeapYearsThrough(a) <= b - a
    decreases b - a
  {
    if a < b {
      LeapYearsStep(b);
      LeapYearsBetween(a, b - 1);
    }
  }

  /** A year that starts no later than day `n`: at most `n / 366` years after
      1970 for days from the epoch on, and more than `-n / 365` years before it
      otherwise. */
  function YearLowerBound(n: int): (y: int)
    ensures DaysBeforeYear(y) <= n
  {
    if n >= 0 then
      LeapYearsBetween(1969, 1969 + n / 366);
      1970 + n / 366
    else
      LeapYearsBetween(1969 + (n / 365 - 1), 1969);
      1970 + (n / 365 - 1)
  }

  /** The month of year `y` containing day-of-year `r`, searched upwards from `m`. */
  function MonthFrom(y: int, r: int, m: int): (res: int)
    requires 1 <= m <= 12
    requires DaysBeforeMonth(y, m) <= r < DaysInYear(y)
    ensures m <= res <= 12
    ensures DaysBeforeMonth(y, res) <= r < DaysBeforeMonth(y, res) + DaysInMonth(y, res)
    decreases 12 - m
  {
    MonthStarts(y);
    if m == 12 || r < DaysBeforeMonth(y, m + 1) then m else MonthFrom(y, r, m + 1)
  }

  /** The calendar date `n` days after 1970-01-01 (before it when `n < 0`). */
  function CivilFromDays(n: int): (d: Date)
    ensures Valid(d)
    ensures DaysFromCivil(d) == n
  {
    var y := YearForward(n, YearLowerBound(n));
    var r := n - DaysBeforeYear(y);
    YearStep(y);
    MonthStarts(y);
    var m := MonthFrom(y, r, 1);
    Date(y, m, r - DaysBeforeMonth(y, m) + 1)
  }

  /** A valid date lies within its own year. */
  lemma DayWithinYear(d: Date)
    requires Valid(d)
    ensures DaysBeforeYear(d.year) <= DaysFromCivil(d) < DaysBeforeYear(d.year + 1)
  {
    YearStep(d.year);
    MonthPrefixBound(d.year, d.month);
  }

  lemma MonthPrefixBound(y: int, m: int)
    requires 1 <= m <= 12
    ensures DaysBeforeMonth(y, m) + DaysInMonth(y, m) <= DaysInYear(y)
  {
  }

  /** Different dates have different day numbers, so `CivilFromDays` undoes
      `DaysFromCivil`: together the two are a bijection between valid dates and
      integers. */
  lemma CivilFromDaysInverse(d: Date)
    requires Valid(d)
    ensures CivilFromDays(DaysFromCivil(d)) == d
  {
    var e := CivilFromDays(DaysFromCivil(d));
    DayWithinYear(d);
    DayWithinYear(e);
    YearUnique(DaysFromCivil(d), d.year, e.year);
    MonthUnique(d.year, DaysFromCivil(d) - DaysBeforeYear(d.year), d.month, e.month);
  }

  /** Each day belongs to exactly one year. */
  lemma YearUnique(n: int, y1: int, y2: int)
    requires DaysBeforeYear(y1) <= n < DaysBeforeYear(y1 + 1)
    requires DaysBeforeYear(y2) <= n < DaysBeforeYear(y2 + 1)
    ensures y1 == y2
  {
    if y1 + 1 < y2 {
      YearStartsIncrease(y1 + 1, y2);
    } else if y2 + 1 < y1 {
      YearStartsIncrease(y2 + 1, y1);
    }
  }

  /** Each day of a year belongs to exactly one month. */
  lemma MonthUnique(y: int, r: int, m1: int, m2: int)
    requires 1 <= m1 <= 12 && 1 <= m2 <= 12
    requires DaysBeforeMonth(y, m1) <= r < DaysBeforeMonth(y, m1) + DaysInMonth(y, m1)
    requires DaysBeforeMonth(y, m2) <= r < DaysBeforeMonth(y, m2) + DaysInMonth(y, m2)
    ensures m1 == m2
  {
    if m1 < m2 {
      MonthsOrdered(y, m1, m2);
    } else if m2 < m1 {
      MonthsOrdered(y, m2, m1);
    }
  }

  /** Month starts are separated by at least the length of the earlier month. */
  lemma MonthsOrdered(y: int, a: int, b: int)
    requires 1 <= a < b <= 12
    ensures DaysBeforeMonth(y, a) + DaysInMonth(y, a) <= DaysBeforeMonth(y, b)
  {
  }
}
