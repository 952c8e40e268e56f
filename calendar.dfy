/** The calendar arithmetic that `datetime`, `pytz` and `relativedelta` do for
    utils/timestamp.py: a wall-clock instant is a civil date plus the
    milliseconds into that day; an instant is a number of milliseconds since
    the Unix epoch. Only dates from 1970 on are representable. */
module Calendar {

  const MS_PER_HOUR: nat := 3600000
  const MS_PER_DAY: nat := 86400000

  /** A wall-clock moment: proleptic Gregorian date and time of day. */
  datatype Civil = Civil(year: int, month: int, day: int, msOfDay: int)

  predicate IsLeap(y: int) {
    y % 4 == 0 && (y % 100 != 0 || y % 400 == 0)
  }

  /** `calendar.monthrange(y, m)[1]`. */
  function DaysInMonth(y: int, m: int): nat
    requires 1 <= m <= 12
  {
    if m == 2 then (if IsLeap(y) then 29 else 28)
    else if m == 4 || m == 6 || m == 9 || m == 11 then 30
    else 31
  }

  /** Days of year `y` before the first day of month `m` (`m == 13`: the whole year). */
  function DaysBeforeMonth(y: int, m: int): nat
    requires 1 <= m <= 13
    decreases m
  {
    if m == 1 then 0 else DaysBeforeMonth(y, m - 1) + DaysInMonth(y, m - 1)
  }

  function DaysInYear(y: int): nat {
    if IsLeap(y) then 366 else 365
  }

  /** The months of a year add up to the year. */
  lemma MonthsFillYear(y: int)
    ensures DaysBeforeMonth(y, 13) == DaysInYear(y)
  {
  }

  /** Days from 1970-01-01 to the first day of year `y`. */
  function DaysBeforeYear(y: int): nat
    requires 1970 <= y
    decreases y - 1970
  {
    if y == 1970 then 0 else DaysBeforeYear(y - 1) + DaysInYear(y - 1)
  }

  predicate Valid(c: Civil) {
    && 1970 <= c.year
    && 1 <= c.month <= 12
    && 1 <= c.day <= DaysInMonth(c.year, c.month)
    && 0 <= c.msOfDay < MS_PER_DAY
  }

  function DayNumber(c: Civil): nat
    requires Valid(c)
  {
    DaysBeforeYear(c.year) + DaysBeforeMonth(c.year, c.month) + c.day - 1
  }

  /** The wall-clock moment as milliseconds since 1970-01-01 00:00 on the same clock. */
  function ToLocalMs(c: Civil): nat
    requires Valid(c)
  {
    DayNumber(c) * MS_PER_DAY + c.msOfDay
  }

  /** The year holding day `n` counted from the first day of year `y`, and
      the day's index within that year. */
  function YearOf(n: nat, y: int): (r: (int, nat))
    requires 1970 <= y
    ensures y <= r.0 && r.1 < DaysInYear(r.0)
    ensures DaysBeforeYear(r.0) + r.1 == DaysBeforeYear(y) + n
    decreases n
  {
    if n < DaysInYear(y) then (y, n) else YearOf(n - DaysInYear(y), y + 1)
  }

  /** The month and day of month holding day `rem` counted from the first day
      of month `m` of year `y`. */
  function MonthOf(y: int, rem: nat, m: int): (r: (int, int))
    requires 1 <= m <= 12
    requires DaysBeforeMonth(y, m) + rem < DaysInYear(y)
    ensures m <= r.0 <= 12 && 1 <= r.1 <= DaysInMonth(y, r.0)
    ensures DaysBeforeMonth(y, r.0) + r.1 - 1 == DaysBeforeMonth(y, m) + rem
    decreases 13 - m
  {
    MonthsFillYear(y);
    if rem < DaysInMonth(y, m) then (m, rem + 1)
    else MonthOf(y, rem - DaysInMonth(y, m), m + 1)
  }

  /** The wall-clock moment `t` milliseconds after 1970-01-01 00:00. */
  function FromLocalMs(t: nat): (c: Civil)
    ensures Valid(c) && ToLocalMs(c) == t
  {
    var days := t / MS_PER_DAY;
    var (y, dayOfYear) := YearOf(days, 1970);
    var (m, d) := MonthOf(y, dayOfYear, 1);
    Civil(y, m, d, t % MS_PER_DAY)
  }

  /** Number of whole months from year 0 to the month of `c`. */
  function MonthIndex(c: Civil): int {
    c.year * 12 + c.month - 1
  }

  lemma {:induction false} DaysBeforeMonthMonotone(y: int, m1: int, m2: int)
    requires 1 <= m1 <= m2 <= 13
    ensures DaysBeforeMonth(y, m1) <= DaysBeforeMonth(y, m2)
    decreases m2
  {
    if m1 < m2 {
      DaysBeforeMonthMonotone(y, m1, m2 - 1);
    }
  }

  lemma {:induction false} DaysBeforeYearMonotone(y1: int, y2: int)
    requires 1970 <= y1 < y2
    ensures DaysBeforeYear(y1) + DaysInYear(y1) <= DaysBeforeYear(y2)
    decreases y2
  {
    if y1 < y2 - 1 {
      DaysBeforeYearMonotone(y1, y2 - 1);
    }
  }

  lemma MonthIndexOrder(y1: int, m1: int, y2: int, m2: int)
    requires 1 <= m1 <= 12 && 1 <= m2 <= 12
    requires y1 * 12 + m1 < y2 * 12 + m2
    ensures y1 < y2 || (y1 == y2 && m1 < m2)
  {
  }

  /** Every day of month `m1` comes before the first day of a later month `m2`. */
  lemma MonthEndsBefore(y1: int, m1: int, y2: int, m2: int)
    requires 1970 <= y1 && 1970 <= y2 && 1 <= m1 <= 12 && 1 <= m2 <= 12
    requires y1 < y2 || (y1 == y2 && m1 < m2)
    ensures DaysBeforeYear(y1) + DaysBeforeMonth(y1, m1) + DaysInMonth(y1, m1)
            <= DaysBeforeYear(y2) + DaysBeforeMonth(y2, m2)
  {
    assert DaysBeforeMonth(y1, m1 + 1) == DaysBeforeMonth(y1, m1) + DaysInMonth(y1, m1);
    if y1 == y2 {
      DaysBeforeMonthMonotone(y1, m1 + 1, m2);
    } else {
      DaysBeforeMonthMonotone(y1, m1 + 1, 13);
      MonthsFillYear(y1);
      DaysBeforeYearMonotone(y1, y2);
    }
  }

  /** A month that starts later starts after every day of an earlier month. */
  lemma MonthStartMonotone(c1: Civil, c2: Civil)
    requires Valid(c1) && Valid(c2)
    requires MonthIndex(c1) < MonthIndex(c2)
    ensures DayNumber(c1) < DayNumber(c2)
  {
    MonthIndexOrder(c1.year, c1.month, c2.year, c2.month);
    MonthEndsBefore(c1.year, c1.month, c2.year, c2.month);
  }

  /** Wall-clock moments in a later month are later instants. */
  lemma LaterMonthIsLater(c1: Civil, c2: Civil)
    requires Valid(c1) && Valid(c2)
    requires MonthIndex(c1) < MonthIndex(c2)
    ensures ToLocalMs(c1) < ToLocalMs(c2)
  {
    MonthStartMonotone(c1, c2);
    var n1, n2 := DayNumber(c1), DayNumber(c2);
    assert n1 + 1 <= n2;
    assert (n1 + 1) * MS_PER_DAY <= n2 * MS_PER_DAY;
  }

  function Min(a: int, b: int): int {
    if a <= b then a else b
  }

  /** `c + relativedelta(years=years, months=months)`: the month moves
      forward with carry into the year, the day of month is clamped to the
      length of the new month, the time of day is kept. */
  function ShiftMonths(c: Civil, years: nat, months: nat): (r: Civil)
    requires Valid(c)
    ensures Valid(r)
    ensures MonthIndex(r) == MonthIndex(c) + 12 * years + months
    ensures c.day <= DaysInMonth(r.year, r.month) ==> r.day == c.day
    ensures c.day > DaysInMonth(r.year, r.month) ==> r.day == DaysInMonth(r.year, r.month)
    ensures r.msOfDay == c.msOfDay
  {
    var index := c.month - 1 + months;
    var y := c.year + years + index / 12;
    var m := index % 12 + 1;
    Civil(y, m, Min(c.day, DaysInMonth(y, m)), c.msOfDay)
  }

  /** Shifting by at least one month moves to a strictly later moment;
      shifting by nothing changes nothing. */
  lemma ShiftMonthsLater(c: Civil, years: nat, months: nat)
    requires Valid(c)
    ensures years + months > 0 ==> ToLocalMs(c) < ToLocalMs(ShiftMonths(c, years, months))
    ensures years + months == 0 ==> ShiftMonths(c, years, months) == c
  {
    if years + months > 0 {
      LaterMonthIsLater(c, ShiftMonths(c, years, months));
    }
  }

  /** Adding one month to 31 January gives the last day of February. */
  lemma EndOfMonthClamps()
    ensures ShiftMonths(Civil(2025, 1, 31, 0), 0, 1) == Civil(2025, 2, 28, 0)
    ensures ShiftMonths(Civil(2024, 1, 31, 0), 0, 1) == Civil(2024, 2, 29, 0)
    ensures ShiftMonths(Civil(2024, 2, 29, 0), 1, 0) == Civil(2025, 2, 28, 0)
  {
  }
}
