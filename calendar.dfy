/** The proleptic Gregorian calendar of Python's `datetime.date`: years 1 to 9999,
    the day after a date (`date + timedelta(days=1)`), the ordinal day number
    (`date.toordinal()`), the ordering of dates, and the local wall-clock window
    of one day that the sales pipeline asks the payments source about. */
module Calendar {
  import opened Wrappers

  const MinYear := 1
  const MaxYear := 9999

  datatype RawDate = RawDate(year: int, month: int, day: int)

  predicate IsLeapYear(y: int) {
    y % 4 == 0 && (y % 100 != 0 || y % 400 == 0)
  }

  function DaysInMonth(y: int, m: int): int
    requires 1 <= m <= 12
  {
    if m == 2 then (if IsLeapYear(y) then 29 else 28)
    else if m == 4 || m == 6 || m == 9 || m == 11 then 30
    else 31
  }

  function DaysInYear(y: int): int {
    if IsLeapYear(y) then 366 else 365
  }

  predicate ValidDate(d: RawDate) {
    MinYear <= d.year <= MaxYear && 1 <= d.month <= 12 && 1 <= d.day <= DaysInMonth(d.year, d.month)
  }

  /** A value of Python's `datetime.date`. */
  type Date = d: RawDate | ValidDate(d) witness RawDate(1, 1, 1)

  /** `datetime.date.max` */
  const MaxDate: Date := RawDate(9999, 12, 31)

  /** Days in the years before `y` (Python's `_days_before_year`). */
  function DaysBeforeYear(y: int): int
    requires y >= 1
  {
    var x := y - 1;
    365 * x + x / 4 - x / 100 + x / 400
  }

  /** Days in the months of year `y` before month `m` (Python's `_days_before_month`). */
  function DaysBeforeMonth(y: int, m: int): int
    requires 1 <= m <= 12
  {
    var table := [0, 31, 59, 90, 120, 151, 181, 212, 243, 273, 304, 334];
    table[m - 1] + (if m > 2 && IsLeapYear(y) then 1 else 0)
  }

  /** `date.toordinal()`: 0001-01-01 is day 1. */
  function Ordinal(d: Date): int {
    DaysBeforeYear(d.year) + DaysBeforeMonth(d.year, d.month) + d.day
  }

  /** Python's `<=` on dates: lexicographic on (year, month, day). */
  predicate DateLe(a: Date, b: Date) {
    a.year < b.year || (a.year == b.year && (a.month < b.month || (a.month == b.month && a.day <= b.day)))
  }

  /** `date + timedelta(days=1)`; `None` stands for the OverflowError Python raises past `date.max`. */
  function NextDay(d: Date): (r: Option<Date>)
    ensures r.None? <==> d == MaxDate
    ensures r.Some? ==> DateLe(d, r.value) && r.value != d
  {
    if d.day < DaysInMonth(d.year, d.month) then
      Some(RawDate(d.year, d.month, d.day + 1))
    else if d.month < 12 then
      Some(RawDate(d.year, d.month + 1, 1))
    else if d.year < MaxYear then
      Some(RawDate(d.year + 1, 1, 1))
    else
      None
  }

  /** The next day is one day further in the count of days. */
  lemma NextDayOrdinal(d: Date)
    requires d != MaxDate
    ensures Ordinal(NextDay(d).value) == Ordinal(d) + 1
  {
    if d.day < DaysInMonth(d.year, d.month) {
    } else if d.month < 12 {
      DaysBeforeMonthStep(d.year, d.month);
    } else {
      DaysBeforeYearStep(d.year);
    }
  }

  lemma DaysBeforeMonthStep(y: int, m: int)
    requires 1 <= m < 12
    ensures DaysBeforeMonth(y, m + 1) == DaysBeforeMonth(y, m) + DaysInMonth(y, m)
  {
  }

  lemma DaysBeforeYearStep(y: int)
    requires y >= 1
    ensures DaysBeforeYear(y + 1) == DaysBeforeYear(y) + DaysInYear(y)
  {
    var x := y - 1;
    DivStep4(x);
    DivStep100(x);
    DivStep400(x);
  }

  lemma DivStep4(x: int)
    requires x >= 0
    ensures (x + 1) / 4 == x / 4 + (if (x + 1) % 4 == 0 then 1 else 0)
  {
    var q, r := x / 4, x % 4;
    assert x == 4 * q + r;
    if r == 3 {
      assert x + 1 == 4 * (q + 1);
    } else {
      assert x + 1 == 4 * q + (r + 1);
    }
  }

  lemma DivStep100(x: int)
    requires x >= 0
    ensures (x + 1) / 100 == x / 100 + (if (x + 1) % 100 == 0 then 1 else 0)
  {
    var q, r := x / 100, x % 100;
    assert x == 100 * q + r;
    if r == 99 {
      assert x + 1 == 100 * (q + 1);
    } else {
      assert x + 1 == 100 * q + (r + 1);
    }
  }

  lemma DivStep400(x: int)
    requires x >= 0
    ensures (x + 1) / 400 == x / 400 + (if (x + 1) % 400 == 0 then 1 else 0)
  {
    var q, r := x / 400, x % 400;
    assert x == 400 * q + r;
    if r == 399 {
      assert x + 1 == 400 * (q + 1);
    } else {
      assert x + 1 == 400 * q + (r + 1);
    }
  }

  lemma DaysBeforeMonthBound(y: int, m: int)
    requires 1 <= m <= 12
    ensures DaysBeforeMonth(y, m) + DaysInMonth(y, m) <= DaysInYear(y)
  {
  }

  lemma {:induction false} DaysBeforeMonthMonotone(y: int, m1: int, m2: int)
    requires 1 <= m1 < m2 <= 12
    ensures DaysBeforeMonth(y, m1) + DaysInMonth(y, m1) <= DaysBeforeMonth(y, m2)
    decreases m2 - m1
  {
    DaysBeforeMonthStep(y, m1);
    if m1 + 1 < m2 {
      DaysBeforeMonthMonotone(y, m1 + 1, m2);
    }
  }

  lemma {:induction false} DaysBeforeYearMonotone(y1: int, y2: int)
    requires 1 <= y1 < y2
    ensures DaysBeforeYear(y1) + DaysInYear(y1) <= DaysBeforeYear(y2)
    decreases y2 - y1
  {
    DaysBeforeYearStep(y1);
    if y1 + 1 < y2 {
      DaysBeforeYearMonotone(y1 + 1, y2);
      DaysBeforeYearStep(y1 + 1);
    }
  }

  /** A date's ordinal lies within its own year's block of day numbers. */
  lemma OrdinalWithinYear(d: Date)
    ensures DaysBeforeYear(d.year) < Ordinal(d) <= DaysBeforeYear(d.year) + DaysInYear(d.year)
  {
    DaysBeforeMonthBound(d.year, d.month);
  }

  /** A date strictly before another (in Python's comparison) has a smaller ordinal. */
  lemma OrdinalStrictlyMonotone(a: Date, b: Date)
    requires DateLe(a, b) && a != b
    ensures Ordinal(a) < Ordinal(b)
  {
    if a.year < b.year {
      OrdinalWithinYear(a);
      OrdinalWithinYear(b);
      DaysBeforeYearMonotone(a.year, b.year);
    } else if a.month < b.month {
      DaysBeforeMonthMonotone(a.year, a.month, b.month);
    }
  }

  /** Python's date comparison agrees with the order of ordinals, and the ordinal
      determines the date. */
  lemma OrdinalOrder(a: Date, b: Date)
    ensures DateLe(a, b) <==> Ordinal(a) <= Ordinal(b)
    ensures Ordinal(a) == Ordinal(b) <==> a == b
  {
    if a != b {
      if DateLe(a, b) {
        OrdinalStrictlyMonotone(a, b);
      } else {
        assert DateLe(b, a);
        OrdinalStrictlyMonotone(b, a);
      }
    }
  }

  /** Milliseconds in one day of local wall-clock time. */
  const MsPerDay := 86_400_000

  /** A request window: both bounds inclusive, in local wall-clock milliseconds since
      0001-01-01T00:00. */
  datatype Window = Window(begin: int, end: int)

  predicate InWindow(t: int, w: Window) {
    w.begin <= t <= w.end
  }

  /** The window sent to the payments source for date `d`: from local midnight to the next
      local midnight minus one millisecond. */
  function DayWindow(d: Date): Window {
    var midnight := (Ordinal(d) - 1) * MsPerDay;
    Window(midnight, midnight + MsPerDay - 1)
  }

  /** The window of a day is one day minus one millisecond long, and the next day's window
      starts one millisecond after it ends: consecutive windows neither overlap nor leave a gap,
      and an instant at exact midnight belongs to the day that starts there. */
  lemma WindowsAdjacent(d: Date)
    requires d != MaxDate
    ensures DayWindow(d).end - DayWindow(d).begin == MsPerDay - 1
    ensures DayWindow(d).end + 1 == DayWindow(NextDay(d).value).begin
    ensures InWindow(DayWindow(NextDay(d).value).begin, DayWindow(NextDay(d).value))
    ensures !InWindow(DayWindow(NextDay(d).value).begin, DayWindow(d))
  {
    NextDayOrdinal(d);
  }

  /** Windows of different dates are disjoint. */
  lemma WindowsDisjoint(a: Date, b: Date, t: int)
    requires a != b
    ensures !(InWindow(t, DayWindow(a)) && InWindow(t, DayWindow(b)))
  {
    OrdinalOrder(a, b);
    if Ordinal(a) < Ordinal(b) {
      assert DayWindow(a).end < DayWindow(b).begin;
    } else {
      assert DayWindow(b).end < DayWindow(a).begin;
    }
  }
}
