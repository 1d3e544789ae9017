/**
 * The proleptic Gregorian calendar behind the `Date` getters used when
 * bucketing metrics (`getFullYear`, `getMonth`, `getDate`, `getDay`,
 * `getHours`). Local time is UTC shifted by a fixed zone offset; daylight
 * saving is not modelled. Day numbers count days since 1970-01-01.
 */
module Calendar {

  const MsPerHour: int := 3600000
  const MsPerDay: int := 86400000

  predicate IsLeapYear(y: int) {
    y % 4 == 0 && (y % 100 != 0 || y % 400 == 0)
  }

  function DaysInYear(y: int): int {
    if IsLeapYear(y) then 366 else 365
  }

  /** Days of year `y` that lie before month `m` (0 = January, as `getMonth` counts). */
  function DaysBeforeMonth(y: int, m: int): int
    requires 0 <= m <= 12
  {
    var common :=
      if m == 0 then 0 else if m == 1 then 31 else if m == 2 then 59
      else if m == 3 then 90 else if m == 4 then 120 else if m == 5 then 151
      else if m == 6 then 181 else if m == 7 then 212 else if m == 8 then 243
      else if m == 9 then 273 else if m == 10 then 304 else if m == 11 then 334
      else 365;
    common + (if m >= 2 && IsLeapYear(y) then 1 else 0)
  }

  function DaysInMonth(y: int, m: int): int
    requires 0 <= m < 12
  {
    DaysBeforeMonth(y, m + 1) - DaysBeforeMonth(y, m)
  }

  lemma DaysBeforeMonthBounds(y: int, m: int)
    requires 0 <= m < 12
    ensures 0 <= DaysBeforeMonth(y, m) < DaysInYear(y)
    ensures 28 <= DaysInMonth(y, m) <= 31
    ensures DaysBeforeMonth(y, 12) == DaysInYear(y)
  {
  }

  lemma DaysBeforeMonthMonotone(y: int, m1: int, m2: int)
    requires 0 <= m1 < m2 <= 12
    ensures DaysBeforeMonth(y, m1 + 1) <= DaysBeforeMonth(y, m2)
  {
  }

  /** Days from 1970-01-01 to January 1 of year `y` (negative before 1970). */
  function DaysBeforeYear(y: int): int
    decreases if y < 1970 then 1970 - y else y - 1970
  {
    if y == 1970 then 0
    else if y > 1970 then DaysBeforeYear(y - 1) + DaysInYear(y - 1)
    else DaysBeforeYear(y + 1) - DaysInYear(y)
  }

  lemma DaysBeforeNextYear(y: int)
    ensures DaysBeforeYear(y + 1) == DaysBeforeYear(y) + DaysInYear(y)
  {
  }

  lemma {:induction false} DaysBeforeYearGrows(a: int, b: int)
    requires a < b
    ensures DaysBeforeYear(a) + DaysInYear(a) <= DaysBeforeYear(b)
    decreases b - a
  {
    DaysBeforeNextYear(a);
    if a + 1 < b {
      DaysBeforeYearGrows(a + 1, b);
    }
  }

  /** Each day number falls in exactly one year. */
  lemma YearUnique(y1: int, a: int, y2: int, b: int)
    requires DaysBeforeYear(y1) + a == DaysBeforeYear(y2) + b
    requires 0 <= a < DaysInYear(y1) && 0 <= b < DaysInYear(y2)
    ensures y1 == y2
  {
    if y1 < y2 {
      DaysBeforeYearGrows(y1, y2);
    } else if y2 < y1 {
      DaysBeforeYearGrows(y2, y1);
    }
  }

  /**
   * Splits `d` days after January 1 of year `y` into a year and a 0-based day
   * of that year, walking one year at a time.
   */
  function YearOf(d: int, y: int): (r: (int, int))
    ensures DaysBeforeYear(y) + d == DaysBeforeYear(r.0) + r.1
    ensures 0 <= r.1 < DaysInYear(r.0)
    decreases (if d < 0 then 1 else 0), (if d < 0 then -d else d)
  {
    if d < 0 then
      DaysBeforeNextYear(y - 1);
      YearOf(d + DaysInYear(y - 1), y - 1)
    else if d >= DaysInYear(y) then
      DaysBeforeNextYear(y);
      YearOf(d - DaysInYear(y), y + 1)
    else
      (y, d)
  }

  /** Splits a 0-based day of year `y` into a month (from `m` on) and a 0-based day of that month. */
  function MonthOf(doy: int, y: int, m: int): (r: (int, int))
    requires 0 <= m < 12
    requires DaysBeforeMonth(y, m) <= doy < DaysInYear(y)
    ensures m <= r.0 < 12
    ensures DaysBeforeMonth(y, r.0) + r.1 == doy
    ensures 0 <= r.1 < DaysInMonth(y, r.0)
    decreases 12 - m
  {
    if doy < DaysBeforeMonth(y, m + 1) then (m, doy - DaysBeforeMonth(y, m))
    else MonthOf(doy, y, m + 1)
  }

  /** A calendar date as the `Date` getters report it: `month` 0..11, `day` 1..31. */
  datatype CivilDate = CivilDate(year: int, month: int, day: int)

  predicate ValidCivil(c: CivilDate) {
    0 <= c.month < 12 && 1 <= c.day <= DaysInMonth(c.year, c.month)
  }

  function DayOfCivil(c: CivilDate): int
    requires ValidCivil(c)
  {
    DaysBeforeYear(c.year) + DaysBeforeMonth(c.year, c.month) + c.day - 1
  }

  /** The calendar date of a day number. */
  function CivilOfDay(d: int): (c: CivilDate)
    ensures ValidCivil(c)
    ensures DayOfCivil(c) == d
  {
    var (y, doy) := YearOf(d, 1970);
    var (m, dom) := MonthOf(doy, y, 0);
    CivilDate(y, m, dom + 1)
  }

  /** Distinct days have distinct calendar dates. */
  lemma CivilOfDayInjective(d1: int, d2: int)
    ensures CivilOfDay(d1) == CivilOfDay(d2) <==> d1 == d2
  {
  }

  /** Every valid calendar date is the date of its own day number. */
  lemma CivilOfDayOfCivil(c: CivilDate)
    requires ValidCivil(c)
    ensures CivilOfDay(DayOfCivil(c)) == c
  {
    var c' := CivilOfDay(DayOfCivil(c));
    DaysBeforeMonthBounds(c.year, c.month);
    DaysBeforeMonthBounds(c'.year, c'.month);
    YearUnique(c'.year, DaysBeforeMonth(c'.year, c'.month) + c'.day - 1,
               c.year, DaysBeforeMonth(c.year, c.month) + c.day - 1);
    MonthUnique(c.year, c'.month, c'.day - 1, c.month, c.day - 1);
    assert c'.day == c.day;
  }

  /** Each day of a year falls in exactly one month. */
  lemma MonthUnique(y: int, m1: int, a: int, m2: int, b: int)
    requires 0 <= m1 < 12 && 0 <= m2 < 12
    requires 0 <= a < DaysInMonth(y, m1) && 0 <= b < DaysInMonth(y, m2)
    requires DaysBeforeMonth(y, m1) + a == DaysBeforeMonth(y, m2) + b
    ensures m1 == m2
  {
    if m1 < m2 {
      DaysBeforeMonthMonotone(y, m1, m2);
    } else if m2 < m1 {
      DaysBeforeMonthMonotone(y, m2, m1);
    }
  }

  /** The first day of the month that contains day `d`. */
  function MonthStartDay(d: int): (s: int)
    ensures s <= d
    ensures CivilOfDay(s) == CivilDate(CivilOfDay(d).year, CivilOfDay(d).month, 1)
  {
    var c := CivilOfDay(d);
    var first := CivilDate(c.year, c.month, 1);
    DaysBeforeMonthBounds(c.year, c.month);
    CivilOfDayOfCivil(first);
    d - (c.day - 1)
  }

  /** `getDay()`: 0 = Sunday; 1970-01-01 was a Thursday. */
  function Weekday(d: int): (w: int)
    ensures 0 <= w < 7
  {
    (d + 4) % 7
  }

  /** The weekday advances by one each day, wrapping after Saturday, and 1970-01-04 was a Sunday. */
  lemma WeekdayCycle(d: int)
    ensures Weekday(d + 1) == (Weekday(d) + 1) % 7
    ensures Weekday(DayOfCivil(CivilDate(1970, 0, 4))) == 0
  {
    assert DayOfCivil(CivilDate(1970, 0, 4)) == 3;
  }

  /** The day number of a local time value (floor division). */
  function DayNumber(local: int): int {
    local / MsPerDay
  }

  /** `getHours()` of a local time value. */
  function HourOfDay(local: int): (h: int)
    ensures 0 <= h < 24
    ensures h * MsPerHour <= local % MsPerDay < (h + 1) * MsPerHour
  {
    (local % MsPerDay) / MsPerHour
  }
}
