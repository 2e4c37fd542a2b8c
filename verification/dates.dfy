/** Calendar dates as day ordinals, the way Python's `datetime.date` counts
    them (`toordinal`: 0001-01-01 is day 1, proleptic Gregorian calendar).
    A booking's arrival and departure are stored as ordinals; this module
    shows that adding `n` to an ordinal is the same as stepping the calendar
    forward `n` days, so `arrival + timedelta(days=n)` is ordinal addition. */
module Dates {

  /** Python's `date.min.toordinal()` and `date.max.toordinal()` (9999-12-31). */
  const MinOrdinal: int := 1
  const MaxOrdinal: int := 3652059

  datatype Date = Date(year: int, month: int, day: int)

  predicate IsLeap(y: int)
  {
    y % 4 == 0 && (y % 100 != 0 || y % 400 == 0)
  }

  function DaysInMonth(y: int, m: int): int
    requires 1 <= m <= 12
  {
    if m == 2 then (if IsLeap(y) then 29 else 28)
    else if m == 4 || m == 6 || m == 9 || m == 11 then 30
    else 31
  }

  /** A date Python's `date` type can hold. */
  predicate ValidDate(d: Date)
  {
    1 <= d.year <= 9999 && 1 <= d.month <= 12 && 1 <= d.day <= DaysInMonth(d.year, d.month)
  }

  /** Days in the years before `y`. */
  function DaysBeforeYear(y: int): int
    requires y >= 1
  {
    var p := y - 1;
    p * 365 + p / 4 - p / 100 + p / 400
  }

  /** Days in the months of year `y` before month `m`. */
  function DaysBeforeMonth(y: int, m: int): int
    requires 1 <= m <= 12
  {
    [0, 31, 59, 90, 120, 151, 181, 212, 243, 273, 304, 334][m - 1]
    + (if m > 2 && IsLeap(y) then 1 else 0)
  }

  /** Python's `date.toordinal()`. */
  function Ordinal(d: Date): int
    requires ValidDate(d)
  {
    DaysBeforeYear(d.year) + DaysBeforeMonth(d.year, d.month) + d.day
  }

  const LastDate: Date := Date(9999, 12, 31)

  /** The calendar day after `d`. */
  function NextDay(d: Date): (r: Date)
    requires ValidDate(d) && d != LastDate
    ensures ValidDate(r)
  {
    if d.day < DaysInMonth(d.year, d.month) then Date(d.year, d.month, d.day + 1)
    else if d.month < 12 then Date(d.year, d.month + 1, 1)
    else Date(d.year + 1, 1, 1)
  }

  /** A year adds 366 days when it is a leap year and 365 otherwise. */
  lemma YearLength(y: int)
    requires y >= 1
    ensures DaysBeforeYear(y + 1) == DaysBeforeYear(y) + (if IsLeap(y) then 366 else 365)
  {
    var p := y - 1;
    assert y / 4 == p / 4 + (if y % 4 == 0 then 1 else 0);
    assert y / 100 == p / 100 + (if y % 100 == 0 then 1 else 0);
    assert y / 400 == p / 400 + (if y % 400 == 0 then 1 else 0);
    if y % 100 == 0 {
      assert y % 4 == 0;
    }
  }

  /** A month's days run straight into the next month's. */
  lemma MonthLength(y: int, m: int)
    requires 1 <= m < 12
    ensures DaysBeforeMonth(y, m + 1) == DaysBeforeMonth(y, m) + DaysInMonth(y, m)
  {
  }

  /** Ordinals count calendar days: the next day has the next ordinal. */
  lemma NextDayOrdinal(d: Date)
    requires ValidDate(d) && d != LastDate
    ensures Ordinal(NextDay(d)) == Ordinal(d) + 1
  {
    if d.day < DaysInMonth(d.year, d.month) {
    } else if d.month < 12 {
      MonthLength(d.year, d.month);
    } else {
      YearLength(d.year);
    }
  }

  /** The last date Python can represent has the largest ordinal. */
  lemma LastDateOrdinal()
    ensures ValidDate(LastDate) && Ordinal(LastDate) == MaxOrdinal
  {
  }

  /** The date `n` calendar days after `d`, stepping one day at a time. */
  function AddDays(d: Date, n: nat): (r: Date)
    requires ValidDate(d) && Ordinal(d) + n <= MaxOrdinal
    ensures ValidDate(r)
    ensures Ordinal(r) == Ordinal(d) + n
    decreases n
  {
    if n == 0 then d
    else
      LastDateOrdinal();
      NextDayOrdinal(d);
      AddDays(NextDay(d), n - 1)
  }
}
