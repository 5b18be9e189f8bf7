/** Calendar dates and the part of Go's time package the billing code uses. */
module Calendar {

  datatype Date = Date(year: int, month: int, day: int)

  predicate IsLeap(year: int) {
    year % 4 == 0 && (year % 100 != 0 || year % 400 == 0)
  }

  function DaysIn(year: int, month: int): (n: int)
    ensures 28 <= n <= 31
  {
    if month == 2 then (if IsLeap(year) then 29 else 28)
    else if month in {4, 6, 9, 11} then 30
    else 31
  }

  predicate IsDate(d: Date) {
    1 <= d.month <= 12 && 1 <= d.day <= DaysIn(d.year, d.month)
  }

  /** Months on one line, so that December is followed by the next January. */
  function MonthIndex(d: Date): int {
    12 * d.year + d.month - 1
  }

  predicate Before(a: Date, b: Date) {
    a.year < b.year || (a.year == b.year && (a.month < b.month || (a.month == b.month && a.day < b.day)))
  }

  function FirstOfNextMonth(d: Date): Date {
    if d.month == 12 then Date(d.year + 1, 1, 1) else Date(d.year, d.month + 1, 1)
  }

  function NextDay(d: Date): Date {
    if d.day < DaysIn(d.year, d.month) then d.(day := d.day + 1) else FirstOfNextMonth(d)
  }

  /** Length of the month after the one of d. */
  function NextMonthLength(d: Date): int {
    var first := FirstOfNextMonth(d);
    DaysIn(first.year, first.month)
  }

  /** d.AddDate(0, 1, 0): a day the next month does not have spills into the month after it. */
  function AddMonth(d: Date): Date {
    var first := FirstOfNextMonth(d);
    if d.day <= DaysIn(first.year, first.month) then first.(day := d.day)
    else FirstOfNextMonth(first).(day := d.day - DaysIn(first.year, first.month))
  }

  // ---------------------------------------------------------------- day numbers

  function DaysBeforeYear(year: int): int {
    365 * (year - 1) + (year - 1) / 4 - (year - 1) / 100 + (year - 1) / 400
  }

  function DaysBeforeMonth(year: int, month: int): int
    requires 1 <= month <= 12
    decreases month
  {
    if month == 1 then 0 else DaysBeforeMonth(year, month - 1) + DaysIn(year, month - 1)
  }

  /** Days since 31 December of year 0. */
  function DayNumber(d: Date): int
    requires IsDate(d)
  {
    DaysBeforeYear(d.year) + DaysBeforeMonth(d.year, d.month) + d.day
  }

  lemma NextDayIsDate(d: Date)
    requires IsDate(d)
    ensures IsDate(NextDay(d)) && Before(d, NextDay(d))
  {
  }

  lemma YearLength(year: int)
    ensures DaysBeforeYear(year + 1) - DaysBeforeYear(year) == if IsLeap(year) then 366 else 365
  {
    assert year / 4 - (year - 1) / 4 == if year % 4 == 0 then 1 else 0;
    assert year / 100 - (year - 1) / 100 == if year % 100 == 0 then 1 else 0;
    assert year / 400 - (year - 1) / 400 == if year % 400 == 0 then 1 else 0;
  }

  lemma MonthsOfYear(year: int)
    ensures DaysBeforeMonth(year, 12) + 31 == if IsLeap(year) then 366 else 365
  {
    assert DaysBeforeMonth(year, 4) == if IsLeap(year) then 91 else 90;
    assert DaysBeforeMonth(year, 7) == DaysBeforeMonth(year, 4) + 91;
    assert DaysBeforeMonth(year, 10) == DaysBeforeMonth(year, 7) + 92;
  }

  /** The day numbers count the days one by one, across month and year ends. */
  lemma NextDayIsNextNumber(d: Date)
    requires IsDate(d)
    ensures IsDate(NextDay(d)) && DayNumber(NextDay(d)) == DayNumber(d) + 1
  {
    if d.month == 12 && d.day == 31 {
      YearLength(d.year);
      MonthsOfYear(d.year);
    }
  }

  /** No date lies between a day and the next one. */
  lemma NothingBetweenDays(d: Date, x: Date)
    requires IsDate(d) && IsDate(x) && Before(d, x)
    ensures x == NextDay(d) || Before(NextDay(d), x)
  {
  }

  /** AddDate counts on from the first day of the next month, as many days as the date is into its own. */
  lemma AddMonthCountsOn(d: Date)
    requires IsDate(d)
    ensures IsDate(AddMonth(d)) && DayNumber(AddMonth(d)) == DayNumber(FirstOfNextMonth(d)) + d.day - 1
  {
    var first := FirstOfNextMonth(d);
    if d.day > NextMonthLength(d) {
      assert DaysBeforeMonth(first.year, first.month + 1)
          == DaysBeforeMonth(first.year, first.month) + DaysIn(first.year, first.month);
    }
  }

  /** Adding a month gives a date of the next month exactly when that month has the day; else one month is skipped. */
  lemma AddMonthLands(d: Date)
    requires IsDate(d)
    ensures IsDate(AddMonth(d))
    ensures MonthIndex(AddMonth(d)) == MonthIndex(d) + if d.day <= NextMonthLength(d) then 1 else 2
  {
  }
}
