/** Calendar dates and the month range the report route builds with `new Date(year, m, 1)`. */
module Calendar {

  /** A calendar date, without time of day or time zone. */
  datatype Date = Date(year: int, month: int, day: int)

  predicate IsLeapYear(year: int) {
    year % 4 == 0 && (year % 100 != 0 || year % 400 == 0)
  }

  function DaysInMonth(year: int, month: int): (n: int)
    requires 1 <= month <= 12
    ensures 28 <= n <= 31
  {
    if month == 2 then (if IsLeapYear(year) then 29 else 28)
    else if month == 4 || month == 6 || month == 9 || month == 11 then 30
    else 31
  }

  predicate ValidDate(d: Date) {
    1 <= d.month <= 12 && 1 <= d.day <= DaysInMonth(d.year, d.month)
  }

  /** Strict chronological order: lexicographic on (year, month, day). */
  predicate Before(a: Date, b: Date) {
    || a.year < b.year
    || (a.year == b.year && a.month < b.month)
    || (a.year == b.year && a.month == b.month && a.day < b.day)
  }

  /** `lo <= d < hi`: the `$gte` / `$lt` pair of the report's match stage. */
  predicate InRange(d: Date, lo: Date, hi: Date) {
    !Before(d, lo) && Before(d, hi)
  }

  /** The year the JavaScript Date constructor takes a year argument to mean: 0..99 stand for 1900..1999. */
  function FullYear(year: int): (y: int)
    ensures y < 0 || 100 <= y
    ensures y == year || y == year + 1900
    ensures year < 0 || 100 <= year ==> y == year
  {
    if 0 <= year <= 99 then 1900 + year else year
  }

  /** `new Date(year, monthIndex, 1)`: months count from 0, and an index outside 0..11
      carries whole years into the year (floor division, as the Date constructor does). */
  function MonthStart(year: int, monthIndex: int): (d: Date)
    ensures ValidDate(d) && d.day == 1
    ensures 0 <= monthIndex < 12 ==> d == Date(FullYear(year), monthIndex + 1, 1)
  {
    Date(FullYear(year) + monthIndex / 12, monthIndex % 12 + 1, 1)
  }

  /** The first day of the month after the month of `d`. */
  function NextMonth(d: Date): (n: Date)
    requires 1 <= d.month <= 12
    ensures ValidDate(n) && n.day == 1 && Before(d, n)
  {
    if d.month == 12 then Date(d.year + 1, 1, 1) else Date(d.year, d.month + 1, 1)
  }

  /** Lower bound of the report range for (year, month): `new Date(year, month - 1, 1)`. */
  function ReportStart(year: int, month: int): (d: Date)
    ensures ValidDate(d) && d.day == 1
    ensures 1 <= month <= 12 ==> d == Date(FullYear(year), month, 1)
  {
    MonthStart(year, month - 1)
  }

  /** Exclusive upper bound of the report range: `new Date(year, month, 1)`. */
  function ReportEnd(year: int, month: int): (d: Date)
    ensures d == NextMonth(ReportStart(year, month))
    ensures Before(ReportStart(year, month), d)
  {
    MonthStartStep(year, month - 1);
    MonthStart(year, month)
  }

  /** One more month index is the first day of the next month; index 11 of a year rolls
      into index 0 of the next. */
  lemma MonthStartStep(year: int, monthIndex: int)
    ensures MonthStart(year, monthIndex + 1) == NextMonth(MonthStart(year, monthIndex))
  {
  }

  /** The report range of any (year, month) covers exactly one calendar month: the month
      of its lower bound. */
  lemma ReportRangeIsOneMonth(d: Date, year: int, month: int)
    requires ValidDate(d)
    ensures var lo := ReportStart(year, month);
      InRange(d, lo, ReportEnd(year, month)) <==> d.year == lo.year && d.month == lo.month
  {
  }

  /** December's range ends on 1 January of the following year. */
  lemma DecemberRollsOver(year: int)
    ensures ReportStart(year, 12) == Date(FullYear(year), 12, 1)
    ensures ReportEnd(year, 12) == Date(FullYear(year) + 1, 1, 1)
  {
  }

  /** For month 1..12, a valid date lies in the report range of (year, month) exactly when
      it lies in that year and month, so each date falls in exactly one month's range. */
  lemma InMonthExactly(d: Date, year: int, month: int)
    requires ValidDate(d) && 1 <= month <= 12
    ensures InRange(d, ReportStart(year, month), ReportEnd(year, month))
            <==> d.year == FullYear(year) && d.month == month
  {
  }
}
