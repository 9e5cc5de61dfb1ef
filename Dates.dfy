/**
 * Calendar dates as the tracker stores them. An expense date is written to the
 * ledger as the ISO-8601 text `YYYY-MM-DD` of a `datetime.date`; for such text the
 * string order used by `ORDER BY date` and the chronological order used by the
 * pandas filters are the same order, which `OnOrBefore` gives.
 */
module Dates {

  datatype Date = Date(year: int, month: int, day: int)

  /** Chronological order: `a <= b`. */
  predicate OnOrBefore(a: Date, b: Date) {
    a.year < b.year
    || (a.year == b.year && (a.month < b.month || (a.month == b.month && a.day <= b.day)))
  }

  /** `date(today.year, today.month, 1)`. */
  function MonthStart(d: Date): Date {
    Date(d.year, d.month, 1)
  }

  /** The current month so far: `month_start <= d <= today`. */
  predicate InMonthToDate(d: Date, today: Date) {
    OnOrBefore(MonthStart(today), d) && OnOrBefore(d, today)
  }

  lemma MonthToDateIsThisMonth(d: Date, today: Date)
    ensures InMonthToDate(d, today) <==>
      d.year == today.year && d.month == today.month && 1 <= d.day <= today.day
  {
  }
}
