/** The local calendar that `new Date(ms)` exposes through `getFullYear`,
    `getMonth` (0-based) and `getDate`. How a timestamp lands on a day depends
    on the device's time zone, so that decomposition is a parameter; the day
    before a date is computed here by the proleptic Gregorian rules that
    `Date.prototype.setDate` follows. */
module Dates {

  datatype CivilDate = CivilDate(year: int, month0: int, day: int)

  /** Decomposition of a millisecond timestamp into a local date. */
  type Calendar = int -> CivilDate

  predicate IsLeapYear(y: int)
  {
    y % 4 == 0 && (y % 100 != 0 || y % 400 == 0)
  }

  function DaysInMonth(year: int, month0: int): int
  {
    if month0 == 1 then (if IsLeapYear(year) then 29 else 28)
    else if month0 == 3 || month0 == 5 || month0 == 8 || month0 == 10 then 30
    else 31
  }

  predicate ValidDate(d: CivilDate)
  {
    0 <= d.month0 < 12 && 1 <= d.day <= DaysInMonth(d.year, d.month0)
  }

  /** The order of dates: by year, then month, then day. */
  predicate Earlier(a: CivilDate, b: CivilDate)
  {
    a.year < b.year ||
    (a.year == b.year && (a.month0 < b.month0 || (a.month0 == b.month0 && a.day < b.day)))
  }

  /** `d.setDate(d.getDate() - 1)`: day 0 of a month rolls back to the last
      day of the month before, and January 0 to December 31 of the year before. */
  function DayBefore(d: CivilDate): (r: CivilDate)
    ensures ValidDate(d) ==> ValidDate(r)
    ensures ValidDate(d) ==> Earlier(r, d)
    ensures ValidDate(d) ==> forall e :: ValidDate(e) && Earlier(e, d) ==> !Earlier(r, e)
  {
    if d.day > 1 then CivilDate(d.year, d.month0, d.day - 1)
    else if d.month0 > 0 then CivilDate(d.year, d.month0 - 1, DaysInMonth(d.year, d.month0 - 1))
    else CivilDate(d.year - 1, 11, 31)
  }

  /** The day before a date is a different date. */
  lemma DayBeforeDiffers(d: CivilDate)
    ensures DayBefore(d) != d
  {
  }

  /** On valid dates the day before is one-to-one, so "yesterday" names a
      single day. */
  lemma DayBeforeInjective(d: CivilDate, e: CivilDate)
    requires ValidDate(d) && ValidDate(e)
    requires DayBefore(d) == DayBefore(e)
    ensures d == e
  {
  }
}
