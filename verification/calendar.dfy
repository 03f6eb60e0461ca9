/** Proleptic Gregorian calendar dates, their validity rules and their
    chronological order. */
module Calendar {

  /** A calendar day with no time component. Fields are unconstrained so that
      a lenient parser may produce them; `IsValid` says when they name a real day. */
  datatype Date = Date(year: int, month: int, day: int)

  /** Gregorian leap-year rule (section 5.7 of RFC 3339). */
  predicate IsLeapYear(y: int) {
    y % 4 == 0 && (y % 100 != 0 || y % 400 == 0)
  }

  /** Number of days in month `m` of year `y` (section 5.7 of RFC 3339). */
  function DaysInMonth(y: int, m: int): (n: int)
    requires 1 <= m <= 12
    ensures 28 <= n <= 31
  {
    if m == 2 then (if IsLeapYear(y) then 29 else 28)
    else if m == 4 || m == 6 || m == 9 || m == 11 then 30
    else 31
  }

  /** The fields name a real day of the Gregorian calendar. */
  predicate IsValid(d: Date) {
    1 <= d.month <= 12 && 1 <= d.day <= DaysInMonth(d.year, d.month)
  }

  /** Strict chronological order: lexicographic on (year, month, day). */
  predicate Before(a: Date, b: Date) {
    || a.year < b.year
    || (a.year == b.year && a.month < b.month)
    || (a.year == b.year && a.month == b.month && a.day < b.day)
  }

  /** `a` is the same day as `b` or a later one. */
  predicate OnOrAfter(a: Date, b: Date) {
    a == b || Before(b, a)
  }

  lemma BeforeIsStrictTotalOrder(a: Date, b: Date, c: Date)
    ensures !Before(a, a)
    ensures Before(a, b) ==> !Before(b, a)
    ensures Before(a, b) && Before(b, c) ==> Before(a, c)
    ensures a != b ==> Before(a, b) || Before(b, a)
  {
  }

  /** The day after a valid day: it is valid, later, and no valid day lies
      strictly between the two. */
  function NextDay(d: Date): (r: Date)
    requires IsValid(d)
    ensures IsValid(r)
    ensures Before(d, r)
    ensures forall e :: Before(d, e) && Before(e, r) ==> !IsValid(e)
  {
    if d.day < DaysInMonth(d.year, d.month) then Date(d.year, d.month, d.day + 1)
    else if d.month < 12 then Date(d.year, d.month + 1, 1)
    else Date(d.year + 1, 1, 1)
  }
}
