/** The proleptic Gregorian calendar, day by day from the first of January of year 1, and
    instants counted in nanoseconds from its midnight. */
module Calendar {

  datatype Date = Date(year: int, month: int, day: int)

  predicate LeapYear(y: int) {
    y % 4 == 0 && (y % 100 != 0 || y % 400 == 0)
  }

  function MonthLength(y: int, m: int): int {
    if m == 2 then (if LeapYear(y) then 29 else 28)
    else if m == 4 || m == 6 || m == 9 || m == 11 then 30
    else 31
  }

  function NextDay(d: Date): Date {
    if d.day < MonthLength(d.year, d.month) then Date(d.year, d.month, d.day + 1)
    else if d.month < 12 then Date(d.year, d.month + 1, 1)
    else Date(d.year + 1, 1, 1)
  }

  function DateOf(n: nat): (d: Date)
    ensures 1 <= d.month <= 12 && 1 <= d.day <= MonthLength(d.year, d.month)
  {
    if n == 0 then Date(1, 1, 1) else NextDay(DateOf(n - 1))
  }

  /** Sunday is 0; the first day of year 1 was a Monday. */
  function WeekdayOf(n: nat): nat {
    (n + 1) % 7
  }

  /** Less than four weeks on, a date is later in its month or earlier in the next one. */
  lemma {:induction false} Advance(n: nat, k: nat)
    requires k < 28
    ensures var d, e := DateOf(n), DateOf(n + k);
            var len := MonthLength(d.year, d.month);
            if d.day + k <= len then e == Date(d.year, d.month, d.day + k) else e.day == d.day + k - len
    decreases k
  {
    if k > 0 { Advance(n, k - 1); }
  }

  /** The same day of the month comes again after 28 days at the earliest. */
  lemma SameDayApart(a: nat, b: nat)
    requires a < b && DateOf(a).day == DateOf(b).day
    ensures b - a >= 28
  {
    if b - a < 28 { Advance(a, b - a); }
  }

  lemma SameWeekdayApart(a: nat, b: nat)
    requires a < b && WeekdayOf(a) == WeekdayOf(b)
    ensures b - a >= 7
  {
  }

  // ---------- instants ----------

  const SECOND: nat := 1_000_000_000
  const MINUTE: nat := 60 * SECOND
  const HOUR: nat := 60 * MINUTE
  const DAY: nat := 24 * HOUR

  /** The minute an instant lies in. */
  function MinuteOf(t: nat): nat {
    t / MINUTE
  }

  function DayOf(t: nat): nat {
    MinuteOf(t) / 1440
  }

  function HourOfDay(t: nat): nat {
    MinuteOf(t) % 1440 / 60
  }

  function MinuteOfHour(t: nat): nat {
    MinuteOf(t) % 60
  }

  const MAX_DURATION: int := 0x7FFF_FFFF_FFFF_FFFF
  const MIN_DURATION: int := -0x8000_0000_0000_0000

  /** The time between two instants, as far as a duration can tell. */
  function Sub(a: int, b: int): int {
    if a - b > MAX_DURATION then MAX_DURATION else if a - b < MIN_DURATION then MIN_DURATION else a - b
  }
}
