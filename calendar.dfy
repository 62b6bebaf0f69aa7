/**
 * Local calendar arithmetic used by the reminder rules.
 *
 * The source works with JavaScript `Date` objects in local time. Here an
 * instant is a count of milliseconds of local wall-clock time (no time zones,
 * no daylight-saving jumps), a day is an integer day number with
 * 1970-01-01 = day 0 (a Thursday), and a civil date is a (year, month, day)
 * triple with months numbered 0..11 as `Date.getMonth()` numbers them.
 */
module Calendar {

  /** Milliseconds in one day (the `1000 * 60 * 60 * 24` of the source). */
  const MsPerDay: int := 86400000

  /** Milliseconds of local wall-clock time since 1970-01-01 00:00. */
  type Instant = int

  /** The day number an instant falls on. */
  function DayOf(t: Instant): int {
    t / MsPerDay
  }

  /** Local midnight of a day number (`setHours(0, 0, 0, 0)`). */
  function MidnightOf(day: int): Instant {
    day * MsPerDay
  }

  lemma DayOfMidnight(day: int, ms: int)
    requires 0 <= ms < MsPerDay
    ensures DayOf(MidnightOf(day) + ms) == day
  {
  }

  lemma MidnightOfDayOf(t: Instant)
    ensures MidnightOf(DayOf(t)) <= t < MidnightOf(DayOf(t)) + MsPerDay
  {
  }

  /** Moving an instant by whole days moves its day number by as many days and keeps its time of day. */
  lemma DayOfShift(t: Instant, k: int)
    ensures DayOf(t + k * MsPerDay) == DayOf(t) + k
    ensures (t + k * MsPerDay) % MsPerDay == t % MsPerDay
  {
    var q, r := t / MsPerDay, t % MsPerDay;
    assert t + k * MsPerDay == (q + k) * MsPerDay + r;
  }

  /** `Date.getDay()` of a day number: 0 = Sunday, 1 = Monday, ..., 6 = Saturday. */
  function Weekday(day: int): (w: int)
    ensures 0 <= w < 7
  {
    (day + 4) % 7
  }

  lemma WeekdayAfter(day: int, k: int)
    ensures Weekday(day + k) == (Weekday(day) + k) % 7
  {
  }

  // ---------------------------------------------------------------------
  // Civil (Gregorian) dates
  // ---------------------------------------------------------------------

  predicate IsLeapYear(y: int) {
    (y % 4 == 0 && y % 100 != 0) || y % 400 == 0
  }

  function YearLength(y: int): int {
    if IsLeapYear(y) then 366 else 365
  }

  /** Days of year `y` that precede month `m` (0 <= m <= 12). */
  function DaysBeforeMonth(y: int, m: int): int
    requires 0 <= m <= 12
  {
    [0, 31, 59, 90, 120, 151, 181, 212, 243, 273, 304, 334, 365][m]
      + (if m >= 2 && IsLeapYear(y) then 1 else 0)
  }

  /** Length of month `m` (0 = January) of year `y`. */
  function DaysInMonth(y: int, m: int): (n: int)
    requires 0 <= m < 12
    ensures 28 <= n <= 31
    ensures n == 29 <==> m == 1 && IsLeapYear(y)
    ensures n == 28 <==> m == 1 && !IsLeapYear(y)
    ensures n == 31 <==> m in {0, 2, 4, 6, 7, 9, 11}
  {
    DaysBeforeMonth(y, m + 1) - DaysBeforeMonth(y, m)
  }

  /** Number of leap years among 1..n (for n >= 0; floor arithmetic otherwise). */
  function LeapsThrough(n: int): int {
    n / 4 - n / 100 + n / 400
  }

  /** Day number of January 1st of year `y`. */
  function YearStart(y: int): int {
    365 * (y - 1970) + LeapsThrough(y - 1) - LeapsThrough(1969)
  }

  /** One more multiple of k is reached exactly when stepping onto one. */
  lemma FloorStep(n: int, k: int)
    requires k in {4, 100, 400}
    ensures n / k - (n - 1) / k == if n % k == 0 then 1 else 0
  {
    var q, r := n / k, n % k;
    assert n == k * q + r && 0 <= r < k;
    if r == 0 {
      assert n - 1 == k * (q - 1) + (k - 1);
    } else {
      assert n - 1 == k * q + (r - 1);
    }
  }

  /** A multiple of 400 is a multiple of 100. */
  lemma MultipleOf400(n: int)
    requires n % 400 == 0
    ensures n % 100 == 0
  {
    var q := n / 400;
    assert n == 100 * (4 * q) + 0;
  }

  /** A multiple of 100 is a multiple of 4. */
  lemma MultipleOf100(n: int)
    requires n % 100 == 0
    ensures n % 4 == 0
  {
    var q := n / 100;
    assert n == 4 * (25 * q) + 0;
  }

  /** Year n adds one leap day to the count exactly when it is a leap year. */
  lemma LeapsStep(n: int)
    ensures LeapsThrough(n) - LeapsThrough(n - 1) == if IsLeapYear(n) then 1 else 0
  {
    FloorStep(n, 4);
    FloorStep(n, 100);
    FloorStep(n, 400);
    if n % 400 == 0 {
      MultipleOf400(n);
    }
    if n % 100 == 0 {
      MultipleOf100(n);
    }
    var a, b, c := n / 4 - (n - 1) / 4, n / 100 - (n - 1) / 100, n / 400 - (n - 1) / 400;
    assert LeapsThrough(n) - LeapsThrough(n - 1) == a - b + c;
  }

  lemma YearStartStep(y: int)
    ensures YearStart(y + 1) == YearStart(y) + YearLength(y)
  {
    LeapsStep(y);
  }

  datatype CivilDate = CivilDate(year: int, month: int, day: int) {
    predicate Valid() {
      0 <= month < 12 && 1 <= day <= DaysInMonth(year, month)
    }
  }

  /** Day number of a civil date. */
  function DayNumber(d: CivilDate): int
    requires d.Valid()
  {
    YearStart(d.year) + DaysBeforeMonth(d.year, d.month) + d.day - 1
  }

  /** (year, month) of the month after month `m` of year `y`. */
  function NextMonth(y: int, m: int): (r: (int, int))
    requires 0 <= m < 12
    ensures 0 <= r.1 < 12
    ensures r == if m == 11 then (y + 1, 0) else (y, m + 1)
  {
    if m == 11 then (y + 1, 0) else (y, m + 1)
  }

  /** The first day of the next month comes right after the last day of this one. */
  lemma NextMonthStart(y: int, m: int)
    requires 0 <= m < 12
    ensures var (y', m') := NextMonth(y, m);
      DayNumber(CivilDate(y', m', 1)) == DayNumber(CivilDate(y, m, 1)) + DaysInMonth(y, m)
  {
    if m == 11 {
      YearStartStep(y);
    }
  }

  /** The last day of month `m` of year `y` (JavaScript's `new Date(y, m + 1, 0)`). */
  function EndOfMonth(y: int, m: int): (d: CivilDate)
    requires 0 <= m < 12
    ensures d.Valid() && d.year == y && d.month == m
    ensures d.day == DaysInMonth(y, m)
  {
    CivilDate(y, m, DaysInMonth(y, m))
  }

  /** A local date and time of day, the value of a JavaScript `Date`. */
  datatype LocalDateTime = LocalDateTime(date: CivilDate, msOfDay: int) {
    predicate Valid() {
      date.Valid() && 0 <= msOfDay < MsPerDay
    }
  }

  function ToInstant(t: LocalDateTime): Instant
    requires t.Valid()
  {
    MidnightOf(DayNumber(t.date)) + t.msOfDay
  }

  lemma DayOfToInstant(t: LocalDateTime)
    requires t.Valid()
    ensures DayOf(ToInstant(t)) == DayNumber(t.date)
  {
    DayOfMidnight(DayNumber(t.date), t.msOfDay);
  }

  /**
   * `d.setMonth(d.getMonth() + 1)`: same day of month in the next month, with
   * JavaScript's overflow into the month after when the next month is shorter
   * (January 31st becomes March 3rd, or March 2nd in a leap year).
   */
  function AddOneMonth(t: LocalDateTime): (r: LocalDateTime)
    requires t.Valid()
    ensures r.Valid() && r.msOfDay == t.msOfDay
    ensures ToInstant(r) == ToInstant(t) + DaysInMonth(t.date.year, t.date.month) * MsPerDay
    ensures var (y', m') := NextMonth(t.date.year, t.date.month);
      t.date.day <= DaysInMonth(y', m') ==> r.date == CivilDate(y', m', t.date.day)
  {
    var (y', m') := NextMonth(t.date.year, t.date.month);
    NextMonthStart(t.date.year, t.date.month);
    if t.date.day <= DaysInMonth(y', m') then
      LocalDateTime(CivilDate(y', m', t.date.day), t.msOfDay)
    else
      var (y'', m'') := NextMonth(y', m');
      NextMonthStart(y', m');
      LocalDateTime(CivilDate(y'', m'', t.date.day - DaysInMonth(y', m')), t.msOfDay)
  }
}
