/**
 The proleptic Gregorian calendar as datetime uses it: days are numbered so that day 1 is
 1 January of year 1, and weekday 0 is Monday.
 */
module Calendar {

  const MINUTES_PER_DAY: int := 1440
  const DAYS_BEFORE_MONTH: seq<int> := [0, 31, 59, 90, 120, 151, 181, 212, 243, 273, 304, 334]
  const MONTH_LENGTHS: seq<int> := [31, 28, 31, 30, 31, 30, 31, 31, 30, 31, 30, 31]

  datatype Date = Date(year: int, month: int, day: int)

  /** What a cron field or a maintenance window looks at. */
  datatype Local = Local(weekday: int, month: int, day: int, hour: int, minute: int) {
    function MinuteOfDay(): int { hour * 60 + minute }
  }

  predicate IsLeap(y: int) { y % 4 == 0 && (y % 100 != 0 || y % 400 == 0) }

  function LeapDay(y: int): int { if IsLeap(y) then 1 else 0 }

  /** The days of a month in a common year: what month has in every year. */
  function ShortMonth(m: int): int
    requires 1 <= m <= 12
  {
    MONTH_LENGTHS[m - 1]
  }

  function DaysInMonth(y: int, m: int): int
    requires 1 <= m <= 12
  {
    ShortMonth(m) + (if m == 2 then LeapDay(y) else 0)
  }

  function DaysBeforeYear(y: int): int {
    365 * (y - 1) + (y - 1) / 4 - (y - 1) / 100 + (y - 1) / 400
  }

  function DaysBeforeMonth(y: int, m: int): int
    requires 1 <= m <= 12
  {
    DAYS_BEFORE_MONTH[m - 1] + (if m > 2 then LeapDay(y) else 0)
  }

  predicate Valid(d: Date) {
    1 <= d.month <= 12 && 1 <= d.day <= DaysInMonth(d.year, d.month)
  }

  function Ordinal(d: Date): int
    requires 1 <= d.month <= 12
  {
    DaysBeforeYear(d.year) + DaysBeforeMonth(d.year, d.month) + d.day
  }

  lemma NextMonth(y: int, m: int)
    requires 1 <= m < 12
    ensures DaysBeforeMonth(y, m + 1) == DaysBeforeMonth(y, m) + DaysInMonth(y, m)
  {}

  lemma LastMonth(y: int)
    ensures DaysBeforeMonth(y, 12) + DaysInMonth(y, 12) == 365 + LeapDay(y)
  {}

  lemma NextYear(y: int)
    ensures DaysBeforeYear(y + 1) == DaysBeforeYear(y) + 365 + LeapDay(y)
  {
    Quotient(y, 4);
    Quotient(y, 100);
    Quotient(y, 400);
    LeapRule(y);
  }

  /** y / k steps up exactly at the multiples of k. */
  lemma Quotient(y: int, k: int)
    requires k in {4, 100, 400}
    ensures y / k == (y - 1) / k + (if y % k == 0 then 1 else 0)
  {}

  lemma LeapRule(y: int)
    ensures y % 400 == 0 ==> y % 100 == 0
    ensures y % 100 == 0 ==> y % 4 == 0
  {}

  // ---------------------------------------------------------------- from day numbers back to dates

  /** The year of day n, searching upwards from y. */
  function YearFrom(n: int, y: int): (r: int)
    requires DaysBeforeYear(y) < n
    ensures DaysBeforeYear(r) < n <= DaysBeforeYear(r + 1)
    decreases n - DaysBeforeYear(y)
  {
    NextYear(y);
    if n <= DaysBeforeYear(y + 1) then y else YearFrom(n, y + 1)
  }

  /** A year that starts before day n. */
  function EarlyYear(n: int): (y: int)
    ensures DaysBeforeYear(y) < n
  {
    if n >= 1 then (n - 1) / 366 + 1 else (n - 1) / 365
  }

  /** The month of the k-th day of year y, searching upwards from m. */
  function MonthFrom(y: int, k: int, m: int): (r: int)
    requires 1 <= m <= 12 && DaysBeforeMonth(y, m) < k <= 365 + LeapDay(y)
    ensures 1 <= r <= 12 && DaysBeforeMonth(y, r) < k <= DaysBeforeMonth(y, r) + DaysInMonth(y, r)
    decreases 12 - m
  {
    if m == 12 then (LastMonth(y); 12)
    else (NextMonth(y, m); if k <= DaysBeforeMonth(y, m + 1) then m else MonthFrom(y, k, m + 1))
  }

  /** The date of day n. */
  function DateOf(n: int): (d: Date)
    ensures Valid(d) && Ordinal(d) == n
  {
    var y := YearFrom(n, EarlyYear(n));
    NextYear(y);
    var k := n - DaysBeforeYear(y);
    var m := MonthFrom(y, k, 1);
    Date(y, m, k - DaysBeforeMonth(y, m))
  }

  lemma {:induction false} YearsInOrder(a: int, b: int)
    requires a <= b
    ensures DaysBeforeYear(b) >= DaysBeforeYear(a) + 365 * (b - a)
    decreases b - a
  {
    if a < b {
      NextYear(a);
      YearsInOrder(a + 1, b);
    }
  }

  lemma {:induction false} MonthsInOrder(y: int, a: int, b: int)
    requires 1 <= a < b <= 12
    ensures DaysBeforeMonth(y, b) >= DaysBeforeMonth(y, a) + DaysInMonth(y, a)
    decreases b - a
  {
    NextMonth(y, b - 1);
    if a < b - 1 { MonthsInOrder(y, a, b - 1); }
  }

  lemma {:induction false} DayOfYear(d: Date)
    requires Valid(d)
    ensures DaysBeforeYear(d.year) < Ordinal(d) <= DaysBeforeYear(d.year + 1)
  {
    NextYear(d.year);
    LastMonth(d.year);
    if d.month < 12 { MonthsInOrder(d.year, d.month, 12); }
  }

  /** Different dates have different numbers. */
  lemma OrdinalInjective(a: Date, b: Date)
    requires Valid(a) && Valid(b) && Ordinal(a) == Ordinal(b)
    ensures a == b
  {
    DayOfYear(a);
    DayOfYear(b);
    if a.year < b.year { YearsInOrder(a.year + 1, b.year); }
    if b.year < a.year { YearsInOrder(b.year + 1, a.year); }
    if a.month < b.month { MonthsInOrder(a.year, a.month, b.month); }
    if b.month < a.month { MonthsInOrder(a.year, b.month, a.month); }
  }

  /** Numbering and dating undo each other. */
  lemma DateRoundTrip(d: Date)
    requires Valid(d)
    ensures DateOf(Ordinal(d)) == d
  {
    OrdinalInjective(DateOf(Ordinal(d)), d);
  }

  function Weekday(n: int): int { (n + 6) % 7 }

  /** 1 January of year 1 is day 1. */
  lemma DayOne(d: Date)
    requires d.year == 1 && d.month == 1 && d.day == 1
    ensures Ordinal(d) == 1
  {
    assert DaysBeforeYear(d.year) == 0;
  }

  /** Day 1 is a Monday, and every day is followed by the next weekday. */
  lemma WeekdaysInTurn(n: int)
    ensures Weekday(1) == 0 && 0 <= Weekday(n) <= 6
    ensures Weekday(n + 1) == if Weekday(n) == 6 then 0 else Weekday(n) + 1
  {}

  lemma Quarters(a: int)
    ensures (a + 400) / 4 == a / 4 + 100 && (a + 400) % 4 == a % 4
  {}

  lemma Centuries(a: int)
    ensures (a + 400) / 100 == a / 100 + 4 && (a + 400) % 100 == a % 100
  {}

  lemma Cycles(a: int)
    ensures (a + 400) / 400 == a / 400 + 1 && (a + 400) % 400 == a % 400
  {}

  lemma YearsRepeat(y: int)
    ensures DaysBeforeYear(y + 400) == DaysBeforeYear(y) + 146_097 && IsLeap(y + 400) == IsLeap(y)
  {
    Quarters(y - 1);
    Centuries(y - 1);
    Cycles(y - 1);
    Quarters(y);
    Centuries(y);
    Cycles(y);
  }

  lemma WholeWeeks(n: int)
    ensures Weekday(n + 146_097) == Weekday(n)
  {}

  /** Four hundred years have 146,097 days, which are whole weeks. */
  lemma CalendarRepeats(y: int, m: int, day: int)
    requires 1 <= m <= 12
    ensures Ordinal(Date(y + 400, m, day)) == Ordinal(Date(y, m, day)) + 146_097
    ensures Weekday(Ordinal(Date(y + 400, m, day))) == Weekday(Ordinal(Date(y, m, day)))
  {
    var before, after := DaysBeforeYear(y), DaysBeforeYear(y + 400);
    YearsRepeat(y);
    assert DaysBeforeMonth(y + 400, m) == DaysBeforeMonth(y, m);
    WholeWeeks(Ordinal(Date(y, m, day)));
  }

  /** The date of each day; the results below that name no calendar hold for any. */
  type Dates = int -> Date

  /** The wall-clock fields of the minute that is t minutes after midnight of day 0. */
  function LocalAt(dates: Dates, t: int): Local {
    var d := dates(t / MINUTES_PER_DAY);
    Local(Weekday(t / MINUTES_PER_DAY), d.month, d.day, t % MINUTES_PER_DAY / 60, t % MINUTES_PER_DAY % 60)
  }

  /** The same day of two successive years is at most 366 days apart. */
  lemma YearlyGap(y: int, m: int, day: int)
    requires 1 <= m <= 12
    ensures 365 <= Ordinal(Date(y + 1, m, day)) - Ordinal(Date(y, m, day)) <= 366
  {
    NextYear(y);
    LeapsApart(y);
  }

  lemma LeapsApart(y: int)
    ensures !(IsLeap(y) && IsLeap(y + 1))
  {
    assert y % 4 == 0 ==> (y + 1) % 4 == 1;
  }

  /** Some year's (m, day) is the first one on or after day n. */
  lemma FirstOnOrAfter(n: int, m: int, day: int) returns (y: int)
    requires 1 <= m <= 12 && 1 <= day <= ShortMonth(m)
    ensures Ordinal(Date(y - 1, m, day)) < n <= Ordinal(Date(y, m, day))
  {
    y := YearFrom(n, EarlyYear(n));
    assert DaysBeforeYear(y - 1 + 1) < n <= DaysBeforeYear(y + 1);
    DayOfYear(Date(y - 1, m, day));
    DayOfYear(Date(y + 1, m, day));
    if Ordinal(Date(y, m, day)) < n { y := y + 1; }
  }

  /** Every 366 days contain every date that exists in every year. */
  lemma YearContainsDate(n: int, m: int, day: int) returns (k: int)
    requires 1 <= m <= 12 && 1 <= day <= ShortMonth(m)
    ensures n <= k < n + 366 && DateOf(k).month == m && DateOf(k).day == day
  {
    var y := FirstOnOrAfter(n, m, day);
    YearlyGap(y - 1, m, day);
    k := Ordinal(Date(y, m, day));
    DateRoundTrip(Date(y, m, day));
  }

  /** Every seven days contain every weekday. */
  lemma WeekContainsWeekday(n: int, w: int) returns (j: int)
    requires 0 <= w < 7
    ensures 0 <= j < 7 && Weekday(n + j) == w
  {
    j := (w - n - 6) % 7;
    assert (n + j + 6) % 7 == w;
  }

  predicate InMonth(n: int, m: int) { DateOf(n).month == m }

  lemma DaysOfMonth(y: int, m: int, n: int)
    requires 1 <= m <= 12 && Ordinal(Date(y, m, 1)) <= n < Ordinal(Date(y, m, 1)) + ShortMonth(m)
    ensures InMonth(n, m)
  {
    var d := Date(y, m, n - Ordinal(Date(y, m, 1)) + 1);
    assert Valid(d) && Ordinal(d) == n;
    DateRoundTrip(d);
  }

  /** Every 366 days contain seven consecutive days of every month. */
  lemma YearContainsWeekOfMonth(n: int, m: int) returns (k: int)
    requires 1 <= m <= 12
    ensures n <= k && k + 6 < n + 366
    ensures forall i :: k <= i < k + 7 ==> InMonth(i, m)
  {
    var y := FirstOnOrAfter(n, m, 1);
    YearlyGap(y - 1, m, 1);
    var late := Ordinal(Date(y, m, 1)) + 6 >= n + 366;
    var y' := if late then y - 1 else y;
    k := if late then n else Ordinal(Date(y, m, 1));
    forall i | k <= i < k + 7 ensures InMonth(i, m) {
      DaysOfMonth(y', m, i);
    }
  }

  /** Every 366 days contain every weekday inside every month. */
  lemma YearContainsWeekday(n: int, m: int, w: int) returns (k: int)
    requires 1 <= m <= 12 && 0 <= w < 7
    ensures n <= k < n + 366 && InMonth(k, m) && Weekday(k) == w
  {
    k := YearContainsWeekOfMonth(n, m);
    var j := WeekContainsWeekday(k, w);
    k := k + j;
  }

  /** The 366 days from 1 January 2097 contain no 29 February. */
  lemma NoLeapDayAfter2097(k: int)
    requires Ordinal(Date(2097, 1, 1)) <= k < Ordinal(Date(2097, 1, 1)) + 366
    ensures !(DateOf(k).month == 2 && DateOf(k).day == 29)
  {
    var d := DateOf(k);
    DayOfYear(d);
    if d.year < 2097 { YearsInOrder(d.year + 1, 2097); }
    if d.year > 2098 { YearsInOrder(2099, d.year); }
  }
}
