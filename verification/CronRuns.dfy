/**
 The minute-stepping search for the next cron run, and exactly when its one-year horizon is enough.
 */
module CronRuns {
  import opened Options
  import opened Calendar
  import opened Maintenance

  const HORIZON: int := 527_040

  /** A parsed cron expression; the two flags say that a day field was written as a bare star. */
  datatype Cron = Cron(
    minutes: set<int>, hours: set<int>, days: set<int>, months: set<int>, weekdays: set<int>,
    dayWildcard: bool, weekdayWildcard: bool)
  {
    /** What the parser guarantees of the five fields. */
    ghost predicate Parsed() {
      && (forall v :: v in minutes ==> 0 <= v <= 59) && (exists v :: v in minutes)
      && (forall v :: v in hours ==> 0 <= v <= 23) && (exists v :: v in hours)
      && (forall v :: v in days ==> 1 <= v <= 31) && (exists v :: v in days)
      && (forall v :: v in months ==> 1 <= v <= 12) && (exists v :: v in months)
      && (forall v :: v in weekdays ==> 0 <= v <= 6) && (exists v :: v in weekdays)
      && (dayWildcard ==> forall v :: 1 <= v <= 31 ==> v in days)
      && (weekdayWildcard ==> forall v :: 0 <= v <= 6 ==> v in weekdays)
    }

    /** A star in either day field makes the other one decide; otherwise one of the two is enough. */
    predicate DayMatches(local: Local) {
      var dayMatch, weekdayMatch := local.day in days, (local.weekday + 1) % 7 in weekdays;
      if dayWildcard || weekdayWildcard then dayMatch && weekdayMatch else dayMatch || weekdayMatch
    }

    predicate Matches(local: Local) {
      local.minute in minutes && local.hour in hours && local.month in months && DayMatches(local)
    }
  }

  predicate Eligible(cron: Cron, local: Local, windows: seq<Window>) {
    cron.Matches(local) && !InMaintenance(local, windows)
  }

  /** The first whole minute after an instant. */
  function FirstMinute(after: int): (m: int)
    ensures m % MINUTE == 0 && after < m <= after + MINUTE
  {
    after / MINUTE * MINUTE + MINUTE
  }

  predicate EligibleStep(cron: Cron, zone: Zone, windows: seq<Window>, after: int, k: int) {
    Eligible(cron, zone(FirstMinute(after) + k * MINUTE), windows)
  }

  /** r is the least eligible whole minute after `after`, if there is one within the horizon. */
  ghost predicate NextEligible(cron: Cron, zone: Zone, windows: seq<Window>, after: int, r: Option<int>) {
    && (r.Some? ==>
          && r.value > after && r.value % MINUTE == 0 && Eligible(cron, zone(r.value), windows)
          && forall t :: after < t < r.value && t % MINUTE == 0 ==> !Eligible(cron, zone(t), windows))
    && (r.None? <==> forall k :: 0 <= k < HORIZON ==> !EligibleStep(cron, zone, windows, after, k))
  }

  /** The cron number of the weekday, Sunday first, is listed. */
  predicate WeekdayListed(cron: Cron, local: Local) {
    if local.weekday == 6 then 0 in cron.weekdays else local.weekday + 1 in cron.weekdays
  }

  /**
   When a parsed expression runs: the clock fields and the month are listed; and with both day fields restricted either
   one will do, with a star for the day the weekday decides, with a star for the weekday the day does, and with both none.
   */
  ghost predicate RunsAt(cron: Cron, local: Local) {
    && local.minute in cron.minutes && local.hour in cron.hours && local.month in cron.months
    && (!cron.dayWildcard && !cron.weekdayWildcard ==> local.day in cron.days || WeekdayListed(cron, local))
    && (cron.dayWildcard && !cron.weekdayWildcard ==> WeekdayListed(cron, local))
    && (!cron.dayWildcard && cron.weekdayWildcard ==> local.day in cron.days)
  }

  /** A day of a month and a weekday as clocks show them. */
  predicate OnCalendar(local: Local) { 1 <= local.day <= 31 && 0 <= local.weekday <= 6 }

  lemma MatchesExactlyWhen(cron: Cron, local: Local)
    requires cron.Parsed() && OnCalendar(local)
    ensures cron.Matches(local) <==> RunsAt(cron, local)
  {}

  /** r is the least whole minute after `after` at which the expression runs and no window is open. */
  ghost predicate NextRun(cron: Cron, zone: Zone, windows: seq<Window>, after: int, r: int) {
    && after < r && r % MINUTE == 0 && RunsAt(cron, zone(r)) && !InMaintenance(zone(r), windows)
    && forall t :: after < t < r && t % MINUTE == 0 && RunsAt(cron, zone(t)) ==> InMaintenance(zone(t), windows)
  }

  lemma NextEligibleIsNextRun(cron: Cron, zone: Zone, windows: seq<Window>, after: int, r: int)
    requires cron.Parsed() && (forall t :: OnCalendar(zone(t)))
    ensures NextEligible(cron, zone, windows, after, Some(r)) ==> NextRun(cron, zone, windows, after, r)
  {
    forall t ensures cron.Matches(zone(t)) <==> RunsAt(cron, zone(t)) { MatchesExactlyWhen(cron, zone(t)); }
  }

  /** A whole minute after `after` is one of the steps of the search. */
  lemma IsStep(after: int, t: int) returns (j: nat)
    requires after < t && t % MINUTE == 0
    ensures t == FirstMinute(after) + j * MINUTE
  {
    j := t / MINUTE - after / MINUTE - 1;
  }

  lemma NoneBefore(cron: Cron, zone: Zone, windows: seq<Window>, after: int, k: nat)
    requires forall j :: 0 <= j < k ==> !EligibleStep(cron, zone, windows, after, j)
    ensures forall t :: after < t < FirstMinute(after) + k * MINUTE && t % MINUTE == 0 ==> !Eligible(cron, zone(t), windows)
  {
    forall t | after < t < FirstMinute(after) + k * MINUTE && t % MINUTE == 0 ensures !Eligible(cron, zone(t), windows) {
      var j := IsStep(after, t);
      assert !EligibleStep(cron, zone, windows, after, j);
    }
  }

  /**
   The earliest whole minute strictly after `after` that matches and is free, whatever the zone's
   local times are; None stands for giving up after a year of minutes.
   */
  method NextCronRun(cron: Cron, zone: Zone, after: int, windows: seq<Window>) returns (r: Option<int>)
    ensures NextEligible(cron, zone, windows, after, r)
    ensures cron.Parsed() && (forall t :: OnCalendar(zone(t))) && r.Some? ==> NextRun(cron, zone, windows, after, r.value)
  {
    var first := FirstMinute(after);
    var candidate := first;
    for k := 0 to HORIZON
      invariant candidate == first + k * MINUTE
      invariant forall j :: 0 <= j < k ==> !EligibleStep(cron, zone, windows, after, j)
    {
      if Eligible(cron, zone(candidate), windows) {
        assert EligibleStep(cron, zone, windows, after, k);
        NoneBefore(cron, zone, windows, after, k);
        if cron.Parsed() && (forall t :: OnCalendar(zone(t))) { NextEligibleIsNextRun(cron, zone, windows, after, candidate); }
        return Some(candidate);
      }
      candidate := candidate + MINUTE;
    }
    return None;
  }

  // ---------------------------------------------------------------- the horizon in a fixed-offset zone

  /** The local date and time of minute t match the expression. */
  predicate MatchesAt(cron: Cron, dates: Dates, t: int) { cron.Matches(LocalAt(dates, t)) }

  /** A date and its weekday match. */
  predicate DateOk(cron: Cron, d: Date, weekday: int) {
    d.month in cron.months && cron.DayMatches(Local(weekday, d.month, d.day, 0, 0))
  }

  predicate DateMatches(cron: Cron, dates: Dates, n: int) { DateOk(cron, dates(n), Weekday(n)) }

  /** The real calendar. */
  ghost predicate IsCalendar(dates: Dates) { forall n :: dates(n) == DateOf(n) }

  lemma DayAndMinute(n: int, m: int)
    requires 0 <= m < 1440
    ensures (n * 1440 + m) / 1440 == n && (n * 1440 + m) % 1440 == m
  {}

  lemma SplitMinute(dates: Dates, n: int, m: int)
    requires 0 <= m < MINUTES_PER_DAY
    ensures LocalAt(dates, n * MINUTES_PER_DAY + m) == Local(Weekday(n), dates(n).month, dates(n).day, m / 60, m % 60)
  {
    DayAndMinute(n, m);
    assert n * MINUTES_PER_DAY == n * 1440;
  }

  lemma MatchesByParts(cron: Cron, dates: Dates, n: int, m: int)
    requires 0 <= m < MINUTES_PER_DAY
    ensures MatchesAt(cron, dates, n * MINUTES_PER_DAY + m) <==> m % 60 in cron.minutes && m / 60 in cron.hours && DateMatches(cron, dates, n)
  {
    SplitMinute(dates, n, m);
  }

  lemma MinuteBefore(t: int)
    ensures FirstMinute(t * MINUTE - MINUTE) == t * MINUTE
  {
    MinutesOn(-MINUTE, t);
  }

  lemma NoWindows(cron: Cron, local: Local)
    ensures Eligible(cron, local, []) == cron.Matches(local)
  {}

  /** The k-th step of a search from minute t0 looks at minute t. */
  lemma StepIsMinute(cron: Cron, dates: Dates, offset: int, after: int, k: int, t: int)
    requires t == (FirstMinute(after) + offset) / MINUTE + k
    ensures EligibleStep(cron, FixedZone(dates, offset), [], after, k) == MatchesAt(cron, dates, t)
  {
    ZoneAt(dates, offset, FirstMinute(after), k);
    NoWindows(cron, LocalAt(dates, t));
  }

  /** A matching day has a matching minute. */
  lemma MatchingDaySuffices(cron: Cron, dates: Dates, minute: int, hour: int, n: int)
    requires minute in cron.minutes && hour in cron.hours && 0 <= minute < 60 && 0 <= hour < 24
    requires DateMatches(cron, dates, n)
    ensures MatchesAt(cron, dates, n * MINUTES_PER_DAY + (hour * 60 + minute))
  {
    MinuteParts(minute, hour);
    MatchesByParts(cron, dates, n, hour * 60 + minute);
  }

  lemma MinuteParts(minute: int, hour: int)
    requires 0 <= minute < 60 && 0 <= hour < 24
    ensures (hour * 60 + minute) % 60 == minute && (hour * 60 + minute) / 60 == hour && 0 <= hour * 60 + minute < MINUTES_PER_DAY
  {}

  /** Among the right 366 days, the minute comes within the horizon. */
  lemma WithinHorizon(t0: int, m: int, n: int)
    requires 0 <= m < MINUTES_PER_DAY && FirstDay(t0, m) <= n < FirstDay(t0, m) + 366
    ensures 0 <= n * MINUTES_PER_DAY + m - t0 < HORIZON
  {}

  /** The first day whose minute m is not before minute t0. */
  function FirstDay(t0: int, m: int): int {
    t0 / MINUTES_PER_DAY + (if m >= t0 % MINUTES_PER_DAY then 0 else 1)
  }

  /** Some date exists in every year and is in the day and month fields. */
  ghost predicate HasYearlyDate(cron: Cron) {
    exists m, d :: 1 <= m <= 12 && m in cron.months && d in cron.days && 1 <= d <= ShortMonth(m)
  }

  /** A date of the fields that exists in every year matches in every 366 days, if any weekday will do. */
  lemma YearlyDateMatches(cron: Cron, from: int) returns (n: int)
    requires cron.Parsed() && cron.weekdayWildcard && HasYearlyDate(cron)
    ensures from <= n < from + 366 && DateOk(cron, DateOf(n), Weekday(n))
  {
    var m, d :| 1 <= m <= 12 && m in cron.months && d in cron.days && 1 <= d <= ShortMonth(m);
    n := YearContainsDate(from, m, d);
    assert 0 <= (Weekday(n) + 1) % 7 <= 6;
  }

  lemma WeekdayDecides(cron: Cron, d: Date, weekday: int)
    requires cron.Parsed() && !cron.weekdayWildcard
    requires d.month in cron.months && (weekday + 1) % 7 in cron.weekdays
    requires d.day in cron.days || !cron.dayWildcard
    ensures DateOk(cron, d, weekday)
  {}

  lemma WeekdayShift(n: int, w: int)
    requires 0 <= w <= 6 && Weekday(n) == (w + 6) % 7
    ensures (Weekday(n) + 1) % 7 == w
  {}

  /** A restricted weekday matches inside some allowed month in every 366 days. */
  lemma WeekdayMatches(cron: Cron, from: int) returns (n: int)
    requires cron.Parsed() && !cron.weekdayWildcard
    ensures from <= n < from + 366 && DateOk(cron, DateOf(n), Weekday(n))
  {
    var m :| m in cron.months;
    var w :| w in cron.weekdays;
    n := YearContainsWeekday(from, m, (w + 6) % 7);
    WeekdayShift(n, w);
    WeekdayDecides(cron, DateOf(n), Weekday(n));
  }

  /** Without a yearly date and with a free weekday, only 29 February can match. */
  lemma OnlyLeapDayMatches(cron: Cron, d: Date, weekday: int)
    requires cron.Parsed() && cron.weekdayWildcard && !HasYearlyDate(cron) && Valid(d) && DateOk(cron, d, weekday)
    ensures d.month == 2 && d.day == 29
  {
    assert d.day in cron.days && d.month in cron.months;
  }

  lemma NoDateIn2097(cron: Cron, n: int)
    requires cron.Parsed() && cron.weekdayWildcard && !HasYearlyDate(cron)
    requires Ordinal(Date(2097, 1, 1)) <= n < Ordinal(Date(2097, 1, 1)) + 366
    ensures !DateOk(cron, DateOf(n), Weekday(n))
  {
    NoLeapDayAfter2097(n);
    if DateOk(cron, DateOf(n), Weekday(n)) { OnlyLeapDayMatches(cron, DateOf(n), Weekday(n)); }
  }

  lemma NothingFrom(cron: Cron, dates: Dates, day: int, k: int)
    requires 0 <= k < HORIZON
    requires forall n :: day <= n < day + 366 ==> !DateMatches(cron, dates, n)
    ensures !MatchesAt(cron, dates, day * MINUTES_PER_DAY + k)
  {
    var n, m := day + k / MINUTES_PER_DAY, k % MINUTES_PER_DAY;
    assert n * MINUTES_PER_DAY + m == day * MINUTES_PER_DAY + k;
    assert !DateMatches(cron, dates, n);
    MatchesByParts(cron, dates, n, m);
  }

  /** An instant whose first whole minute is minute t of a fixed-offset zone. */
  function InstantBefore(t: int, offset: int): int { (t - offset / MINUTE) * MINUTE - MINUTE }

  lemma StartsAt(t: int, offset: int)
    ensures (FirstMinute(InstantBefore(t, offset)) + offset) / MINUTE == t
  {
    MinuteBefore(t - offset / MINUTE);
    MinutesOn(offset, t - offset / MINUTE);
  }

  /** A year of days without a match gives a start without a run. */
  lemma SearchFindsNothing(cron: Cron, dates: Dates, offset: int, day: int) returns (after: int)
    requires forall n :: day <= n < day + 366 ==> !DateMatches(cron, dates, n)
    ensures !Finds(cron, dates, offset, after)
  {
    var start := day * MINUTES_PER_DAY;
    after := InstantBefore(start, offset);
    StartsAt(start, offset);
    forall k | 0 <= k < HORIZON ensures !EligibleStep(cron, FixedZone(dates, offset), [], after, k) {
      StepIsMinute(cron, dates, offset, after, k, start + k);
      NothingFrom(cron, dates, day, k);
    }
  }

  /** The search from `after` finds a run within the horizon. */
  ghost predicate Finds(cron: Cron, dates: Dates, offset: int, after: int) {
    exists k :: 0 <= k < HORIZON && EligibleStep(cron, FixedZone(dates, offset), [], after, k)
  }

  lemma MatchWithin(cron: Cron, dates: Dates, offset: int, after: int, t0: int, t: int)
    requires t0 == (FirstMinute(after) + offset) / MINUTE && MatchesAt(cron, dates, t) && 0 <= t - t0 < HORIZON
    ensures Finds(cron, dates, offset, after)
  {
    StepIsMinute(cron, dates, offset, after, t - t0, t);
  }

  /** Every 366 days contain a matching one. */
  lemma SomeDayMatches(cron: Cron, from: int) returns (n: int)
    requires cron.Parsed() && (!cron.weekdayWildcard || HasYearlyDate(cron))
    ensures from <= n < from + 366 && DateOk(cron, DateOf(n), Weekday(n))
  {
    if cron.weekdayWildcard { n := YearlyDateMatches(cron, from); } else { n := WeekdayMatches(cron, from); }
  }

  lemma MatchFrom(cron: Cron, dates: Dates, t0: int, minute: int, hour: int, n: int)
    requires minute in cron.minutes && hour in cron.hours && 0 <= minute < 60 && 0 <= hour < 24
    requires DateMatches(cron, dates, n)
    requires FirstDay(t0, hour * 60 + minute) <= n < FirstDay(t0, hour * 60 + minute) + 366
    ensures var t := n * MINUTES_PER_DAY + (hour * 60 + minute); MatchesAt(cron, dates, t) && 0 <= t - t0 < HORIZON
  {
    MinuteParts(minute, hour);
    MatchingDaySuffices(cron, dates, minute, hour, n);
    WithinHorizon(t0, hour * 60 + minute, n);
  }

  /** One of the 366 days from `from` on matches. */
  ghost predicate HasDay(cron: Cron, dates: Dates, from: int) {
    exists n :: from <= n < from + 366 && DateMatches(cron, dates, n)
  }

  lemma CalendarHasDay(cron: Cron, dates: Dates, from: int)
    requires cron.Parsed() && (!cron.weekdayWildcard || HasYearlyDate(cron)) && IsCalendar(dates)
    ensures HasDay(cron, dates, from)
  {
    var n := SomeDayMatches(cron, from);
    assert DateMatches(cron, dates, n);
  }

  lemma FindsRun(cron: Cron, dates: Dates, offset: int, after: int)
    requires cron.Parsed() && forall from :: HasDay(cron, dates, from)
    ensures Finds(cron, dates, offset, after)
  {
    var minute :| minute in cron.minutes;
    var hour :| hour in cron.hours;
    var t0 := (FirstMinute(after) + offset) / MINUTE;
    var from := FirstDay(t0, hour * 60 + minute);
    assert HasDay(cron, dates, from);
    var n :| from <= n < from + 366 && DateMatches(cron, dates, n);
    MatchFrom(cron, dates, t0, minute, hour, n);
    MatchWithin(cron, dates, offset, after, t0, n * MINUTES_PER_DAY + (hour * 60 + minute));
  }

  /**
   In a fixed-offset zone without maintenance the search succeeds from every instant exactly when the
   weekday field is restricted or some date of the day and month fields exists in every year. The
   expressions left out are those whose only date is 29 February, or no date at all.
   */
  lemma HorizonSuffices(cron: Cron, dates: Dates, offset: int)
    requires cron.Parsed() && IsCalendar(dates)
    ensures (forall after :: Finds(cron, dates, offset, after)) <==> !cron.weekdayWildcard || HasYearlyDate(cron)
  {
    if !cron.weekdayWildcard || HasYearlyDate(cron) {
      forall from ensures HasDay(cron, dates, from) {
        CalendarHasDay(cron, dates, from);
      }
      forall after ensures Finds(cron, dates, offset, after) {
        FindsRun(cron, dates, offset, after);
      }
    } else {
      var day := Ordinal(Date(2097, 1, 1));
      forall n | day <= n < day + 366 ensures !DateMatches(cron, dates, n) { NoDateIn2097(cron, n); }
      var after := SearchFindsNothing(cron, dates, offset, day);
    }
  }
}
