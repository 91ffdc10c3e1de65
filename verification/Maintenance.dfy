/**
 Weekly maintenance windows and the search for the first free minute.
 Instants are microseconds; a zone maps an instant to its local wall-clock fields.
 */
module Maintenance {
  import opened Options
  import opened Calendar

  const MINUTE: int := 60_000_000
  const MINUTES_PER_WEEK: int := 10_080

  /** A window on the given weekdays (Monday is 0), from `start` to `end` in minutes after midnight. */
  datatype Window = Window(days: set<int>, start: int, end: int) {
    /** A clock time HH:MM on both sides. */
    predicate Clocked() { 0 <= start < MINUTES_PER_DAY && 0 <= end < MINUTES_PER_DAY }
  }

  type Zone = int -> Local

  /** A zone that is always `offset` microseconds ahead of UTC. */
  function FixedZone(dates: Dates, offset: int): Zone {
    (instant: int) => LocalAt(dates, (instant + offset) / MINUTE)
  }

  predicate CoversSlot(w: Window, weekday: int, current: int) {
    if w.start < w.end then
      weekday in w.days && w.start <= current < w.end
    else
      w.start > w.end && ((weekday in w.days && current >= w.start) || ((weekday - 1) % 7 in w.days && current < w.end))
  }

  predicate Covers(w: Window, local: Local) { CoversSlot(w, local.weekday, local.MinuteOfDay()) }

  predicate InMaintenance(local: Local, windows: seq<Window>) {
    exists i :: 0 <= i < |windows| && Covers(windows[i], local)
  }

  // ---------------------------------------------------------------- weekly occurrences

  /** Minute t lies in the occurrence of w that starts on day n; overnight windows run into day n + 1. */
  ghost predicate Occurs(w: Window, n: int, t: int) {
    && Weekday(n) in w.days
    && n * MINUTES_PER_DAY + w.start <= t
    && t < n * MINUTES_PER_DAY + w.end + (if w.start > w.end then MINUTES_PER_DAY else 0)
  }

  /** The windows only look at the weekday and the minute of the day. */
  predicate SlotBusy(windows: seq<Window>, t: int) {
    exists i :: 0 <= i < |windows| && CoversSlot(windows[i], Weekday(t / MINUTES_PER_DAY), t % MINUTES_PER_DAY)
  }

  lemma LocalMinute(dates: Dates, t: int)
    ensures LocalAt(dates, t).MinuteOfDay() == t % MINUTES_PER_DAY
  {}

  lemma LocalBusy(dates: Dates, windows: seq<Window>, t: int)
    ensures InMaintenance(LocalAt(dates, t), windows) == SlotBusy(windows, t)
  {
    var local := LocalAt(dates, t);
    LocalMinute(dates, t);
    assert forall i :: 0 <= i < |windows| ==> Covers(windows[i], local) == CoversSlot(windows[i], Weekday(t / MINUTES_PER_DAY), t % MINUTES_PER_DAY);
  }

  lemma SlotOccurs(w: Window, n: int, m: int, t: int)
    requires w.Clocked() && 0 <= m < MINUTES_PER_DAY && t == n * MINUTES_PER_DAY + m
    ensures CoversSlot(w, Weekday(n), m) <==> exists i :: Occurs(w, i, t)
  {
    assert Weekday(n - 1) == (Weekday(n) - 1) % 7;
    if CoversSlot(w, Weekday(n), m) {
      assert Occurs(w, n, t) || Occurs(w, n - 1, t);
    }
    if exists i :: Occurs(w, i, t) {
      var i :| Occurs(w, i, t);
      assert i == n || i == n - 1;
    }
  }

  lemma SlotBusyIsOccurs(windows: seq<Window>, t: int)
    requires forall i :: 0 <= i < |windows| ==> windows[i].Clocked()
    ensures SlotBusy(windows, t) <==> exists i, n :: 0 <= i < |windows| && Occurs(windows[i], n, t)
  {
    var n, m := t / MINUTES_PER_DAY, t % MINUTES_PER_DAY;
    forall i | 0 <= i < |windows| ensures CoversSlot(windows[i], Weekday(n), m) <==> exists d :: Occurs(windows[i], d, t) {
      SlotOccurs(windows[i], n, m, t);
    }
  }

  /** The test on wall-clock fields is membership in the union of the weekly occurrences. */
  lemma InMaintenanceIsOccurs(dates: Dates, windows: seq<Window>, t: int)
    requires forall i :: 0 <= i < |windows| ==> windows[i].Clocked()
    ensures InMaintenance(LocalAt(dates, t), windows) <==> exists i, n :: 0 <= i < |windows| && Occurs(windows[i], n, t)
  {
    LocalBusy(dates, windows, t);
    SlotBusyIsOccurs(windows, t);
  }

  // ---------------------------------------------------------------- the first free minute

  predicate BusyAt(zone: Zone, windows: seq<Window>, from: int, k: int) {
    InMaintenance(zone(from + k * MINUTE), windows)
  }

  /** r is the first free minute at or after `from`, counted in whole minutes from it, if there is one within a week. */
  ghost predicate FirstFree(zone: Zone, windows: seq<Window>, from: int, r: Option<int>) {
    && (r.None? <==> forall k :: 0 <= k < MINUTES_PER_WEEK ==> BusyAt(zone, windows, from, k))
    && (r.Some? ==> exists k: nat :: (
          && r.value == from + k * MINUTE && !BusyAt(zone, windows, from, k)
          && forall j :: 0 <= j < k ==> BusyAt(zone, windows, from, j)))
  }

  /** Steps minute by minute until the local time is outside maintenance, for at most a week. */
  method SkipMaintenance(candidate: int, zone: Zone, windows: seq<Window>) returns (r: Option<int>)
    ensures FirstFree(zone, windows, candidate, r)
  {
    var aware := candidate;
    for k := 0 to MINUTES_PER_WEEK
      invariant aware == candidate + k * MINUTE
      invariant forall j :: 0 <= j < k ==> BusyAt(zone, windows, candidate, j)
    {
      if !InMaintenance(zone(aware), windows) {
        assert !BusyAt(zone, windows, candidate, k);
        return Some(aware);
      }
      aware := aware + MINUTE;
    }
    return None;
  }

  /** Maintenance repeats every week. */
  lemma WeeklyPeriod(windows: seq<Window>, t: int, weeks: int)
    ensures SlotBusy(windows, t + weeks * MINUTES_PER_WEEK) == SlotBusy(windows, t)
  {
    var n, m := t / MINUTES_PER_DAY, t % MINUTES_PER_DAY;
    var t' := t + weeks * MINUTES_PER_WEEK;
    assert t' == (n + 7 * weeks) * MINUTES_PER_DAY + m;
    assert t' / MINUTES_PER_DAY == n + 7 * weeks && t' % MINUTES_PER_DAY == m;
    assert Weekday(n + 7 * weeks) == Weekday(n);
  }

  /** Whole minutes added to an instant count as such. */
  lemma MinutesOn(a: int, k: int)
    ensures (a + k * MINUTE) / MINUTE == a / MINUTE + k
  {}

  /** The local minute of the k-th whole minute from an instant in a fixed-offset zone. */
  lemma ZoneAt(dates: Dates, offset: int, from: int, k: int)
    ensures FixedZone(dates, offset)(from + k * MINUTE) == LocalAt(dates, (from + offset) / MINUTE + k)
  {
    MinutesOn(from + offset, k);
    assert from + k * MINUTE + offset == from + offset + k * MINUTE;
  }

  lemma BusySlot(dates: Dates, windows: seq<Window>, offset: int, from: int, k: int)
    ensures BusyAt(FixedZone(dates, offset), windows, from, k) == SlotBusy(windows, (from + offset) / MINUTE + k)
  {
    ZoneAt(dates, offset, from, k);
    LocalBusy(dates, windows, (from + offset) / MINUTE + k);
  }

  /** In a fixed-offset zone the search gives up, from any start, exactly when every minute of every week is covered. */
  lemma GivesUpIffAlwaysBusy(dates: Dates, windows: seq<Window>, offset: int, candidate: int)
    ensures (forall k :: 0 <= k < MINUTES_PER_WEEK ==> BusyAt(FixedZone(dates, offset), windows, candidate, k))
            <==> (forall t :: InMaintenance(LocalAt(dates, t), windows))
  {
    var t0 := (candidate + offset) / MINUTE;
    if forall k :: 0 <= k < MINUTES_PER_WEEK ==> BusyAt(FixedZone(dates, offset), windows, candidate, k) {
      forall t ensures InMaintenance(LocalAt(dates, t), windows) {
        var k := (t - t0) % MINUTES_PER_WEEK;
        var weeks := (t - t0) / MINUTES_PER_WEEK;
        BusySlot(dates, windows, offset, candidate, k);
        assert BusyAt(FixedZone(dates, offset), windows, candidate, k);
        WeeklyPeriod(windows, t0 + k, weeks);
        assert t == t0 + k + weeks * MINUTES_PER_WEEK;
        LocalBusy(dates, windows, t);
      }
    } else {
      var k :| 0 <= k < MINUTES_PER_WEEK && !BusyAt(FixedZone(dates, offset), windows, candidate, k);
      BusySlot(dates, windows, offset, candidate, k);
      LocalBusy(dates, windows, t0 + k);
    }
  }
}
