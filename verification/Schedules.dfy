/**
 Scheduled connector runs: the next run of a schedule, and the claim that lets several workers
 share one table of due schedules.
 */
module Schedules {
  import opened Options
  import opened Calendar
  import opened Maintenance
  import opened CronRuns

  const SECOND: int := 1_000_000

  datatype Plan = Interval(seconds: int) | CronPlan(cron: Cron)

  /** A schedule's definition; the row's next_run_at is kept apart because workers race for it. */
  datatype Schedule = Schedule(plan: Plan, zone: Zone, windows: seq<Window>) {
    predicate Stepping() { plan.Interval? ==> plan.seconds >= 1 }
  }

  /** k whole intervals after `next`. */
  function IntervalRun(next: int, seconds: int, k: nat): int { next + k * (seconds * SECOND) }

  /** The k-th interval run is the first one after `after`. */
  ghost predicate FirstIntervalAfter(next: int, seconds: int, after: int, k: nat) {
    IntervalRun(next, seconds, k) > after && forall j: nat :: j < k ==> IntervalRun(next, seconds, j) <= after
  }

  /** r is the run that follows when the row holds `next` and the worker's clock reads `after`. */
  ghost predicate Follows(s: Schedule, next: int, after: int, r: Option<int>) {
    match s.plan
    case CronPlan(cron) => NextEligible(cron, s.zone, s.windows, after, r)
    case Interval(seconds) => exists k: nat ::
      FirstIntervalAfter(next, seconds, after, k) && FirstFree(s.zone, s.windows, IntervalRun(next, seconds, k), r)
  }

  method NextScheduleRun(s: Schedule, next: int, after: int) returns (r: Option<int>)
    requires s.Stepping()
    ensures Follows(s, next, after, r)
  {
    if s.plan.CronPlan? {
      r := NextCronRun(s.plan.cron, s.zone, after, s.windows);
      return;
    }
    var candidate := next;
    ghost var k: nat := 0;
    while candidate <= after
      invariant candidate == IntervalRun(next, s.plan.seconds, k)
      invariant forall j: nat :: j < k ==> IntervalRun(next, s.plan.seconds, j) <= after
      decreases after - candidate
    {
      candidate := candidate + s.plan.seconds * SECOND;
      k := k + 1;
    }
    r := SkipMaintenance(candidate, s.zone, s.windows);
    assert FirstIntervalAfter(next, s.plan.seconds, after, k);
  }

  /** `next` is a run time the schedule could have chosen itself. */
  predicate IsRun(s: Schedule, next: int) {
    match s.plan
    case CronPlan(cron) => next % MINUTE == 0 && Eligible(cron, s.zone(next), s.windows)
    case Interval(_) => !InMaintenance(s.zone(next), s.windows)
  }

  lemma FollowingIsRun(s: Schedule, next: int, after: int, r: Option<int>)
    requires Follows(s, next, after, r) && r.Some?
    ensures IsRun(s, r.value) && r.value > after
  {
    if s.plan.Interval? {
      var k: nat :| FirstIntervalAfter(next, s.plan.seconds, after, k) && FirstFree(s.zone, s.windows, IntervalRun(next, s.plan.seconds, k), r);
    }
  }

  /** A claim moves a row that holds one of its own run times strictly forward exactly when that time was due. */
  lemma AdvancesIffDue(s: Schedule, next: int, after: int, r: Option<int>)
    requires s.Stepping() && IsRun(s, next) && Follows(s, next, after, r) && r.Some?
    ensures r.value > next <==> next <= after
  {
    FollowingIsRun(s, next, after, r);
    if s.plan.Interval? && next > after {
      var k: nat :| FirstIntervalAfter(next, s.plan.seconds, after, k) && FirstFree(s.zone, s.windows, IntervalRun(next, s.plan.seconds, k), r);
      assert IntervalRun(next, s.plan.seconds, 0) == next;
      assert k == 0;
      assert !BusyAt(s.zone, s.windows, next, 0);
    }
  }

  // ---------------------------------------------------------------- claiming

  /** A worker that found the row due at `now`, and then the value it compares and the one it writes. */
  datatype Worker = Found(now: int) | Ready(now: int, seen: int, target: int) | Done

  /** A claim that went through: the value it replaced, and the worker's clock reading. */
  datatype Claim = Claim(seen: int, target: int, now: int)

  datatype State = State(next: int, enabled: bool, workers: map<nat, Worker>, claims: seq<Claim>)

  datatype Step =
    | Find(w: nat, now: int)
    | Load(w: nat, target: int)
    | Write(w: nat)
    | Switch

  /** UPDATE ... WHERE enabled AND next_run_at = the compared value. */
  predicate ClaimApplies(next: int, enabled: bool, seen: int) { enabled && next == seen }

  /** The row as an object, with the claiming statement. */
  class ScheduleRow {
    var nextRunAt: int
    var enabled: bool

    method Claim(seen: int, target: int) returns (claimed: bool)
      modifies this
      ensures claimed == ClaimApplies(old(nextRunAt), old(enabled), seen)
      ensures claimed <==> old(enabled) && old(nextRunAt) == seen
      ensures nextRunAt == (if claimed then target else old(nextRunAt)) && enabled == old(enabled)
    {
      claimed := enabled && nextRunAt == seen;
      if claimed { nextRunAt := target; }
    }
  }

  predicate Enabled(st: State, step: Step) {
    match step
    case Find(w, now) => (w in st.workers ==> st.workers[w].Done?) && st.enabled && st.next <= now
    case Load(w, _) => w in st.workers && st.workers[w].Found?
    case Write(w) => w in st.workers && st.workers[w].Ready?
    case Switch => true
  }

  /** The row is read again when the loop reaches it: an earlier commit of the same loop expired what was loaded. */
  function Apply(st: State, step: Step): State
    requires Enabled(st, step)
  {
    match step
    case Find(w, now) => st.(workers := st.workers[w := Found(now)])
    case Load(w, target) => st.(workers := st.workers[w := Ready(st.workers[w].now, st.next, target)])
    case Write(w) =>
      var p := st.workers[w];
      var done := st.(workers := st.workers[w := Done]);
      if ClaimApplies(st.next, st.enabled, p.seen) then done.(next := p.target, claims := st.claims + [Claim(p.seen, p.target, p.now)]) else done
    case Switch => st.(enabled := !st.enabled)
  }

  /** A worker finds exactly an enabled schedule that is due. */
  lemma FoundExactlyWhen(st: State, w: nat, now: int)
    ensures Enabled(st, Find(w, now)) <==> (w in st.workers ==> st.workers[w] == Done) && st.enabled && st.next <= now
  {}

  /** The target written was computed from the value and clock reading of this very worker. */
  ghost predicate Computed(s: Schedule, st: State, step: Step)
    requires Enabled(st, step)
  {
    step.Load? ==> Follows(s, st.next, st.workers[step.w].now, Some(step.target))
  }

  /** The value loaded for the comparison is the due one, as it is for the first row of every pass. */
  predicate LoadsDue(st: State, step: Step)
    requires Enabled(st, step)
  {
    step.Load? ==> st.next <= st.workers[step.w].now
  }

  /** The state after a run; with `due`, every value loaded for comparison is a due one. */
  ghost function Exec(s: Schedule, st: State, steps: seq<Step>, due: bool): Option<State>
    decreases |steps|
  {
    if steps == [] then Some(st)
    else if Enabled(st, steps[0]) && Computed(s, st, steps[0]) && (due ==> LoadsDue(st, steps[0])) then
      Exec(s, Apply(st, steps[0]), steps[1..], due)
    else None
  }

  ghost predicate Inv(st: State) {
    && (forall w :: w in st.workers && st.workers[w].Ready? ==>
          st.workers[w].seen <= st.workers[w].now < st.workers[w].target)
    && (forall i :: 0 <= i < |st.claims| ==> st.claims[i].seen <= st.claims[i].now < st.claims[i].target <= st.next)
    && (forall i, j :: 0 <= i < j < |st.claims| ==> st.claims[i].target <= st.claims[j].seen)
  }

  lemma StepKeepsInv(s: Schedule, st: State, step: Step)
    requires Inv(st) && Enabled(st, step) && Computed(s, st, step) && LoadsDue(st, step)
    ensures Inv(Apply(st, step)) && st.next <= Apply(st, step).next
  {
    if step.Load? {
      FollowingIsRun(s, st.next, st.workers[step.w].now, Some(step.target));
    }
  }

  /**
   While every loaded value is due, claims replace strictly increasing values: each due value of the
   row is claimed by at most one worker, and a claim always moves the row past its own clock.
   */
  lemma {:induction false} DueClaimsAreUnique(s: Schedule, st: State, steps: seq<Step>, t: State)
    requires Inv(st) && Exec(s, st, steps, true) == Some(t)
    ensures Inv(t) && st.next <= t.next
    ensures forall i, j :: 0 <= i < j < |t.claims| ==> t.claims[i].seen < t.claims[j].seen
    decreases |steps|
  {
    if steps != [] {
      StepKeepsInv(s, st, steps[0]);
      DueClaimsAreUnique(s, Apply(st, steps[0]), steps[1..], t);
    }
  }

  /** From a row nobody works on, over every run in which each loaded value is due. */
  lemma EveryDueRun(s: Schedule, next: int, enabled: bool, steps: seq<Step>, t: State)
    requires Exec(s, State(next, enabled, map[], []), steps, true) == Some(t)
    ensures next <= t.next
    ensures forall i :: 0 <= i < |t.claims| ==> t.claims[i].seen <= t.claims[i].now < t.claims[i].target <= t.next
    ensures forall i, j :: 0 <= i < j < |t.claims| ==> t.claims[i].seen < t.claims[j].seen
  {
    DueClaimsAreUnique(s, State(next, enabled, map[], []), steps, t);
  }

  /** Without maintenance windows an interval run is not moved. */
  lemma FreeFollows(s: Schedule, next: int, after: int, k: nat)
    requires s.plan.Interval? && s.windows == [] && FirstIntervalAfter(next, s.plan.seconds, after, k)
    ensures Follows(s, next, after, Some(IntervalRun(next, s.plan.seconds, k)))
  {
    var at := IntervalRun(next, s.plan.seconds, k);
    assert !BusyAt(s.zone, s.windows, at, 0);
    assert FirstFree(s.zone, s.windows, at, Some(at));
  }

  lemma {:induction false} OneMore(s: Schedule, st: State, steps: seq<Step>, t: State, step: Step)
    requires Exec(s, st, steps, false) == Some(t) && Enabled(t, step) && Computed(s, t, step)
    ensures Exec(s, st, steps + [step], false) == Some(Apply(t, step))
    decreases |steps|
  {
    if steps == [] {
      assert [step][1..] == [];
    } else {
      OneMore(s, Apply(st, steps[0]), steps[1..], t, step);
      assert (steps + [step])[1..] == steps[1..] + [step];
    }
  }

  /** A set of states that no step of the schedule's workers leaves. */
  ghost predicate Closed(s: Schedule, p: State -> bool) {
    forall t, step :: p(t) && Enabled(t, step) && Computed(s, t, step) ==> p(Apply(t, step))
  }

  lemma ReloadedClaim(s: Schedule, p: State -> bool, st: State) returns (t: State)
    requires s.plan == Interval(60) && s.windows == [] && Closed(s, p) && p(st)
    requires st == State(0, true, map[], [])
    ensures p(t) && t.claims == [Claim(0, MINUTE, 0), Claim(MINUTE, MINUTE, 0)]
  {
    FreeFollows(s, 0, 0, 1);
    FreeFollows(s, MINUTE, 0, 0);
    t := st;
    assert Enabled(t, Find(1, 0)) && Computed(s, t, Find(1, 0));              t := Apply(t, Find(1, 0));
    assert Enabled(t, Find(2, 0)) && Computed(s, t, Find(2, 0));              t := Apply(t, Find(2, 0));
    assert Enabled(t, Load(1, MINUTE)) && Computed(s, t, Load(1, MINUTE));    t := Apply(t, Load(1, MINUTE));
    assert Enabled(t, Write(1)) && Computed(s, t, Write(1));                  t := Apply(t, Write(1));
    assert Enabled(t, Load(2, MINUTE)) && Computed(s, t, Load(2, MINUTE));    t := Apply(t, Load(2, MINUTE));
    assert Enabled(t, Write(2)) && Computed(s, t, Write(2));                  t := Apply(t, Write(2));
  }

  /**
   The reload breaks this: of two workers that both found the row due at instant 0, the second one loads the
   value the first has already moved to minute 1, finds nothing to advance, and claims it as well. Two runs are
   enqueued for one due time.
   */
  lemma ReloadClaimsTwice() returns (s: Schedule, st: State, steps: seq<Step>, t: State)
    ensures st.claims == [] && st.workers == map[] && st.next == 0 && IsRun(s, st.next)
    ensures Exec(s, st, steps, false) == Some(t)
    ensures t.claims == [Claim(0, MINUTE, 0), Claim(MINUTE, MINUTE, 0)]
  {
    s := Schedule(Interval(60), FixedZone((n: int) => DateOf(n), 0), []);
    st := State(0, true, map[], []);
    var reached := (u: State) => exists xs :: Exec(s, st, xs, false) == Some(u);
    assert Exec(s, st, [], false) == Some(st);
    forall u, step | reached(u) && Enabled(u, step) && Computed(s, u, step) ensures reached(Apply(u, step)) {
      var xs :| Exec(s, st, xs, false) == Some(u);
      OneMore(s, st, xs, u, step);
    }
    t := ReloadedClaim(s, reached, st);
    steps :| Exec(s, st, steps, false) == Some(t);
  }
}
