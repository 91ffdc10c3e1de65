/**
 The provider request budget: one database row per provider, shared by any number of
 workers that read it, decide, and write it back with a conditional UPDATE.

 Instants and spans are microseconds. A SELECT, a clock reading and a committed
 conditional UPDATE are three separate atomic steps, so every interleaving of workers
 and every delay between deciding and committing is a run of the machine below.
 */
module ProviderBudget {
  import opened Options

  const SECOND: int := 1_000_000
  const ATTEMPTS: nat := 3

  /** A row of provider_rate_limits. */
  datatype Row = Row(maxRequests: nat, window: nat, used: int, started: int) {
    function Ends(): int { started + window }
  }

  datatype Verdict = Expired | Exhausted(retryAfter: int) | Fits

  /** What one pass of the loop decides from the row it read and the clock it read afterwards. */
  function Decide(snap: Row, units: nat, now: int): (v: Verdict)
    ensures v.Exhausted? ==> 1 <= v.retryAfter && now + v.retryAfter * SECOND > snap.Ends() >= now + (v.retryAfter - 1) * SECOND
  {
    if now >= snap.Ends() then Expired
    else if snap.used + units > snap.maxRequests then Exhausted((snap.Ends() - now) / SECOND + 1)
    else Fits
  }

  /** UPDATE ... WHERE window_started_at = snapshot. */
  predicate ResetApplies(row: Row, snap: Row) { row.started == snap.started }

  function AfterReset(row: Row, snap: Row, now: int): Row {
    if ResetApplies(row, snap) then row.(used := 0, started := now) else row
  }

  /** UPDATE ... WHERE used_requests = snapshot AND window_started_at = snapshot. */
  predicate ConsumeApplies(row: Row, snap: Row) {
    row.used == snap.used && row.started == snap.started
  }

  function AfterConsume(row: Row, snap: Row, units: nat): Row {
    if ConsumeApplies(row, snap) then row.(used := snap.used + units) else row
  }

  /** The window has run out, or the request does not fit what is left of it, or it does. */
  lemma DecideExactlyWhen(snap: Row, units: nat, now: int)
    ensures Decide(snap, units, now).Expired? <==> now - snap.started >= snap.window
    ensures Decide(snap, units, now).Exhausted? <==> now - snap.started < snap.window && units > snap.maxRequests - snap.used
    ensures Decide(snap, units, now).Fits? <==> now - snap.started < snap.window && units <= snap.maxRequests - snap.used
  {}

  // ---------------------------------------------------------------- the machine

  /** Where a worker stands inside consume_provider_budget. */
  datatype Phase =
    | Ready(attempt: nat)
    | Loaded(attempt: nat, snap: Row)
    | Resetting(attempt: nat, snap: Row, now: int)
    | Consuming(attempt: nat, snap: Row, now: int)
    | Granted
    | Refused(retryAfter: int)
    | Contended

  datatype Worker = Worker(units: nat, phase: Phase)

  /** A window of the row: the start it records and the instant its UPDATE committed. */
  datatype Window = Window(started: int, visible: int)

  /** Units handed out: in which window, at which clock reading, committed when. */
  datatype Grant = Grant(units: nat, window: int, decided: int, committed: int)

  /** `windows` and `grants` only record what happened; no step reads them. */
  datatype State = State(row: Row, clock: int, workers: map<nat, Worker>, windows: seq<Window>, grants: seq<Grant>)

  datatype Step =
    | Tick(passed: nat)
    | Arrive(w: nat, units: nat)
    | Read(w: nat)
    | Choose(w: nat)
    | TryReset(w: nat)
    | TryConsume(w: nat)

  /** A freshly configured budget with no worker inside the loop. */
  ghost predicate Init(s: State) {
    && s.row.used == 0 && s.row.started <= s.clock && s.row.window > 0
    && s.workers == map[] && s.grants == []
    && s.windows == [Window(s.row.started, s.row.started)]
  }

  function Retry(attempt: nat): Phase {
    if attempt + 1 < ATTEMPTS then Ready(attempt + 1) else Contended
  }

  predicate Enabled(s: State, step: Step) {
    match step
    case Tick(_) => true
    case Arrive(w, _) => w !in s.workers
    case Read(w) => w in s.workers && s.workers[w].phase.Ready?
    case Choose(w) => w in s.workers && s.workers[w].phase.Loaded?
    case TryReset(w) => w in s.workers && s.workers[w].phase.Resetting?
    case TryConsume(w) => w in s.workers && s.workers[w].phase.Consuming?
  }

  function Move(s: State, w: nat, phase: Phase): State
    requires w in s.workers
  {
    s.(workers := s.workers[w := s.workers[w].(phase := phase)])
  }

  function Apply(s: State, step: Step): State
    requires Enabled(s, step)
  {
    match step
    case Tick(passed) => s.(clock := s.clock + passed)
    case Arrive(w, units) => s.(workers := s.workers[w := Worker(units, Ready(0))])
    case Read(w) => Move(s, w, Loaded(s.workers[w].phase.attempt, s.row))
    case Choose(w) =>
      var p := s.workers[w].phase;
      (match Decide(p.snap, s.workers[w].units, s.clock)
       case Expired => Move(s, w, Resetting(p.attempt, p.snap, s.clock))
       case Exhausted(retryAfter) => Move(s, w, Refused(retryAfter))
       case Fits => Move(s, w, Consuming(p.attempt, p.snap, s.clock)))
    case TryReset(w) =>
      var p := s.workers[w].phase;
      var s' := Move(s, w, Retry(p.attempt)).(row := AfterReset(s.row, p.snap, p.now));
      if ResetApplies(s.row, p.snap) then s'.(windows := s.windows + [Window(p.now, s.clock)]) else s'
    case TryConsume(w) =>
      var p := s.workers[w].phase;
      var units := s.workers[w].units;
      if ConsumeApplies(s.row, p.snap) then
        Move(s, w, Granted).(
          row := AfterConsume(s.row, p.snap, units),
          grants := s.grants + [Grant(units, |s.windows| - 1, p.now, s.clock)])
        else Move(s, w, Retry(p.attempt))
  }

  /** The state after a run of steps, if each of them was enabled. */
  function Exec(s: State, steps: seq<Step>): Option<State>
    decreases |steps|
  {
    if steps == [] then Some(s)
    else if Enabled(s, steps[0]) then Exec(Apply(s, steps[0]), steps[1..])
    else None
  }

  // ---------------------------------------------------------------- what every step keeps

  function UnitsOf(grants: seq<Grant>, window: int): nat {
    if grants == [] then 0
    else UnitsOf(grants[..|grants| - 1], window) +
         (if grants[|grants| - 1].window == window then grants[|grants| - 1].units else 0)
  }

  /** Window starts rise by a whole window, and a later window starts after the earlier one was visible. */
  ghost predicate WindowsOk(windows: seq<Window>, row: Row, clock: int) {
    && |windows| >= 1
    && windows[|windows| - 1].started == row.started
    && (forall i :: 0 <= i < |windows| ==> windows[i].started <= windows[i].visible <= clock)
    && (forall i, j :: 0 <= i < j < |windows| ==>
          && windows[j].started >= windows[i].started + row.window
          && windows[j].started >= windows[i].visible)
  }

  /** A grant was decided inside its window and committed before the next one was visible. */
  ghost predicate GrantOk(g: Grant, windows: seq<Window>, row: Row, clock: int) {
    && 0 <= g.window < |windows|
    && windows[g.window].visible <= g.decided <= g.committed <= clock
    && g.decided < windows[g.window].started + row.window
    && (forall j :: g.window < j < |windows| ==> g.committed <= windows[j].visible)
  }

  ghost predicate GrantsOk(grants: seq<Grant>, windows: seq<Window>, row: Row, clock: int) {
    && (forall i :: 0 <= i < |grants| ==> GrantOk(grants[i], windows, row, clock))
    && (forall w: int :: UnitsOf(grants, w) <= row.maxRequests)
    && UnitsOf(grants, |windows| - 1) == row.used
  }

  /** A snapshot is from this row; if its window is still the current one, the row has only been charged since. */
  ghost predicate SnapOk(s: State, snap: Row) {
    && snap.maxRequests == s.row.maxRequests && snap.window == s.row.window
    && snap.started <= s.row.started
  }

  /** A clock reading taken after the snapshot, so not before the snapshot's window became visible. */
  ghost predicate ReadingOk(s: State, snap: Row, now: int) {
    && now <= s.clock
    && (snap.started == s.row.started && s.windows != [] ==> now >= s.windows[|s.windows| - 1].visible)
  }

  ghost predicate WorkerOk(s: State, worker: Worker) {
    match worker.phase
    case Loaded(_, snap) => SnapOk(s, snap)
    case Resetting(_, snap, now) =>
      && SnapOk(s, snap) && ReadingOk(s, snap, now) && now >= snap.Ends()
    case Consuming(_, snap, now) =>
      && SnapOk(s, snap) && ReadingOk(s, snap, now) && now < snap.Ends()
      && snap.used + worker.units <= snap.maxRequests
    case _ => true
  }

  ghost predicate Inv(s: State) {
    && s.row.window > 0
    && WindowsOk(s.windows, s.row, s.clock)
    && GrantsOk(s.grants, s.windows, s.row, s.clock)
    && (forall w :: w in s.workers ==> WorkerOk(s, s.workers[w]))
  }

  lemma {:induction false} UnitsBeyond(grants: seq<Grant>, window: int)
    requires forall i :: 0 <= i < |grants| ==> grants[i].window < window
    ensures UnitsOf(grants, window) == 0
  {
    if grants != [] { UnitsBeyond(grants[..|grants| - 1], window); }
  }

  lemma UnitsSnoc(grants: seq<Grant>, g: Grant, window: int)
    ensures UnitsOf(grants + [g], window) == UnitsOf(grants, window) + (if g.window == window then g.units else 0)
  {
    assert (grants + [g])[..|grants|] == grants;
  }

  lemma WorkersStayOk(s: State, s': State, w: nat)
    requires w in s.workers && w in s'.workers
    requires forall v :: v in s'.workers <==> v in s.workers
    requires forall v :: v in s.workers && v != w ==> s'.workers[v] == s.workers[v]
    requires forall v :: v in s.workers ==> WorkerOk(s, s.workers[v])
    requires WorkerOk(s', s'.workers[w])
    requires s'.row.maxRequests == s.row.maxRequests && s'.row.window == s.row.window
    requires s'.clock >= s.clock
    requires s'.row.started > s.row.started || (s'.row.started == s.row.started && s'.windows == s.windows)
    ensures forall v :: v in s'.workers ==> WorkerOk(s', s'.workers[v])
  {
    forall v | v in s'.workers ensures WorkerOk(s', s'.workers[v]) {
      assert WorkerOk(s, s.workers[v]);
    }
  }

  lemma OpeningKeepsLogs(windows: seq<Window>, grants: seq<Grant>, row: Row, clock: int, now: int)
    requires WindowsOk(windows, row, clock) && GrantsOk(grants, windows, row, clock)
    requires row.Ends() <= now <= clock && windows[|windows| - 1].visible <= now && row.window > 0
    ensures
      var row', windows' := row.(used := 0, started := now), windows + [Window(now, clock)];
      WindowsOk(windows', row', clock) && GrantsOk(grants, windows', row', clock)
  {
    var row', windows' := row.(used := 0, started := now), windows + [Window(now, clock)];
    forall i | 0 <= i < |grants| ensures GrantOk(grants[i], windows', row', clock) && grants[i].window < |windows| {
      assert GrantOk(grants[i], windows, row, clock);
    }
    UnitsBeyond(grants, |windows|);
  }

  lemma GrantingKeepsLogs(windows: seq<Window>, grants: seq<Grant>, row: Row, clock: int, units: nat, now: int)
    requires WindowsOk(windows, row, clock) && GrantsOk(grants, windows, row, clock)
    requires windows[|windows| - 1].visible <= now <= clock && now < row.Ends()
    requires row.used + units <= row.maxRequests
    ensures
      var row', grants' := row.(used := row.used + units), grants + [Grant(units, |windows| - 1, now, clock)];
      WindowsOk(windows, row', clock) && GrantsOk(grants', windows, row', clock)
  {
    var row', g := row.(used := row.used + units), Grant(units, |windows| - 1, now, clock);
    var grants' := grants + [g];
    forall i | 0 <= i < |grants'| ensures GrantOk(grants'[i], windows, row', clock) {
      if i < |grants| { assert GrantOk(grants[i], windows, row, clock); }
    }
    forall v: int ensures UnitsOf(grants', v) <= row'.maxRequests {
      UnitsSnoc(grants, g, v);
    }
    UnitsSnoc(grants, g, |windows| - 1);
  }

  lemma TimePassesInLogs(windows: seq<Window>, grants: seq<Grant>, row: Row, clock: int, clock': int)
    requires WindowsOk(windows, row, clock) && GrantsOk(grants, windows, row, clock) && clock <= clock'
    ensures WindowsOk(windows, row, clock') && GrantsOk(grants, windows, row, clock')
  {
    forall i | 0 <= i < |grants| ensures GrantOk(grants[i], windows, row, clock') {
      assert GrantOk(grants[i], windows, row, clock);
    }
  }

  lemma ResetKeepsInv(s: State, w: nat)
    requires Inv(s) && Enabled(s, TryReset(w))
    ensures Inv(Apply(s, TryReset(w)))
  {
    var p := s.workers[w].phase;
    assert WorkerOk(s, s.workers[w]);
    WorkersStayOk(s, Apply(s, TryReset(w)), w);
    if ResetApplies(s.row, p.snap) {
      OpeningKeepsLogs(s.windows, s.grants, s.row, s.clock, p.now);
    }
  }

  lemma ConsumeKeepsInv(s: State, w: nat)
    requires Inv(s) && Enabled(s, TryConsume(w))
    ensures Inv(Apply(s, TryConsume(w)))
  {
    var p := s.workers[w].phase;
    assert WorkerOk(s, s.workers[w]);
    WorkersStayOk(s, Apply(s, TryConsume(w)), w);
    if ConsumeApplies(s.row, p.snap) {
      GrantingKeepsLogs(s.windows, s.grants, s.row, s.clock, s.workers[w].units, p.now);
    }
  }

  lemma QuietKeepsInv(s: State, step: Step)
    requires Inv(s) && Enabled(s, step) && (step.Tick? || step.Arrive?)
    ensures Inv(Apply(s, step))
  {
    var s' := Apply(s, step);
    TimePassesInLogs(s.windows, s.grants, s.row, s.clock, s'.clock);
    forall v | v in s'.workers ensures WorkerOk(s', s'.workers[v]) {
      if v in s.workers { assert WorkerOk(s, s.workers[v]); }
    }
  }

  lemma StepKeepsInv(s: State, step: Step)
    requires Inv(s) && Enabled(s, step)
    ensures Inv(Apply(s, step))
  {
    match step
    case TryReset(w) => ResetKeepsInv(s, w);
    case TryConsume(w) => ConsumeKeepsInv(s, w);
    case Choose(w) =>
      assert WorkerOk(s, s.workers[w]);
      WorkersStayOk(s, Apply(s, step), w);
    case Read(w) =>
      WorkersStayOk(s, Apply(s, step), w);
    case Tick(_) => QuietKeepsInv(s, step);
    case Arrive(_, _) => QuietKeepsInv(s, step);
  }

  // ---------------------------------------------------------------- whole runs

  lemma {:induction false} RunKeepsInv(s: State, steps: seq<Step>, t: State)
    requires Inv(s) && Exec(s, steps) == Some(t)
    ensures Inv(t) && t.row.maxRequests == s.row.maxRequests && t.row.window == s.row.window
    decreases |steps|
  {
    if steps != [] {
      StepKeepsInv(s, steps[0]);
      RunKeepsInv(Apply(s, steps[0]), steps[1..], t);
    }
  }

  lemma InitInv(s: State)
    requires Init(s)
    ensures Inv(s)
  {}

  /** At every moment of every run the counter is what the current window gave out, and no window ever gave out more than its budget. */
  lemma UsedIsWhatWasGranted(s: State, steps: seq<Step>, t: State)
    requires Init(s) && Exec(s, steps) == Some(t)
    ensures UnitsOf(t.grants, |t.windows| - 1) == t.row.used <= t.row.maxRequests
    ensures forall w: int :: UnitsOf(t.grants, w) <= s.row.maxRequests
    ensures forall i, j :: 0 <= i < j < |t.windows| ==> t.windows[j].started >= t.windows[i].started + s.row.window
  {
    InitInv(s);
    RunKeepsInv(s, steps, t);
  }

  /** The instant a grant is counted at: when it was decided, or when it was committed. */
  function At(g: Grant, byCommit: bool): int { if byCommit then g.committed else g.decided }

  function SpanUnits(grants: seq<Grant>, byCommit: bool, lo: int, hi: int): nat {
    if grants == [] then 0
    else
      var g := grants[|grants| - 1];
      SpanUnits(grants[..|grants| - 1], byCommit, lo, hi) + (if lo <= At(g, byCommit) < hi then g.units else 0)
  }

  function UnitsOfRange(grants: seq<Grant>, first: int, n: nat): nat {
    if n == 0 then 0 else UnitsOfRange(grants, first, n - 1) + UnitsOf(grants, first + n - 1)
  }

  lemma {:induction false} UnitsOfRangeSnoc(grants: seq<Grant>, g: Grant, first: int, n: nat)
    ensures UnitsOfRange(grants + [g], first, n) ==
            UnitsOfRange(grants, first, n) + (if first <= g.window < first + n then g.units else 0)
  {
    if n != 0 {
      UnitsOfRangeSnoc(grants, g, first, n - 1);
      UnitsSnoc(grants, g, first + n - 1);
    }
  }

  lemma {:induction false} SpanInsideWindows(grants: seq<Grant>, byCommit: bool, lo: int, hi: int, first: int, n: nat)
    requires forall i :: 0 <= i < |grants| && lo <= At(grants[i], byCommit) < hi ==> first <= grants[i].window < first + n
    ensures SpanUnits(grants, byCommit, lo, hi) <= UnitsOfRange(grants, first, n)
  {
    if grants == [] {
    } else {
      var k := |grants| - 1;
      SpanInsideWindows(grants[..k], byCommit, lo, hi, first, n);
      UnitsOfRangeSnoc(grants[..k], grants[k], first, n);
      assert grants[..k] + [grants[k]] == grants;
    }
  }

  lemma {:induction false} RangeBounded(grants: seq<Grant>, first: int, n: nat, max: nat)
    requires forall w: int :: UnitsOf(grants, w) <= max
    ensures UnitsOfRange(grants, first, n) <= n * max
  {
    if n != 0 {
      RangeBounded(grants, first, n - 1, max);
      assert n * max == (n - 1) * max + max;
    }
  }

  /** A grant of the span in the earliest window of the span. */
  lemma {:induction false} EarliestInSpan(grants: seq<Grant>, byCommit: bool, lo: int, hi: int) returns (k: int)
    ensures -1 <= k < |grants|
    ensures k == -1 ==> forall i :: 0 <= i < |grants| ==> !(lo <= At(grants[i], byCommit) < hi)
    ensures k >= 0 ==> lo <= At(grants[k], byCommit) < hi
    ensures k >= 0 ==> forall i :: 0 <= i < |grants| && lo <= At(grants[i], byCommit) < hi ==> grants[k].window <= grants[i].window
  {
    if grants == [] {
      k := -1;
    } else {
      var last := |grants| - 1;
      k := EarliestInSpan(grants[..last], byCommit, lo, hi);
      var g := grants[last];
      if lo <= At(g, byCommit) < hi && (k == -1 || g.window < grants[k].window) { k := last; }
    }
  }

  lemma WindowsApart(windows: seq<Window>, row: Row, clock: int, i: int, j: int)
    requires WindowsOk(windows, row, clock) && 0 <= i && i + 2 <= j < |windows|
    ensures windows[j].started >= windows[i].started + 2 * row.window
    ensures windows[j].started >= windows[i].visible + row.window
  {
    assert windows[i + 1].started >= windows[i].started + row.window;
    assert windows[j].started >= windows[i + 1].started + row.window;
  }

  /** Two grants in one span are at most one window apart by decision and two apart by commit. */
  lemma NearbyWindows(windows: seq<Window>, row: Row, clock: int, g: Grant, h: Grant, byCommit: bool)
    requires WindowsOk(windows, row, clock) && GrantOk(g, windows, row, clock) && GrantOk(h, windows, row, clock)
    requires g.window <= h.window && At(h, byCommit) - At(g, byCommit) < row.window
    ensures h.window < g.window + (if byCommit then 3 else 2)
  {
    if byCommit {
      if h.window >= g.window + 3 {
        WindowsApart(windows, row, clock, g.window + 1, h.window);
      }
    } else if h.window >= g.window + 2 {
      WindowsApart(windows, row, clock, g.window, h.window);
    }
  }

  /**
   Any span no longer than one window grants at most twice the budget when a grant is counted at the
   clock reading it was decided on, and at most three times the budget when it is counted at its commit.
   */
  lemma SpanBound(s: State, steps: seq<Step>, t: State, byCommit: bool, lo: int, hi: int)
    requires Init(s) && Exec(s, steps) == Some(t)
    requires hi - lo <= s.row.window
    ensures SpanUnits(t.grants, byCommit, lo, hi) <= (if byCommit then 3 else 2) * s.row.maxRequests
  {
    InitInv(s);
    RunKeepsInv(s, steps, t);
    var n: nat := if byCommit then 3 else 2;
    var k := EarliestInSpan(t.grants, byCommit, lo, hi);
    var first := if k < 0 then 0 else t.grants[k].window;
    forall i | 0 <= i < |t.grants| && lo <= At(t.grants[i], byCommit) < hi
      ensures first <= t.grants[i].window < first + n
    {
      NearbyWindows(t.windows, t.row, t.clock, t.grants[k], t.grants[i], byCommit);
    }
    SpanInsideWindows(t.grants, byCommit, lo, hi, first, n);
    RangeBounded(t.grants, first, n, s.row.maxRequests);
  }

  /** Committed only after the end of the window it was decided in. */
  predicate Late(g: Grant, windows: seq<Window>, window: nat) {
    0 <= g.window < |windows| && g.committed > windows[g.window].started + window
  }

  /** A grant committed by the end of its window is at most one window away from any other commit of the span. */
  lemma PromptIsNear(windows: seq<Window>, row: Row, clock: int, g: Grant, h: Grant)
    requires WindowsOk(windows, row, clock) && GrantOk(g, windows, row, clock) && GrantOk(h, windows, row, clock)
    requires !Late(g, windows, row.window) && g.window <= h.window && h.committed - g.committed < row.window
    ensures h.window < g.window + 2
  {
    if h.window >= g.window + 2 { WindowsApart(windows, row, clock, g.window, h.window); }
  }

  /** Counted by commit, a span of one window length sees more than two budgets only when it counts a grant committed after its window. */
  lemma TwiceUnlessLate(s: State, steps: seq<Step>, t: State, lo: int, hi: int)
    requires Init(s) && Exec(s, steps) == Some(t) && hi - lo <= s.row.window
    requires forall i :: 0 <= i < |t.grants| && lo <= t.grants[i].committed < hi ==> !Late(t.grants[i], t.windows, s.row.window)
    ensures SpanUnits(t.grants, true, lo, hi) <= 2 * s.row.maxRequests
  {
    InitInv(s);
    RunKeepsInv(s, steps, t);
    var k := EarliestInSpan(t.grants, true, lo, hi);
    var first := if k < 0 then 0 else t.grants[k].window;
    forall i | 0 <= i < |t.grants| && lo <= At(t.grants[i], true) < hi ensures first <= t.grants[i].window < first + 2 {
      PromptIsNear(t.windows, t.row, t.clock, t.grants[k], t.grants[i]);
    }
    SpanInsideWindows(t.grants, true, lo, hi, first, 2);
    RangeBounded(t.grants, first, 2, s.row.maxRequests);
  }

  // ---------------------------------------------------------------- three attempts

  /** How often the worker reads the row in a run. */
  function Reads(steps: seq<Step>, w: nat): nat {
    if steps == [] then 0
    else
      var one := if steps[0] == Read(w) then 1 else 0;
      one + Reads(steps[1..], w)
  }

  /** The worker has read the row this often, and before the third time it has not given up. */
  predicate HasRead(p: Phase, count: nat) {
    match p
    case Ready(attempt) => count == attempt && attempt <= 2
    case Loaded(attempt, _) => count == attempt + 1 && attempt <= 2
    case Resetting(attempt, _, _) => count == attempt + 1 && attempt <= 2
    case Consuming(attempt, _, _) => count == attempt + 1 && attempt <= 2
    case Contended => count == 3
    case _ => 1 <= count <= 3
  }

  /** A worker's count of reads, before it arrives as well. */
  predicate CountOk(s: State, w: nat, count: nat) { if w in s.workers then HasRead(s.workers[w].phase, count) else count == 0 }

  lemma StepCounts(s: State, step: Step, w: nat, count: nat)
    requires Enabled(s, step) && CountOk(s, w, count)
    ensures CountOk(Apply(s, step), w, count + if step == Read(w) then 1 else 0)
  {}

  lemma {:induction false} ReadsCount(s: State, steps: seq<Step>, t: State, w: nat, count: nat)
    requires Exec(s, steps) == Some(t) && CountOk(s, w, count)
    ensures CountOk(t, w, count + Reads(steps, w))
    decreases |steps|
  {
    if steps != [] {
      StepCounts(s, steps[0], w, count);
      ReadsCount(Apply(s, steps[0]), steps[1..], t, w, count + if steps[0] == Read(w) then 1 else 0);
    }
  }

  /** In every run a worker reads the row at most three times, and gives up only after the third. */
  lemma ThreeAttempts(s: State, steps: seq<Step>, t: State, w: nat)
    requires Init(s) && Exec(s, steps) == Some(t)
    ensures Reads(steps, w) <= 3
    ensures w in t.workers && t.workers[w].phase == Contended ==> Reads(steps, w) == 3
  {
    ReadsCount(s, steps, t, w, 0);
  }

  // ---------------------------------------------------------------- how late commits may be

  /** An UPDATE that goes through is committed at most `delay` after its clock reading. */
  predicate Swift(s: State, step: Step, delay: nat)
    requires Enabled(s, step)
  {
    match step
    case TryReset(w) => ResetApplies(s.row, s.workers[w].phase.snap) ==> s.clock - s.workers[w].phase.now <= delay
    case TryConsume(w) => ConsumeApplies(s.row, s.workers[w].phase.snap) ==> s.clock - s.workers[w].phase.now <= delay
    case _ => true
  }

  ghost predicate SwiftRun(s: State, steps: seq<Step>, delay: nat)
    decreases |steps|
  {
    steps == [] || (Enabled(s, steps[0]) && Swift(s, steps[0], delay) && SwiftRun(Apply(s, steps[0]), steps[1..], delay))
  }

  lemma {:induction false} SwiftGrants(s: State, steps: seq<Step>, t: State, delay: nat)
    requires Exec(s, steps) == Some(t) && SwiftRun(s, steps, delay)
    requires forall i :: 0 <= i < |s.grants| ==> s.grants[i].committed - s.grants[i].decided <= delay
    ensures forall i :: 0 <= i < |t.grants| ==> t.grants[i].committed - t.grants[i].decided <= delay
    decreases |steps|
  {
    if steps != [] { SwiftGrants(Apply(s, steps[0]), steps[1..], t, delay); }
  }

  /** When every UPDATE is committed at most one instant after its clock reading, twice the budget is a bound by commit as well. */
  lemma TwiceWhenSwift(s: State, steps: seq<Step>, t: State, lo: int, hi: int)
    requires Init(s) && Exec(s, steps) == Some(t) && SwiftRun(s, steps, 1) && hi - lo <= s.row.window
    ensures SpanUnits(t.grants, true, lo, hi) <= 2 * s.row.maxRequests
  {
    InitInv(s);
    RunKeepsInv(s, steps, t);
    SwiftGrants(s, steps, t, 1);
    forall i | 0 <= i < |t.grants| ensures !Late(t.grants[i], t.windows, s.row.window) {
      assert GrantOk(t.grants[i], t.windows, t.row, t.clock);
    }
    TwiceUnlessLate(s, steps, t, lo, hi);
  }

  lemma {:induction false} SwifterIsSwift(s: State, steps: seq<Step>, delay: nat, more: nat)
    requires SwiftRun(s, steps, delay) && delay <= more
    ensures SwiftRun(s, steps, more)
    decreases |steps|
  {
    if steps != [] { SwifterIsSwift(Apply(s, steps[0]), steps[1..], delay, more); }
  }

  /** Did this step win its conditional UPDATE? */
  predicate Wins(s: State, step: Step)
    requires Enabled(s, step)
  {
    match step
    case TryReset(w) => ResetApplies(s.row, s.workers[w].phase.snap)
    case TryConsume(w) => ConsumeApplies(s.row, s.workers[w].phase.snap)
    case _ => false
  }

  /** If a worker's row changed while it took no step itself, another worker won an UPDATE in between. */
  lemma {:induction false} LosingMeansSomeoneWon(s: State, steps: seq<Step>, t: State, w: nat) returns (k: nat, u: State)
    requires Exec(s, steps) == Some(t) && t.row != s.row
    requires TryReset(w) !in steps && TryConsume(w) !in steps
    ensures k < |steps| && Exec(s, steps[..k]) == Some(u)
    ensures Enabled(u, steps[k]) && Wins(u, steps[k])
    ensures (steps[k].TryReset? || steps[k].TryConsume?) && steps[k].w != w
    decreases |steps|
  {
    var v := Apply(s, steps[0]);
    if Wins(s, steps[0]) {
      k, u := 0, s;
    } else {
      assert v.row == s.row;
      k, u := LosingMeansSomeoneWon(v, steps[1..], t, w);
      assert steps[..k + 1][1..] == steps[1..][..k];
      k := k + 1;
    }
  }

  function SnapOf(p: Phase): Option<Row> {
    match p
    case Loaded(_, snap) => Some(snap)
    case Resetting(_, snap, _) => Some(snap)
    case Consuming(_, snap, _) => Some(snap)
    case _ => None
  }

  lemma {:induction false} SnapshotStays(s: State, steps: seq<Step>, t: State, w: nat)
    requires w in s.workers && Exec(s, steps) == Some(t)
    requires Read(w) !in steps && TryReset(w) !in steps && TryConsume(w) !in steps
    ensures w in t.workers
    ensures SnapOf(t.workers[w].phase).Some? ==> SnapOf(t.workers[w].phase) == SnapOf(s.workers[w].phase)
    decreases |steps|
  {
    if steps != [] {
      SnapshotStays(Apply(s, steps[0]), steps[1..], t, w);
    }
  }

  /**
   A conditional UPDATE that changes no row means another worker's UPDATE succeeded
   between this worker's SELECT and its UPDATE.
   */
  lemma FailedUpdateMeansProgress(r: State, steps: seq<Step>, t: State, w: nat, last: Step) returns (k: nat, u: State)
    requires Enabled(r, Read(w)) && Exec(Apply(r, Read(w)), steps) == Some(t)
    requires Read(w) !in steps && TryReset(w) !in steps && TryConsume(w) !in steps
    requires last in {TryReset(w), TryConsume(w)} && Enabled(t, last) && !Wins(t, last)
    ensures k < |steps| && Exec(Apply(r, Read(w)), steps[..k]) == Some(u)
    ensures Enabled(u, steps[k]) && Wins(u, steps[k]) && steps[k].w != w
    ensures (steps[k].TryReset? || steps[k].TryConsume?)
  {
    var s := Apply(r, Read(w));
    SnapshotStays(s, steps, t, w);
    k, u := LosingMeansSomeoneWon(s, steps, t, w);
  }

  lemma {:induction false} OneMore(s: State, steps: seq<Step>, t: State, step: Step, delay: nat)
    requires Exec(s, steps) == Some(t) && SwiftRun(s, steps, delay) && Enabled(t, step) && Swift(t, step, delay)
    ensures Exec(s, steps + [step]) == Some(Apply(t, step)) && SwiftRun(s, steps + [step], delay)
    decreases |steps|
  {
    if steps == [] {
      assert [step][1..] == [];
    } else {
      OneMore(Apply(s, steps[0]), steps[1..], t, step, delay);
      assert (steps + [step])[1..] == steps[1..] + [step];
    }
  }

  /** A set of states that no step leaves, if its UPDATEs are committed within two instants. */
  ghost predicate Closed(p: State -> bool) {
    forall t, step :: p(t) && Enabled(t, step) && Swift(t, step, 2) ==> p(Apply(t, step))
  }

  /** A new worker reads the row and, `wait` later, the clock; the window has expired by then. */
  lemma SeesExpiry(p: State -> bool, s: State, w: nat, wait: nat) returns (t: State)
    requires Closed(p) && p(s) && w !in s.workers && s.row.Ends() <= s.clock + wait
    ensures p(t) && t == s.(clock := s.clock + wait, workers := s.workers[w := Worker(1, Resetting(0, s.row, s.clock + wait))])
  {
    t := s;
    assert Enabled(t, Arrive(w, 1));  t := Apply(t, Arrive(w, 1));
    assert Enabled(t, Read(w));       t := Apply(t, Read(w));
    assert Enabled(t, Tick(wait));    t := Apply(t, Tick(wait));
    assert Enabled(t, Choose(w));     t := Apply(t, Choose(w));
  }

  /** A new worker reads the row and, `wait` later, the clock; the whole budget still fits the window. */
  lemma SeesRoom(p: State -> bool, s: State, w: nat, wait: nat) returns (t: State)
    requires Closed(p) && p(s) && w !in s.workers && s.row.Ends() > s.clock + wait && s.row.used == 0
    ensures p(t) && t == s.(
      clock := s.clock + wait, workers := s.workers[w := Worker(s.row.maxRequests, Consuming(0, s.row, s.clock + wait))])
  {
    var all := s.row.maxRequests;
    t := s;
    assert Enabled(t, Arrive(w, all));  t := Apply(t, Arrive(w, all));
    assert Enabled(t, Read(w));         t := Apply(t, Read(w));
    assert Enabled(t, Tick(wait));      t := Apply(t, Tick(wait));
    assert Enabled(t, Choose(w));       t := Apply(t, Choose(w));
  }

  /** `wait` later the worker's pending reset is written, and it goes round the loop again. */
  lemma WritesReset(p: State -> bool, s: State, w: nat, wait: nat) returns (t: State)
    requires Closed(p) && p(s) && w in s.workers
    requires s.workers[w].phase.Resetting? && s.workers[w].phase.attempt == 0 && ResetApplies(s.row, s.workers[w].phase.snap)
    requires s.clock + wait - s.workers[w].phase.now <= 2
    ensures p(t) && t == s.(
      clock := s.clock + wait,
      row := s.row.(used := 0, started := s.workers[w].phase.now),
      windows := s.windows + [Window(s.workers[w].phase.now, s.clock + wait)],
      workers := s.workers[w := s.workers[w].(phase := Ready(1))])
  {
    t := s;
    assert Enabled(t, Tick(wait));   t := Apply(t, Tick(wait));
    assert Enabled(t, TryReset(w));  t := Apply(t, TryReset(w));
  }

  /** `wait` later the worker's pending charge is written. */
  lemma WritesCharge(p: State -> bool, s: State, w: nat, wait: nat) returns (t: State)
    requires Closed(p) && p(s) && w in s.workers && s.windows != []
    requires s.workers[w].phase.Consuming? && ConsumeApplies(s.row, s.workers[w].phase.snap)
    requires s.clock + wait - s.workers[w].phase.now <= 2
    ensures p(t) && t == s.(
      clock := s.clock + wait,
      row := s.row.(used := s.row.used + s.workers[w].units),
      grants := s.grants + [Grant(s.workers[w].units, |s.windows| - 1, s.workers[w].phase.now, s.clock + wait)],
      workers := s.workers[w := s.workers[w].(phase := Granted)])
  {
    t := s;
    assert Enabled(t, Tick(wait));     t := Apply(t, Tick(wait));
    assert Enabled(t, TryConsume(w));  t := Apply(t, TryConsume(w));
  }

  /** Three budgets: committed at the same instant from two windows, and less than a window later from a third. */
  function ThreeBudgets(max: nat, window: nat): seq<Grant> {
    [Grant(max, 0, window - 1, window + 1), Grant(max, 1, window + 1, window + 1), Grant(max, 2, 2 * window, 2 * window)]
  }

  lemma SpanOfThree(max: nat, window: nat)
    requires window >= 2
    ensures SpanUnits(ThreeBudgets(max, window), true, window + 1, 2 * window + 1) == 3 * max
  {
    var grants := ThreeBudgets(max, window);
    assert grants[..2][..1] == grants[..1] && grants[..1][..0] == [];
    assert SpanUnits(grants[..1], true, window + 1, 2 * window + 1) == max;
    assert SpanUnits(grants[..2], true, window + 1, 2 * window + 1) == 2 * max;
  }

  function Fresh(max: nat, window: nat): State { State(Row(max, window, 0, 0), 0, map[], [Window(0, 0)], []) }

  /**
   Worker 1 decides in the last instant of the first window and commits two instants later. Worker 2 saw that window expired
   at its end and writes its reset just after worker 1, worker 3 spends the new window at once, worker 4 finds it expired at
   its end, and worker 5 spends the next one.
   */
  lemma LateWrites(p: State -> bool, max: nat, window: nat) returns (t: State)
    requires Closed(p) && p(Fresh(max, window)) && window >= 2
    ensures p(t) && t.grants == ThreeBudgets(max, window)
  {
    t := SeesRoom(p, Fresh(max, window), 1, window - 1);
    t := SeesExpiry(p, t, 2, 1);
    t := WritesCharge(p, t, 1, 1);
    t := WritesReset(p, t, 2, 0);
    t := SeesRoom(p, t, 3, 0);
    t := WritesCharge(p, t, 3, 0);
    t := SeesExpiry(p, t, 4, window - 1);
    t := WritesReset(p, t, 4, 0);
    t := SeesRoom(p, t, 5, 0);
    t := WritesCharge(p, t, 5, 0);
  }

  /** The states a run from s can end in whose UPDATEs are committed within two instants. */
  ghost predicate Reaches(s: State, t: State) { exists steps :: Exec(s, steps) == Some(t) && SwiftRun(s, steps, 2) }

  lemma ReachesIsClosed(s: State)
    ensures Closed(t => Reaches(s, t)) && Reaches(s, s)
  {
    assert Exec(s, []) == Some(s) && SwiftRun(s, [], 2);
    forall t, step | Reaches(s, t) && Enabled(t, step) && Swift(t, step, 2) ensures Reaches(s, Apply(t, step)) {
      var steps :| Exec(s, steps) == Some(t) && SwiftRun(s, steps, 2);
      OneMore(s, steps, t, step, 2);
    }
  }

  /** A delay of two instants is enough for the bound of three: for every budget and every window three budgets pass within one window length. */
  lemma TwiceTheBudgetFailsByCommit(max: nat, window: nat) returns (steps: seq<Step>, t: State)
    requires window >= 2
    ensures Init(Fresh(max, window)) && Exec(Fresh(max, window), steps) == Some(t) && SwiftRun(Fresh(max, window), steps, 2)
    ensures SpanUnits(t.grants, true, window + 1, 2 * window + 1) == 3 * max
  {
    ReachesIsClosed(Fresh(max, window));
    t := LateWrites(u => Reaches(Fresh(max, window), u), max, window);
    SpanOfThree(max, window);
    steps :| Exec(Fresh(max, window), steps) == Some(t) && SwiftRun(Fresh(max, window), steps, 2);
  }

  /** In every run whose UPDATEs are committed within the delay, every span of one window length holds at most two budgets by commit. */
  ghost predicate TwiceHolds(max: nat, window: nat, delay: nat) {
    forall steps, t, lo, hi ::
      Exec(Fresh(max, window), steps) == Some(t) && SwiftRun(Fresh(max, window), steps, delay) && hi - lo <= window ==>
        SpanUnits(t.grants, true, lo, hi) <= 2 * max
  }

  /** Counted by commit, twice the budget is a bound exactly when UPDATEs are committed at most one instant after their clock readings. */
  lemma TwiceExactlyWhenSwift(max: nat, window: nat, delay: nat)
    requires window >= 2
    ensures TwiceHolds(max, window, delay) <==> delay <= 1 || max == 0
  {
    var s := Fresh(max, window);
    if delay <= 1 || max == 0 {
      forall steps, t, lo, hi | Exec(s, steps) == Some(t) && SwiftRun(s, steps, delay) && hi - lo <= window
        ensures SpanUnits(t.grants, true, lo, hi) <= 2 * max
      {
        if delay <= 1 {
          SwifterIsSwift(s, steps, delay, 1);
          TwiceWhenSwift(s, steps, t, lo, hi);
        } else {
          SpanBound(s, steps, t, true, lo, hi);
        }
      }
    } else {
      var steps, t := TwiceTheBudgetFailsByCommit(max, window);
      SwifterIsSwift(s, steps, 2, delay);
      assert SpanUnits(t.grants, true, window + 1, 2 * window + 1) > 2 * max;
    }
  }

  // ---------------------------------------------------------------- the loop itself

  /** The row as an object, with the three statements the loop issues against it. */
  class BudgetRow {
    var maxRequests: nat
    var window: nat
    var used: int
    var started: int

    function Value(): Row
      reads this
    {
      Row(maxRequests, window, used, started)
    }

    method TryResetRow(snap: Row, now: int) returns (changed: bool)
      modifies this
      ensures changed == ResetApplies(old(Value()), snap)
      ensures Value() == AfterReset(old(Value()), snap, now)
      ensures changed <==> old(started) == snap.started
      ensures (if changed then used == 0 && started == now else used == old(used) && started == old(started)) && maxRequests == old(maxRequests) && window == old(window)
    {
      changed := started == snap.started;
      if changed { used, started := 0, now; }
    }

    method TryConsumeRow(snap: Row, units: nat) returns (changed: bool)
      modifies this
      ensures changed == ConsumeApplies(old(Value()), snap)
      ensures Value() == AfterConsume(old(Value()), snap, units)
      ensures changed <==> old(used) == snap.used && old(started) == snap.started
      ensures used == (if changed then old(used) + units else old(used)) && started == old(started) && maxRequests == old(maxRequests) && window == old(window)
    {
      changed := used == snap.used && started == snap.started;
      if changed { used := snap.used + units; }
    }

    /**
     consume_provider_budget with nobody else writing the row, the clock reading `clock(i)` on pass i.
     The budget is charged at most once, never beyond its maximum, and the call gives up only after
     the clock jumped over a whole window on every pass.
     */
    method Consume(units: nat, clock: nat -> int) returns (outcome: Phase)
      requires window > 0 && used <= maxRequests
      modifies this
      ensures maxRequests == old(maxRequests) && window == old(window) && used <= maxRequests
      ensures outcome.Granted? || outcome.Refused? || outcome.Contended?
      ensures outcome.Granted? ==>
        exists i: nat :: i < ATTEMPTS && clock(i) < started + window
          && used == (if started == old(started) then old(used) else 0) + units
      ensures outcome.Refused? ==>
        used + units > maxRequests && (started == old(started) ==> used == old(used))
      ensures outcome.Refused? ==>
        exists i: nat :: i < ATTEMPTS && clock(i) < started + window < clock(i) + outcome.retryAfter * SECOND
      ensures outcome.Contended? ==>
        clock(0) >= old(started) + window && clock(1) >= clock(0) + window && clock(2) >= clock(1) + window
    {
      var attempt: nat := 0;
      while attempt < ATTEMPTS
        invariant attempt <= ATTEMPTS
        invariant maxRequests == old(maxRequests) && window == old(window)
        invariant attempt == 0 ==> Value() == old(Value())
        invariant attempt > 0 ==> used == 0 && started == clock(attempt - 1) && clock(0) >= old(started) + window
        invariant attempt > 1 ==> clock(1) >= clock(0) + window
        invariant attempt > 2 ==> clock(2) >= clock(1) + window
        invariant attempt > 0 ==> started > old(started)
      {
        var snap := Value();
        var now := clock(attempt);
        match Decide(snap, units, now) {
          case Expired =>
            var _ := TryResetRow(snap, now);
          case Exhausted(retryAfter) =>
            return Refused(retryAfter);
          case Fits =>
            var changed := TryConsumeRow(snap, units);
            if changed { return Granted; }
        }
        attempt := attempt + 1;
      }
      return Contended;
    }
  }
}
