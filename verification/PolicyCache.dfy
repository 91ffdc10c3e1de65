/**
 The policy cache: every process keeps a tenant's effective policy set for a while. The database is read
 outside the cache's lock, so a check, a load and a store are separate steps.
 */
module PolicyCache {
  import opened Options
  import opened DatabaseHistory

  /** A cached set. The version read and the instant it was read are kept for the statements below. */
  datatype Entry<V> = Entry(expires: int, value: V, index: nat, loadedAt: int)

  /** A call of _effective_policy_definitions after each of its steps; `now` is its clock reading. */
  datatype Phase<V> =
    | Idle
    | Looking(now: int)
    | Loading(now: int)
    | Loaded(now: int, value: V, index: nat, loadedAt: int)

  /** Calls are numbered in the order in which they begin. */
  datatype Worker<V> = Worker(process: nat, call: nat, phase: Phase<V>)

  /** What a call in a process was served: version `index` of the policy set. */
  datatype Served<V> = Served(process: nat, call: nat, value: V, index: nat, cached: bool, readAt: int, servedAt: int)

  datatype State<V> = State(
    clock: int, history: History<V>, cache: map<nat, Entry<V>>, workers: map<nat, Worker<V>>, calls: nat, served: seq<Served<V>>)

  /** `time` is the instant at which the step happens. */
  datatype Step<V> =
    | Start(w: nat, process: nat, time: int)
    | Check(w: nat, time: int)
    | Load(w: nat, time: int)
    | Store(w: nat, time: int)
    | Invalidate(process: nat, time: int)
    | Activate(value: V, time: int)

  predicate Enabled<V>(s: State<V>, step: Step<V>) {
    && step.time >= s.clock
    && match step
       case Start(w, _, _) => w !in s.workers || s.workers[w].phase.Idle?
       case Check(w, _) => w in s.workers && s.workers[w].phase.Looking?
       case Load(w, _) => w in s.workers && s.workers[w].phase.Loading?
       case Store(w, _) => w in s.workers && s.workers[w].phase.Loaded?
       case Invalidate(_, _) => true
       case Activate(_, _) => true
  }

  predicate Fresh<V>(cache: map<nat, Entry<V>>, process: nat, now: int) {
    process in cache && cache[process].expires > now
  }

  function Move<V>(s: State<V>, w: nat, phase: Phase<V>): State<V>
    requires w in s.workers
  {
    s.(workers := s.workers[w := s.workers[w].(phase := phase)])
  }

  function Apply<V>(ttl: nat, s: State<V>, step: Step<V>): State<V>
    requires s.history != [] && Enabled(s, step)
  {
    var t := s.(clock := step.time);
    match step
    case Start(w, process, time) => t.(workers := s.workers[w := Worker(process, s.calls, Looking(time))], calls := s.calls + 1)
    case Check(w, time) =>
      var now := s.workers[w].phase.now;
      var process := s.workers[w].process;
      if Fresh(s.cache, process, now) then
        var e := s.cache[process];
        Move(t, w, Idle).(served := s.served + [Served(process, s.workers[w].call, e.value, e.index, true, now, time)])
      else Move(t, w, Loading(now))
    case Load(w, time) =>
      var i := |s.history| - 1;
      Move(t, w, Loaded(s.workers[w].phase.now, s.history[i].value, i, time))
    case Store(w, time) =>
      var worker := s.workers[w];
      var p := worker.phase;
      Move(t, w, Idle).(
        cache := s.cache[worker.process := Entry(p.now + ttl, p.value, p.index, p.loadedAt)],
        served := s.served + [Served(worker.process, worker.call, p.value, p.index, false, p.now, time)])
    case Invalidate(process, _) => t.(cache := s.cache - {process})
    case Activate(value, time) => t.(history := s.history + [Version(value, time)])
  }

  /**
   A call takes what is cached exactly when that expires after its clock reading, and is served it; otherwise it goes on
   to load the newest set, stores it until its clock reading plus the lifetime, and is served that.
   */
  lemma CallGoes<V>(ttl: nat, s: State<V>, w: nat, time: int)
    requires s.history != [] && w in s.workers
    ensures Enabled(s, Check(w, time)) ==>
      var worker, t := s.workers[w], Apply(ttl, s, Check(w, time));
      if worker.process in s.cache && s.cache[worker.process].expires > worker.phase.now then
        var e := s.cache[worker.process];
        && t.workers[w].phase == Idle && t.cache == s.cache
        && t.served == s.served + [Served(worker.process, worker.call, e.value, e.index, true, worker.phase.now, time)]
      else t.workers[w].phase == Loading(worker.phase.now) && t.served == s.served && t.cache == s.cache
    ensures Enabled(s, Load(w, time)) ==>
      var p, last := Apply(ttl, s, Load(w, time)).workers[w].phase, |s.history| - 1;
      p == Loaded(s.workers[w].phase.now, s.history[last].value, last, time)
    ensures Enabled(s, Store(w, time)) ==>
      var worker, t := s.workers[w], Apply(ttl, s, Store(w, time));
      && t.workers[w].phase == Idle && worker.process in t.cache && t.cache[worker.process].value == worker.phase.value
      && t.cache[worker.process].expires == worker.phase.now + ttl
      && (forall p :: p in s.cache && p != worker.process ==> p in t.cache && t.cache[p] == s.cache[p])
      && |t.served| == |s.served| + 1 && t.served[|s.served|].value == worker.phase.value && !t.served[|s.served|].cached
  {}

  function Exec<V>(ttl: nat, s: State<V>, steps: seq<Step<V>>): Option<State<V>>
    requires s.history != []
    decreases |steps|
  {
    if steps == [] then Some(s)
    else if Enabled(s, steps[0]) then Exec(ttl, Apply(ttl, s, steps[0]), steps[1..])
    else None
  }

  // ---------------------------------------------------------------- what is kept

  ghost predicate WasRead<V>(h: History<V>, clock: int, value: V, index: nat, loadedAt: int) {
    InForce(h, index, loadedAt) && h[index].value == value && loadedAt <= clock
  }

  ghost predicate EntryOk<V>(ttl: nat, h: History<V>, clock: int, e: Entry<V>) {
    WasRead(h, clock, e.value, e.index, e.loadedAt) && e.expires - ttl <= e.loadedAt
  }

  ghost predicate PhaseOk<V>(h: History<V>, clock: int, p: Phase<V>) {
    match p
    case Idle => true
    case Looking(now) => now <= clock
    case Loading(now) => now <= clock
    case Loaded(now, value, index, loadedAt) => now <= loadedAt && WasRead(h, clock, value, index, loadedAt)
  }

  /**
   The value was in force at some instant up to the moment it was served: since the call's clock reading
   when it was loaded, and since less than the lifetime before that reading when it came from the cache.
   */
  ghost predicate ServedOk<V>(ttl: nat, h: History<V>, clock: int, s: Served<V>) {
    && s.servedAt <= clock
    && s.index < |h| && h[s.index].value == s.value
    && exists instant: int :: InForce(h, s.index, instant) && instant <= s.servedAt
         && (if s.cached then instant > s.readAt - ttl else instant >= s.readAt)
  }

  ghost predicate Inv<V(!new)>(ttl: nat, s: State<V>) {
    && Chronological(s.history, s.clock)
    && (forall p :: p in s.cache ==> EntryOk(ttl, s.history, s.clock, s.cache[p]))
    && (forall w :: w in s.workers ==> PhaseOk(s.history, s.clock, s.workers[w].phase))
    && (forall k :: 0 <= k < |s.served| ==> ServedOk(ttl, s.history, s.clock, s.served[k]))
  }

  lemma ServedStays<V>(ttl: nat, h: History<V>, clock: int, later: int, s: Served<V>)
    requires ServedOk(ttl, h, clock, s) && clock <= later
    ensures ServedOk(ttl, h, later, s)
  {}

  lemma ServedStaysAfterChange<V>(ttl: nat, h: History<V>, clock: int, s: Served<V>, v: Version<V>)
    requires ServedOk(ttl, h, clock, s) && clock <= v.since
    ensures ServedOk(ttl, h + [v], v.since, s)
  {
    var instant :| InForce(h, s.index, instant) && instant <= s.servedAt
         && (if s.cached then instant > s.readAt - ttl else instant >= s.readAt);
    StaysInForce(h, s.index, instant, v);
  }

  lemma ChangeKeepsInv<V(!new)>(ttl: nat, s: State<V>, step: Step<V>)
    requires Inv(ttl, s) && Enabled(s, step) && step.Activate?
    ensures Inv(ttl, Apply(ttl, s, step))
  {
    var v := Version(step.value, step.time);
    forall k | 0 <= k < |s.served| ensures ServedOk(ttl, s.history + [v], step.time, s.served[k]) {
      ServedStaysAfterChange(ttl, s.history, s.clock, s.served[k], v);
    }
    forall p | p in s.cache ensures EntryOk(ttl, s.history + [v], step.time, s.cache[p]) {
      StaysInForce(s.history, s.cache[p].index, s.cache[p].loadedAt, v);
    }
    forall w | w in s.workers ensures PhaseOk(s.history + [v], step.time, s.workers[w].phase) {
      var p := s.workers[w].phase;
      if p.Loaded? { StaysInForce(s.history, p.index, p.loadedAt, v); }
    }
  }

  lemma ServedNow<V>(ttl: nat, h: History<V>, clock: int, s: Served<V>, instant: int)
    requires InForce(h, s.index, instant) && h[s.index].value == s.value && instant <= s.servedAt <= clock
    requires if s.cached then instant > s.readAt - ttl else instant >= s.readAt
    ensures ServedOk(ttl, h, clock, s)
  {}

  lemma StepKeepsServed<V(!new)>(ttl: nat, s: State<V>, step: Step<V>)
    requires Inv(ttl, s) && Enabled(s, step) && !step.Activate?
    ensures var t := Apply(ttl, s, step); forall k :: 0 <= k < |t.served| ==> ServedOk(ttl, t.history, t.clock, t.served[k])
  {
    forall k | 0 <= k < |s.served| ensures ServedOk(ttl, s.history, step.time, s.served[k]) {
      ServedStays(ttl, s.history, s.clock, step.time, s.served[k]);
    }
    match step
    case Check(w, time) =>
      var worker := s.workers[w];
      if Fresh(s.cache, worker.process, worker.phase.now) {
        var e := s.cache[worker.process];
        ServedNow(ttl, s.history, time, Served(worker.process, worker.call, e.value, e.index, true, worker.phase.now, time), e.loadedAt);
      }
    case Store(w, time) =>
      var worker := s.workers[w];
      var p := worker.phase;
      ServedNow(ttl, s.history, time, Served(worker.process, worker.call, p.value, p.index, false, p.now, time), p.loadedAt);
    case _ =>
  }

  lemma StepKeepsEntries<V(!new)>(ttl: nat, s: State<V>, step: Step<V>)
    requires Inv(ttl, s) && Enabled(s, step) && !step.Activate?
    ensures var t := Apply(ttl, s, step);
            && (forall p :: p in t.cache ==> EntryOk(ttl, t.history, t.clock, t.cache[p]))
            && (forall w :: w in t.workers ==> PhaseOk(t.history, t.clock, t.workers[w].phase))
  {
    CurrentInForce(s.history, step.time);
  }

  lemma StepKeepsInv<V(!new)>(ttl: nat, s: State<V>, step: Step<V>)
    requires Inv(ttl, s) && Enabled(s, step)
    ensures Inv(ttl, Apply(ttl, s, step))
  {
    if step.Activate? {
      ChangeKeepsInv(ttl, s, step);
    } else {
      StepKeepsServed(ttl, s, step);
      StepKeepsEntries(ttl, s, step);
    }
  }

  /**
   In every run of any number of processes, loaders, overwriting stores, invalidations and activations, each
   policy set served was in force at some instant no older than the lifetime before the call's clock reading.
   */
  lemma {:induction false} RunKeepsInv<V(!new)>(ttl: nat, s: State<V>, steps: seq<Step<V>>, t: State<V>)
    requires Inv(ttl, s) && Exec(ttl, s, steps) == Some(t)
    ensures Inv(ttl, t)
    decreases |steps|
  {
    if steps != [] {
      StepKeepsInv(ttl, s, steps[0]);
      RunKeepsInv(ttl, Apply(ttl, s, steps[0]), steps[1..], t);
    }
  }

  /** Nothing cached and nobody calling, with the first policy set in force since an instant. */
  function Begun<V>(first: Version<V>): State<V> { State(first.since, [first], map[], map[], 0, []) }

  /**
   From there, over every run: a set served from the cache was in force less than the lifetime before the call's clock
   reading or later, one the call loaded was in force since that reading, and both were in force by the serving.
   */
  lemma EveryServingIsBounded<V(!new)>(ttl: nat, first: Version<V>, steps: seq<Step<V>>, t: State<V>, k: nat)
    requires Exec(ttl, Begun(first), steps) == Some(t) && k < |t.served|
    ensures t.served[k].index < |t.history| && t.history[t.served[k].index].value == t.served[k].value
    ensures exists instant ::
      && InForce(t.history, t.served[k].index, instant) && instant <= t.served[k].servedAt
      && if t.served[k].cached then instant > t.served[k].readAt - ttl else instant >= t.served[k].readAt
  {
    RunKeepsInv(ttl, Begun(first), steps, t);
    assert ServedOk(ttl, t.history, t.clock, t.served[k]);
  }

  // ---------------------------------------------------------------- after an invalidation

  /** A call of the process has loaded a version before f, and storing it would outlast the instant. */
  ghost predicate Straggles<V>(ttl: nat, s: State<V>, w: nat, process: nat, f: nat, instant: int) {
    && w in s.workers && s.workers[w].process == process && s.workers[w].phase.Loaded?
    && s.workers[w].phase.index < f && s.workers[w].phase.now + ttl > instant
  }

  ghost predicate SomeStraggles<V>(ttl: nat, s: State<V>, process: nat, f: nat, instant: int) {
    exists w :: Straggles(ttl, s, w, process, f, instant)
  }

  /** Calls of the process numbered `call` or more have seen no version before f, and none can last beyond the instant. */
  ghost predicate CleanSince<V>(ttl: nat, s: State<V>, process: nat, f: nat, call: nat, instant: int) {
    && f < |s.history| && call <= s.calls && instant <= s.clock
    && (process in s.cache ==> s.cache[process].index >= f || s.cache[process].expires <= instant)
    && (forall w :: w in s.workers && s.workers[w].process == process && !s.workers[w].phase.Idle? ==>
          && s.workers[w].call < s.calls
          && (s.workers[w].call >= call ==> s.workers[w].phase.now >= instant)
          && (s.workers[w].phase.Loaded? && s.workers[w].phase.index < f ==>
                s.workers[w].call < call && s.workers[w].phase.now + ttl <= instant))
    && (forall k :: 0 <= k < |s.served| && s.served[k].process == process && s.served[k].call >= call ==> s.served[k].index >= f)
  }

  lemma StepKeepsClean<V(!new)>(ttl: nat, s: State<V>, step: Step<V>, process: nat, f: nat, call: nat, instant: int)
    requires s.history != [] && CleanSince(ttl, s, process, f, call, instant) && Enabled(s, step)
    ensures CleanSince(ttl, Apply(ttl, s, step), process, f, call, instant)
  {}

  lemma {:induction false} RunKeepsClean<V(!new)>(
    ttl: nat, s: State<V>, steps: seq<Step<V>>, t: State<V>, process: nat, f: nat, call: nat, instant: int)
    requires s.history != [] && CleanSince(ttl, s, process, f, call, instant) && Exec(ttl, s, steps) == Some(t)
    ensures CleanSince(ttl, t, process, f, call, instant)
    decreases |steps|
  {
    if steps != [] {
      StepKeepsClean(ttl, s, steps[0], process, f, call, instant);
      RunKeepsClean(ttl, Apply(ttl, s, steps[0]), steps[1..], t, process, f, call, instant);
    }
  }

  /** Calls under way and servings carry numbers that were given out. */
  ghost predicate Numbered<V>(s: State<V>) {
    && (forall w :: w in s.workers ==> s.workers[w].call < s.calls)
    && (forall k :: 0 <= k < |s.served| ==> s.served[k].call < s.calls)
  }

  lemma StepKeepsNumbered<V(!new)>(ttl: nat, s: State<V>, step: Step<V>)
    requires s.history != [] && Numbered(s) && Enabled(s, step)
    ensures Numbered(Apply(ttl, s, step)) && Apply(ttl, s, step).history != []
  {}

  lemma {:induction false} RunKeepsNumbered<V(!new)>(ttl: nat, s: State<V>, steps: seq<Step<V>>, t: State<V>)
    requires s.history != [] && Numbered(s) && Exec(ttl, s, steps) == Some(t)
    ensures Numbered(t)
    decreases |steps|
  {
    if steps != [] {
      StepKeepsNumbered(ttl, s, steps[0]);
      RunKeepsNumbered(ttl, Apply(ttl, s, steps[0]), steps[1..], t);
    }
  }

  /** In some run after the invalidation a call that begins after it is served a version before f. */
  ghost predicate CanBeStale<V(!new)>(ttl: nat, s: State<V>, process: nat, f: nat) {
    exists steps, t: State<V>, k: nat ::
      s.history != [] && Exec(ttl, s, steps) == Some(t) && StaleServing(t, k, process, s.calls, f)
  }

  ghost predicate StaleServing<V>(t: State<V>, k: nat, process: nat, call: nat, f: nat) {
    k < |t.served| && t.served[k].process == process && t.served[k].call >= call && t.served[k].index < f
  }

  lemma ThreeSteps<V(!new)>(ttl: nat, s: State<V>, a: Step<V>, b: Step<V>, c: Step<V>) returns (t: State<V>)
    requires s.history != [] && Enabled(s, a)
    requires var s1 := Apply(ttl, s, a); s1.history != [] && Enabled(s1, b)
    requires var s1 := Apply(ttl, s, a); var s2 := Apply(ttl, s1, b); s2.history != [] && Enabled(s2, c)
    ensures t == Apply(ttl, Apply(ttl, Apply(ttl, s, a), b), c) && Exec(ttl, s, [a, b, c]) == Some(t)
  {
    t := Apply(ttl, Apply(ttl, Apply(ttl, s, a), b), c);
    assert [a, b, c][1..] == [b, c] && [b, c][1..] == [c] && [c][1..] == [];
    assert Exec(ttl, t, []) == Some(t);
    assert Exec(ttl, Apply(ttl, Apply(ttl, s, a), b), [c]) == Some(t);
    assert Exec(ttl, Apply(ttl, s, a), [b, c]) == Some(t);
  }

  /** A straggler stores what it loaded, and a call that begins after it is served that. */
  lemma StragglerServesOld<V(!new)>(ttl: nat, s: State<V>, w: nat, process: nat, f: nat)
    requires s.history != [] && Straggles(ttl, s, w, process, f, s.clock)
    ensures CanBeStale(ttl, s, process, f)
  {
    var now := s.clock;
    var store, start, check := Store(w, now), Start(w, process, now), Check(w, now);
    var t := ThreeSteps(ttl, s, store, start, check);
    var k := |s.served| + 1;
    assert StaleServing(t, k, process, s.calls, f);
  }

  lemma NoStragglerIsClean<V(!new)>(ttl: nat, s: State<V>, process: nat, time: int)
    requires s.history != [] && Numbered(s) && time >= s.clock
    requires !SomeStraggles(ttl, s, process, |s.history| - 1, time)
    ensures CleanSince(ttl, Apply(ttl, s, Invalidate(process, time)), process, |s.history| - 1, s.calls, time)
  {
    var i := Apply(ttl, s, Invalidate(process, time));
    forall w | w in i.workers && i.workers[w].phase.Loaded? && i.workers[w].process == process && i.workers[w].phase.index < |s.history| - 1
      ensures i.workers[w].phase.now + ttl <= time
    {
      assert !Straggles(ttl, s, w, process, |s.history| - 1, time);
    }
  }

  /**
   After an invalidation, some run serves a version older than the one then current to a call of that process that begins
   later, exactly when at the invalidation a call there has already loaded an older version under a clock reading less than
   a lifetime old. Without such a call every later call is served the version current at the invalidation or a newer one.
   */
  lemma StaleExactlyWhen<V(!new)>(ttl: nat, first: Version<V>, steps: seq<Step<V>>, s: State<V>, process: nat, time: int)
    requires Exec(ttl, Begun(first), steps) == Some(s) && time >= s.clock
    ensures s.history != [] && Enabled(s, Invalidate(process, time))
    ensures CanBeStale(ttl, Apply(ttl, s, Invalidate(process, time)), process, |s.history| - 1)
       <==> SomeStraggles(ttl, s, process, |s.history| - 1, time)
  {
    RunKeepsInv(ttl, Begun(first), steps, s);
    RunKeepsNumbered(ttl, Begun(first), steps, s);
    var i := Apply(ttl, s, Invalidate(process, time));
    var f := |s.history| - 1;
    if w :| Straggles(ttl, s, w, process, f, time) {
      StragglerServesOld(ttl, i, w, process, f);
    } else {
      NoStragglerIsClean(ttl, s, process, time);
      forall after, t: State<V>, k: nat | Exec(ttl, i, after) == Some(t) ensures !StaleServing(t, k, process, i.calls, f) {
        RunKeepsClean(ttl, i, after, t, process, f, i.calls, time);
      }
    }
  }

  // ---------------------------------------------------------------- what does not hold

  lemma {:induction false} OneMore<V(!new)>(ttl: nat, s: State<V>, steps: seq<Step<V>>, t: State<V>, step: Step<V>)
    requires s.history != [] && Exec(ttl, s, steps) == Some(t) && t.history != [] && Enabled(t, step)
    ensures Exec(ttl, s, steps + [step]) == Some(Apply(ttl, t, step))
    decreases |steps|
  {
    if steps == [] {
      assert [step][1..] == [];
    } else {
      OneMore(ttl, Apply(ttl, s, steps[0]), steps[1..], t, step);
      assert (steps + [step])[1..] == steps[1..] + [step];
    }
  }

  /** A set of states that no step leaves. */
  ghost predicate Closed(ttl: nat, p: State<int> -> bool) {
    forall t, step :: p(t) && t.history != [] && Enabled(t, step) ==> p(Apply(ttl, t, step))
  }

  /** The states a run from s can end in. */
  ghost predicate Reaches(ttl: nat, s: State<int>, t: State<int>)
    requires s.history != []
  {
    exists steps :: Exec(ttl, s, steps) == Some(t)
  }

  lemma ReachesIsClosed(ttl: nat, s: State<int>)
    requires s.history != []
    ensures Closed(ttl, t => Reaches(ttl, s, t)) && Reaches(ttl, s, s)
  {
    assert Exec(ttl, s, []) == Some(s);
    forall t, step | Reaches(ttl, s, t) && t.history != [] && Enabled(t, step) ensures Reaches(ttl, s, Apply(ttl, t, step)) {
      var steps :| Exec(ttl, s, steps) == Some(t);
      OneMore(ttl, s, steps, t, step);
    }
  }

  /** One process, and policy set 1 in force since instant 0. */
  function Begin(): State<int> { Begun(Version(1, 0)) }

  lemma StaleRun(ttl: nat, p: State<int> -> bool) returns (t: State<int>)
    requires ttl >= 5 && Closed(ttl, p) && p(Begin())
    ensures p(t) && t.history == [Version(1, 0), Version(2, 1)]
    ensures |t.served| == 2 && t.served[1] == Served(0, 1, 1, 0, true, 4, 4)
  {
    t := Begin();
    assert Enabled(t, Start(1, 0, 0));       t := Apply(ttl, t, Start(1, 0, 0));
    assert Enabled(t, Check(1, 0));          t := Apply(ttl, t, Check(1, 0));
    assert Enabled(t, Load(1, 0));           t := Apply(ttl, t, Load(1, 0));
    assert Enabled(t, Activate(2, 1));       t := Apply(ttl, t, Activate(2, 1));
    assert Enabled(t, Invalidate(0, 2));     t := Apply(ttl, t, Invalidate(0, 2));
    assert Enabled(t, Store(1, 3));          t := Apply(ttl, t, Store(1, 3));
    assert Enabled(t, Start(2, 0, 4));       t := Apply(ttl, t, Start(2, 0, 4));
    assert Enabled(t, Check(2, 4));          t := Apply(ttl, t, Check(2, 4));
  }

  /**
   Invalidating after an activation does not clear a load that is still under way: set 2 was activated at 1 and
   the cache invalidated at 2, yet a call that starts at 4 in that very process is served set 1.
   */
  lemma StaleAfterInvalidation(ttl: nat) returns (t: State<int>)
    requires ttl >= 5
    ensures Reaches(ttl, Begin(), t) && t.history == [Version(1, 0), Version(2, 1)]
    ensures |t.served| == 2 && t.served[1] == Served(0, 1, 1, 0, true, 4, 4)
  {
    ReachesIsClosed(ttl, Begin());
    t := StaleRun(ttl, u => Reaches(ttl, Begin(), u));
  }

  lemma EarlyRun(ttl: nat, p: State<int> -> bool) returns (t: State<int>)
    requires ttl >= 5 && Closed(ttl, p) && p(Begin())
    ensures p(t) && t.history == [Version(1, 0), Version(2, 1)]
    ensures |t.served| == 2 && t.served[1] == Served(0, 0, 2, 1, true, 0, 2)
  {
    t := Begin();
    assert Enabled(t, Start(1, 0, 0));       t := Apply(ttl, t, Start(1, 0, 0));
    assert Enabled(t, Activate(2, 1));       t := Apply(ttl, t, Activate(2, 1));
    assert Enabled(t, Start(2, 0, 1));       t := Apply(ttl, t, Start(2, 0, 1));
    assert Enabled(t, Check(2, 1));          t := Apply(ttl, t, Check(2, 1));
    assert Enabled(t, Load(2, 1));           t := Apply(ttl, t, Load(2, 1));
    assert Enabled(t, Store(2, 1));          t := Apply(ttl, t, Store(2, 1));
    assert Enabled(t, Check(1, 2));          t := Apply(ttl, t, Check(1, 2));
  }

  /**
   A call reads its clock before it takes the lock, so what it is served may have come into force only after
   that reading: set 2, in force from 1 on, is served to a call that looked at the clock at 0.
   */
  lemma NewerThanTheLookup(ttl: nat) returns (t: State<int>)
    requires ttl >= 5
    ensures Reaches(ttl, Begin(), t) && t.history == [Version(1, 0), Version(2, 1)]
    ensures |t.served| == 2 && t.served[1] == Served(0, 0, 2, 1, true, 0, 2)
    ensures forall instant :: instant <= 0 ==> !InForce(t.history, 1, instant)
  {
    ReachesIsClosed(ttl, Begin());
    t := EarlyRun(ttl, u => Reaches(ttl, Begin(), u));
  }

  // ---------------------------------------------------------------- the dictionary of one process

  /** A cache key: the database binding and the tenant. */
  datatype Key = Key(binding: nat, tenant: string)

  datatype Kept<V> = Kept(expires: int, value: V)

  /** The keys a call of invalidate_policy_cache removes: those of one tenant, or all. */
  predicate Invalidated(key: Key, tenant: Option<string>) { tenant.None? || key.tenant == tenant.value }

  class ProcessCache<V> {
    var entries: map<Key, Kept<V>>

    constructor ()
      ensures entries == map[]
    {
      entries := map[];
    }

    method Look(key: Key, now: int) returns (hit: Option<V>)
      ensures hit.Some? <==> key in entries && entries[key].expires > now
      ensures hit.Some? ==> hit.value == entries[key].value
    {
      if key in entries && entries[key].expires > now { return Some(entries[key].value); }
      hit := None;
    }

    method Invalidate(tenant: Option<string>)
      modifies this
      ensures forall k :: k in entries <==> k in old(entries) && !Invalidated(k, tenant)
      ensures forall k :: k in entries ==> entries[k] == old(entries)[k]
      ensures forall k :: k in old(entries) && k !in entries <==> k in old(entries) && (tenant.None? || k.tenant == tenant.value)
    {
      if tenant.None? {
        entries := map[];
        return;
      }
      var keys := set k | k in entries && k.tenant == tenant.value;
      while keys != {}
        invariant keys <= entries.Keys
        invariant forall k :: k in keys ==> Invalidated(k, tenant)
        invariant forall k :: k in entries ==> k in old(entries) && entries[k] == old(entries)[k]
        invariant forall k :: k in old(entries) && !Invalidated(k, tenant) ==> k in entries
        invariant forall k :: k in entries && Invalidated(k, tenant) ==> k in keys
        decreases |keys|
      {
        var key :| key in keys;
        entries := entries - {key};
        keys := keys - {key};
      }
    }
  }
}
