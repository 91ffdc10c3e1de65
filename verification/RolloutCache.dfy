/**
 The rollout cache: a lookup holds the process's lock while it reads the rollout, then its bundle, and stores
 the result. Other processes commit in between; invalidation waits for the lock.
 */
module RolloutCache {
  import opened Options
  import opened DatabaseHistory

  /** What the database holds for a tenant: the rollout row and the bundles. */
  datatype Data<R, B> = Data(rollout: R, bundles: B)

  /** A configuration: a rollout read at one version and its bundle at another. The instants are bookkeeping. */
  datatype Config<R, B> = Config(rollout: R, bundles: B, first: nat, firstAt: int, second: nat, secondAt: int)

  datatype Entry<R, B> = Entry(expires: int, config: Config<R, B>)

  /** A call of runtime_rollout; `now` is its clock reading and `floor` its process's floor when it began. */
  datatype Phase<R, B> =
    | Idle
    | Waiting(now: int)
    | Holding(now: int)
    | Half(now: int, rollout: R, first: nat, firstAt: int)
    | Full(now: int, config: Config<R, B>)

  /** Calls are numbered in the order in which they begin. */
  datatype Worker<R, B> = Worker(process: nat, call: nat, floor: nat, phase: Phase<R, B>)

  datatype Served<R, B> = Served(process: nat, call: nat, config: Config<R, B>, cached: bool, floor: nat, readAt: int, servedAt: int)

  /** A process's floor is the version that was current when its cache was last invalidated. */
  datatype State<R, B> = State(
    clock: int, history: History<Data<R, B>>, locks: map<nat, nat>, floors: map<nat, nat>,
    cache: map<nat, Entry<R, B>>, workers: map<nat, Worker<R, B>>, calls: nat, served: seq<Served<R, B>>)

  datatype Step<R, B> =
    | Start(w: nat, process: nat, time: int)
    | Acquire(w: nat, time: int)
    | ReadRollout(w: nat, time: int)
    | ReadBundle(w: nat, time: int)
    | Store(w: nat, time: int)
    | Invalidate(process: nat, time: int)
    | Commit(data: Data<R, B>, time: int)

  predicate Enabled<R, B>(s: State<R, B>, step: Step<R, B>) {
    && step.time >= s.clock
    && match step
       case Start(w, process, _) => (w in s.workers ==> s.workers[w].phase.Idle?) && w !in s.locks.Values
       case Acquire(w, _) => w in s.workers && s.workers[w].phase.Waiting? && s.workers[w].process !in s.locks
       case ReadRollout(w, _) => w in s.workers && s.workers[w].phase.Holding?
       case ReadBundle(w, _) => w in s.workers && s.workers[w].phase.Half?
       case Store(w, _) => w in s.workers && s.workers[w].phase.Full?
       case Invalidate(process, _) => process !in s.locks
       case Commit(_, _) => true
  }

  function FloorOf(floors: map<nat, nat>, process: nat): nat { if process in floors then floors[process] else 0 }

  predicate Fresh<R, B>(cache: map<nat, Entry<R, B>>, process: nat, now: int) {
    process in cache && cache[process].expires > now
  }

  function Move<R, B>(s: State<R, B>, w: nat, phase: Phase<R, B>): State<R, B>
    requires w in s.workers
  {
    s.(workers := s.workers[w := s.workers[w].(phase := phase)])
  }

  function Apply<R, B>(ttl: nat, s: State<R, B>, step: Step<R, B>): State<R, B>
    requires s.history != [] && Enabled(s, step)
  {
    var t := s.(clock := step.time);
    var last := |s.history| - 1;
    match step
    case Start(w, process, time) =>
      t.(workers := s.workers[w := Worker(process, s.calls, FloorOf(s.floors, process), Waiting(time))], calls := s.calls + 1)
    case Acquire(w, time) =>
      var worker := s.workers[w];
      var now := worker.phase.now;
      if Fresh(s.cache, worker.process, now) then
        var config := s.cache[worker.process].config;
        Move(t, w, Idle).(served := s.served + [Served(worker.process, worker.call, config, true, worker.floor, now, time)])
      else Move(t, w, Holding(now)).(locks := s.locks[worker.process := w])
    case ReadRollout(w, time) => Move(t, w, Half(s.workers[w].phase.now, s.history[last].value.rollout, last, time))
    case ReadBundle(w, time) =>
      var p := s.workers[w].phase;
      Move(t, w, Full(p.now, Config(p.rollout, s.history[last].value.bundles, p.first, p.firstAt, last, time)))
    case Store(w, time) =>
      var worker := s.workers[w];
      var p := worker.phase;
      Move(t, w, Idle).(
        cache := s.cache[worker.process := Entry(p.now + ttl, p.config)],
        locks := s.locks - {worker.process},
        served := s.served + [Served(worker.process, worker.call, p.config, false, worker.floor, p.now, time)])
    case Invalidate(process, _) => t.(cache := s.cache - {process}, floors := s.floors[process := last])
    case Commit(data, time) => t.(history := s.history + [Version(data, time)])
  }

  /** A call begins with its clock reading and its process's floor, and waits for the lock. */
  lemma CallBegins<R, B>(ttl: nat, s: State<R, B>, w: nat, process: nat, time: int)
    requires s.history != [] && Enabled(s, Start(w, process, time))
    ensures var t := Apply(ttl, s, Start(w, process, time));
      && t.workers == s.workers[w := Worker(process, s.calls, FloorOf(s.floors, process), Waiting(time))] && t.calls == s.calls + 1
      && t.cache == s.cache && t.locks == s.locks && t.served == s.served
  {}

  /** With the lock it takes what is cached exactly when that expires after its clock reading; otherwise it keeps the lock. */
  lemma CallLooks<R, B>(ttl: nat, s: State<R, B>, w: nat, time: int)
    requires s.history != [] && Enabled(s, Acquire(w, time))
    ensures var worker, t := s.workers[w], Apply(ttl, s, Acquire(w, time));
      if worker.process in s.cache && s.cache[worker.process].expires > worker.phase.now then
        && t.workers[w].phase == Idle && t.locks == s.locks
        && t.served == s.served + [Served(worker.process, worker.call, s.cache[worker.process].config, true, worker.floor, worker.phase.now, time)]
      else t.workers[w].phase == Holding(worker.phase.now) && t.locks == s.locks[worker.process := w] && t.served == s.served
  {}

  /** Then it reads the newest rollout and the newest bundles, stores them until its clock reading plus the lifetime, and lets go of the lock. */
  lemma CallLoads<R, B>(ttl: nat, s: State<R, B>, w: nat, time: int)
    requires s.history != [] && w in s.workers
    ensures Enabled(s, ReadRollout(w, time)) ==>
      var last := |s.history| - 1;
      Apply(ttl, s, ReadRollout(w, time)).workers[w].phase == Half(s.workers[w].phase.now, s.history[last].value.rollout, last, time)
    ensures Enabled(s, ReadBundle(w, time)) ==>
      var p, last := s.workers[w].phase, |s.history| - 1;
      Apply(ttl, s, ReadBundle(w, time)).workers[w].phase
      == Full(p.now, Config(p.rollout, s.history[last].value.bundles, p.first, p.firstAt, last, time))
    ensures Enabled(s, Store(w, time)) ==>
      var worker, t := s.workers[w], Apply(ttl, s, Store(w, time));
      && t.workers[w].phase == Idle && worker.process in t.cache && t.cache[worker.process].config == worker.phase.config
      && t.cache[worker.process].expires == worker.phase.now + ttl && worker.process !in t.locks
      && |t.served| == |s.served| + 1 && t.served[|s.served|].config == worker.phase.config && t.served[|s.served|].call == worker.call
      && t.served[|s.served|].floor == worker.floor
  {}

  function Exec<R, B>(ttl: nat, s: State<R, B>, steps: seq<Step<R, B>>): Option<State<R, B>>
    requires s.history != []
    decreases |steps|
  {
    if steps == [] then Some(s)
    else if Enabled(s, steps[0]) then Exec(ttl, Apply(ttl, s, steps[0]), steps[1..])
    else None
  }

  // ---------------------------------------------------------------- what is kept

  /** The two halves were in force when they were read, in this order, and at or after a version. */
  ghost predicate WasRead<R, B>(h: History<Data<R, B>>, clock: int, floor: nat, c: Config<R, B>) {
    && floor <= c.first <= c.second && c.firstAt <= c.secondAt <= clock
    && InForce(h, c.first, c.firstAt) && h[c.first].value.rollout == c.rollout
    && InForce(h, c.second, c.secondAt) && h[c.second].value.bundles == c.bundles
  }

  ghost predicate EntryOk<R, B>(ttl: nat, h: History<Data<R, B>>, clock: int, floor: nat, e: Entry<R, B>) {
    WasRead(h, clock, floor, e.config) && e.expires - ttl <= e.config.firstAt
  }

  ghost predicate WorkerOk<R, B>(h: History<Data<R, B>>, clock: int, locks: map<nat, nat>, floors: map<nat, nat>, w: nat, worker: Worker<R, B>) {
    && worker.floor <= FloorOf(floors, worker.process)
    && (worker.phase.Holding? || worker.phase.Half? || worker.phase.Full? ==> worker.process in locks && locks[worker.process] == w)
    && match worker.phase
       case Idle => true
       case Waiting(now) => now <= clock
       case Holding(now) => now <= clock
       case Half(now, rollout, first, firstAt) =>
         FloorOf(floors, worker.process) <= first && now <= firstAt <= clock && InForce(h, first, firstAt) && h[first].value.rollout == rollout
       case Full(now, config) => now <= config.firstAt && WasRead(h, clock, FloorOf(floors, worker.process), config)
  }

  /**
   Both halves were in force at instants up to the serving, no older than the lifetime before the clock reading
   (or not older than that reading when loaded by the call), and not older than the floor the call began with.
   */
  ghost predicate ServedOk<R, B>(ttl: nat, h: History<Data<R, B>>, clock: int, s: Served<R, B>) {
    && s.servedAt <= clock
    && WasRead(h, s.servedAt, s.floor, s.config)
    && (if s.cached then s.config.firstAt > s.readAt - ttl else s.config.firstAt >= s.readAt)
  }

  ghost predicate Inv<R(!new), B(!new)>(ttl: nat, s: State<R, B>) {
    && Chronological(s.history, s.clock)
    && (forall p :: p in s.floors ==> s.floors[p] < |s.history|)
    && (forall p :: p in s.cache ==> EntryOk(ttl, s.history, s.clock, FloorOf(s.floors, p), s.cache[p]))
    && (forall w :: w in s.workers ==> WorkerOk(s.history, s.clock, s.locks, s.floors, w, s.workers[w]))
    && (forall k :: 0 <= k < |s.served| ==> ServedOk(ttl, s.history, s.clock, s.served[k]))
  }

  lemma ReadStays<R, B>(h: History<Data<R, B>>, clock: int, floor: nat, c: Config<R, B>, v: Version<Data<R, B>>)
    requires WasRead(h, clock, floor, c) && clock <= v.since
    ensures WasRead(h + [v], clock, floor, c)
  {
    StaysInForce(h, c.first, c.firstAt, v);
    StaysInForce(h, c.second, c.secondAt, v);
  }

  lemma CommitKeepsInv<R(!new), B(!new)>(ttl: nat, s: State<R, B>, step: Step<R, B>)
    requires Inv(ttl, s) && Enabled(s, step) && step.Commit?
    ensures Inv(ttl, Apply(ttl, s, step))
  {
    var v := Version(step.data, step.time);
    forall k | 0 <= k < |s.served| ensures ServedOk(ttl, s.history + [v], step.time, s.served[k]) {
      ReadStays(s.history, s.served[k].servedAt, s.served[k].floor, s.served[k].config, v);
    }
    forall p | p in s.cache ensures EntryOk(ttl, s.history + [v], step.time, FloorOf(s.floors, p), s.cache[p]) {
      ReadStays(s.history, s.clock, FloorOf(s.floors, p), s.cache[p].config, v);
    }
    forall w | w in s.workers ensures WorkerOk(s.history + [v], step.time, s.locks, s.floors, w, s.workers[w]) {
      var p := s.workers[w].phase;
      if p.Half? { StaysInForce(s.history, p.first, p.firstAt, v); }
      if p.Full? { ReadStays(s.history, s.clock, FloorOf(s.floors, s.workers[w].process), p.config, v); }
    }
  }

  /** A call that takes no step stays as it is while time passes and others take their locks. */
  lemma OthersStayOk<R, B>(h: History<Data<R, B>>, clock: int, later: int, locks: map<nat, nat>, more: map<nat, nat>,
                           floors: map<nat, nat>, w: nat, worker: Worker<R, B>)
    requires WorkerOk(h, clock, locks, floors, w, worker) && clock <= later
    requires forall p :: p in locks ==> p in more && more[p] == locks[p]
    ensures WorkerOk(h, later, more, floors, w, worker)
  {}

  /** The steps before the lock is held. */
  lemma WaitingKeepsWorkers<R(!new), B(!new)>(ttl: nat, s: State<R, B>, step: Step<R, B>)
    requires Inv(ttl, s) && Enabled(s, step) && (step.Start? || step.Acquire?)
    ensures var t := Apply(ttl, s, step);
            forall w :: w in t.workers ==> WorkerOk(t.history, t.clock, t.locks, t.floors, w, t.workers[w])
  {
    var t := Apply(ttl, s, step);
    forall w | w in t.workers ensures WorkerOk(t.history, t.clock, t.locks, t.floors, w, t.workers[w]) {
      if w != step.w {
        OthersStayOk(s.history, s.clock, t.clock, s.locks, t.locks, s.floors, w, s.workers[w]);
      } else if step.Acquire? {
        assert WorkerOk(s.history, s.clock, s.locks, s.floors, w, s.workers[w]);
      }
    }
  }

  /** The steps after which the lock is free. */
  lemma ReleasingKeepsWorkers<R(!new), B(!new)>(ttl: nat, s: State<R, B>, step: Step<R, B>)
    requires Inv(ttl, s) && Enabled(s, step) && (step.Store? || step.Invalidate?)
    ensures var t := Apply(ttl, s, step);
            forall w :: w in t.workers ==> WorkerOk(t.history, t.clock, t.locks, t.floors, w, t.workers[w])
  {
    var t := Apply(ttl, s, step);
    forall w | w in t.workers ensures WorkerOk(t.history, t.clock, t.locks, t.floors, w, t.workers[w]) {
      if w in s.workers { assert WorkerOk(s.history, s.clock, s.locks, s.floors, w, s.workers[w]); }
    }
  }

  /** The two reads made under the lock. */
  lemma ReadingKeepsWorkers<R(!new), B(!new)>(ttl: nat, s: State<R, B>, step: Step<R, B>)
    requires Inv(ttl, s) && Enabled(s, step) && (step.ReadRollout? || step.ReadBundle?)
    ensures var t := Apply(ttl, s, step);
            forall w :: w in t.workers ==> WorkerOk(t.history, t.clock, t.locks, t.floors, w, t.workers[w])
  {
    CurrentInForce(s.history, step.time);
  }

  lemma CacheKept<R(!new), B(!new)>(ttl: nat, s: State<R, B>, step: Step<R, B>)
    requires Inv(ttl, s) && Enabled(s, step) && !step.Commit?
    ensures var t := Apply(ttl, s, step);
            forall p :: p in t.cache ==> EntryOk(ttl, t.history, t.clock, FloorOf(t.floors, p), t.cache[p])
  {
    var t := Apply(ttl, s, step);
    forall p | p in t.cache ensures EntryOk(ttl, t.history, t.clock, FloorOf(t.floors, p), t.cache[p]) {
      if step.Store? && p == s.workers[step.w].process {
        assert WorkerOk(s.history, s.clock, s.locks, s.floors, step.w, s.workers[step.w]);
      } else {
        assert EntryOk(ttl, s.history, s.clock, FloorOf(s.floors, p), s.cache[p]);
      }
    }
  }

  lemma ServedKept<R(!new), B(!new)>(ttl: nat, s: State<R, B>, step: Step<R, B>)
    requires Inv(ttl, s) && Enabled(s, step) && !step.Commit?
    ensures var t := Apply(ttl, s, step);
            forall k :: 0 <= k < |t.served| ==> ServedOk(ttl, t.history, t.clock, t.served[k])
  {
    var t := Apply(ttl, s, step);
    forall k | 0 <= k < |t.served| ensures ServedOk(ttl, t.history, t.clock, t.served[k]) {
      if k < |s.served| {
        assert ServedOk(ttl, s.history, s.clock, s.served[k]);
      } else {
        assert WorkerOk(s.history, s.clock, s.locks, s.floors, step.w, s.workers[step.w]);
      }
    }
  }

  lemma StepKeepsInv<R(!new), B(!new)>(ttl: nat, s: State<R, B>, step: Step<R, B>)
    requires Inv(ttl, s) && Enabled(s, step)
    ensures Inv(ttl, Apply(ttl, s, step))
  {
    if step.Commit? {
      CommitKeepsInv(ttl, s, step);
    } else {
      if step.ReadRollout? || step.ReadBundle? {
        ReadingKeepsWorkers(ttl, s, step);
      } else if step.Start? || step.Acquire? {
        WaitingKeepsWorkers(ttl, s, step);
      } else {
        ReleasingKeepsWorkers(ttl, s, step);
      }
      CacheKept(ttl, s, step);
      ServedKept(ttl, s, step);
    }
  }

  /**
   In every run each configuration served was read, half by half, no longer ago than the lifetime before the
   call's clock reading, and a call that begins after an invalidation is served nothing older than the version
   that was current when the cache was invalidated.
   */
  lemma {:induction false} RunKeepsInv<R(!new), B(!new)>(ttl: nat, s: State<R, B>, steps: seq<Step<R, B>>, t: State<R, B>)
    requires Inv(ttl, s) && Exec(ttl, s, steps) == Some(t)
    ensures Inv(ttl, t)
    decreases |steps|
  {
    if steps != [] {
      StepKeepsInv(ttl, s, steps[0]);
      RunKeepsInv(ttl, Apply(ttl, s, steps[0]), steps[1..], t);
    }
  }

  /** Nothing cached and nobody calling, with the first data in force since an instant. */
  function Begun<R, B>(first: Version<Data<R, B>>): State<R, B> { State(first.since, [first], map[], map[], map[], map[], 0, []) }

  /** From there, over every run: what is served was read, half by half, at instants no older than the lifetime allows, and at or after the floor. */
  lemma EveryServingIsBounded<R(!new), B(!new)>(ttl: nat, first: Version<Data<R, B>>, steps: seq<Step<R, B>>, t: State<R, B>, k: nat)
    requires Exec(ttl, Begun(first), steps) == Some(t) && k < |t.served|
    ensures var s := t.served[k]; var c := s.config;
      && InForce(t.history, c.first, c.firstAt) && t.history[c.first].value.rollout == c.rollout
      && InForce(t.history, c.second, c.secondAt) && t.history[c.second].value.bundles == c.bundles
      && s.floor <= c.first <= c.second && c.firstAt <= c.secondAt <= s.servedAt
      && if s.cached then c.firstAt > s.readAt - ttl else c.firstAt >= s.readAt
  {
    RunKeepsInv(ttl, Begun(first), steps, t);
    assert ServedOk(ttl, t.history, t.clock, t.served[k]);
  }

  /** A call keeps the floor it began with, and is served with that floor. */
  lemma ServedWithFloor<R(!new), B(!new)>(ttl: nat, s: State<R, B>, step: Step<R, B>, w: nat)
    requires s.history != [] && Enabled(s, step) && w in s.workers && !s.workers[w].phase.Idle?
    ensures var t := Apply(ttl, s, step);
            && w in t.workers && t.workers[w].floor == s.workers[w].floor
            && (t.workers[w].phase.Idle? ==> |t.served| == |s.served| + 1 && t.served[|s.served|].floor == s.workers[w].floor)
  {}

  // ---------------------------------------------------------------- after a commit and an invalidation

  /** Calls of the process numbered `call` or more have a floor of at least f, and were served with one. */
  ghost predicate RaisedSince<R, B>(s: State<R, B>, process: nat, f: nat, call: nat) {
    && FloorOf(s.floors, process) >= f && call <= s.calls && f < |s.history|
    && (forall w :: w in s.workers && s.workers[w].process == process && s.workers[w].call >= call ==> s.workers[w].floor >= f)
    && (forall k :: 0 <= k < |s.served| && s.served[k].process == process && s.served[k].call >= call ==> s.served[k].floor >= f)
  }

  lemma StepKeepsRaised<R(!new), B(!new)>(ttl: nat, s: State<R, B>, step: Step<R, B>, process: nat, f: nat, call: nat)
    requires s.history != [] && RaisedSince(s, process, f, call) && Enabled(s, step)
    ensures RaisedSince(Apply(ttl, s, step), process, f, call) && Apply(ttl, s, step).history != []
  {}

  lemma {:induction false} RunKeepsRaised<R(!new), B(!new)>(
    ttl: nat, s: State<R, B>, steps: seq<Step<R, B>>, t: State<R, B>, process: nat, f: nat, call: nat)
    requires s.history != [] && RaisedSince(s, process, f, call) && Exec(ttl, s, steps) == Some(t)
    ensures RaisedSince(t, process, f, call)
    decreases |steps|
  {
    if steps != [] {
      StepKeepsRaised(ttl, s, steps[0], process, f, call);
      RunKeepsRaised(ttl, Apply(ttl, s, steps[0]), steps[1..], t, process, f, call);
    }
  }

  /** Calls under way and servings carry numbers that were given out. */
  ghost predicate Numbered<R, B>(s: State<R, B>) {
    && (forall w :: w in s.workers ==> s.workers[w].call < s.calls)
    && (forall k :: 0 <= k < |s.served| ==> s.served[k].call < s.calls)
  }

  lemma StepKeepsNumbered<R(!new), B(!new)>(ttl: nat, s: State<R, B>, step: Step<R, B>)
    requires s.history != [] && Numbered(s) && Enabled(s, step)
    ensures Numbered(Apply(ttl, s, step)) && Apply(ttl, s, step).history != []
  {}

  lemma {:induction false} RunKeepsNumbered<R(!new), B(!new)>(ttl: nat, s: State<R, B>, steps: seq<Step<R, B>>, t: State<R, B>)
    requires s.history != [] && Numbered(s) && Exec(ttl, s, steps) == Some(t)
    ensures Numbered(t)
    decreases |steps|
  {
    if steps != [] {
      StepKeepsNumbered(ttl, s, steps[0]);
      RunKeepsNumbered(ttl, Apply(ttl, s, steps[0]), steps[1..], t);
    }
  }

  /**
   After any run, an invalidation in a process, and any further run: whatever calls that begin there after the
   invalidation are served, from the cache or not, both halves were read at the version current at the invalidation or a
   later one. A commit before the invalidation is therefore never missed.
   */
  lemma NothingOlderThanTheCommit<R(!new), B(!new)>(
    ttl: nat, first: Version<Data<R, B>>, before: seq<Step<R, B>>, s: State<R, B>, process: nat, time: int,
    after: seq<Step<R, B>>, t: State<R, B>, k: nat)
    requires Exec(ttl, Begun(first), before) == Some(s)
    requires s.history != [] && Enabled(s, Invalidate(process, time)) && Exec(ttl, Apply(ttl, s, Invalidate(process, time)), after) == Some(t)
    requires k < |t.served| && t.served[k].process == process && t.served[k].call >= s.calls
    ensures |s.history| - 1 <= t.served[k].config.first <= t.served[k].config.second < |t.history|
  {
    var i := Apply(ttl, s, Invalidate(process, time));
    RunKeepsInv(ttl, Begun(first), before, s);
    RunKeepsNumbered(ttl, Begun(first), before, s);
    StepKeepsInv(ttl, s, Invalidate(process, time));
    RunKeepsRaised(ttl, i, after, t, process, |s.history| - 1, s.calls);
    RunKeepsInv(ttl, i, after, t);
    assert ServedOk(ttl, t.history, t.clock, t.served[k]);
  }
}
