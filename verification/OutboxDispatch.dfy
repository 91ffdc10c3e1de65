/**
 Dispatching one outbox event to integration endpoints: claims, passes over the endpoints that commit after every
 delivery row and every job, crashes between any two commits, stale-claim recovery, retries, and endpoints that change
 meanwhile.
 */
module OutboxDispatch {
  import opened Options
  import opened Numbers

  datatype Endpoint = Endpoint(enabled: bool, events: set<string>)

  predicate Subscribes(e: Endpoint, kind: string) { "*" in e.events || kind in e.events }

  /** What the event's endpoint table says now. */
  predicate Wants(endpoints: map<nat, Endpoint>, kind: string, e: nat) {
    e in endpoints && endpoints[e].enabled && Subscribes(endpoints[e], kind)
  }

  datatype Status = Pending | Dispatching | Dispatched | Failed

  datatype Event = Event(kind: string, status: Status, attempts: nat, availableAt: int, claimedAt: int)

  // ---------------------------------------------------------------- row updates

  function Claimed(e: Event, now: int): Event { e.(status := Dispatching, claimedAt := now, attempts := e.attempts + 1) }

  function FailedAt(e: Event, attempts: nat, maxAttempts: nat, now: int): Event {
    if attempts >= maxAttempts then e.(status := Failed) else e.(status := Pending, availableAt := now + Backoff(attempts))
  }

  predicate Stale(e: Event, now: int, timeout: nat, maxAttempts: nat) {
    e.status.Dispatching? && e.claimedAt < now - timeout && e.attempts < maxAttempts
  }

  class OutboxRow {
    const kind: string
    var status: Status
    var attempts: nat
    var availableAt: int
    var claimedAt: int

    ghost function Value(): Event
      reads this
    {
      Event(kind, status, attempts, availableAt, claimedAt)
    }

    constructor (kind: string, now: int)
      ensures Value() == Event(kind, Pending, 0, now, now)
    {
      this.kind := kind;
      status, attempts, availableAt, claimedAt := Pending, 0, now, now;
    }

    /** UPDATE ... WHERE status = 'pending'. */
    method Claim(now: int) returns (won: bool)
      modifies this
      ensures won == old(status).Pending?
      ensures Value() == if won then Claimed(old(Value()), now) else old(Value())
      ensures won ==> status == Dispatching && claimedAt == now && attempts == old(attempts) + 1 && availableAt == old(availableAt)
    {
      won := status.Pending?;
      if won { status, claimedAt, attempts := Dispatching, now, attempts + 1; }
    }

    method Finish()
      modifies this
      ensures Value() == old(Value()).(status := Dispatched)
    {
      status := Dispatched;
    }

    method Fail(now: int, maxAttempts: nat)
      modifies this
      ensures Value() == FailedAt(old(Value()), old(attempts), maxAttempts, now)
      ensures status == (if old(attempts) >= maxAttempts then Failed else Pending) && attempts == old(attempts)
      ensures availableAt == if status == Pending then now + Backoff(old(attempts)) else old(availableAt)
    {
      if attempts >= maxAttempts {
        status := Failed;
      } else {
        status, availableAt := Pending, now + Backoff(attempts);
      }
    }

    method Recover(now: int, timeout: nat, maxAttempts: nat)
      modifies this
      ensures Value() == if Stale(old(Value()), now, timeout, maxAttempts) then old(Value()).(status := Pending, availableAt := now) else old(Value())
      ensures (old(status) == Dispatching && now - old(claimedAt) > timeout && old(attempts) < maxAttempts) ==> status == Pending && availableAt == now
      ensures !(old(status) == Dispatching && now - old(claimedAt) > timeout && old(attempts) < maxAttempts) ==> Value() == old(Value())
    {
      if status.Dispatching? && claimedAt < now - timeout && attempts < maxAttempts {
        status, availableAt := Pending, now;
      }
    }
  }

  // ---------------------------------------------------------------- the protocol

  /**
   A dispatcher after each of its steps: it chose the event, claimed it, and passes over the endpoints it read, one at a
   time. `todo` holds those still ahead; `attempts` is the count as it was after the claim; `steady` holds the endpoints
   that have wanted the event at every moment since the pass read the table.
   */
  datatype Phase =
    | Chosen
    | Holding(attempts: nat)
    | Passing(attempts: nat, todo: set<nat>, steady: set<nat>)
    | Looking(attempts: nat, todo: set<nat>, steady: set<nat>, e: nat)
    | Inserting(attempts: nat, todo: set<nat>, steady: set<nat>, e: nat)
    | Queueing(attempts: nat, todo: set<nat>, steady: set<nat>, e: nat)

  /** `rows` are the delivery rows that carry this event's key, by endpoint; `delivered` are the endpoints whose row was delivered at some time. */
  datatype State = State(
    event: Event, endpoints: map<nat, Endpoint>, rows: seq<nat>, jobs: seq<nat>, delivered: set<nat>,
    workers: map<nat, Phase>, passes: seq<set<nat>>)

  datatype Step =
    | Choose(w: nat, now: int)
    | TakeClaim(w: nat, now: int)
    | ReadEndpoints(w: nat)
    | Consider(w: nat, e: nat)
    | Look(w: nat, foundDelivered: bool)
    | Insert(w: nat)
    | Queue(w: nat)
    | Finish(w: nat)
    | Fail(w: nat, now: int)
    | Crash(w: nat)
    | Recover(now: int)
    | Change(e: nat, endpoint: Endpoint)
    | Remove(e: nat)
    | Deliver(e: nat)

  predicate InPass(p: Phase) { p.Passing? || p.Looking? || p.Inserting? || p.Queueing? }

  /**
   An insert goes through only while no row has the endpoint and the event's key: otherwise the unique constraint raises,
   and the dispatcher fails or dies. It may do either at any moment, and it may outlive its claim.
   */
  ghost predicate Enabled(timeout: nat, maxAttempts: nat, s: State, step: Step) {
    match step
    case Choose(w, now) => w !in s.workers && s.event.status.Pending? && s.event.availableAt <= now
    case TakeClaim(w, _) => w in s.workers && s.workers[w].Chosen?
    case ReadEndpoints(w) => w in s.workers && s.workers[w].Holding?
    case Consider(w, e) => w in s.workers && s.workers[w].Passing? && e in s.workers[w].todo && e in s.endpoints
    case Look(w, foundDelivered) => w in s.workers && s.workers[w].Looking? && (foundDelivered ==> s.workers[w].e in s.rows && s.workers[w].e in s.delivered)
    case Insert(w) => w in s.workers && s.workers[w].Inserting? && s.workers[w].e !in s.rows
    case Queue(w) => w in s.workers && s.workers[w].Queueing?
    case Finish(w) => w in s.workers && s.workers[w].Passing? && s.workers[w].todo == {}
    case Fail(w, _) => w in s.workers && !s.workers[w].Chosen?
    case Crash(w) => w in s.workers
    case Recover(now) => Stale(s.event, now, timeout, maxAttempts)
    case Change(_, _) => true
    case Remove(_) => true
    case Deliver(e) => e in s.rows
  }

  function EnabledEndpoints(endpoints: map<nat, Endpoint>): set<nat> { set e | e in endpoints && endpoints[e].enabled }

  function Wanting(endpoints: map<nat, Endpoint>, kind: string): set<nat> { set e | e in endpoints && Wants(endpoints, kind, e) }

  function Unsteady(p: Phase, e: nat): Phase {
    match p
    case Passing(a, todo, steady) => Passing(a, todo, steady - {e})
    case Looking(a, todo, steady, x) => Looking(a, todo, steady - {e}, x)
    case Inserting(a, todo, steady, x) => Inserting(a, todo, steady - {e}, x)
    case Queueing(a, todo, steady, x) => Queueing(a, todo, steady - {e}, x)
    case _ => p
  }

  function UnsteadyAll(workers: map<nat, Phase>, e: nat): map<nat, Phase> { map w | w in workers :: Unsteady(workers[w], e) }

  function Move(s: State, w: nat, p: Phase): State { s.(workers := s.workers[w := p]) }

  function Leave(s: State, w: nat): State { s.(workers := s.workers - {w}) }

  /** The endpoint table after a change, and the passes that notice one more endpoint is not steady. */
  function Changed(s: State, endpoints: map<nat, Endpoint>, e: nat): State {
    if Wants(endpoints, s.event.kind, e) then s.(endpoints := endpoints)
    else s.(endpoints := endpoints, workers := UnsteadyAll(s.workers, e))
  }

  ghost function Apply(timeout: nat, maxAttempts: nat, s: State, step: Step): State
    requires Enabled(timeout, maxAttempts, s, step)
  {
    match step
    case Choose(w, _) => Move(s, w, Chosen)
    case TakeClaim(w, now) =>
      if s.event.status.Pending? then Move(s, w, Holding(s.event.attempts + 1)).(event := Claimed(s.event, now)) else Leave(s, w)
    case ReadEndpoints(w) =>
      Move(s, w, Passing(s.workers[w].attempts, EnabledEndpoints(s.endpoints), Wanting(s.endpoints, s.event.kind)))
    case Consider(w, e) =>
      var p := s.workers[w];
      if Subscribes(s.endpoints[e], s.event.kind) then Move(s, w, Looking(p.attempts, p.todo, p.steady, e))
      else Move(s, w, Passing(p.attempts, p.todo - {e}, p.steady))
    case Look(w, foundDelivered) =>
      var p := s.workers[w];
      if p.e !in s.rows then Move(s, w, Inserting(p.attempts, p.todo, p.steady, p.e))
      else if foundDelivered then Move(s, w, Passing(p.attempts, p.todo - {p.e}, p.steady))
      else Move(s, w, Queueing(p.attempts, p.todo, p.steady, p.e))
    case Insert(w) =>
      var p := s.workers[w];
      Move(s, w, Queueing(p.attempts, p.todo, p.steady, p.e)).(rows := s.rows + [p.e])
    case Queue(w) =>
      var p := s.workers[w];
      Move(s, w, Passing(p.attempts, p.todo - {p.e}, p.steady)).(jobs := s.jobs + [p.e])
    case Finish(w) => Leave(s, w).(event := s.event.(status := Dispatched), passes := s.passes + [s.workers[w].steady])
    case Fail(w, now) => Leave(s, w).(event := FailedAt(s.event, s.workers[w].attempts, maxAttempts, now))
    case Crash(w) => Leave(s, w)
    case Recover(now) => s.(event := s.event.(status := Pending, availableAt := now))
    case Change(e, endpoint) => Changed(s, s.endpoints[e := endpoint], e)
    case Remove(e) => Changed(s, s.endpoints - {e}, e)
    case Deliver(e) => s.(delivered := s.delivered + {e})
  }

  ghost function Exec(timeout: nat, maxAttempts: nat, s: State, steps: seq<Step>): Option<State>
    decreases |steps|
  {
    if steps == [] then Some(s)
    else if Enabled(timeout, maxAttempts, s, steps[0]) then Exec(timeout, maxAttempts, Apply(timeout, maxAttempts, s, steps[0]), steps[1..])
    else None
  }

  // ---------------------------------------------------------------- what every reachable state keeps

  /** The endpoint has its row, and a delivery job was queued for it unless it had been delivered. */
  ghost predicate Served(rows: seq<nat>, jobs: seq<nat>, delivered: set<nat>, e: nat) {
    e in rows && (e in jobs || e in delivered)
  }

  ghost predicate PhaseOk(s: State, p: Phase) {
    InPass(p) ==>
      && (forall e :: e in p.steady ==> Wants(s.endpoints, s.event.kind, e))
      && (forall e :: e in p.steady && e !in p.todo ==> Served(s.rows, s.jobs, s.delivered, e))
      && (!p.Passing? ==> p.e in p.todo)
      && (p.Queueing? ==> p.e in s.rows)
  }

  ghost predicate Distinct(rows: seq<nat>) { forall i, j :: 0 <= i < j < |rows| ==> rows[i] != rows[j] }

  ghost predicate PassesOk(s: State) {
    forall k, e :: 0 <= k < |s.passes| && e in s.passes[k] ==> Served(s.rows, s.jobs, s.delivered, e)
  }

  ghost predicate Inv(s: State) {
    && Distinct(s.rows)
    && (forall w :: w in s.workers ==> PhaseOk(s, s.workers[w]))
    && PassesOk(s)
    && (s.event.status.Dispatched? ==> s.passes != [])
  }

  /** More rows, jobs and deliveries leave what was served served. */
  lemma ServedStays(rows: seq<nat>, jobs: seq<nat>, delivered: set<nat>, e: nat, x: nat)
    requires Served(rows, jobs, delivered, e)
    ensures Served(rows + [x], jobs, delivered, e) && Served(rows, jobs + [x], delivered, e) && Served(rows, jobs, delivered + {x}, e)
  {}

  /** A step of the dispatcher that adds a row or a job, or a delivery. */
  lemma GrowthKeepsInv(timeout: nat, maxAttempts: nat, s: State, step: Step)
    requires Inv(s) && Enabled(timeout, maxAttempts, s, step) && (step.Insert? || step.Queue? || step.Deliver?)
    ensures Inv(Apply(timeout, maxAttempts, s, step))
  {
    var x := if step.Deliver? then step.e else s.workers[step.w].e;
    forall e | Served(s.rows, s.jobs, s.delivered, e)
      ensures Served(s.rows + [x], s.jobs, s.delivered, e) && Served(s.rows, s.jobs + [x], s.delivered, e) && Served(s.rows, s.jobs, s.delivered + {x}, e)
    {
      ServedStays(s.rows, s.jobs, s.delivered, e, x);
    }
  }

  lemma ChangeKeepsInv(s: State, endpoints: map<nat, Endpoint>, e: nat)
    requires Inv(s) && forall x :: x != e ==> (Wants(endpoints, s.event.kind, x) <==> Wants(s.endpoints, s.event.kind, x))
    ensures Inv(Changed(s, endpoints, e))
  {
    var t := Changed(s, endpoints, e);
    forall w | w in t.workers ensures PhaseOk(t, t.workers[w]) {
      assert PhaseOk(s, s.workers[w]);
    }
  }

  /** The other steps: a dispatcher moves on, leaves, or the event's row changes. */
  lemma MoveKeepsInv(timeout: nat, maxAttempts: nat, s: State, step: Step)
    requires Inv(s) && Enabled(timeout, maxAttempts, s, step)
    requires !step.Insert? && !step.Queue? && !step.Deliver? && !step.Change? && !step.Remove?
    ensures Inv(Apply(timeout, maxAttempts, s, step))
  {
    var t := Apply(timeout, maxAttempts, s, step);
    forall w | w in t.workers ensures PhaseOk(t, t.workers[w]) {
      if w in s.workers { assert PhaseOk(s, s.workers[w]); }
    }
  }

  lemma StepKeepsInv(timeout: nat, maxAttempts: nat, s: State, step: Step)
    requires Inv(s) && Enabled(timeout, maxAttempts, s, step)
    ensures Inv(Apply(timeout, maxAttempts, s, step))
  {
    if step.Insert? || step.Queue? || step.Deliver? {
      GrowthKeepsInv(timeout, maxAttempts, s, step);
    } else if step.Change? {
      ChangeKeepsInv(s, s.endpoints[step.e := step.endpoint], step.e);
    } else if step.Remove? {
      ChangeKeepsInv(s, s.endpoints - {step.e}, step.e);
    } else {
      MoveKeepsInv(timeout, maxAttempts, s, step);
    }
  }

  /**
   In every run, whatever crashes, recoveries, retries and late dispatchers there are, an endpoint has at most one delivery
   row for the event; and when a pass marks the event dispatched, every endpoint that wanted it throughout that pass has
   its row, with a delivery job queued unless it was delivered already.
   */
  lemma {:induction false} RunKeepsInv(timeout: nat, maxAttempts: nat, s: State, steps: seq<Step>, t: State)
    requires Inv(s) && Exec(timeout, maxAttempts, s, steps) == Some(t)
    ensures Inv(t)
    decreases |steps|
  {
    if steps != [] {
      StepKeepsInv(timeout, maxAttempts, s, steps[0]);
      RunKeepsInv(timeout, maxAttempts, Apply(timeout, maxAttempts, s, steps[0]), steps[1..], t);
    }
  }

  /** An event just committed, with the endpoints there are. */
  function Begun(kind: string, now: int, endpoints: map<nat, Endpoint>): State {
    State(Event(kind, Pending, 0, now, now), endpoints, [], [], {}, map[], [])
  }

  /** From there, over every run: one row an endpoint, and at every dispatch a row and a job for whoever wanted the event throughout. */
  lemma EveryRun(timeout: nat, maxAttempts: nat, kind: string, now: int, endpoints: map<nat, Endpoint>, steps: seq<Step>, t: State)
    requires Exec(timeout, maxAttempts, Begun(kind, now, endpoints), steps) == Some(t)
    ensures forall i, j :: 0 <= i < j < |t.rows| ==> t.rows[i] != t.rows[j]
    ensures forall k: nat, e: nat :: k < |t.passes| && e in t.passes[k] ==> e in t.rows && (e in t.jobs || e in t.delivered)
    ensures t.event.status.Dispatched? ==> t.passes != []
  {
    RunKeepsInv(timeout, maxAttempts, Begun(kind, now, endpoints), steps, t);
    forall k: nat, e: nat | k < |t.passes| && e in t.passes[k] ensures e in t.rows && (e in t.jobs || e in t.delivered) {
      assert Served(t.rows, t.jobs, t.delivered, e);
    }
  }

  /** An endpoint is steady in a pass exactly when it wanted the event when the pass read the table and ever since. */
  lemma SteadyMeansThroughout(timeout: nat, maxAttempts: nat, s: State, step: Step, w: nat)
    requires Inv(s) && Enabled(timeout, maxAttempts, s, step) && w in s.workers
    requires var t := Apply(timeout, maxAttempts, s, step); w in t.workers && InPass(t.workers[w])
    ensures var t := Apply(timeout, maxAttempts, s, step);
            forall e :: e in t.workers[w].steady <==>
              Wants(t.endpoints, t.event.kind, e) && (InPass(s.workers[w]) ==> e in s.workers[w].steady)
  {
    StepKeepsInv(timeout, maxAttempts, s, step);
  }

  // ---------------------------------------------------------------- what a pass reads

  /** A pass reads the endpoints that are enabled; those of them that take all events or this kind are the steady ones. */
  lemma PassReads(timeout: nat, maxAttempts: nat, s: State, w: nat, e: nat)
    requires Enabled(timeout, maxAttempts, s, ReadEndpoints(w))
    ensures var p := Apply(timeout, maxAttempts, s, ReadEndpoints(w)).workers[w];
      && p.Passing? && p.attempts == s.workers[w].attempts
      && (e in p.todo <==> e in s.endpoints && s.endpoints[e].enabled)
      && (e in p.steady <==> e in p.todo && s.endpoints[e].events * {"*", s.event.kind} != {})
  {
    if e in s.endpoints {
      assert "*" in s.endpoints[e].events * {"*", s.event.kind} <==> "*" in s.endpoints[e].events;
      assert s.event.kind in s.endpoints[e].events * {"*", s.event.kind} <==> s.event.kind in s.endpoints[e].events;
    }
  }

  /** Everything but the dispatcher's own place, and the rows, jobs and passes named. */
  ghost predicate Moves(s: State, t: State, w: nat, rows: seq<nat>, jobs: seq<nat>) {
    && t.event == s.event && t.endpoints == s.endpoints && t.delivered == s.delivered && t.passes == s.passes
    && t.rows == rows && t.jobs == jobs && w in t.workers && t.workers - {w} == s.workers - {w}
  }

  /**
   How a pass goes on: an endpoint that does not take the event is done with; one that does is looked up, gets a row if it
   has none and a job unless it is delivered, and is then done with.
   */
  lemma PassGoesOn(timeout: nat, maxAttempts: nat, s: State, w: nat, e: nat, foundDelivered: bool)
    ensures Enabled(timeout, maxAttempts, s, Consider(w, e)) ==>
      var p, t := s.workers[w], Apply(timeout, maxAttempts, s, Consider(w, e));
      && Moves(s, t, w, s.rows, s.jobs)
      && t.workers[w] == if s.endpoints[e].events * {"*", s.event.kind} != {} then Looking(p.attempts, p.todo, p.steady, e) else Passing(p.attempts, p.todo - {e}, p.steady)
    ensures Enabled(timeout, maxAttempts, s, Look(w, foundDelivered)) ==>
      var p, t := s.workers[w], Apply(timeout, maxAttempts, s, Look(w, foundDelivered));
      && Moves(s, t, w, s.rows, s.jobs)
      && (p.e !in s.rows ==> t.workers[w] == Inserting(p.attempts, p.todo, p.steady, p.e))
      && (p.e in s.rows && foundDelivered ==> t.workers[w] == Passing(p.attempts, p.todo - {p.e}, p.steady))
      && (p.e in s.rows && !foundDelivered ==> t.workers[w] == Queueing(p.attempts, p.todo, p.steady, p.e))
    ensures Enabled(timeout, maxAttempts, s, Insert(w)) ==>
      var p, t := s.workers[w], Apply(timeout, maxAttempts, s, Insert(w));
      Moves(s, t, w, s.rows + [p.e], s.jobs) && t.workers[w] == Queueing(p.attempts, p.todo, p.steady, p.e)
    ensures Enabled(timeout, maxAttempts, s, Queue(w)) ==>
      var p, t := s.workers[w], Apply(timeout, maxAttempts, s, Queue(w));
      Moves(s, t, w, s.rows, s.jobs + [p.e]) && t.workers[w] == Passing(p.attempts, p.todo - {p.e}, p.steady)
  {
    if e in s.endpoints {
      assert "*" in s.endpoints[e].events * {"*", s.event.kind} <==> "*" in s.endpoints[e].events;
      assert s.event.kind in s.endpoints[e].events * {"*", s.event.kind} <==> s.event.kind in s.endpoints[e].events;
    }
  }

  /** A pass with no endpoint left to consider ends, and the event is dispatched. */
  lemma PassEnds(timeout: nat, maxAttempts: nat, s: State, w: nat)
    ensures Enabled(timeout, maxAttempts, s, Finish(w)) <==> w in s.workers && s.workers[w].Passing? && s.workers[w].todo == {}
    ensures Enabled(timeout, maxAttempts, s, Finish(w)) ==>
      var t := Apply(timeout, maxAttempts, s, Finish(w));
      && t.event == s.event.(status := Dispatched) && t.passes == s.passes + [s.workers[w].steady] && t.workers == s.workers - {w}
      && t.rows == s.rows && t.jobs == s.jobs
  {}

  /** The same place in a pass, apart from what is steady. */
  ghost predicate SamePlace(p: Phase, q: Phase) {
    match p
    case Chosen => q.Chosen?
    case Holding(a) => q == p
    case Passing(a, todo, _) => q.Passing? && q.attempts == a && q.todo == todo
    case Looking(a, todo, _, e) => q.Looking? && q.attempts == a && q.todo == todo && q.e == e
    case Inserting(a, todo, _, e) => q.Inserting? && q.attempts == a && q.todo == todo && q.e == e
    case Queueing(a, todo, _, e) => q.Queueing? && q.attempts == a && q.todo == todo && q.e == e
  }

  /** A change of the endpoint table moves no dispatcher. */
  lemma ChangeMovesNobody(timeout: nat, maxAttempts: nat, s: State, step: Step, w: nat)
    requires Enabled(timeout, maxAttempts, s, step) && (step.Change? || step.Remove?) && w in s.workers
    ensures var t := Apply(timeout, maxAttempts, s, step);
      && w in t.workers && SamePlace(s.workers[w], t.workers[w])
      && t.event == s.event && t.rows == s.rows && t.jobs == s.jobs
  {}

  // ---------------------------------------------------------------- failures and attempts

  /** A dispatcher that claimed the event as attempt n and fails ends it exactly when n is the last attempt; otherwise it waits. */
  lemma FailureOutcome(timeout: nat, maxAttempts: nat, s: State, w: nat, now: int)
    requires Enabled(timeout, maxAttempts, s, Fail(w, now))
    ensures var e, n := Apply(timeout, maxAttempts, s, Fail(w, now)).event, s.workers[w].attempts;
      && (e.status == Failed <==> n >= maxAttempts)
      && (n < maxAttempts ==> e.status == Pending && now + 1 <= e.availableAt <= now + 300)
      && (n == 1 && n < maxAttempts ==> e.availableAt == now + 2)
      && e.attempts == s.event.attempts && e.kind == s.event.kind
  {
    BackoffGrows(s.workers[w].attempts, s.workers[w].attempts);
    assert Power(1) == 2;
  }

  /** Recovery finds a claim older than the timeout with attempts left, and the event is pending at once. */
  lemma RecoveryOutcome(timeout: nat, maxAttempts: nat, s: State, now: int)
    requires Enabled(timeout, maxAttempts, s, Recover(now))
    ensures s.event.status == Dispatching && now - s.event.claimedAt > timeout && s.event.attempts < maxAttempts
    ensures var e := Apply(timeout, maxAttempts, s, Recover(now)).event;
      e.status == Pending && e.availableAt == now && e.attempts == s.event.attempts
  {}

  /** A dispatcher chooses exactly a pending event whose time has come. */
  lemma ChosenExactlyWhen(timeout: nat, maxAttempts: nat, s: State, w: nat, now: int)
    ensures Enabled(timeout, maxAttempts, s, Choose(w, now)) <==> w !in s.workers && s.event.status == Pending && s.event.availableAt <= now
  {}

  /** How many claims of the event a run makes. */
  ghost function Claims(timeout: nat, maxAttempts: nat, s: State, steps: seq<Step>): nat
    decreases |steps|
  {
    if steps == [] || !Enabled(timeout, maxAttempts, s, steps[0]) then 0
    else
      var one := if steps[0].TakeClaim? && s.event.status.Pending? then 1 else 0;
      one + Claims(timeout, maxAttempts, Apply(timeout, maxAttempts, s, steps[0]), steps[1..])
  }

  /** The column counts the claims made so far; each dispatcher's attempt is one of them, and only the last one ends the event. */
  ghost predicate Counted(maxAttempts: nat, s: State) {
    && (forall w :: w in s.workers && !s.workers[w].Chosen? ==> s.workers[w].attempts <= s.event.attempts)
    && (s.event.status.Failed? ==> s.event.attempts >= maxAttempts)
  }

  lemma {:induction false} AttemptsAreClaims(timeout: nat, maxAttempts: nat, s: State, steps: seq<Step>, t: State)
    requires Counted(maxAttempts, s) && Exec(timeout, maxAttempts, s, steps) == Some(t)
    ensures Counted(maxAttempts, t) && t.event.attempts == s.event.attempts + Claims(timeout, maxAttempts, s, steps)
    decreases |steps|
  {
    if steps != [] {
      StepKeepsCount(timeout, maxAttempts, s, steps[0]);
      AttemptsAreClaims(timeout, maxAttempts, Apply(timeout, maxAttempts, s, steps[0]), steps[1..], t);
    }
  }

  lemma StepKeepsCount(timeout: nat, maxAttempts: nat, s: State, step: Step)
    requires Counted(maxAttempts, s) && Enabled(timeout, maxAttempts, s, step)
    ensures var t := Apply(timeout, maxAttempts, s, step);
      Counted(maxAttempts, t) && t.event.attempts == s.event.attempts + if step.TakeClaim? && s.event.status.Pending? then 1 else 0
  {
    if step.Fail? { FailureOutcome(timeout, maxAttempts, s, step.w, step.now); }
  }

  /** Over every run from an event just committed: it has failed for good only after as many claims as it is allowed. */
  lemma FailedMeansSpent(timeout: nat, maxAttempts: nat, kind: string, now: int, endpoints: map<nat, Endpoint>, steps: seq<Step>, t: State)
    requires Exec(timeout, maxAttempts, Begun(kind, now, endpoints), steps) == Some(t) && t.event.status == Failed
    ensures Claims(timeout, maxAttempts, Begun(kind, now, endpoints), steps) >= maxAttempts
  {
    AttemptsAreClaims(timeout, maxAttempts, Begun(kind, now, endpoints), steps, t);
  }
}
