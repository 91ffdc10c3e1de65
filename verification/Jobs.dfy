/**
 A background job and the workers that share it: choosing, the conditional claim, the run, crashes, recovery of
 stale claims, and cancellations and manual retries that load the row, work on what they loaded, and write only the
 columns they changed.
 */
module Jobs {
  import opened Options
  import opened Numbers

  datatype Status = Pending | Running | Completed | Failed | Cancelled

  datatype Job = Job(status: Status, attempts: nat, maxAttempts: nat, availableAt: int, claimedAt: int, cancelRequested: bool)

  // ---------------------------------------------------------------- row updates

  predicate Selectable(j: Job, now: int) { j.status.Pending? && j.availableAt <= now && !j.cancelRequested }

  function Claimed(j: Job, now: int): Job { j.(status := Running, claimedAt := now, attempts := j.attempts + 1) }

  function Ended(j: Job, status: Status): Job { j.(status := status) }

  /** A provider's own waiting time, or a doubling delay of at most 300 seconds. */
  function Delay(attempts: nat, retryAfter: Option<int>): int {
    if retryAfter.Some? then retryAfter.value else Backoff(attempts)
  }

  /** `seenCancel` is the flag as the failing worker last read it. */
  function FailedAt(j: Job, now: int, seenCancel: bool, retryAfter: Option<int>): Job {
    if seenCancel then Ended(j, Cancelled)
    else if j.attempts >= j.maxAttempts then Ended(j, Failed)
    else j.(status := Pending, availableAt := now + Delay(j.attempts, retryAfter))
  }

  predicate Stale(j: Job, now: int, timeout: nat) { j.status.Running? && j.claimedAt < now - timeout }

  function Recovered(j: Job, now: int): Job {
    if j.attempts >= j.maxAttempts then Ended(j, Failed) else j.(status := Pending, availableAt := now)
  }

  /** What a request loaded. */
  datatype Seen = Seen(status: Status, flag: bool, attempts: nat)

  function SeenOf(j: Job): Seen { Seen(j.status, j.cancelRequested, j.attempts) }

  /** cancel_job: the flag is written unless it was loaded set, and the status only when it was loaded pending. */
  function CancelledFrom(j: Job, seen: Seen): Job {
    j.(cancelRequested := j.cancelRequested || !seen.flag, status := if seen.status.Pending? then Cancelled else j.status)
  }

  predicate Retryable(status: Status) { status.Failed? || status.Cancelled? }

  /** retry_job: the flag and the attempts are written unless they were loaded clear. */
  function RetriedFrom(j: Job, seen: Seen, now: int): Job {
    j.(status := Pending, availableAt := now,
       cancelRequested := if seen.flag then false else j.cancelRequested,
       attempts := if seen.attempts != 0 then 0 else j.attempts)
  }

  /** The row as an object, with the statements that change it. */
  class BackgroundJob {
    var status: Status
    var attempts: nat
    const maxAttempts: nat
    var availableAt: int
    var claimedAt: int
    var cancelRequested: bool

    ghost function Value(): Job
      reads this
    {
      Job(status, attempts, maxAttempts, availableAt, claimedAt, cancelRequested)
    }

    constructor (maxAttempts: nat, now: int)
      ensures Value() == Job(Pending, 0, maxAttempts, now, now, false)
    {
      this.maxAttempts := maxAttempts;
      status, attempts, availableAt, claimedAt, cancelRequested := Pending, 0, now, now, false;
    }

    /** UPDATE ... WHERE status = 'pending'. */
    method Claim(now: int) returns (won: bool)
      modifies this
      ensures won == old(status).Pending?
      ensures Value() == if won then Claimed(old(Value()), now) else old(Value())
      ensures won ==> status == Running && claimedAt == now && attempts == old(attempts) + 1
      ensures availableAt == old(availableAt) && cancelRequested == old(cancelRequested)
    {
      won := status.Pending?;
      if won { status, claimedAt, attempts := Running, now, attempts + 1; }
    }

    /** The start of execute_job: a cancelled job ends without its work. */
    method Begin() returns (runs: bool)
      modifies this
      ensures runs == !old(cancelRequested)
      ensures Value() == if runs then old(Value()) else Ended(old(Value()), Cancelled)
      ensures !runs ==> status == Cancelled && attempts == old(attempts) && cancelRequested
    {
      runs := !cancelRequested;
      if !runs { status := Cancelled; }
    }

    method Succeed()
      modifies this
      ensures Value() == Ended(old(Value()), if old(cancelRequested) then Cancelled else Completed)
      ensures status == (if old(cancelRequested) then Cancelled else Completed) && attempts == old(attempts)
    {
      status := if cancelRequested then Cancelled else Completed;
    }

    method Fail(now: int, seenCancel: bool, retryAfter: Option<int>) returns (final: bool)
      modifies this
      ensures Value() == FailedAt(old(Value()), now, seenCancel, retryAfter) && final == !status.Pending?
      ensures status == if seenCancel then Cancelled else if old(attempts) >= maxAttempts then Failed else Pending
      ensures !final && retryAfter.Some? ==> availableAt == now + retryAfter.value
      ensures !final && retryAfter.None? ==> availableAt == now + Backoff(old(attempts))
      ensures attempts == old(attempts) && cancelRequested == old(cancelRequested) && (final ==> availableAt == old(availableAt))
    {
      final := attempts >= maxAttempts || seenCancel;
      if final {
        status := if seenCancel then Cancelled else Failed;
      } else {
        status, availableAt := Pending, now + Delay(attempts, retryAfter);
      }
    }

    /** The two statements of recover_stale_jobs. */
    method Recover(now: int, timeout: nat) returns (changed: bool)
      modifies this
      ensures changed == Stale(old(Value()), now, timeout)
      ensures Value() == if changed then Recovered(old(Value()), now) else old(Value())
      ensures changed == (old(status) == Running && now - old(claimedAt) > timeout)
      ensures changed ==> status == (if old(attempts) < maxAttempts then Pending else Failed) && (status == Pending ==> availableAt == now)
      ensures attempts == old(attempts) && cancelRequested == old(cancelRequested)
    {
      changed := false;
      if status.Running? && claimedAt < now - timeout && attempts >= maxAttempts {
        status, changed := Failed, true;
      }
      if status.Running? && claimedAt < now - timeout && attempts < maxAttempts {
        status, availableAt, changed := Pending, now, true;
      }
    }

    method Cancel(seen: Seen)
      modifies this
      ensures Value() == CancelledFrom(old(Value()), seen)
      ensures status == (if seen.status == Pending then Cancelled else old(status)) && attempts == old(attempts)
      ensures cancelRequested == (if seen.flag then old(cancelRequested) else true)
    {
      if !seen.flag { cancelRequested := true; }
      if seen.status.Pending? { status := Cancelled; }
    }

    method Retry(seen: Seen, now: int) returns (accepted: bool)
      modifies this
      ensures accepted == Retryable(seen.status)
      ensures Value() == if accepted then RetriedFrom(old(Value()), seen, now) else old(Value())
      ensures accepted == (seen.status == Failed || seen.status == Cancelled)
      ensures accepted ==> status == Pending && availableAt == now
      ensures accepted ==> cancelRequested == (!seen.flag && old(cancelRequested)) && attempts == if seen.attempts == 0 then old(attempts) else 0
    {
      accepted := seen.status.Failed? || seen.status.Cancelled?;
      if !accepted { return; }
      status, availableAt := Pending, now;
      if seen.flag { cancelRequested := false; }
      if seen.attempts != 0 { attempts := 0; }
    }
  }

  // ---------------------------------------------------------------- workers

  /** A worker that chose the row, one that claimed it (the number of its claim), and one that does the work. */
  datatype Phase = Chosen(now: int) | Holding(claim: nat) | Working(claim: nat)

  /** A claim that went through: which time the row was pending, after how many retries, and whether the flag was set. */
  datatype Claim = Claim(worker: nat, round: nat, retries: nat, cancelled: bool)

  /**
   `round` counts how often the row was put back to pending, `retries` how often by hand; `worked` holds the claims
   whose work began, and `cancels` and `retrying` the cancellations and retries under way with what they loaded.
   */
  datatype State = State(
    job: Job, workers: map<nat, Phase>, cancels: map<nat, Seen>, retrying: map<nat, Seen>,
    round: nat, retries: nat, claims: seq<Claim>, worked: set<nat>)

  datatype Step =
    | Choose(w: nat, now: int)
    | TakeClaim(w: nat)
    | Begin(w: nat)
    | Succeed(w: nat)
    | Fail(w: nat, now: int, seenCancel: bool, retryAfter: Option<int>)
    | Crash(w: nat)
    | Recover(now: int)
    | ReadForCancel(c: nat)
    | Cancel(c: nat)
    | ReadForRetry(r: nat)
    | Retry(r: nat, now: int)

  predicate Live(p: Phase) { p.Holding? || p.Working? }

  ghost predicate NoneLive(workers: map<nat, Phase>) { forall w :: w in workers ==> !Live(workers[w]) }

  /** The retry's commit meets no worker that holds a claim, and resets the attempts or has none to reset. */
  ghost predicate RetryTimely(s: State, r: nat)
    requires r in s.retrying
  {
    NoneLive(s.workers) && (s.retrying[r].attempts != 0 || s.job.attempts == 0)
  }

  /** Recovery comes only when no worker that holds a claim is still alive, and retries come in time. */
  ghost predicate Enabled(timeout: nat, s: State, step: Step) {
    match step
    case Choose(w, now) => w !in s.workers && Selectable(s.job, now)
    case TakeClaim(w) => w in s.workers && s.workers[w].Chosen?
    case Begin(w) => w in s.workers && s.workers[w].Holding?
    case Succeed(w) => w in s.workers && s.workers[w].Working?
    case Fail(w, _, seenCancel, _) => w in s.workers && s.workers[w].Working? && (seenCancel ==> s.job.cancelRequested)
    case Crash(w) => w in s.workers
    case Recover(now) => Stale(s.job, now, timeout) && NoneLive(s.workers)
    case ReadForCancel(c) => c !in s.cancels
    case Cancel(c) => c in s.cancels
    case ReadForRetry(r) => r !in s.retrying && Retryable(s.job.status)
    case Retry(r, _) => r in s.retrying && RetryTimely(s, r)
  }

  /** The row changes; becoming pending again starts a new round. */
  function WithJob(s: State, j: Job): State {
    s.(job := j, round := if j.status.Pending? && !s.job.status.Pending? then s.round + 1 else s.round)
  }

  function Leave(s: State, w: nat): State { s.(workers := s.workers - {w}) }

  /** A retry's commit, in time or not. */
  function AfterRetry(s: State, r: nat, now: int): State
    requires r in s.retrying
  {
    WithJob(s.(retrying := s.retrying - {r}), RetriedFrom(s.job, s.retrying[r], now)).(retries := s.retries + 1)
  }

  ghost function Apply(timeout: nat, s: State, step: Step): State
    requires Enabled(timeout, s, step)
  {
    match step
    case Choose(w, now) => s.(workers := s.workers[w := Chosen(now)])
    case TakeClaim(w) =>
      if s.job.status.Pending? then
        s.(job := Claimed(s.job, s.workers[w].now),
           workers := s.workers[w := Holding(|s.claims|)],
           claims := s.claims + [Claim(w, s.round, s.retries, s.job.cancelRequested)])
      else Leave(s, w)
    case Begin(w) =>
      if s.job.cancelRequested then WithJob(Leave(s, w), Ended(s.job, Cancelled))
      else s.(workers := s.workers[w := Working(s.workers[w].claim)], worked := s.worked + {s.workers[w].claim})
    case Succeed(w) => WithJob(Leave(s, w), Ended(s.job, if s.job.cancelRequested then Cancelled else Completed))
    case Fail(w, now, seenCancel, retryAfter) => WithJob(Leave(s, w), FailedAt(s.job, now, seenCancel, retryAfter))
    case Crash(w) => Leave(s, w)
    case Recover(now) => WithJob(s, Recovered(s.job, now))
    case ReadForCancel(c) => s.(cancels := s.cancels[c := SeenOf(s.job)])
    case Cancel(c) => WithJob(s.(cancels := s.cancels - {c}), CancelledFrom(s.job, s.cancels[c]))
    case ReadForRetry(r) => s.(retrying := s.retrying[r := SeenOf(s.job)])
    case Retry(r, now) => AfterRetry(s, r, now)
  }

  ghost function Exec(timeout: nat, s: State, steps: seq<Step>): Option<State>
    decreases |steps|
  {
    if steps == [] then Some(s)
    else if Enabled(timeout, s, steps[0]) then Exec(timeout, Apply(timeout, s, steps[0]), steps[1..])
    else None
  }

  // ---------------------------------------------------------------- what the steps write

  /** A worker chooses exactly a pending job whose time has come and that is not cancelled. */
  lemma ChosenExactlyWhen(timeout: nat, s: State, w: nat, now: int)
    ensures Enabled(timeout, s, Choose(w, now)) <==>
      w !in s.workers && s.job.status == Pending && s.job.availableAt <= now && !s.job.cancelRequested
  {}

  /**
   A failure ends the job when the worker saw it cancelled or no attempts are left, as cancelled or failed; otherwise the
   job waits as long as a provider asked for, or between 1 and 300 seconds.
   */
  lemma FailureOutcome(timeout: nat, s: State, w: nat, now: int, seenCancel: bool, retryAfter: Option<int>)
    requires Enabled(timeout, s, Fail(w, now, seenCancel, retryAfter))
    ensures var j := Apply(timeout, s, Fail(w, now, seenCancel, retryAfter)).job;
      && (j.status == Cancelled <==> seenCancel)
      && (j.status == Failed <==> !seenCancel && s.job.attempts >= s.job.maxAttempts)
      && (j.status == Pending <==> !seenCancel && s.job.attempts < s.job.maxAttempts)
      && (j.status == Pending && retryAfter.Some? ==> j.availableAt == now + retryAfter.value)
      && (j.status == Pending && retryAfter.None? ==> now + 1 <= j.availableAt <= now + 300)
      && (j.status == Pending && retryAfter.None? && s.job.attempts == 1 ==> j.availableAt == now + 2)
      && j.attempts == s.job.attempts && j.cancelRequested == s.job.cancelRequested
  {
    BackoffGrows(s.job.attempts, s.job.attempts);
    assert Power(1) == 2;
  }

  /** A worker begins the work exactly when the flag is clear then, and its success ends the job as completed exactly when it still is. */
  lemma WorkOutcome(timeout: nat, s: State, w: nat)
    ensures Enabled(timeout, s, Begin(w)) ==>
      var t := Apply(timeout, s, Begin(w));
      if s.job.cancelRequested then t.job == s.job.(status := Cancelled) && w !in t.workers && t.worked == s.worked
      else t.job == s.job && t.workers[w] == Working(s.workers[w].claim) && t.worked == s.worked + {s.workers[w].claim}
    ensures Enabled(timeout, s, Succeed(w)) ==>
      var t := Apply(timeout, s, Succeed(w));
      t.job == s.job.(status := if s.job.cancelRequested then Cancelled else Completed) && w !in t.workers
  {}

  /** Recovery finds a claim older than the timeout, and frees the job exactly when attempts are left. */
  lemma RecoveryOutcome(timeout: nat, s: State, now: int)
    requires Enabled(timeout, s, Recover(now))
    ensures s.job.status == Running && now - s.job.claimedAt > timeout
    ensures var j := Apply(timeout, s, Recover(now)).job;
      && (j.status == Pending <==> s.job.attempts < s.job.maxAttempts) && (j.status == Failed <==> s.job.attempts >= s.job.maxAttempts)
      && (j.status == Pending ==> j.availableAt == now) && j.attempts == s.job.attempts && j.cancelRequested == s.job.cancelRequested
  {}

  /** A new round begins exactly when a row that was not pending becomes so. */
  lemma RoundsCount(timeout: nat, s: State, step: Step)
    requires Enabled(timeout, s, step)
    ensures var t := Apply(timeout, s, step);
      t.round == s.round + if t.job.status == Pending && s.job.status != Pending then 1 else 0
  {}

  /** What a cancellation and a retry write, by what they loaded, and that each is over then. */
  lemma RequestOutcome(timeout: nat, s: State, h: nat, now: int)
    ensures Enabled(timeout, s, Cancel(h)) ==>
      var j, seen := Apply(timeout, s, Cancel(h)).job, s.cancels[h];
      && j.status == (if seen.status == Pending then Cancelled else s.job.status) && j.attempts == s.job.attempts
      && j.cancelRequested == (if seen.flag then s.job.cancelRequested else true)
      && Apply(timeout, s, Cancel(h)).cancels == s.cancels - {h}
    ensures Enabled(timeout, s, Retry(h, now)) ==>
      var j, seen := Apply(timeout, s, Retry(h, now)).job, s.retrying[h];
      && j.status == Pending && j.availableAt == now && j.attempts == (if seen.attempts == 0 then s.job.attempts else 0)
      && j.cancelRequested == (!seen.flag && s.job.cancelRequested)
      && Apply(timeout, s, Retry(h, now)).retrying == s.retrying - {h}
  {}

  // ---------------------------------------------------------------- what every reachable state keeps

  /** Claims made since the last retry. */
  function ClaimsSince(claims: seq<Claim>, retries: nat): nat {
    if claims == [] then 0
    else ClaimsSince(claims[..|claims| - 1], retries) + if claims[|claims| - 1].retries == retries then 1 else 0
  }

  ghost predicate JobOk(j: Job, workers: map<nat, Phase>) {
    && j.attempts <= j.maxAttempts
    && (j.status.Pending? ==> j.attempts < j.maxAttempts && NoneLive(workers))
    && (j.status.Running? ==> 1 <= j.attempts)
    && (!NoneLive(workers) ==> 1 <= j.attempts)
  }

  ghost predicate WorkersOk(s: State) {
    && (forall v, w :: v in s.workers && w in s.workers && Live(s.workers[v]) && Live(s.workers[w]) ==> v == w)
    && (forall w :: w in s.workers && Live(s.workers[w]) ==>
          s.workers[w].claim < |s.claims| && (s.workers[w].Holding? && s.claims[s.workers[w].claim].cancelled ==> s.job.cancelRequested))
  }

  ghost predicate ClaimsOk(claims: seq<Claim>, round: nat, retries: nat, pending: bool, worked: set<nat>) {
    && (forall i :: 0 <= i < |claims| ==> claims[i].retries <= retries && if pending then claims[i].round < round else claims[i].round <= round)
    && (forall i, j :: 0 <= i < j < |claims| ==> claims[i].round < claims[j].round)
    && (forall k :: k in worked ==> k < |claims| && !claims[k].cancelled)
  }

  ghost predicate Inv(s: State) {
    && s.job.maxAttempts >= 1
    && JobOk(s.job, s.workers) && WorkersOk(s)
    && ClaimsOk(s.claims, s.round, s.retries, s.job.status.Pending?, s.worked)
    && ClaimsSince(s.claims, s.retries) == s.job.attempts
  }

  lemma {:induction false} NoneYet(claims: seq<Claim>, retries: nat)
    requires forall i :: 0 <= i < |claims| ==> claims[i].retries < retries
    ensures ClaimsSince(claims, retries) == 0
  {
    if claims != [] { NoneYet(claims[..|claims| - 1], retries); }
  }

  lemma OneMoreClaim(claims: seq<Claim>, c: Claim, retries: nat)
    ensures ClaimsSince(claims + [c], retries) == ClaimsSince(claims, retries) + if c.retries == retries then 1 else 0
  {
    assert (claims + [c])[..|claims|] == claims;
  }

  lemma ClaimKeepsInv(timeout: nat, s: State, w: nat)
    requires Inv(s) && Enabled(timeout, s, TakeClaim(w)) && s.job.status.Pending?
    ensures Inv(Apply(timeout, s, TakeClaim(w)))
  {
    var t := Apply(timeout, s, TakeClaim(w));
    OneMoreClaim(s.claims, Claim(w, s.round, s.retries, s.job.cancelRequested), s.retries);
    assert Live(t.workers[w]);
    assert forall v :: v in t.workers && v != w ==> !Live(t.workers[v]);
  }

  lemma LeaveKeeps(s: State, w: nat)
    requires WorkersOk(s) && w in s.workers
    ensures WorkersOk(Leave(s, w))
    ensures Live(s.workers[w]) ==> NoneLive(Leave(s, w).workers)
    ensures NoneLive(s.workers) ==> NoneLive(Leave(s, w).workers)
  {}

  lemma EndKeepsInv(timeout: nat, s: State, step: Step)
    requires Inv(s) && Enabled(timeout, s, step)
    requires step.Succeed? || step.Fail? || step.Crash? || (step.TakeClaim? && !s.job.status.Pending?) || (step.Begin? && s.job.cancelRequested)
    ensures Inv(Apply(timeout, s, step))
  {
    LeaveKeeps(s, step.w);
  }

  lemma BeginKeepsInv(timeout: nat, s: State, w: nat)
    requires Inv(s) && Enabled(timeout, s, Begin(w)) && !s.job.cancelRequested
    ensures Inv(Apply(timeout, s, Begin(w)))
  {
    assert Live(s.workers[w]);
  }

  lemma StepKeepsInv(timeout: nat, s: State, step: Step)
    requires Inv(s) && Enabled(timeout, s, step)
    ensures Inv(Apply(timeout, s, step))
  {
    match step
    case TakeClaim(w) => if s.job.status.Pending? { ClaimKeepsInv(timeout, s, w); } else { EndKeepsInv(timeout, s, step); }
    case Begin(w) => if s.job.cancelRequested { EndKeepsInv(timeout, s, step); } else { BeginKeepsInv(timeout, s, w); }
    case Succeed(_) => EndKeepsInv(timeout, s, step);
    case Fail(_, _, _, _) => EndKeepsInv(timeout, s, step);
    case Crash(_) => EndKeepsInv(timeout, s, step);
    case Retry(r, now) => RetryKeptIffTimely(s, r, now);
    case _ =>
  }

  /** A retry's commit keeps the invariant exactly when it comes in time. */
  lemma RetryKeptIffTimely(s: State, r: nat, now: int)
    requires Inv(s) && r in s.retrying
    ensures Inv(AfterRetry(s, r, now)) <==> RetryTimely(s, r)
  {
    NoneYet(s.claims, s.retries + 1);
  }

  /** A retry that loaded no attempts and comes after the last one leaves the row pending with none left, and claimed once too often. */
  lemma LateRetryOverruns(s: State, r: nat, now: int)
    requires Inv(s) && r in s.retrying && s.retrying[r].attempts == 0 && s.job.attempts == s.job.maxAttempts
    ensures var t := AfterRetry(s, r, now).job;
      t.status.Pending? && t.attempts == t.maxAttempts && Claimed(t, now).attempts > t.maxAttempts
  {}

  /**
   Over every run: each time the row is pending at most one worker claims it; a pending row has attempts left and a
   running one has used between one and the most; the claims since the last retry are counted by `attempts`, so there
   are never more than the most; and no claim made while the flag was set does its work.
   */
  lemma {:induction false} RunKeepsInv(timeout: nat, s: State, steps: seq<Step>, t: State)
    requires Inv(s) && Exec(timeout, s, steps) == Some(t)
    ensures Inv(t)
    decreases |steps|
  {
    if steps != [] {
      StepKeepsInv(timeout, s, steps[0]);
      RunKeepsInv(timeout, Apply(timeout, s, steps[0]), steps[1..], t);
    }
  }

  /** From a new job, a run without retries makes at most `maxAttempts` claims in all, whatever crashes. */
  lemma {:induction false} ClaimsAreBounded(timeout: nat, s: State, steps: seq<Step>, t: State)
    requires Inv(s) && s.claims == [] && s.retries == 0 && Exec(timeout, s, steps) == Some(t)
    requires forall k :: 0 <= k < |steps| ==> !steps[k].Retry?
    ensures |t.claims| == t.job.attempts <= s.job.maxAttempts
  {
    RunKeepsInv(timeout, s, steps, t);
    NoRetries(timeout, s, steps, t);
    AllCount(t.claims);
  }

  lemma {:induction false} NoRetries(timeout: nat, s: State, steps: seq<Step>, t: State)
    requires Exec(timeout, s, steps) == Some(t) && forall k :: 0 <= k < |steps| ==> !steps[k].Retry?
    ensures t.retries == s.retries && t.job.maxAttempts == s.job.maxAttempts
    decreases |steps|
  {
    if steps != [] {
      assert !steps[0].Retry?;
      assert forall k :: 0 <= k < |steps[1..]| ==> steps[1..][k] == steps[k + 1];
      NoRetries(timeout, Apply(timeout, s, steps[0]), steps[1..], t);
    }
  }

  lemma {:induction false} AllCount(claims: seq<Claim>)
    requires forall i :: 0 <= i < |claims| ==> claims[i].retries == 0
    ensures ClaimsSince(claims, 0) == |claims|
  {
    if claims != [] { AllCount(claims[..|claims| - 1]); }
  }

  predicate Terminal(status: Status) { status.Completed? || status.Failed? || status.Cancelled? }

  /** Once the last attempt is claimed, the next change of status, if it is not a retry, ends the job. */
  lemma LastAttemptEnds(timeout: nat, s: State, step: Step)
    requires Inv(s) && Enabled(timeout, s, step) && s.job.attempts == s.job.maxAttempts && !step.Retry?
    ensures var t := Apply(timeout, s, step).job; t.status == s.job.status || Terminal(t.status)
  {}

  /** A job that has not ended can go on: a pending one that is not cancelled can be chosen, a running one whose worker died is recovered. */
  lemma NeverStuck(timeout: nat, s: State, w: nat)
    requires Inv(s) && w !in s.workers && NoneLive(s.workers)
    ensures s.job.status.Pending? && !s.job.cancelRequested ==> exists now :: Enabled(timeout, s, Choose(w, now))
    ensures s.job.status.Running? ==> exists now :: Enabled(timeout, s, Recover(now))
  {
    assert s.job.status.Pending? && !s.job.cancelRequested ==> Enabled(timeout, s, Choose(w, s.job.availableAt));
    assert s.job.status.Running? ==> Enabled(timeout, s, Recover(s.job.claimedAt + timeout + 1));
  }

  /** Once the flag is set and until a retry, no step begins the work of a claim made since. */
  lemma {:induction false} CancelledClaimsDoNoWork(timeout: nat, s: State, steps: seq<Step>, t: State, k: nat)
    requires Inv(s) && s.job.cancelRequested && |s.claims| <= k && Exec(timeout, s, steps) == Some(t)
    requires forall i :: 0 <= i < |steps| ==> !steps[i].Retry?
    ensures t.job.cancelRequested && k !in t.worked
    ensures k < |t.claims| ==> t.claims[k].cancelled
    decreases |steps|
  {
    if steps == [] {
    } else {
      var u := Apply(timeout, s, steps[0]);
      assert !steps[0].Retry?;
      assert forall i :: 0 <= i < |steps[1..]| ==> steps[1..][i] == steps[i + 1];
      StepKeepsInv(timeout, s, steps[0]);
      if k < |u.claims| {
        ClaimStays(timeout, u, steps[1..], t, k);
      } else {
        CancelledClaimsDoNoWork(timeout, u, steps[1..], t, k);
      }
    }
  }

  /** A claim of a cancelled job stays recorded as such, and its work never begins. */
  lemma {:induction false} ClaimStays(timeout: nat, s: State, steps: seq<Step>, t: State, k: nat)
    requires Inv(s) && s.job.cancelRequested && k < |s.claims| && s.claims[k].cancelled && Exec(timeout, s, steps) == Some(t)
    requires forall i :: 0 <= i < |steps| ==> !steps[i].Retry?
    ensures t.job.cancelRequested && k < |t.claims| && t.claims[k].cancelled && k !in t.worked
    decreases |steps|
  {
    if steps != [] {
      assert !steps[0].Retry?;
      assert forall i :: 0 <= i < |steps[1..]| ==> steps[1..][i] == steps[i + 1];
      StepKeepsInv(timeout, s, steps[0]);
      ClaimStays(timeout, Apply(timeout, s, steps[0]), steps[1..], t, k);
    }
  }

  // ---------------------------------------------------------------- from a new job

  function Begun(maxAttempts: nat): State { State(Job(Pending, 0, maxAttempts, 0, 0, false), map[], map[], map[], 1, 0, [], {}) }

  lemma BegunInv(maxAttempts: nat)
    requires maxAttempts >= 1
    ensures Inv(Begun(maxAttempts))
  {}

  /**
   What every run of a new job keeps: one claim each time it is pending, attempts that count the claims since the last
   retry and stay in their bounds, and no work for a claim made while the flag was set.
   */
  lemma EveryRun(timeout: nat, maxAttempts: nat, steps: seq<Step>, t: State)
    requires maxAttempts >= 1 && Exec(timeout, Begun(maxAttempts), steps) == Some(t)
    ensures forall i, j :: 0 <= i < j < |t.claims| ==> t.claims[i].round != t.claims[j].round
    ensures t.job.status.Pending? ==> t.job.attempts < t.job.maxAttempts
    ensures t.job.status.Running? ==> 1 <= t.job.attempts <= t.job.maxAttempts
    ensures ClaimsSince(t.claims, t.retries) == t.job.attempts <= t.job.maxAttempts
    ensures forall k :: k in t.worked ==> k < |t.claims| && !t.claims[k].cancelled
  {
    BegunInv(maxAttempts);
    RunKeepsInv(timeout, Begun(maxAttempts), steps, t);
  }

  // ---------------------------------------------------------------- a cancellation that is lost

  /** A cancellation that loaded the flag set writes no flag, so it is lost exactly when the flag is clear at its commit. */
  lemma {:induction false} LostExactlyWhen(timeout: nat, s: State, c: nat, steps: seq<Step>, t: State)
    requires c in s.cancels && Cancel(c) !in steps && Exec(timeout, s, steps) == Some(t)
    ensures c in t.cancels && t.cancels[c] == s.cancels[c]
    ensures !Apply(timeout, t, Cancel(c)).job.cancelRequested <==> s.cancels[c].flag && !t.job.cancelRequested
    ensures s.job.cancelRequested && !t.job.cancelRequested ==> exists k :: 0 <= k < |steps| && steps[k].Retry?
    decreases |steps|
  {
    if steps != [] {
      var u := Apply(timeout, s, steps[0]);
      assert steps[0] in steps && forall x :: x in steps[1..] ==> x in steps;
      LostExactlyWhen(timeout, u, c, steps[1..], t);
      if s.job.cancelRequested && !t.job.cancelRequested {
        if u.job.cancelRequested {
          var k :| 0 <= k < |steps[1..]| && steps[1..][k].Retry?;
          assert steps[k + 1].Retry?;
        } else {
          assert steps[0].Retry?;
        }
      }
    }
  }

  /**
   From its loading of the row on: a cancellation leaves the flag set when it is committed, unless the flag was set when it
   loaded the row, a retry came in between, and no other cancellation after that.
   */
  lemma CancellationHolds(timeout: nat, s: State, c: nat, steps: seq<Step>, t: State)
    requires Enabled(timeout, s, ReadForCancel(c)) && Cancel(c) !in steps && Exec(timeout, Apply(timeout, s, ReadForCancel(c)), steps) == Some(t)
    ensures Enabled(timeout, t, Cancel(c))
    ensures !Apply(timeout, t, Cancel(c)).job.cancelRequested <==> s.job.cancelRequested && !t.job.cancelRequested
    ensures !Apply(timeout, t, Cancel(c)).job.cancelRequested ==> exists k :: 0 <= k < |steps| && steps[k].Retry?
  {
    LostExactlyWhen(timeout, Apply(timeout, s, ReadForCancel(c)), c, steps, t);
  }

  // ---------------------------------------------------------------- a cancelled job left pending

  /** Pending, but never chosen: the flag is set. */
  predicate Stranded(j: Job) { j.status.Pending? && j.cancelRequested }

  /**
   The four ways in: a failure that did not see the flag, a recovery of a cancelled job, a cancellation that loaded the flag
   clear and another status before the row became pending, and a retry that loaded the flag clear before it was set.
   */
  ghost predicate Strands(s: State, step: Step) {
    match step
    case Fail(_, _, seenCancel, _) => s.job.cancelRequested && !seenCancel && s.job.attempts < s.job.maxAttempts
    case Recover(_) => s.job.cancelRequested && s.job.attempts < s.job.maxAttempts
    case Cancel(c) => s.job.status.Pending? && c in s.cancels && !s.cancels[c].status.Pending? && !s.cancels[c].flag
    case Retry(r, _) => s.job.cancelRequested && r in s.retrying && !s.retrying[r].flag
    case _ => false
  }

  /** The ways out: a worker that chose the row before it was cancelled, a cancellation that loaded it pending, and a retry that loaded the flag set. */
  ghost predicate Frees(s: State, step: Step) {
    match step
    case TakeClaim(_) => true
    case Cancel(c) => c in s.cancels && s.cancels[c].status.Pending?
    case Retry(r, _) => r in s.retrying && s.retrying[r].flag
    case _ => false
  }

  /** A step leaves a job pending with its flag set exactly when it strands it, or finds it so and does not free it. */
  lemma StrandedAfter(timeout: nat, s: State, step: Step)
    requires Inv(s) && Enabled(timeout, s, step)
    ensures Stranded(Apply(timeout, s, step).job) <==> Strands(s, step) || (Stranded(s.job) && !Frees(s, step))
  {
    if step.Fail? || step.Begin? || step.Succeed? { assert Live(s.workers[step.w]); }
  }

  /** Whether the last step of the run that strands or frees the job strands it. */
  ghost predicate StrandedLast(timeout: nat, s: State, steps: seq<Step>, before: bool)
    decreases |steps|
  {
    if steps == [] then before
    else if !Enabled(timeout, s, steps[0]) then false
    else StrandedLast(timeout, Apply(timeout, s, steps[0]), steps[1..], Strands(s, steps[0]) || (before && !Frees(s, steps[0])))
  }

  lemma {:induction false} StrandedAlong(timeout: nat, s: State, steps: seq<Step>, t: State)
    requires Inv(s) && Exec(timeout, s, steps) == Some(t)
    ensures Stranded(t.job) <==> StrandedLast(timeout, s, steps, Stranded(s.job))
    decreases |steps|
  {
    if steps != [] {
      StrandedAfter(timeout, s, steps[0]);
      StepKeepsInv(timeout, s, steps[0]);
      StrandedAlong(timeout, Apply(timeout, s, steps[0]), steps[1..], t);
    }
  }

  /** A run of a new job leaves it cancelled but pending exactly when the last step that strands or frees it strands it. */
  lemma StrandedExactlyWhen(timeout: nat, maxAttempts: nat, steps: seq<Step>, t: State)
    requires maxAttempts >= 1 && Exec(timeout, Begun(maxAttempts), steps) == Some(t)
    ensures t.job.status.Pending? && t.job.cancelRequested <==> StrandedLast(timeout, Begun(maxAttempts), steps, false)
  {
    StrandedAlong(timeout, Begun(maxAttempts), steps, t);
  }

  /** No step of the run strands the job. */
  ghost predicate NeverStrands(timeout: nat, s: State, steps: seq<Step>)
    decreases |steps|
  {
    steps == [] || (Enabled(timeout, s, steps[0]) && !Strands(s, steps[0]) && NeverStrands(timeout, Apply(timeout, s, steps[0]), steps[1..]))
  }

  lemma {:induction false} NotStranded(timeout: nat, s: State, steps: seq<Step>, t: State)
    requires Inv(s) && !Stranded(s.job) && Exec(timeout, s, steps) == Some(t) && NeverStrands(timeout, s, steps)
    ensures !Stranded(t.job)
    decreases |steps|
  {
    if steps != [] {
      StrandedAfter(timeout, s, steps[0]);
      StepKeepsInv(timeout, s, steps[0]);
      NotStranded(timeout, Apply(timeout, s, steps[0]), steps[1..], t);
    }
  }

  /**
   When no step strands it, a cancelled job without a live worker has ended, or its worker died and it can be recovered;
   that recovery ends it exactly when no attempts are left, and strands it otherwise.
   */
  lemma CancelledEnds(timeout: nat, maxAttempts: nat, steps: seq<Step>, t: State)
    requires maxAttempts >= 1 && Exec(timeout, Begun(maxAttempts), steps) == Some(t) && NeverStrands(timeout, Begun(maxAttempts), steps)
    requires t.job.cancelRequested && NoneLive(t.workers)
    ensures Terminal(t.job.status) || t.job.status.Running?
    ensures t.job.status.Running? ==> exists now :: Enabled(timeout, t, Recover(now))
    ensures forall now :: Enabled(timeout, t, Recover(now)) ==>
      (Terminal(Apply(timeout, t, Recover(now)).job.status) <==> t.job.attempts == t.job.maxAttempts)
    ensures forall now :: Enabled(timeout, t, Recover(now)) ==>
      (Stranded(Apply(timeout, t, Recover(now)).job) <==> t.job.attempts < t.job.maxAttempts)
  {
    RunKeepsInv(timeout, Begun(maxAttempts), steps, t);
    NotStranded(timeout, Begun(maxAttempts), steps, t);
    assert t.job.status.Running? ==> Enabled(timeout, t, Recover(t.job.claimedAt + timeout + 1));
  }

  lemma {:induction false} OneMore(timeout: nat, s: State, steps: seq<Step>, t: State, step: Step)
    requires Exec(timeout, s, steps) == Some(t) && Enabled(timeout, t, step)
    ensures Exec(timeout, s, steps + [step]) == Some(Apply(timeout, t, step))
    decreases |steps|
  {
    if steps == [] {
      assert [step][1..] == [];
    } else {
      OneMore(timeout, Apply(timeout, s, steps[0]), steps[1..], t, step);
      assert (steps + [step])[1..] == steps[1..] + [step];
    }
  }

  /** A set of states that no step leaves. */
  ghost predicate Closed(timeout: nat, p: State -> bool) {
    forall t, step :: p(t) && Enabled(timeout, t, step) ==> p(Apply(timeout, t, step))
  }

  /** The states a run of a new job can end in. */
  ghost predicate Reached(timeout: nat, maxAttempts: nat, t: State) { exists steps :: Exec(timeout, Begun(maxAttempts), steps) == Some(t) }

  lemma ReachedIsClosed(timeout: nat, maxAttempts: nat)
    ensures Closed(timeout, t => Reached(timeout, maxAttempts, t)) && Reached(timeout, maxAttempts, Begun(maxAttempts))
  {
    assert Exec(timeout, Begun(maxAttempts), []) == Some(Begun(maxAttempts));
    forall t, step | Reached(timeout, maxAttempts, t) && Enabled(timeout, t, step) ensures Reached(timeout, maxAttempts, Apply(timeout, t, step)) {
      var steps :| Exec(timeout, Begun(maxAttempts), steps) == Some(t);
      OneMore(timeout, Begun(maxAttempts), steps, t, step);
    }
  }

  /** The worker's first attempt is under way, and a cancellation has read the job as running. */
  lemma UnderWay(timeout: nat, p: State -> bool, maxAttempts: nat) returns (t: State)
    requires maxAttempts >= 2 && Closed(timeout, p) && p(Begun(maxAttempts))
    ensures p(t) && t.job == Job(Running, 1, maxAttempts, 0, 0, false)
    ensures t.workers == map[1 := Working(0)] && t.cancels == map[7 := Seen(Running, false, 1)] && t.retrying == map[]
  {
    t := Begun(maxAttempts);
    assert Enabled(timeout, t, Choose(1, 0));               t := Apply(timeout, t, Choose(1, 0));
    assert Enabled(timeout, t, TakeClaim(1));               t := Apply(timeout, t, TakeClaim(1));
    assert Enabled(timeout, t, Begin(1));                   t := Apply(timeout, t, Begin(1));
    assert Enabled(timeout, t, ReadForCancel(7));           t := Apply(timeout, t, ReadForCancel(7));
  }

  datatype Cause = ByFailure | ByRecovery | ByLateCancel | ByLateRetry

  /** Every attempt fails, until none is left. */
  lemma {:induction false} Exhausted(timeout: nat, p: State -> bool, s: State) returns (t: State)
    requires Closed(timeout, p) && p(s) && s.job.status.Pending? && !s.job.cancelRequested && s.workers == map[]
    requires s.job.attempts < s.job.maxAttempts
    ensures p(t) && t.job.status.Failed? && !t.job.cancelRequested && t.job.attempts == t.job.maxAttempts == s.job.maxAttempts
    ensures t.workers == map[] && t.cancels == s.cancels && t.retrying == s.retrying
    decreases s.job.maxAttempts - s.job.attempts
  {
    t := s;
    assert Enabled(timeout, t, Choose(1, t.job.availableAt));       t := Apply(timeout, t, Choose(1, t.job.availableAt));
    assert Enabled(timeout, t, TakeClaim(1));                       t := Apply(timeout, t, TakeClaim(1));
    assert Enabled(timeout, t, Begin(1));                           t := Apply(timeout, t, Begin(1));
    assert Enabled(timeout, t, Fail(1, 0, false, None));            t := Apply(timeout, t, Fail(1, 0, false, None));
    assert t.workers == map[];
    if t.job.status.Pending? { t := Exhausted(timeout, p, t); }
  }

  lemma LeftPending(timeout: nat, p: State -> bool, maxAttempts: nat, cause: Cause) returns (t: State)
    requires maxAttempts >= 2 && Closed(timeout, p) && p(Begun(maxAttempts))
    ensures p(t) && Stranded(t.job) && t.workers == map[] && t.cancels == map[] && t.retrying == map[]
  {
    t := UnderWay(timeout, p, maxAttempts);
    match cause
    case ByFailure =>
      assert Enabled(timeout, t, Cancel(7));                        t := Apply(timeout, t, Cancel(7));
      assert Enabled(timeout, t, Fail(1, 0, false, None));          t := Apply(timeout, t, Fail(1, 0, false, None));
      assert t.workers == map[] && t.cancels == map[] && t.retrying == map[];
    case ByRecovery =>
      assert Enabled(timeout, t, Cancel(7));                        t := Apply(timeout, t, Cancel(7));
      assert Enabled(timeout, t, Crash(1));                         t := Apply(timeout, t, Crash(1));
      assert Enabled(timeout, t, Recover(timeout + 1));             t := Apply(timeout, t, Recover(timeout + 1));
      assert t.workers == map[] && t.cancels == map[] && t.retrying == map[];
    case ByLateRetry =>
      assert Enabled(timeout, t, Fail(1, 0, false, None));          t := Apply(timeout, t, Fail(1, 0, false, None));
      assert t.workers == map[];
      t := Exhausted(timeout, p, t);
      assert Enabled(timeout, t, ReadForRetry(8));                  t := Apply(timeout, t, ReadForRetry(8));
      assert Enabled(timeout, t, Cancel(7));                        t := Apply(timeout, t, Cancel(7));
      assert Enabled(timeout, t, Retry(8, 0));                      t := Apply(timeout, t, Retry(8, 0));
      assert t.workers == map[] && t.cancels == map[] && t.retrying == map[];
    case ByLateCancel =>
      assert Enabled(timeout, t, Fail(1, 0, false, None));          t := Apply(timeout, t, Fail(1, 0, false, None));
      assert Enabled(timeout, t, Cancel(7));                        t := Apply(timeout, t, Cancel(7));
      assert t.workers == map[] && t.cancels == map[] && t.retrying == map[];
  }

  lemma StrandedIsLeftAlone(timeout: nat, t: State)
    requires Stranded(t.job)
    ensures forall w, now :: !Enabled(timeout, t, Choose(w, now))
    ensures forall now :: !Enabled(timeout, t, Recover(now))
    ensures forall r :: !Enabled(timeout, t, ReadForRetry(r))
  {}

  /**
   A cancellation does not always end a job. With more than one attempt, each of the four causes leaves the row pending
   with the flag set and nothing under way; it is never chosen, not recovered, and not retried.
   */
  lemma CancelledButPending(timeout: nat, maxAttempts: nat, cause: Cause) returns (t: State)
    requires maxAttempts >= 2
    ensures Reached(timeout, maxAttempts, t)
    ensures Stranded(t.job) && t.workers == map[] && t.cancels == map[] && t.retrying == map[]
    ensures forall w, now :: !Enabled(timeout, t, Choose(w, now))
    ensures forall now :: !Enabled(timeout, t, Recover(now))
    ensures forall r :: !Enabled(timeout, t, ReadForRetry(r))
  {
    ReachedIsClosed(timeout, maxAttempts);
    t := LeftPending(timeout, u => Reached(timeout, maxAttempts, u), maxAttempts, cause);
    StrandedIsLeftAlone(timeout, t);
  }

  /** A second cancellation has loaded the cancelled job, and a retry has cleared the flag since. */
  lemma CancelledTwice(timeout: nat, p: State -> bool, maxAttempts: nat) returns (t: State)
    requires maxAttempts >= 1 && Closed(timeout, p) && p(Begun(maxAttempts))
    ensures p(t) && t.job.status.Pending? && t.job.availableAt == 0 && !t.job.cancelRequested
    ensures t.workers == map[] && t.cancels == map[2 := Seen(Cancelled, true, 0)] && t.claims == []
  {
    t := Begun(maxAttempts);
    assert Enabled(timeout, t, ReadForCancel(1));                   t := Apply(timeout, t, ReadForCancel(1));
    assert Enabled(timeout, t, Cancel(1));                          t := Apply(timeout, t, Cancel(1));
    assert Enabled(timeout, t, ReadForCancel(2));                   t := Apply(timeout, t, ReadForCancel(2));
    assert Enabled(timeout, t, ReadForRetry(3));                    t := Apply(timeout, t, ReadForRetry(3));
    assert Enabled(timeout, t, Retry(3, 0));                        t := Apply(timeout, t, Retry(3, 0));
  }

  /** A pending job nobody works on is claimed and its work begins. */
  lemma WorkBegins(timeout: nat, s: State) returns (t: State)
    requires Selectable(s.job, 0) && s.workers == map[]
    ensures Exec(timeout, s, [Choose(1, 0), TakeClaim(1), Begin(1)]) == Some(t)
    ensures t.job == Claimed(s.job, 0) && t.worked == s.worked + {|s.claims|}
  {
    var u := Apply(timeout, s, Choose(1, 0));
    var v := Apply(timeout, u, TakeClaim(1));
    assert v.workers[1] == Holding(|s.claims|);
    t := Apply(timeout, v, Begin(1));
    assert Exec(timeout, t, []) == Some(t);
    assert [Begin(1)][1..] == [];
    assert Exec(timeout, v, [Begin(1)]) == Some(t);
    assert [TakeClaim(1), Begin(1)][1..] == [Begin(1)];
    assert Exec(timeout, u, [TakeClaim(1), Begin(1)]) == Some(t);
    assert [Choose(1, 0), TakeClaim(1), Begin(1)][1..] == [TakeClaim(1), Begin(1)];
  }

  /**
   A committed cancellation can be lost: a second one loads a cancelled job, a retry clears the flag, the second one commits
   and writes nothing, and right after it the job is claimed and its work begins.
   */
  lemma LostCancellation(timeout: nat, maxAttempts: nat) returns (s: State, t: State)
    requires maxAttempts >= 1
    ensures Reached(timeout, maxAttempts, s) && Enabled(timeout, s, Cancel(2))
    ensures Exec(timeout, Apply(timeout, s, Cancel(2)), [Choose(1, 0), TakeClaim(1), Begin(1)]) == Some(t)
    ensures !t.job.cancelRequested && s.claims == [] && 0 in t.worked
  {
    ReachedIsClosed(timeout, maxAttempts);
    s := CancelledTwice(timeout, u => Reached(timeout, maxAttempts, u), maxAttempts);
    t := WorkBegins(timeout, Apply(timeout, s, Cancel(2)));
  }
}
