/**
 Requests on service accounts side by side. A request reads the rows it needs, and its writes, worked out from what it
 read, are committed later; nothing locks the rows in between.
 */
module AccountRequests {
  import opened Options
  import A = ServiceAccounts

  /** What a request is about to write, and its clock reading. */
  datatype Plan =
    | Rotating(account: nat, replaced: nat, grace: int, days: int, now: int)
    | Completing(rotation: nat, now: int)
    | Disabling(account: nat, credentials: set<nat>, now: int)

  datatype State = State(rows: A.State, requests: map<nat, Plan>)

  /** Creating an account and authenticating read and write in one step. */
  datatype Step =
    | Direct(op: A.Operation, now: int)
    | Begin(h: nat, op: A.Operation, now: int)
    | Commit(h: nat)
    | Crash(h: nat)

  function Live(credentials: seq<A.Credential>, a: nat): set<nat> {
    set k: nat | k < |credentials| && credentials[k].account == a && !credentials[k].revoked
  }

  /** A request that is refused, or has nothing to do, plans nothing. */
  function PlanFor(s: A.State, op: A.Operation, d: A.Defaults, now: int): Option<Plan> {
    match op
    case Rotate(a, grace, days) =>
      if A.RotationFault(s, a, A.Grace(grace, d), A.Days(days, d), now).Some? then None
      else Some(Rotating(a, A.Latest(s.credentials, a, now).value, A.Grace(grace, d), A.Days(days, d), now))
    case Complete(r) => if r < |s.rotations| && !s.rotations[r].done then Some(Completing(r, now)) else None
    case Disable(a) => if a < |s.accounts| && s.accounts[a].active then Some(Disabling(a, Live(s.credentials, a), now)) else None
    case _ => None
  }

  function RevokeThese(credentials: seq<A.Credential>, these: set<nat>, now: int): (r: seq<A.Credential>)
    ensures |r| == |credentials|
    ensures forall k :: 0 <= k < |r| ==> r[k] == if k in these then A.Revoke(credentials[k], now) else credentials[k]
  {
    if credentials == [] then []
    else
      var k := |credentials| - 1;
      RevokeThese(credentials[..k], these, now) + [if k in these then A.Revoke(credentials[k], now) else credentials[k]]
  }

  /** The rows after a request's commit, whatever they have become since it read them. */
  function Write(s: A.State, p: Plan): A.State {
    match p
    case Rotating(a, replaced, grace, days, now) =>
      if replaced < |s.credentials| then A.RotationWrite(s, a, replaced, grace, days, now) else s
    case Completing(r, now) =>
      if r >= |s.rotations| then s
      else
        var k := s.rotations[r].before;
        s.(credentials := if k < |s.credentials| then s.credentials[k := A.Revoke(s.credentials[k], now)] else s.credentials,
           rotations := s.rotations[r := s.rotations[r].(done := true)])
    case Disabling(a, credentials, now) =>
      if a >= |s.accounts| then s
      else s.(accounts := s.accounts[a := s.accounts[a].(active := false)], credentials := RevokeThese(s.credentials, credentials, now))
  }

  predicate Enabled(s: State, d: A.Defaults, step: Step) {
    match step
    case Direct(op, now) => (op.Create? || op.Authenticate?) && now >= s.rows.clock
    case Begin(h, op, now) => h !in s.requests && A.Timely(s.rows, A.Timed(op, now)) && PlanFor(s.rows, op, d, now).Some?
    case Commit(h) => h in s.requests
    case Crash(h) => h in s.requests
  }

  function Apply(s: State, d: A.Defaults, step: Step): State
    requires Enabled(s, d, step)
  {
    match step
    case Direct(op, now) => s.(rows := A.After(s.rows, op, d, now))
    case Begin(h, op, now) => State(s.rows.(clock := now), s.requests[h := PlanFor(s.rows, op, d, now).value])
    case Commit(h) => State(Write(s.rows, s.requests[h]), s.requests - {h})
    case Crash(h) => s.(requests := s.requests - {h})
  }

  /** Creating an account and authenticating may happen at any time, and are the operations themselves. */
  lemma DirectIsAtomic(s: State, d: A.Defaults, op: A.Operation, now: int)
    ensures Enabled(s, d, Direct(op, now)) <==> (op.Create? || op.Authenticate?) && s.rows.clock <= now
    ensures Enabled(s, d, Direct(op, now)) ==> Apply(s, d, Direct(op, now)) == State(A.After(s.rows, op, d, now), s.requests)
  {}

  /**
   A request that nothing comes between does what the operation does: it plans nothing exactly when the operation changes
   nothing, and its commit leaves the operation's rows.
   */
  lemma AloneIsAtomic(s: A.State, op: A.Operation, d: A.Defaults, now: int)
    requires op.Rotate? || op.Complete? || op.Disable?
    ensures var out, plan := A.Do(s, op, d, now), PlanFor(s, op, d, now);
      && (plan.None? <==> out.Refused? || out.state == s)
      && (plan.Some? ==> Write(s, plan.value) == out.state)
  {
    var t := A.Do(s, op, d, now);
    match op
    case Rotate(a, grace, days) => if t.Done? { assert |t.state.credentials| == |s.credentials| + 1; }
    case Complete(r) => if t.Done? && !s.rotations[r].done { assert t.state.rotations[r] != s.rotations[r]; }
    case Disable(a) =>
      if t.Done? && s.accounts[a].active {
        assert t.state.accounts[a] != s.accounts[a];
        assert RevokeThese(s.credentials, Live(s.credentials, a), now) == A.RevokeAll(s.credentials, a, now);
      }
    case _ =>
  }

  /** Some rotation of the account is under way. */
  ghost predicate RotationUnderWay(s: State, a: nat) { exists h :: h in s.requests && s.requests[h].Rotating? && s.requests[h].account == a }

  /** The step begins a rotation of an account while another rotation of it is under way. */
  ghost predicate Overlaps(s: State, step: Step) { step.Begin? && step.op.Rotate? && RotationUnderWay(s, step.op.account) }

  /** The state after a run; with `apart`, no two rotations of one account overlap. */
  ghost function Exec(s: State, d: A.Defaults, steps: seq<Step>, apart: bool): Option<State>
    decreases |steps|
  {
    if steps == [] then Some(s)
    else if Enabled(s, d, steps[0]) && (apart ==> !Overlaps(s, steps[0])) then Exec(Apply(s, d, steps[0]), d, steps[1..], apart)
    else None
  }

  // ---------------------------------------------------------------- rotations of one account apart

  ghost predicate PlanOk(s: A.State, p: Plan) {
    match p
    case Rotating(a, replaced, grace, days, now) => A.RotationReady(s, a, replaced, grace, days, now)
    case Completing(r, _) => r < |s.rotations|
    case Disabling(a, _, _) => a < |s.accounts|
  }

  predicate SameRotation(p: Plan, q: Plan) { p.Rotating? && q.Rotating? && p.account == q.account }

  ghost predicate Inv(s: State) {
    && A.Core(s.rows)
    && (forall h :: h in s.requests ==> PlanOk(s.rows, s.requests[h]))
    && (forall g, h :: g in s.requests && h in s.requests && SameRotation(s.requests[g], s.requests[h]) ==> g == h)
  }

  /** What other requests may do to the rows while a rotation of this account is under way. */
  ghost predicate Harmless(s: A.State, t: A.State, a: nat) {
    && s.clock <= t.clock && |s.accounts| <= |t.accounts|
    && |s.credentials| <= |t.credentials| && |s.rotations| <= |t.rotations|
    && (forall k :: 0 <= k < |s.credentials| ==>
          && t.credentials[k].account == s.credentials[k].account && t.credentials[k].issuedAt == s.credentials[k].issuedAt
          && (t.credentials[k].revoked || (!s.credentials[k].revoked && t.credentials[k].expiresAt == s.credentials[k].expiresAt)))
    && (forall k :: |s.credentials| <= k < |t.credentials| ==> t.credentials[k].account != a)
    && (forall r :: 0 <= r < |s.rotations| ==>
          && t.rotations[r].account == s.rotations[r].account && t.rotations[r].graceEndsAt == s.rotations[r].graceEndsAt
          && (s.rotations[r].done ==> t.rotations[r].done))
    && (forall r :: |s.rotations| <= r < |t.rotations| ==> t.rotations[r].account != a)
  }

  lemma HarmlessKeepsReady(s: A.State, t: A.State, a: nat, replaced: nat, grace: int, days: int, now: int)
    requires A.RotationReady(s, a, replaced, grace, days, now) && Harmless(s, t, a)
    ensures A.RotationReady(t, a, replaced, grace, days, now)
  {}

  /** A commit disturbs no rotation of another account. */
  lemma WriteIsHarmless(s: A.State, p: Plan, a: nat)
    requires PlanOk(s, p) && !(p.Rotating? && p.account == a)
    ensures Harmless(s, Write(s, p), a)
  {}

  lemma WriteKeepsCore(s: A.State, p: Plan)
    requires A.Core(s) && PlanOk(s, p)
    ensures A.Core(Write(s, p))
  {
    match p
    case Rotating(a, replaced, grace, days, now) => A.RotatingKeepsCore(s, a, replaced, grace, days, now);
    case Completing(r, now) =>
      var k := s.rotations[r].before;
      var w := s.(credentials := s.credentials[k := A.Revoke(s.credentials[k], now)]);
      A.RevokingKeepsCore(s, w);
      A.DoneKeepsCore(w, r);
    case Disabling(a, credentials, now) => A.RevokingKeepsCore(s, Write(s, p));
  }

  lemma DirectKeepsCore(s: A.State, op: A.Operation, d: A.Defaults, now: int)
    requires A.Core(s) && now >= s.clock && (op.Create? || op.Authenticate?)
    ensures A.Core(A.After(s, op, d, now))
    ensures forall a: nat :: a < |s.accounts| ==> Harmless(s, A.After(s, op, d, now), a)
  {
    var t := A.After(s, op, d, now);
    if t.accounts != s.accounts && op.Create? {
      A.CreatingKeepsCore(s, t, A.Issue(|s.accounts|, now, A.Days(op.days, d)));
    } else {
      A.RevokingKeepsCore(s, t);
    }
  }

  lemma BeginKeepsInv(s: State, d: A.Defaults, step: Step)
    requires Inv(s) && Enabled(s, d, step) && step.Begin? && !Overlaps(s, step)
    ensures Inv(Apply(s, d, step))
  {
    var w := s.rows.(clock := step.now);
    A.RevokingKeepsCore(s.rows, w);
    forall h | h in s.requests ensures PlanOk(w, s.requests[h]) {
      var p := s.requests[h];
      if p.Rotating? { HarmlessKeepsReady(s.rows, w, p.account, p.replaced, p.grace, p.days, p.now); }
    }
    if step.op.Rotate? {
      var g, n := A.Grace(step.op.grace, d), A.Days(step.op.days, d);
      A.ReadyWhenRead(w, step.op.account, g, n, step.now);
    }
  }

  lemma OthersKept(s: State, t: A.State, except: Option<nat>)
    requires Inv(s) && |s.rows.accounts| <= |t.accounts| && |s.rows.rotations| <= |t.rotations|
    requires forall h :: h in s.requests && Some(h) != except && s.requests[h].Rotating? ==> Harmless(s.rows, t, s.requests[h].account)
    ensures forall h :: h in s.requests && Some(h) != except ==> PlanOk(t, s.requests[h])
  {
    forall h | h in s.requests && Some(h) != except ensures PlanOk(t, s.requests[h]) {
      var p := s.requests[h];
      assert PlanOk(s.rows, p);
      if p.Rotating? { HarmlessKeepsReady(s.rows, t, p.account, p.replaced, p.grace, p.days, p.now); }
    }
  }

  lemma StepKeepsInv(s: State, d: A.Defaults, step: Step)
    requires Inv(s) && Enabled(s, d, step) && !Overlaps(s, step)
    ensures Inv(Apply(s, d, step))
  {
    match step
    case Begin(_, _, _) => BeginKeepsInv(s, d, step);
    case Direct(op, now) =>
      DirectKeepsCore(s.rows, op, d, now);
      OthersKept(s, A.After(s.rows, op, d, now), None);
    case Commit(h) =>
      WriteKeepsCore(s.rows, s.requests[h]);
      forall g | g in s.requests && g != h && s.requests[g].Rotating? ensures Harmless(s.rows, Write(s.rows, s.requests[h]), s.requests[g].account) {
        WriteIsHarmless(s.rows, s.requests[h], s.requests[g].account);
      }
      OthersKept(s, Write(s.rows, s.requests[h]), Some(h));
    case Crash(h) =>
  }

  lemma {:induction false} RunKeepsInv(s: State, d: A.Defaults, steps: seq<Step>, t: State)
    requires Inv(s) && Exec(s, d, steps, true) == Some(t)
    ensures Inv(t)
    decreases |steps|
  {
    if steps != [] {
      StepKeepsInv(s, d, steps[0]);
      RunKeepsInv(Apply(s, d, steps[0]), d, steps[1..], t);
    }
  }

  function Empty(clock: int): State { State(A.State(clock, [], [], []), map[]) }

  /**
   In every run of requests side by side, with crashes, in which no two rotations of one account overlap, at most two
   credentials of an account authenticate; completions, disablings and rotations of other accounts may overlap at will.
   */
  lemma AtMostTwoApart(clock: int, d: A.Defaults, steps: seq<Step>, t: State, a: nat, now: int)
    requires Exec(Empty(clock), d, steps, true) == Some(t) && now >= t.rows.clock
    ensures A.CountOpens(t.rows, a, now, |t.rows.credentials|) <= 2
  {
    RunKeepsInv(Empty(clock), d, steps, t);
    A.AtMostTwo(t.rows, a, now);
  }

  /** Once disabled, an account stays so however requests overlap, and none of its credentials authenticates. */
  lemma {:induction false} DisabledForGood(s: State, d: A.Defaults, steps: seq<Step>, apart: bool, t: State, a: nat)
    requires a < |s.rows.accounts| && !s.rows.accounts[a].active && Exec(s, d, steps, apart) == Some(t)
    ensures a < |t.rows.accounts| && !t.rows.accounts[a].active
    ensures forall k, now :: !A.Opens(t.rows, a, k, now)
    decreases |steps|
  {
    if steps != [] { DisabledForGood(Apply(s, d, steps[0]), d, steps[1..], apart, t, a); }
  }

  // ---------------------------------------------------------------- two rotations together

  /** When no rotation of the account is in its grace period, only the latest replaceable credential can still be usable. */
  lemma OnlyLatestUsable(s: A.State, a: nat, now: int, later: int, k: nat)
    requires A.Core(s) && s.clock <= now <= later && k < |s.credentials| && s.credentials[k].account == a
    requires !A.AnyInGrace(s.rotations, a, now) && A.Usable(s.credentials[k], later)
    ensures A.Latest(s.credentials, a, later) == Some(k)
  {
    A.AnyInGraceIs(s.rotations, a, now);
    assert A.CredentialOk(s, k);
    assert forall r: nat :: r < |s.rotations| && s.rotations[r].account == a ==> s.rotations[r].done || s.rotations[r].graceEndsAt <= now;
  }

  /**
   Two rotations of one account that both read before either commits. Then exactly the two new credentials open the account
   (the first unless it has expired between the readings), and the one the second replaces does when its grace period is
   not empty and the first rotation has not revoked it.
   */
  lemma OpenAfterBoth(s: A.State, a: nat, g1: int, days1: int, now1: int, g2: int, days2: int, now2: int, k: nat)
    requires A.Core(s) && s.clock <= now1 <= now2
    requires A.RotationFault(s, a, g1, days1, now1).None? && A.RotationFault(s, a, g2, days2, now2).None?
    ensures var o1, o2, n := A.Latest(s.credentials, a, now1).value, A.Latest(s.credentials, a, now2).value, |s.credentials|;
      A.Opens(Write(Write(s, Rotating(a, o1, g1, days1, now1)), Rotating(a, o2, g2, days2, now2)), a, k, now2) <==>
        k == n + 1 || (k == n && now2 < now1 + days1 * A.DAY) || (k == o2 && g2 >= 1 && (o1 == o2 ==> g1 >= 1))
  {
    var n := |s.credentials|;
    if k < n && s.credentials[k].account == a && A.Usable(s.credentials[k], now2) { OnlyLatestUsable(s, a, now1, now2, k); }
  }

  lemma {:induction false} CountGrows(s: A.State, a: nat, now: int, m: nat, n: nat)
    requires m <= n <= |s.credentials|
    ensures A.CountOpens(s, a, now, m) <= A.CountOpens(s, a, now, n)
    decreases n
  {
    if m < n { CountGrows(s, a, now, m, n - 1); }
  }

  lemma CountThree(s: A.State, a: nat, now: int, i: nat, j: nat, k: nat)
    requires i < j < k < |s.credentials| && A.Opens(s, a, i, now) && A.Opens(s, a, j, now) && A.Opens(s, a, k, now)
    ensures A.CountOpens(s, a, now, |s.credentials|) >= 3
  {
    CountGrows(s, a, now, k + 1, |s.credentials|);
    CountGrows(s, a, now, j + 1, k);
    CountGrows(s, a, now, i + 1, j);
  }

  lemma FourSteps(s: State, d: A.Defaults, w: Step, x: Step, y: Step, z: Step, s1: State, s2: State, s3: State, s4: State)
    requires Enabled(s, d, w) && Apply(s, d, w) == s1 && Enabled(s1, d, x) && Apply(s1, d, x) == s2
    requires Enabled(s2, d, y) && Apply(s2, d, y) == s3 && Enabled(s3, d, z) && Apply(s3, d, z) == s4
    ensures Exec(s, d, [w, x, y, z], false) == Some(s4)
  {
    assert [w, x, y, z][1..] == [x, y, z] && [x, y, z][1..] == [y, z] && [y, z][1..] == [z] && [z][1..] == [];
    assert Exec(s4, d, [], false) == Some(s4);
    assert Exec(s3, d, [z], false) == Some(s4);
    assert Exec(s2, d, [y, z], false) == Some(s4);
    assert Exec(s1, d, [x, y, z], false) == Some(s4);
  }

  /**
   The condition cannot be dropped: wherever one rotation with a grace period could begin, two that overlap leave three
   credentials that authenticate.
   */
  lemma ThreeWhenOverlapping(s: State, d: A.Defaults, a: nat, grace: Option<int>, days: Option<int>, now: int, g: nat, h: nat)
    returns (steps: seq<Step>, t: State)
    requires Inv(s) && g != h && g !in s.requests && h !in s.requests
    requires A.Timely(s.rows, A.Timed(A.Rotate(a, grace, days), now))
    requires A.RotationFault(s.rows, a, A.Grace(grace, d), A.Days(days, d), now).None? && A.Grace(grace, d) >= 1
    ensures Exec(s, d, steps, false) == Some(t)
    ensures A.CountOpens(t.rows, a, now, |t.rows.credentials|) >= 3
  {
    var op := A.Rotate(a, grace, days);
    var s1 := Apply(s, d, Begin(g, op, now));
    assert A.Timely(s1.rows, A.Timed(op, now)) && PlanFor(s1.rows, op, d, now) == PlanFor(s.rows, op, d, now);
    var s2 := Apply(s1, d, Begin(h, op, now));
    var s3 := Apply(s2, d, Commit(g));
    t := Apply(s3, d, Commit(h));
    steps := [Begin(g, op, now), Begin(h, op, now), Commit(g), Commit(h)];
    FourSteps(s, d, steps[0], steps[1], steps[2], steps[3], s1, s2, s3, t);
    var rows := s.rows.(clock := now);
    var o, n, hours, lifetime := A.Latest(s.rows.credentials, a, now).value, |s.rows.credentials|, A.Grace(grace, d), A.Days(days, d);
    assert t.rows == Write(Write(rows, Rotating(a, o, hours, lifetime, now)), Rotating(a, o, hours, lifetime, now));
    A.RevokingKeepsCore(s.rows, rows);
    OpenAfterBoth(rows, a, hours, lifetime, now, hours, lifetime, now, o);
    OpenAfterBoth(rows, a, hours, lifetime, now, hours, lifetime, now, n);
    OpenAfterBoth(rows, a, hours, lifetime, now, hours, lifetime, now, n + 1);
    CountThree(t.rows, a, now, o, n, n + 1);
  }
}
