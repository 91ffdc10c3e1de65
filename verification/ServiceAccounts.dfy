/**
 Service accounts of one tenant and their credentials: issue, authenticate, rotate with a grace period, complete,
 disable, and the lifecycle report. Every operation reads the clock once. Instants are microseconds.
 */
module ServiceAccounts {
  import opened Options

  const HOUR: int := 3_600_000_000
  const DAY: int := 24 * HOUR

  datatype Account = Account(active: bool, lastAuthenticatedAt: Option<int>)

  datatype Credential = Credential(
    account: nat, revoked: bool, issuedAt: int, expiresAt: int, retireAfter: Option<int>, lastUsedAt: Option<int>)

  datatype Rotation = Rotation(account: nat, before: nat, after: nat, done: bool, graceEndsAt: int)

  /** Accounts, credentials and rotations are numbered in the order in which they were made. */
  datatype State = State(clock: int, accounts: seq<Account>, credentials: seq<Credential>, rotations: seq<Rotation>)

  datatype Defaults = Defaults(credentialDays: int, graceHours: int)

  datatype Fault = NotFound | NotActive | RotationActive | NoCredential | BadGrace | BadDays

  datatype Operation =
    | Create(days: Option<int>)
    | Authenticate(credential: nat, secretMatches: bool)
    | Rotate(account: nat, grace: Option<int>, days: Option<int>)
    | Complete(rotation: nat)
    | Disable(account: nat)

  datatype Outcome = Done(state: State) | Refused(fault: Fault)

  // ---------------------------------------------------------------- authentication

  /** Not revoked, not expired, and not past its retirement. */
  predicate Usable(c: Credential, now: int) {
    !c.revoked && c.expiresAt > now && (c.retireAfter.None? || c.retireAfter.value > now)
  }

  predicate Authenticates(s: State, k: nat, now: int) {
    && k < |s.credentials| && Usable(s.credentials[k], now)
    && s.credentials[k].account < |s.accounts| && s.accounts[s.credentials[k].account].active
  }

  // ---------------------------------------------------------------- operations

  /** `days or default`: zero counts as missing. */
  function Days(days: Option<int>, d: Defaults): int {
    if days.Some? && days.value != 0 then days.value else d.credentialDays
  }

  function Grace(grace: Option<int>, d: Defaults): int { if grace.Some? then grace.value else d.graceHours }

  function Issue(account: nat, now: int, days: int): Credential { Credential(account, false, now, now + days * DAY, None, None) }

  /** A rotation of the account whose grace period is not over. */
  predicate InGrace(r: Rotation, account: nat, now: int) { r.account == account && !r.done && r.graceEndsAt > now }

  predicate AnyInGrace(rotations: seq<Rotation>, account: nat, now: int) {
    rotations != [] && (InGrace(rotations[|rotations| - 1], account, now) || AnyInGrace(rotations[..|rotations| - 1], account, now))
  }

  lemma {:induction false} AnyInGraceIs(rotations: seq<Rotation>, account: nat, now: int)
    ensures AnyInGrace(rotations, account, now) <==> exists r :: 0 <= r < |rotations| && InGrace(rotations[r], account, now)
  {
    if rotations != [] {
      AnyInGraceIs(rotations[..|rotations| - 1], account, now);
      if AnyInGrace(rotations[..|rotations| - 1], account, now) {
        var r :| 0 <= r < |rotations| - 1 && InGrace(rotations[..|rotations| - 1][r], account, now);
        assert InGrace(rotations[r], account, now);
      }
    }
  }

  /** What rotation may replace: it looks at revocation and expiry, not at retirement. */
  predicate Replaceable(c: Credential, account: nat, now: int) { c.account == account && !c.revoked && c.expiresAt > now }

  /** The latest issued replaceable credential. */
  function Latest(credentials: seq<Credential>, account: nat, now: int): (k: Option<nat>)
    ensures k.Some? ==> k.value < |credentials| && Replaceable(credentials[k.value], account, now)
    ensures k.Some? ==> forall i :: k.value < i < |credentials| ==> !Replaceable(credentials[i], account, now)
    ensures k.None? ==> forall i :: 0 <= i < |credentials| ==> !Replaceable(credentials[i], account, now)
  {
    if credentials == [] then None
    else if Replaceable(credentials[|credentials| - 1], account, now) then Some(|credentials| - 1)
    else Latest(credentials[..|credentials| - 1], account, now)
  }

  function RotationFault(s: State, a: nat, grace: int, days: int, now: int): Option<Fault> {
    if a >= |s.accounts| then Some(NotFound)
    else if !s.accounts[a].active then Some(NotActive)
    else if AnyInGrace(s.rotations, a, now) then Some(RotationActive)
    else if Latest(s.credentials, a, now).None? then Some(NoCredential)
    else if !(0 <= grace <= 168) then Some(BadGrace)
    else if !(1 <= days <= 365) then Some(BadDays)
    else None
  }

  /** The replaced credential retires when the grace period ends; without one it is revoked at once. */
  function Retiring(c: Credential, ends: int, grace: int): Credential { c.(retireAfter := Some(ends), revoked := c.revoked || grace == 0) }

  /** What a rotation that chose the credential to replace at `now` writes when it commits. */
  function RotationWrite(s: State, a: nat, replaced: nat, grace: int, days: int, now: int): State
    requires replaced < |s.credentials|
  {
    var ends := now + grace * HOUR;
    s.(credentials := s.credentials[replaced := Retiring(s.credentials[replaced], ends, grace)] + [Issue(a, now, days)],
       rotations := s.rotations + [Rotation(a, replaced, |s.credentials|, grace == 0, ends)])
  }

  function Rotated(s: State, a: nat, grace: int, days: int, now: int): State
    requires RotationFault(s, a, grace, days, now).None?
  {
    RotationWrite(s, a, Latest(s.credentials, a, now).value, grace, days, now)
  }

  function Revoke(c: Credential, now: int): Credential { c.(revoked := true, retireAfter := Some(now)) }

  function RevokeAll(credentials: seq<Credential>, a: nat, now: int): (r: seq<Credential>)
    ensures |r| == |credentials|
    ensures forall i :: 0 <= i < |r| ==>
              r[i] == if credentials[i].account == a && !credentials[i].revoked then Revoke(credentials[i], now) else credentials[i]
  {
    if credentials == [] then []
    else
      var c := credentials[|credentials| - 1];
      RevokeAll(credentials[..|credentials| - 1], a, now) + [if c.account == a && !c.revoked then Revoke(c, now) else c]
  }

  function Do(s: State, op: Operation, d: Defaults, now: int): Outcome {
    match op
    case Create(days) =>
      if !(1 <= Days(days, d) <= 365) then Refused(BadDays)
      else Done(s.(accounts := s.accounts + [Account(true, None)],
                   credentials := s.credentials + [Issue(|s.accounts|, now, Days(days, d))]))
    case Authenticate(k, secretMatches) =>
      if !secretMatches || !Authenticates(s, k, now) then Refused(NotFound)
      else
        var a := s.credentials[k].account;
        Done(s.(credentials := s.credentials[k := s.credentials[k].(lastUsedAt := Some(now))],
                accounts := s.accounts[a := s.accounts[a].(lastAuthenticatedAt := Some(now))]))
    case Rotate(a, grace, days) =>
      var fault := RotationFault(s, a, Grace(grace, d), Days(days, d), now);
      if fault.Some? then Refused(fault.value) else Done(Rotated(s, a, Grace(grace, d), Days(days, d), now))
    case Complete(r) =>
      if r >= |s.rotations| then Refused(NotFound)
      else if s.rotations[r].done then Done(s)
      else
        var k := s.rotations[r].before;
        Done(s.(credentials := if k < |s.credentials| then s.credentials[k := Revoke(s.credentials[k], now)] else s.credentials,
                rotations := s.rotations[r := s.rotations[r].(done := true)]))
    case Disable(a) =>
      if a >= |s.accounts| then Refused(NotFound)
      else if !s.accounts[a].active then Done(s)
      else Done(s.(accounts := s.accounts[a := s.accounts[a].(active := false)], credentials := RevokeAll(s.credentials, a, now)))
  }

  // ---------------------------------------------------------------- what each operation does to the rows

  /** The lifetime asked for, or the default when none or zero is. */
  ghost predicate Lifetime(days: Option<int>, d: Defaults, n: int) { if days in {None, Some(0)} then n == d.credentialDays else days == Some(n) }

  /** The grace period asked for, which may be zero, or the default. */
  ghost predicate GracePeriod(grace: Option<int>, d: Defaults, n: int) { if grace == None then n == d.graceHours else grace == Some(n) }

  /** A credential as it is issued: it expires after its lifetime of 24-hour days. */
  ghost predicate NewCredential(c: Credential, account: nat, now: int, days: int) {
    c.account == account && !c.revoked && c.issuedAt == now && c.expiresAt == now + days * 24 * 3_600_000_000 && c.retireAfter == None && c.lastUsedAt == None
  }

  lemma CreateLeaves(s: State, days: Option<int>, d: Defaults, now: int, n: int)
    requires Lifetime(days, d, n)
    ensures var out := Do(s, Create(days), d, now);
      if n < 1 || 365 < n then out == Refused(BadDays)
      else
        && out.Done? && out.state.accounts == s.accounts + [Account(true, None)] && out.state.rotations == s.rotations
        && |out.state.credentials| == |s.credentials| + 1 && s.credentials <= out.state.credentials
        && NewCredential(out.state.credentials[|s.credentials|], |s.accounts|, now, n)
  {}

  /** Only a credential that is not revoked, not expired and not past its retirement, of an active account, opens it with its secret. */
  lemma AuthenticateLeaves(s: State, k: nat, secretMatches: bool, d: Defaults, now: int)
    ensures var out := Do(s, Authenticate(k, secretMatches), d, now);
      if && secretMatches && k < |s.credentials| && !s.credentials[k].revoked && s.credentials[k].expiresAt > now
         && (s.credentials[k].retireAfter.Some? ==> s.credentials[k].retireAfter.value > now)
         && s.credentials[k].account < |s.accounts| && s.accounts[s.credentials[k].account].active
      then
        var a := s.credentials[k].account;
        && out.Done? && out.state.rotations == s.rotations
        && out.state.credentials == s.credentials[k := s.credentials[k].(lastUsedAt := Some(now))]
        && out.state.accounts == s.accounts[a := Account(true, Some(now))]
      else out == Refused(NotFound)
  {}

  /** The first thing that is wrong with a request to rotate. */
  ghost predicate RotateFault(s: State, a: nat, g: int, n: int, now: int, fault: Option<Fault>) {
    if a >= |s.accounts| then fault == Some(NotFound)
    else if !s.accounts[a].active then fault == Some(NotActive)
    else if exists r :: 0 <= r < |s.rotations| && s.rotations[r].account == a && !s.rotations[r].done && s.rotations[r].graceEndsAt > now then
      fault == Some(RotationActive)
    else if forall k :: 0 <= k < |s.credentials| && s.credentials[k].account == a ==> s.credentials[k].revoked || s.credentials[k].expiresAt <= now then
      fault == Some(NoCredential)
    else if g < 0 || 168 < g then fault == Some(BadGrace)
    else if n < 1 || 365 < n then fault == Some(BadDays)
    else fault == None
  }

  /** One more credential and rotation; the replaced credential retires with the grace period, or is revoked when that is zero. */
  ghost predicate RotationLeft(s: State, t: State, a: nat, replaced: nat, g: int, n: int, now: int) {
    && t.accounts == s.accounts && replaced < |s.credentials| && |t.credentials| == |s.credentials| + 1 && |t.rotations| == |s.rotations| + 1
    && (forall i :: 0 <= i < |s.credentials| && i != replaced ==> t.credentials[i] == s.credentials[i]) && s.rotations <= t.rotations
    && var old', new', r := s.credentials[replaced], t.credentials[replaced], t.rotations[|s.rotations|];
       && new'.account == old'.account && new'.issuedAt == old'.issuedAt && new'.expiresAt == old'.expiresAt && new'.lastUsedAt == old'.lastUsedAt
       && new'.retireAfter == Some(now + g * 3_600_000_000) && new'.revoked == (old'.revoked || g == 0)
       && NewCredential(t.credentials[|s.credentials|], a, now, n)
       && r.account == a && r.before == replaced && r.after == |s.credentials| && r.done == (g == 0) && r.graceEndsAt == now + g * 3_600_000_000
  }

  lemma RotateLeaves(s: State, a: nat, grace: Option<int>, days: Option<int>, d: Defaults, now: int, g: int, n: int)
    requires GracePeriod(grace, d, g) && Lifetime(days, d, n)
    ensures var out := Do(s, Rotate(a, grace, days), d, now);
      && RotateFault(s, a, g, n, now, if out.Done? then None else Some(out.fault))
      && (out.Done? ==> exists replaced :: RotationLeft(s, out.state, a, replaced, g, n, now))
  {
    AnyInGraceIs(s.rotations, a, now);
    var latest := Latest(s.credentials, a, now);
    assert latest.None? ==> forall k :: 0 <= k < |s.credentials| ==> !Replaceable(s.credentials[k], a, now);
    if Do(s, Rotate(a, grace, days), d, now).Done? {
      assert RotationLeft(s, RotationWrite(s, a, latest.value, g, n, now), a, latest.value, g, n, now);
    }
  }

  /** Completing a rotation under way revokes the credential it replaced; one that is done stays as it is. */
  lemma CompleteLeaves(s: State, r: nat, d: Defaults, now: int)
    ensures var out := Do(s, Complete(r), d, now);
      if r >= |s.rotations| then out == Refused(NotFound)
      else if s.rotations[r].done then out == Done(s)
      else
        && out.Done? && out.state.accounts == s.accounts && out.state.rotations == s.rotations[r := s.rotations[r].(done := true)]
        && |out.state.credentials| == |s.credentials|
        && forall k :: 0 <= k < |s.credentials| ==>
             out.state.credentials[k] ==
               if k == s.rotations[r].before then s.credentials[k].(revoked := true, retireAfter := Some(now)) else s.credentials[k]
  {}

  /** Disabling an active account revokes those of its credentials that are not revoked; a disabled one stays as it is. */
  lemma DisableLeaves(s: State, a: nat, d: Defaults, now: int)
    ensures var out := Do(s, Disable(a), d, now);
      if a >= |s.accounts| then out == Refused(NotFound)
      else if !s.accounts[a].active then out == Done(s)
      else
        && out.Done? && out.state.accounts == s.accounts[a := s.accounts[a].(active := false)] && out.state.rotations == s.rotations
        && |out.state.credentials| == |s.credentials|
        && forall k :: 0 <= k < |s.credentials| ==>
             out.state.credentials[k] ==
               if s.credentials[k].account == a && !s.credentials[k].revoked then s.credentials[k].(revoked := true, retireAfter := Some(now))
               else s.credentials[k]
  {}

  /** The state once the clock shows `now` and the operation is over; a refused one changes nothing else. */
  function After(s: State, op: Operation, d: Defaults, now: int): State {
    match Do(s, op, d, now)
    case Done(t) => t.(clock := now)
    case Refused(_) => s.(clock := now)
  }

  datatype Timed = Timed(op: Operation, now: int)

  /** The clock does not run backwards, and an account's credentials are issued at different instants. */
  predicate Timely(s: State, x: Timed) {
    && x.now >= s.clock
    && (x.op.Rotate? ==> forall k :: 0 <= k < |s.credentials| && s.credentials[k].account == x.op.account ==> s.credentials[k].issuedAt < x.now)
  }

  function Exec(s: State, ops: seq<Timed>, d: Defaults): Option<State>
    decreases |ops|
  {
    if ops == [] then Some(s)
    else if Timely(s, ops[0]) then Exec(After(s, ops[0].op, d, ops[0].now), ops[1..], d)
    else None
  }

  // ---------------------------------------------------------------- what every reachable state keeps

  /** No credential of the account was issued after this one. */
  ghost predicate Newest(credentials: seq<Credential>, k: nat) {
    k < |credentials| && forall i :: k < i < |credentials| ==> credentials[i].account != credentials[k].account
  }

  /** A rotation under way that retires the credential just when its grace period ends. */
  ghost predicate RetiredBy(rotations: seq<Rotation>, r: nat, k: nat, c: Credential) {
    r < |rotations| && rotations[r].account == c.account && rotations[r].before == k && !rotations[r].done && c.retireAfter == Some(rotations[r].graceEndsAt)
  }

  /** Every credential but the newest is revoked, expired, or retired by a rotation under way; the newest retires only by being revoked. */
  ghost predicate CredentialOk(s: State, k: nat)
    requires k < |s.credentials|
  {
    var c := s.credentials[k];
    && c.account < |s.accounts|
    && c.issuedAt <= s.clock
    && (!c.revoked && c.expiresAt > s.clock && !Newest(s.credentials, k) ==> exists r :: RetiredBy(s.rotations, r, k, c))
    && (!c.revoked && Newest(s.credentials, k) ==> c.retireAfter == None)
  }

  ghost predicate RotationsOk(s: State) {
    && (forall r :: 0 <= r < |s.rotations| ==>
          s.rotations[r].before < |s.credentials| && s.credentials[s.rotations[r].before].account == s.rotations[r].account
          && !Newest(s.credentials, s.rotations[r].before))
    && (forall q, r :: 0 <= q < r < |s.rotations| && InGrace(s.rotations[q], s.rotations[r].account, s.clock) ==>
          !InGrace(s.rotations[r], s.rotations[r].account, s.clock))
  }

  ghost predicate IssueOrder(credentials: seq<Credential>) {
    forall i, j :: 0 <= i < j < |credentials| && credentials[i].account == credentials[j].account ==>
      credentials[i].issuedAt < credentials[j].issuedAt
  }

  /** What holds of the rows even while requests overlap, as long as no two rotations of one account do. */
  ghost predicate Core(s: State) {
    && IssueOrder(s.credentials)
    && (forall k :: 0 <= k < |s.credentials| ==> CredentialOk(s, k))
    && RotationsOk(s)
  }

  /** The credentials of a disabled account are revoked. */
  ghost predicate DisabledOk(s: State) {
    forall k :: 0 <= k < |s.credentials| && s.credentials[k].account < |s.accounts| && !s.accounts[s.credentials[k].account].active ==>
      s.credentials[k].revoked
  }

  ghost predicate Inv(s: State) { Core(s) && DisabledOk(s) }

  // ---------------------------------------------------------------- what a write keeps

  /** The same credentials, except that some may be revoked or have authenticated. */
  ghost predicate OnlyRevoked(before: seq<Credential>, after: seq<Credential>) {
    && |after| == |before|
    && forall k :: 0 <= k < |before| ==>
         && after[k].account == before[k].account && after[k].issuedAt == before[k].issuedAt
         && (after[k].revoked || (!before[k].revoked && after[k].expiresAt == before[k].expiresAt && after[k].retireAfter == before[k].retireAfter))
  }

  /** Time passes, credentials are revoked, accounts change: all of it keeps the core. */
  lemma RevokingKeepsCore(s: State, t: State)
    requires Core(s) && OnlyRevoked(s.credentials, t.credentials) && t.rotations == s.rotations
    requires s.clock <= t.clock && |s.accounts| <= |t.accounts|
    ensures Core(t)
  {
    forall k | 0 <= k < |t.credentials| ensures CredentialOk(t, k) && Newest(t.credentials, k) == Newest(s.credentials, k) {
      assert CredentialOk(s, k);
      assert Newest(t.credentials, k) <==> Newest(s.credentials, k);
      if r :| RetiredBy(s.rotations, r, k, s.credentials[k]) {
        assert !t.credentials[k].revoked ==> RetiredBy(t.rotations, r, k, t.credentials[k]);
      }
    }
    forall q, r | 0 <= q < r < |t.rotations| && InGrace(t.rotations[q], t.rotations[r].account, t.clock)
      ensures !InGrace(t.rotations[r], t.rotations[r].account, t.clock)
    {
      assert InGrace(s.rotations[q], s.rotations[r].account, s.clock);
    }
  }

  /** A rotation is done once its replaced credential is revoked. */
  lemma DoneKeepsCore(s: State, r: nat)
    requires Core(s) && r < |s.rotations| && s.credentials[s.rotations[r].before].revoked
    ensures Core(s.(rotations := s.rotations[r := s.rotations[r].(done := true)]))
  {
    var t := s.(rotations := s.rotations[r := s.rotations[r].(done := true)]);
    forall k | 0 <= k < |t.credentials| ensures CredentialOk(t, k) {
      assert CredentialOk(s, k);
      if q :| RetiredBy(s.rotations, q, k, s.credentials[k]) {
        assert k != s.rotations[r].before ==> RetiredBy(t.rotations, q, k, t.credentials[k]);
      }
    }
    forall p, q | 0 <= p < q < |t.rotations| && InGrace(t.rotations[p], t.rotations[q].account, t.clock)
      ensures !InGrace(t.rotations[q], t.rotations[q].account, t.clock)
    {
      assert InGrace(s.rotations[p], s.rotations[q].account, s.clock);
    }
  }

  /** One more credential changes which are newest only for its own account. */
  lemma NewestGrows(before: seq<Credential>, after: seq<Credential>, k: nat)
    requires |after| == |before| + 1 && k < |before|
    requires forall i :: 0 <= i < |before| ==> after[i].account == before[i].account
    ensures Newest(after, k) <==> Newest(before, k) && after[|before|].account != before[k].account
  {
    if Newest(after, k) {
      forall i | k < i < |before| ensures before[i].account != before[k].account {
        assert after[i].account != after[k].account;
      }
    }
  }

  /** A rotation that retired a credential still does when both are as they were. */
  lemma KeepsRetiring(s: State, t: State, k: nat)
    requires k < |s.credentials| <= |t.credentials|
    requires s.credentials[k].account == t.credentials[k].account && s.credentials[k].retireAfter == t.credentials[k].retireAfter
    requires s.rotations <= t.rotations
    ensures (exists r :: RetiredBy(s.rotations, r, k, s.credentials[k])) ==> exists r :: RetiredBy(t.rotations, r, k, t.credentials[k])
  {
    if r :| RetiredBy(s.rotations, r, k, s.credentials[k]) {
      assert RetiredBy(t.rotations, r, k, t.credentials[k]);
    }
  }

  /** The account's first credential. */
  lemma CreatingKeepsCore(s: State, t: State, c: Credential)
    requires Core(s) && s.clock <= t.clock && |t.accounts| == |s.accounts| + 1
    requires t.credentials == s.credentials + [c] && t.rotations == s.rotations
    requires c.account == |s.accounts| && c.issuedAt <= t.clock && !c.revoked && c.retireAfter == None
    ensures Core(t)
  {
    var w := s.(clock := t.clock);
    RevokingKeepsCore(s, w);
    forall k | 0 <= k < |s.credentials| ensures CredentialOk(t, k) && Newest(t.credentials, k) == Newest(s.credentials, k) {
      assert CredentialOk(w, k);
      NewestGrows(s.credentials, t.credentials, k);
      KeepsRetiring(w, t, k);
    }
    assert CredentialOk(t, |s.credentials|);
    forall i, j | 0 <= i < j < |t.credentials| && t.credentials[i].account == t.credentials[j].account
      ensures t.credentials[i].issuedAt < t.credentials[j].issuedAt
    {
      assert CredentialOk(s, i);
    }
    assert RotationsOk(w);
  }

  // ---------------------------------------------------------------- what a rotation keeps

  /**
   A rotation that read the account at `now` may commit: no rotation of the account was in its grace period then, and what
   was issued after the credential it replaces is revoked or had expired.
   */
  ghost predicate RotationReady(s: State, a: nat, replaced: nat, grace: int, days: int, now: int) {
    && now <= s.clock && a < |s.accounts| && 0 <= grace && 1 <= days
    && replaced < |s.credentials| && s.credentials[replaced].account == a
    && (forall k :: 0 <= k < |s.credentials| && s.credentials[k].account == a ==> s.credentials[k].issuedAt < now)
    && (forall k :: replaced < k < |s.credentials| && s.credentials[k].account == a ==> s.credentials[k].revoked || s.credentials[k].expiresAt <= now)
    && (forall r :: 0 <= r < |s.rotations| && s.rotations[r].account == a ==> s.rotations[r].done || s.rotations[r].graceEndsAt <= now)
  }

  /** What a rotation reads makes it ready. */
  lemma ReadyWhenRead(s: State, a: nat, grace: int, days: int, now: int)
    requires RotationFault(s, a, grace, days, now).None? && now == s.clock
    requires forall k :: 0 <= k < |s.credentials| && s.credentials[k].account == a ==> s.credentials[k].issuedAt < now
    ensures RotationReady(s, a, Latest(s.credentials, a, now).value, grace, days, now)
  {
    AnyInGraceIs(s.rotations, a, now);
    forall r | 0 <= r < |s.rotations| && s.rotations[r].account == a ensures s.rotations[r].done || s.rotations[r].graceEndsAt <= now {
      assert !InGrace(s.rotations[r], a, now);
    }
    var o := Latest(s.credentials, a, now).value;
    forall k | o < k < |s.credentials| && s.credentials[k].account == a ensures s.credentials[k].revoked || s.credentials[k].expiresAt <= now {
      assert !Replaceable(s.credentials[k], a, now);
    }
  }

  lemma RotatedCredentialOk(s: State, a: nat, o: nat, grace: int, days: int, now: int, k: nat)
    requires Core(s) && RotationReady(s, a, o, grace, days, now) && k <= |s.credentials|
    ensures CredentialOk(RotationWrite(s, a, o, grace, days, now), k)
  {
    var t := RotationWrite(s, a, o, grace, days, now);
    var n := |s.credentials|;
    if k < n {
      NewestGrows(s.credentials, t.credentials, k);
      assert CredentialOk(s, k);
    }
    if k == o {
      assert t.credentials[n].account == a;
      assert grace != 0 ==> RetiredBy(t.rotations, |s.rotations|, o, t.credentials[o]);
    } else if k < n {
      if s.credentials[k].account == a && Newest(s.credentials, k) { assert o < k; }
      KeepsRetiring(s, t, k);
    }
  }

  lemma RotatedReplacements(s: State, a: nat, o: nat, grace: int, days: int, now: int, r: nat)
    requires Core(s) && RotationReady(s, a, o, grace, days, now) && r <= |s.rotations|
    ensures var t := RotationWrite(s, a, o, grace, days, now); var before := t.rotations[r].before;
            before < |t.credentials| && t.credentials[before].account == t.rotations[r].account && !Newest(t.credentials, before)
  {
    var t := RotationWrite(s, a, o, grace, days, now);
    assert t.credentials[|s.credentials|].account == a;
    NewestGrows(s.credentials, t.credentials, t.rotations[r].before);
  }

  lemma RotatedRotationsOk(s: State, a: nat, o: nat, grace: int, days: int, now: int)
    requires Core(s) && RotationReady(s, a, o, grace, days, now)
    ensures RotationsOk(RotationWrite(s, a, o, grace, days, now))
  {
    var rotations := RotationWrite(s, a, o, grace, days, now).rotations;
    forall r | 0 <= r < |rotations| {
      RotatedReplacements(s, a, o, grace, days, now, r);
    }
    assert forall q :: 0 <= q < |s.rotations| ==> rotations[q] == s.rotations[q] && !InGrace(s.rotations[q], a, s.clock);
    forall q, r | 0 <= q < r < |s.rotations| && InGrace(rotations[q], rotations[r].account, s.clock)
      ensures !InGrace(rotations[r], rotations[r].account, s.clock)
    {
      assert InGrace(s.rotations[q], s.rotations[r].account, s.clock);
    }
  }

  lemma RotatingKeepsCore(s: State, a: nat, o: nat, grace: int, days: int, now: int)
    requires Core(s) && RotationReady(s, a, o, grace, days, now)
    ensures Core(RotationWrite(s, a, o, grace, days, now))
  {
    RotatedRotationsOk(s, a, o, grace, days, now);
    forall k | 0 <= k <= |s.credentials| ensures CredentialOk(RotationWrite(s, a, o, grace, days, now), k) {
      RotatedCredentialOk(s, a, o, grace, days, now, k);
    }
  }

  // ---------------------------------------------------------------- one operation after the other

  /** Time alone keeps the invariant. */
  lemma WaitKeepsInv(s: State, now: int)
    requires Inv(s) && now >= s.clock
    ensures Inv(s.(clock := now))
  {
    RevokingKeepsCore(s, s.(clock := now));
  }

  lemma CreateKeepsInv(s: State, days: Option<int>, d: Defaults, now: int)
    requires Inv(s) && now >= s.clock
    ensures Inv(After(s, Create(days), d, now))
  {
    WaitKeepsInv(s, now);
    if 1 <= Days(days, d) <= 365 {
      CreatingKeepsCore(s, After(s, Create(days), d, now), Issue(|s.accounts|, now, Days(days, d)));
      forall k | 0 <= k < |s.credentials| ensures s.credentials[k].account < |s.accounts| { assert CredentialOk(s, k); }
    }
  }

  lemma AuthenticateKeepsInv(s: State, k: nat, secretMatches: bool, d: Defaults, now: int)
    requires Inv(s) && now >= s.clock
    ensures Inv(After(s, Authenticate(k, secretMatches), d, now))
  {
    RevokingKeepsCore(s, After(s, Authenticate(k, secretMatches), d, now));
  }

  lemma RotateKeepsInv(s: State, a: nat, grace: Option<int>, days: Option<int>, d: Defaults, now: int)
    requires Inv(s) && Timely(s, Timed(Rotate(a, grace, days), now))
    ensures Inv(After(s, Rotate(a, grace, days), d, now))
  {
    var g, n := Grace(grace, d), Days(days, d);
    WaitKeepsInv(s, now);
    if RotationFault(s, a, g, n, now).None? {
      var w := s.(clock := now);
      ReadyWhenRead(w, a, g, n, now);
      RotatingKeepsCore(w, a, Latest(s.credentials, a, now).value, g, n, now);
    }
  }

  lemma CompleteKeepsInv(s: State, r: nat, d: Defaults, now: int)
    requires Inv(s) && now >= s.clock
    ensures Inv(After(s, Complete(r), d, now))
  {
    WaitKeepsInv(s, now);
    if r < |s.rotations| && !s.rotations[r].done {
      var k := s.rotations[r].before;
      var w := s.(clock := now, credentials := s.credentials[k := Revoke(s.credentials[k], now)]);
      RevokingKeepsCore(s, w);
      DoneKeepsCore(w, r);
    }
  }

  lemma DisableKeepsInv(s: State, a: nat, d: Defaults, now: int)
    requires Inv(s) && now >= s.clock
    ensures Inv(After(s, Disable(a), d, now))
  {
    RevokingKeepsCore(s, After(s, Disable(a), d, now));
  }

  lemma StepKeepsInv(s: State, x: Timed, d: Defaults)
    requires Inv(s) && Timely(s, x)
    ensures Inv(After(s, x.op, d, x.now))
  {
    match x.op
    case Create(days) => CreateKeepsInv(s, days, d, x.now);
    case Authenticate(k, secretMatches) => AuthenticateKeepsInv(s, k, secretMatches, d, x.now);
    case Rotate(a, grace, days) => RotateKeepsInv(s, a, grace, days, d, x.now);
    case Complete(r) => CompleteKeepsInv(s, r, d, x.now);
    case Disable(a) => DisableKeepsInv(s, a, d, x.now);
  }

  lemma {:induction false} RunKeepsInv(s: State, ops: seq<Timed>, d: Defaults, t: State)
    requires Inv(s) && Exec(s, ops, d) == Some(t)
    ensures Inv(t)
    decreases |ops|
  {
    if ops != [] {
      StepKeepsInv(s, ops[0], d);
      RunKeepsInv(After(s, ops[0].op, d, ops[0].now), ops[1..], d, t);
    }
  }

  // ---------------------------------------------------------------- at most two

  predicate Opens(s: State, a: nat, k: nat, now: int) {
    k < |s.credentials| && s.credentials[k].account == a && Authenticates(s, k, now)
  }

  /** Two rotations in their grace period at once are one, so they replace the same credential. */
  lemma OneGrace(s: State, a: nat, q: nat, r: nat)
    requires Core(s) && q < |s.rotations| && r < |s.rotations|
    requires InGrace(s.rotations[q], a, s.clock) && InGrace(s.rotations[r], a, s.clock)
    ensures s.rotations[q].before == s.rotations[r].before
  {}

  /** Of two credentials that open an account, the one issued later is its newest; the other is being retired. */
  lemma OneIsNewest(s: State, a: nat, i: nat, j: nat, now: int)
    requires Core(s) && now >= s.clock && i < j && Opens(s, a, i, now) && Opens(s, a, j, now)
    ensures Newest(s.credentials, j)
  {
    assert CredentialOk(s, i) && CredentialOk(s, j);
    assert !Newest(s.credentials, i);
    var q: nat :| RetiredBy(s.rotations, q, i, s.credentials[i]);
    if !Newest(s.credentials, j) {
      var r: nat :| RetiredBy(s.rotations, r, j, s.credentials[j]);
      OneGrace(s, a, q, r);
      assert false;
    }
  }

  function CountOpens(s: State, a: nat, now: int, n: nat): nat
    requires n <= |s.credentials|
  {
    if n == 0 then 0 else CountOpens(s, a, now, n - 1) + if Opens(s, a, n - 1, now) then 1 else 0
  }

  lemma {:induction false} CountPair(s: State, a: nat, now: int, n: nat, i: nat, j: nat)
    requires n <= |s.credentials| && forall k: nat :: k < n && Opens(s, a, k, now) ==> k == i || k == j
    ensures CountOpens(s, a, now, n) <= (if i < n then 1 else 0) + (if j < n then 1 else 0)
  {
    if n > 0 { CountPair(s, a, now, n - 1, i, j); }
  }

  /** At most two credentials of an account authenticate, now and at any later instant. */
  lemma AtMostTwo(s: State, a: nat, now: int)
    requires Core(s) && now >= s.clock
    ensures CountOpens(s, a, now, |s.credentials|) <= 2
  {
    if i: nat :| Opens(s, a, i, now) {
      if j: nat :| Opens(s, a, j, now) && j != i {
        forall k: nat | k < |s.credentials| && Opens(s, a, k, now) ensures k == i || k == j {
          NotThree(s, a, i, j, k, now);
        }
        CountPair(s, a, now, |s.credentials|, i, j);
      } else {
        CountPair(s, a, now, |s.credentials|, i, i);
      }
    } else {
      CountPair(s, a, now, |s.credentials|, 0, 0);
    }
  }

  lemma NotThree(s: State, a: nat, i: nat, j: nat, k: nat, now: int)
    requires Core(s) && now >= s.clock && Opens(s, a, i, now) && Opens(s, a, j, now) && Opens(s, a, k, now) && i != j
    ensures k == i || k == j
  {
    if i < j { OneIsNewest(s, a, i, j, now); } else { OneIsNewest(s, a, j, i, now); }
    if k != i && k != j {
      var top := if i < j then j else i;
      var low := if i < j then i else j;
      if k < low { OneIsNewest(s, a, k, low, now); } else { OneIsNewest(s, a, low, k, now); }
      assert false;
    }
  }

  // ---------------------------------------------------------------- rotating and disabling

  /** Right after a rotation its new credential authenticates, and the replaced one does for as long as its grace lasts. */
  lemma RotationTakesEffect(s: State, a: nat, grace: Option<int>, days: Option<int>, d: Defaults, now: int)
    requires RotationFault(s, a, Grace(grace, d), Days(days, d), now).None?
    ensures var t := After(s, Rotate(a, grace, days), d, now);
            var o := Latest(s.credentials, a, now).value;
            && Opens(t, a, |s.credentials|, now)
            && (forall later :: later >= now && later < now + DAY ==> Opens(t, a, |s.credentials|, later))
            && (forall later :: later >= now ==>
                  (Opens(t, a, o, later) <==> later < now + Grace(grace, d) * HOUR && later < s.credentials[o].expiresAt))
  {}

  /** The credential a rotation replaces is the latest issued of those that are neither revoked nor expired. */
  lemma ReplacesLatestIssued(s: State, a: nat, now: int, i: nat)
    requires Inv(s) && Latest(s.credentials, a, now).Some? && i < |s.credentials| && Replaceable(s.credentials[i], a, now)
    ensures s.credentials[i].issuedAt <= s.credentials[Latest(s.credentials, a, now).value].issuedAt
  {}

  /**
   Retirement is not final: when the credentials issued after a retired one have expired or been revoked, a rotation with
   a grace period replaces the retired one, and it authenticates again.
   */
  lemma RetiredAuthenticatesAgain(s: State, a: nat, grace: Option<int>, days: Option<int>, d: Defaults, now: int)
    requires RotationFault(s, a, Grace(grace, d), Days(days, d), now).None? && Grace(grace, d) >= 1
    requires s.credentials[Latest(s.credentials, a, now).value].retireAfter.Some?
    requires s.credentials[Latest(s.credentials, a, now).value].retireAfter.value <= now
    ensures var o := Latest(s.credentials, a, now).value;
            !Opens(s, a, o, now) && Opens(After(s, Rotate(a, grace, days), d, now), a, o, now)
  {
    RotationTakesEffect(s, a, grace, days, d, now);
  }

  /**
   Nothing else brings a credential back: one that does not authenticate just before an operation and does just after it is
   the latest replaceable credential of an account that is rotated with a grace period, and it had been retired.
   */
  lemma RevivedExactlyWhen(s: State, op: Operation, d: Defaults, now: int, k: nat)
    requires Inv(s) && k < |s.credentials|
    ensures !Authenticates(s, k, now) && Authenticates(After(s, op, d, now), k, now) <==>
      && op.Rotate? && op.account == s.credentials[k].account
      && RotationFault(s, op.account, Grace(op.grace, d), Days(op.days, d), now).None?
      && Latest(s.credentials, op.account, now) == Some(k) && Grace(op.grace, d) >= 1
      && s.credentials[k].retireAfter.Some? && s.credentials[k].retireAfter.value <= now
  {
    assert CredentialOk(s, k);
  }

  lemma GraceOver(rotations: seq<Rotation>, r: Rotation, a: nat, now: int)
    requires rotations == [r] && r.graceEndsAt <= now
    ensures !AnyInGrace(rotations, a, now)
  {
    assert rotations[..0] == [];
  }

  lemma TwoSteps(s: State, x: Timed, m: State, y: Timed, t: State, d: Defaults)
    requires Timely(s, x) && After(s, x.op, d, x.now) == m && Timely(m, y) && After(m, y.op, d, y.now) == t
    ensures Exec(s, [x, y], d) == Some(t)
  {
    assert [x, y][1..] == [y] && [y][1..] == [];
    assert Exec(m, [y], d) == Exec(t, [], d);
  }

  lemma FirstRotation(c: Credential, d: Defaults, now: int)
    requires Replaceable(c, 0, now)
    ensures var s := State(0, [Account(true, None)], [c], []);
            After(s, Rotate(0, Some(1), Some(1)), d, now)
            == State(now, [Account(true, None)], [Retiring(c, now + HOUR, 1), Issue(0, now, 1)], [Rotation(0, 0, 1, false, now + HOUR)])
  {
    assert Latest([c], 0, now) == Some(0);
  }

  lemma OldestIsLatest(c: Credential, e: Credential, now: int)
    requires Replaceable(c, 0, now) && !Replaceable(e, 0, now)
    ensures Latest([c, e], 0, now) == Some(0)
  {
    assert [c, e][..1] == [c];
  }

  /** Such a state is reachable: a year-long credential is rotated for one that lasts a day, and two days pass. */
  lemma RetiredCanBeLatest(d: Defaults) returns (ops: seq<Timed>, t: State)
    ensures Exec(State(0, [], [], []), ops, d) == Some(t)
    ensures Latest(t.credentials, 0, 2 * DAY) == Some(0) && t.credentials[0].retireAfter == Some(1 + HOUR)
    ensures RotationFault(t, 0, 1, 1, 2 * DAY).None?
  {
    var first := Issue(0, 0, 365);
    var s := State(0, [Account(true, None)], [first], []);
    var x, y := Timed(Create(Some(365)), 0), Timed(Rotate(0, Some(1), Some(1)), 1);
    FirstRotation(first, d, 1);
    t := After(s, y.op, d, 1);
    ops := [x, y];
    TwoSteps(State(0, [], [], []), x, s, y, t, d);
    OldestIsLatest(Retiring(first, 1 + HOUR, 1), Issue(0, 1, 1), 2 * DAY);
    GraceOver(t.rotations, Rotation(0, 0, 1, false, 1 + HOUR), 0, 2 * DAY);
  }

  /** Once an account is disabled none of its credentials ever authenticates again. */
  lemma {:induction false} DisabledForGood(s: State, ops: seq<Timed>, d: Defaults, t: State, a: nat)
    requires Inv(s) && a < |s.accounts| && !s.accounts[a].active && Exec(s, ops, d) == Some(t)
    ensures a < |t.accounts| && !t.accounts[a].active
    ensures forall k, now :: !Opens(t, a, k, now)
    decreases |ops|
  {
    if ops != [] {
      StepKeepsInv(s, ops[0], d);
      DisabledForGood(After(s, ops[0].op, d, ops[0].now), ops[1..], d, t, a);
    }
  }

  /** Disabling an account takes effect at once and for good: from that operation on, over every run, nothing opens it. */
  lemma DisableTakesEffect(s: State, a: nat, d: Defaults, now: int, ops: seq<Timed>, t: State)
    requires Inv(s) && a < |s.accounts| && now >= s.clock && Exec(After(s, Disable(a), d, now), ops, d) == Some(t)
    ensures forall k, later :: !Opens(After(s, Disable(a), d, now), a, k, later)
    ensures forall k, later :: !Opens(t, a, k, later)
  {
    StepKeepsInv(s, Timed(Disable(a), now), d);
    DisabledForGood(After(s, Disable(a), d, now), ops, d, t, a);
  }

  // ---------------------------------------------------------------- the report

  /** What the report counts: usable credentials of the account, whatever the account's status. */
  function CountUsable(credentials: seq<Credential>, a: nat, now: int, n: nat): nat
    requires n <= |credentials|
  {
    if n == 0 then 0
    else CountUsable(credentials, a, now, n - 1) + if credentials[n - 1].account == a && Usable(credentials[n - 1], now) then 1 else 0
  }

  function TotalUsable(credentials: seq<Credential>, now: int, n: nat): nat
    requires n <= |credentials|
  {
    if n == 0 then 0 else TotalUsable(credentials, now, n - 1) + if Usable(credentials[n - 1], now) then 1 else 0
  }

  /** In every reachable state the report counts exactly the credentials that authenticate. */
  lemma {:induction false} ReportCountsAuthenticating(s: State, a: nat, now: int, n: nat)
    requires Inv(s) && n <= |s.credentials|
    ensures CountUsable(s.credentials, a, now, n) == CountOpens(s, a, now, n)
  {
    if n > 0 {
      ReportCountsAuthenticating(s, a, now, n - 1);
      assert CredentialOk(s, n - 1);
    }
  }

  /** The credentials among the first n that authenticate. */
  ghost function Opening(s: State, now: int, n: nat): set<nat> { set k: nat | k < n && Authenticates(s, k, now) }

  lemma OneMoreOpening(s: State, now: int, n: nat)
    requires n > 0
    ensures Opening(s, now, n) == Opening(s, now, n - 1) + if Authenticates(s, n - 1, now) then {n - 1} else {}
  {}

  /** In every reachable state the report's total is the number of credentials that authenticate. */
  lemma {:induction false} TotalCountsAuthenticating(s: State, now: int, n: nat)
    requires Inv(s) && n <= |s.credentials|
    ensures TotalUsable(s.credentials, now, n) == |Opening(s, now, n)|
  {
    if n == 0 {
      assert Opening(s, now, 0) == {};
    } else {
      TotalCountsAuthenticating(s, now, n - 1);
      UsableOpens(s, now, n - 1);
      OneMoreOpening(s, now, n);
    }
  }

  /** In a reachable state a usable credential authenticates. */
  lemma UsableOpens(s: State, now: int, k: nat)
    requires Inv(s) && k < |s.credentials|
    ensures Usable(s.credentials[k], now) <==> Authenticates(s, k, now)
  {
    assert CredentialOk(s, k);
  }

  /** From empty tables, over every run of operations one after the other. */
  lemma EveryRun(clock: int, ops: seq<Timed>, d: Defaults, t: State, a: nat, now: int)
    requires Exec(State(clock, [], [], []), ops, d) == Some(t) && now >= t.clock
    ensures CountOpens(t, a, now, |t.credentials|) <= 2
    ensures CountUsable(t.credentials, a, now, |t.credentials|) == CountOpens(t, a, now, |t.credentials|)
  {
    RunKeepsInv(State(clock, [], [], []), ops, d, t);
    AtMostTwo(t, a, now);
    ReportCountsAuthenticating(t, a, now, |t.credentials|);
  }

  // ---------------------------------------------------------------- the tables as an object

  class AccountStore {
    var accounts: seq<Account>
    var credentials: seq<Credential>
    var rotations: seq<Rotation>

    ghost function Value(clock: int): State
      reads this
    {
      State(clock, accounts, credentials, rotations)
    }

    constructor ()
      ensures forall clock :: Value(clock) == State(clock, [], [], [])
    {
      accounts, credentials, rotations := [], [], [];
    }

    method RotateAccount(a: nat, grace: Option<int>, days: Option<int>, d: Defaults, now: int) returns (fault: Option<Fault>)
      modifies this
      ensures Value(now) == After(old(Value(now)), Rotate(a, grace, days), d, now)
      ensures fault == RotationFault(old(Value(now)), a, Grace(grace, d), Days(days, d), now)
    {
      if a >= |accounts| { return Some(NotFound); }
      if !accounts[a].active { return Some(NotActive); }
      if AnyInGrace(rotations, a, now) { return Some(RotationActive); }
      var current := Latest(credentials, a, now);
      if current.None? { return Some(NoCredential); }
      var hours, lifetime := Grace(grace, d), Days(days, d);
      if !(0 <= hours <= 168) { return Some(BadGrace); }
      if !(1 <= lifetime <= 365) { return Some(BadDays); }
      var k := current.value;
      var issued := Issue(a, now, lifetime);
      var ends := now + hours * HOUR;
      credentials := credentials[k := credentials[k].(retireAfter := Some(ends))];
      if hours == 0 { credentials := credentials[k := credentials[k].(revoked := true)]; }
      rotations := rotations + [Rotation(a, k, |credentials|, hours == 0, ends)];
      credentials := credentials + [issued];
      fault := None;
    }

    method CompleteRotation(r: nat, d: Defaults, now: int)
      requires r < |rotations|
      modifies this
      ensures Value(now) == After(old(Value(now)), Complete(r), d, now)
    {
      if rotations[r].done { return; }
      var k := rotations[r].before;
      if k < |credentials| {
        credentials := credentials[k := credentials[k].(revoked := true, retireAfter := Some(now))];
      }
      rotations := rotations[r := rotations[r].(done := true)];
    }

    method DisableAccount(a: nat, d: Defaults, now: int)
      requires a < |accounts|
      modifies this
      ensures Value(now) == After(old(Value(now)), Disable(a), d, now)
    {
      if !accounts[a].active { return; }
      accounts := accounts[a := accounts[a].(active := false)];
      ghost var before := credentials;
      for k := 0 to |credentials|
        invariant |credentials| == |before| && rotations == old(rotations)
        invariant accounts == old(accounts)[a := old(accounts)[a].(active := false)]
        invariant forall i :: 0 <= i < k ==> credentials[i] == RevokeAll(before, a, now)[i]
        invariant forall i :: k <= i < |before| ==> credentials[i] == before[i]
      {
        var c := credentials[k];
        if c.account == a && !c.revoked {
          credentials := credentials[k := c.(revoked := true, retireAfter := Some(now))];
        }
      }
      assert credentials == RevokeAll(before, a, now);
    }

    method AuthenticateKey(k: nat, secretMatches: bool, d: Defaults, now: int) returns (accepted: bool)
      modifies this
      ensures accepted == (secretMatches && Authenticates(old(Value(now)), k, now))
      ensures Value(now) == After(old(Value(now)), Authenticate(k, secretMatches), d, now)
    {
      accepted := false;
      if k >= |credentials| || credentials[k].revoked { return; }
      var c := credentials[k];
      if c.expiresAt <= now || (c.retireAfter.Some? && c.retireAfter.value <= now) { return; }
      if !secretMatches || c.account >= |accounts| || !accounts[c.account].active { return; }
      credentials := credentials[k := c.(lastUsedAt := Some(now))];
      accounts := accounts[c.account := accounts[c.account].(lastAuthenticatedAt := Some(now))];
      accepted := true;
    }

    /** The counts of lifecycle_report: per account, and in all. */
    method LifecycleReport(now: int) returns (perAccount: seq<nat>, total: nat)
      ensures |perAccount| == |accounts|
      ensures forall a :: 0 <= a < |accounts| ==> perAccount[a] == CountUsable(credentials, a, now, |credentials|)
      ensures total == TotalUsable(credentials, now, |credentials|)
    {
      perAccount, total := [], 0;
      for a := 0 to |accounts|
        invariant |perAccount| == a
        invariant forall i :: 0 <= i < a ==> perAccount[i] == CountUsable(credentials, i, now, |credentials|)
      {
        var count := 0;
        for k := 0 to |credentials|
          invariant count == CountUsable(credentials, a, now, k)
        {
          if credentials[k].account == a && Usable(credentials[k], now) { count := count + 1; }
        }
        perAccount := perAccount + [count];
      }
      for k := 0 to |credentials|
        invariant total == TotalUsable(credentials, now, k)
      {
        if Usable(credentials[k], now) { total := total + 1; }
      }
    }
  }
}
