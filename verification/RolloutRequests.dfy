/** Advances of rollouts side by side: what overlapping ones do to a row, and what holds while those of one rollout do not overlap. */
module RolloutRequests {
  import opened Options
  import L = PolicyLifecycle
  import opened PolicyRequests

  // ---------------------------------------------------------------- however requests overlap

  /** A change under way was accepted when it loaded its rollout, and no rollout changes its bundle. */
  ghost predicate ChangeOk(rollouts: seq<L.Rollout>, c: Change) {
    && c.rollout < |rollouts| && rollouts[c.rollout].bundle == c.seen.bundle
    && Advances(c.seen, c.stage, c.traffic)
  }

  ghost predicate Pending(s: State, h: nat, c: Change) { h in s.requests && ChangeOf(s.requests[h]) == Some(c) }

  ghost predicate Open(s: State) {
    && (forall i, j :: 0 <= i < j < |s.rollouts| ==> s.rollouts[i].done || s.rollouts[j].done)
    && L.OutboxOk(s.rollouts, s.outbox)
    && (forall h :: h in s.requests && ChangeOf(s.requests[h]).Some? ==> ChangeOk(s.rollouts, ChangeOf(s.requests[h]).value))
  }

  /** The loaded row as changed: its stage and traffic are those asked for, and it is done exactly in a final stage. */
  lemma MovedIs(c: Change, now: int)
    requires Advances(c.seen, c.stage, c.traffic)
    ensures var m := Moved(c, now);
      && m.bundle == c.seen.bundle && m.stage == c.stage && m.stage != c.seen.stage && m.done == L.FinalStage(c.stage)
      && (m.done ==> m.completedAt == Some(now)) && (!m.done ==> m.completedAt == c.seen.completedAt)
  {}

  /** An advance's event is fixed by its key, so it never conflicts, however advances overlap. */
  lemma NeverConflicts(rollouts: seq<L.Rollout>, outbox: map<L.Key, L.Event>, c: Change, now: int)
    requires L.OutboxOk(rollouts, outbox) && ChangeOk(rollouts, c)
    ensures Queued(outbox, c, now).Some? && L.OutboxOk(rollouts, Queued(outbox, c, now).value)
  {
    MovedIs(c, now);
    L.QueueKeeps(rollouts, outbox, L.Staged(c.rollout, c.stage, Moved(c, now).traffic), L.StageEvent(c.rollout, Moved(c, now)));
  }

  /** What a commit does to the rollouts: an advance writes its own row, and a completed row stays completed. */
  lemma CommitWrites(s: State, h: nat, now: int)
    requires Open(s) && Enabled(s, Commit(h, now))
    ensures var t := Apply(s, Commit(h, now));
      t.rollouts == match ChangeOf(s.requests[h]) case None => s.rollouts case Some(c) => RolloutsAfter(s.rollouts, c, now)
  {
    match ChangeOf(s.requests[h])
    case None =>
    case Some(c) => NeverConflicts(s.rollouts, s.outbox, c, now);
  }

  /** Rollouts are added, keep their bundles, and stay done. */
  ghost predicate Onward(before: seq<L.Rollout>, after: seq<L.Rollout>) {
    && |before| <= |after|
    && forall i :: 0 <= i < |before| ==> after[i].bundle == before[i].bundle && (before[i].done ==> after[i].done)
  }

  lemma AdvanceGoesOnward(rollouts: seq<L.Rollout>, c: Change, now: int)
    requires ChangeOk(rollouts, c)
    ensures Onward(rollouts, RolloutsAfter(rollouts, c, now))
  {
    MovedIs(c, now);
  }

  lemma OutboxStays(before: seq<L.Rollout>, after: seq<L.Rollout>, outbox: map<L.Key, L.Event>)
    requires L.OutboxOk(before, outbox) && Onward(before, after)
    ensures L.OutboxOk(after, outbox)
  {
    forall key | key in outbox ensures L.EventOk(after, key, outbox[key]) {
      assert L.EventOk(before, key, outbox[key]);
    }
  }

  lemma CommitKeepsOpen(s: State, h: nat, now: int)
    requires Open(s) && Enabled(s, Commit(h, now))
    ensures Open(Apply(s, Commit(h, now))) && Onward(s.rollouts, Apply(s, Commit(h, now)).rollouts)
  {
    var t := Apply(s, Commit(h, now));
    CommitWrites(s, h, now);
    match ChangeOf(s.requests[h])
    case None =>
    case Some(c) =>
      NeverConflicts(s.rollouts, s.outbox, c, now);
      AdvanceGoesOnward(s.rollouts, c, now);
      OutboxStays(s.rollouts, t.rollouts, t.outbox);
  }

  lemma CreateKeepsOpen(s: State, step: Step)
    requires Open(s) && Enabled(s, step) && step.Create?
    ensures Open(Apply(s, step)) && Onward(s.rollouts, Apply(s, step).rollouts)
  {
    var t := Apply(s, step);
    forall key | key in s.outbox ensures key != L.Created(|s.rollouts|) {
      assert L.EventOk(s.rollouts, key, s.outbox[key]);
    }
    forall key | key in t.outbox ensures L.EventOk(t.rollouts, key, t.outbox[key]) {
      if key in s.outbox { assert L.EventOk(s.rollouts, key, s.outbox[key]); }
    }
  }

  lemma StepKeepsOpen(s: State, step: Step)
    requires Open(s) && Enabled(s, step)
    ensures Open(Apply(s, step)) && Onward(s.rollouts, Apply(s, step).rollouts)
  {
    match step
    case Commit(h, now) => CommitKeepsOpen(s, h, now);
    case Create(_, _, _) => CreateKeepsOpen(s, step);
    case _ =>
  }

  /** Over every run, however requests overlap: at most one rollout is not done, a done one stays done, and stage keys never conflict. */
  lemma {:induction false} RunKeepsOpen(s: State, steps: seq<Step>, rule: Rule, t: State)
    requires Open(s) && Exec(s, steps, rule) == Some(t)
    ensures Open(t) && Onward(s.rollouts, t.rollouts)
    decreases |steps|
  {
    if steps != [] {
      StepKeepsOpen(s, steps[0]);
      RunKeepsOpen(Apply(s, steps[0]), steps[1..], rule, t);
    }
  }

  lemma OneOpenRollout(steps: seq<Step>, t: State, i: nat, j: nat)
    requires Exec(Empty(), steps, Free) == Some(t) && i < j < |t.rollouts|
    ensures t.rollouts[i].done || t.rollouts[j].done
  {
    RunKeepsOpen(Empty(), steps, Free, t);
  }

  // ---------------------------------------------------------------- which stages lead where

  /** An advance goes on exactly from a rollout loaded active, in a stage that leads to the one asked for, with a traffic for a canary. */
  lemma FetchExactlyWhen(s: State, h: nat, k: nat, stage: L.Stage, traffic: Option<int>)
    ensures Enabled(s, Fetch(h, k, stage, traffic)) <==>
      && h !in s.requests && k < |s.rollouts| && !s.rollouts[k].done && L.LeadsTo(s.rollouts[k].stage, stage)
      && (stage == L.Canary ==> traffic.Some? && 1 <= traffic.value <= 99)
  {}

  /** However requests overlap, a committed advance enters its stage from one that leads there: enforcement from a canary as it was loaded. */
  lemma CommitEnters(s: State, h: nat, now: int, c: Change)
    requires Open(s) && Enabled(s, Commit(h, now)) && Pending(s, h, c)
    ensures !c.seen.done && L.LeadsTo(c.seen.stage, c.stage) && (c.stage == L.Enforce ==> c.seen.stage == L.Canary)
    ensures L.Entered(c.seen, Moved(c, now), c.stage, c.traffic, now)
    ensures c.rollout < |s.rollouts| && Apply(s, Commit(h, now)).rollouts[c.rollout].stage == c.stage
  {
    CommitWrites(s, h, now);
    WrittenIs(s.rollouts[c.rollout], c, now);
  }

  // ---------------------------------------------------------------- what an overlapping advance breaks

  /** The row gets its stage from the request, but traffic and status only when the request changes what it loaded. */
  lemma WrittenIs(r: L.Rollout, c: Change, now: int)
    requires Advances(c.seen, c.stage, c.traffic)
    ensures var w := PutRollout(r, c.seen, Moved(c, now));
      && w.bundle == r.bundle && w.stage == c.stage && w.done == (r.done || L.FinalStage(c.stage))
      && w.traffic == (if Moved(c, now).traffic == c.seen.traffic then r.traffic else Moved(c, now).traffic)
      && (!L.FinalStage(c.stage) ==> w.completedAt == r.completedAt)
      && (L.FinalStage(c.stage) && c.seen.completedAt != Some(now) ==> w.completedAt == Some(now))
  {
    MovedIs(c, now);
  }

  /** The traffic a stage allows. */
  predicate Carries(stage: L.Stage, traffic: int) {
    match stage
    case Canary => 1 <= traffic <= 99
    case Enforce => traffic == 100
    case _ => traffic == 0
  }

  /**
   After an advance the stage fixes traffic and status exactly when it is a final one or the row was not done, and the
   traffic it needs was written or is what the row holds.
   */
  lemma StageKeptExactlyWhen(r: L.Rollout, c: Change, now: int)
    requires Advances(c.seen, c.stage, c.traffic)
    ensures L.StageOk(PutRollout(r, c.seen, Moved(c, now))) <==>
      && (L.FinalStage(c.stage) || !r.done)
      && (Moved(c, now).traffic != c.seen.traffic || Carries(c.stage, r.traffic))
  {
    WrittenIs(r, c, now);
  }

  /**
   A commit changes a rollout that is done exactly when it is the commit of an advance of it, which loaded it active, unless
   it writes the very completion the row holds.
   */
  lemma DoneChangesExactlyWhen(s: State, h: nat, now: int, k: nat)
    requires Open(s) && Enabled(s, Commit(h, now)) && k < |s.rollouts| && s.rollouts[k].done && L.StageOk(s.rollouts[k])
    ensures var t := Apply(s, Commit(h, now));
      |t.rollouts| == |s.rollouts| &&
      (t.rollouts[k] != s.rollouts[k] <==>
        exists c: Change :: Pending(s, h, c) && c.rollout == k && !c.seen.done && !SameCompletion(s.rollouts[k], c, now))
  {
    CommitWrites(s, h, now);
    match ChangeOf(s.requests[h])
    case None =>
    case Some(c) =>
      assert Pending(s, h, c);
      if c.rollout == k { CompletionDecides(s.rollouts[k], c, now); }
  }

  /** The advance asks for the final stage the row is in, and its completion instant is the row's. */
  predicate SameCompletion(r: L.Rollout, c: Change, now: int) {
    c.stage == r.stage && Put(r.completedAt, c.seen.completedAt, Some(now)) == r.completedAt
  }

  lemma CompletionDecides(r: L.Rollout, c: Change, now: int)
    requires Advances(c.seen, c.stage, c.traffic) && r.done && L.StageOk(r) && r.bundle == c.seen.bundle
    ensures PutRollout(r, c.seen, Moved(c, now)) == r <==> SameCompletion(r, c, now)
  {
    WrittenIs(r, c, now);
    MovedIs(c, now);
  }

  // ---------------------------------------------------------------- advances of one rollout apart

  /** The stage fixes traffic and status, and a change under way is the only one of its rollout and finds the row as it loaded it. */
  ghost predicate Inv(s: State) {
    && Open(s)
    && (forall i :: 0 <= i < |s.rollouts| ==> L.StageOk(s.rollouts[i]))
    && (forall h :: h in s.requests && ChangeOf(s.requests[h]).Some? ==>
          s.rollouts[ChangeOf(s.requests[h]).value.rollout] == ChangeOf(s.requests[h]).value.seen)
    && (forall g, h :: g in s.requests && h in s.requests && SameRollout(s.requests[g], s.requests[h]) ==> g == h)
  }

  predicate SameRollout(p: Phase, q: Phase) {
    ChangeOf(p).Some? && ChangeOf(q).Some? && ChangeOf(p).value.rollout == ChangeOf(q).value.rollout
  }

  lemma PutOverSeen(c: Change, now: int)
    requires Advances(c.seen, c.stage, c.traffic) && L.StageOk(c.seen)
    ensures PutRollout(c.seen, c.seen, Moved(c, now)) == Moved(c, now) && L.StageOk(Moved(c, now))
  {
    L.MovedOk(c.seen, c.stage, c.traffic, now);
  }

  lemma CommitKeepsInv(s: State, h: nat, now: int)
    requires Inv(s) && Enabled(s, Commit(h, now))
    ensures Inv(Apply(s, Commit(h, now)))
    ensures forall k :: 0 <= k < |s.rollouts| && s.rollouts[k].done ==> Apply(s, Commit(h, now)).rollouts[k] == s.rollouts[k]
  {
    var t := Apply(s, Commit(h, now));
    CommitKeepsOpen(s, h, now);
    CommitWrites(s, h, now);
    match ChangeOf(s.requests[h])
    case None =>
    case Some(c) =>
      PutOverSeen(c, now);
      forall g | g in t.requests && ChangeOf(t.requests[g]).Some? ensures ChangeOf(t.requests[g]).value.rollout != c.rollout {
        assert !SameRollout(s.requests[g], s.requests[h]);
      }
  }

  lemma StepKeepsInv(s: State, step: Step)
    requires Inv(s) && Enabled(s, step) && !AdvancesOverlap(s, step)
    ensures Inv(Apply(s, step))
    ensures forall k :: 0 <= k < |s.rollouts| && s.rollouts[k].done ==> Apply(s, step).rollouts[k] == s.rollouts[k]
  {
    match step
    case Commit(h, now) => CommitKeepsInv(s, h, now);
    case Create(_, _, _) => CreateKeepsInv(s, step);
    case Fetch(_, _, _, _) => FetchKeepsInv(s, step);
    case _ => ChangesKept(s, Apply(s, step));
  }

  lemma CreateKeepsInv(s: State, step: Step)
    requires Inv(s) && Enabled(s, step) && step.Create?
    ensures Inv(Apply(s, step))
    ensures forall k :: 0 <= k < |s.rollouts| && s.rollouts[k].done ==> Apply(s, step).rollouts[k] == s.rollouts[k]
  {
    CreateKeepsOpen(s, step);
    var t := Apply(s, step);
    assert t.requests == s.requests && s.rollouts <= t.rollouts;
  }

  /** Steps that touch neither rollouts nor events, and begin no change. */
  lemma ChangesKept(s: State, t: State)
    requires Inv(s) && t.rollouts == s.rollouts && t.outbox == s.outbox
    requires forall h :: h in t.requests && ChangeOf(t.requests[h]).Some? ==> h in s.requests && ChangeOf(s.requests[h]) == ChangeOf(t.requests[h])
    ensures Inv(t)
  {
    forall g, h | g in t.requests && h in t.requests && SameRollout(t.requests[g], t.requests[h]) ensures g == h {
      assert SameRollout(s.requests[g], s.requests[h]);
    }
  }

  lemma FetchKeepsInv(s: State, step: Step)
    requires Inv(s) && Enabled(s, step) && step.Fetch? && !AdvancesOverlap(s, step)
    ensures Inv(Apply(s, step))
  {}

  /** While no two advances of one rollout overlap, the stage fixes traffic and status, and a completed rollout never moves. */
  lemma {:induction false} RunKeepsInv(s: State, steps: seq<Step>, t: State)
    requires Inv(s) && Exec(s, steps, AdvancesApart) == Some(t)
    ensures Inv(t) && |s.rollouts| <= |t.rollouts|
    ensures forall k :: 0 <= k < |s.rollouts| && s.rollouts[k].done ==> t.rollouts[k] == s.rollouts[k]
    decreases |steps|
  {
    if steps != [] {
      StepKeepsInv(s, steps[0]);
      StepKeepsOpen(s, steps[0]);
      RunKeepsInv(Apply(s, steps[0]), steps[1..], t);
    }
  }

  /** From empty tables: in every run in which no two advances of one rollout overlap, and on from any state it reaches. */
  lemma CompletedStaysApart(steps: seq<Step>, s: State, more: seq<Step>, t: State, k: nat)
    requires Exec(Empty(), steps, AdvancesApart) == Some(s) && Exec(s, more, AdvancesApart) == Some(t) && k < |s.rollouts|
    ensures L.StageOk(s.rollouts[k]) && k < |t.rollouts| && t.rollouts[k].bundle == s.rollouts[k].bundle
    ensures s.rollouts[k].done ==> t.rollouts[k] == s.rollouts[k]
  {
    RunKeepsInv(Empty(), steps, s);
    RunKeepsInv(s, more, t);
    RunKeepsOpen(s, more, AdvancesApart, t);
  }

  // ---------------------------------------------------------------- two advances together

  /** A request that loaded the active canary to complete it commits. */
  lemma CompletesIt(s: State, steps: seq<Step>, m: State, k: nat, seen: L.Rollout, h: nat, now: int) returns (t: State)
    requires Exec(s, steps, Free) == Some(m) && Open(m) && k < |m.rollouts| && m.rollouts[k] == seen && seen.stage.Canary? && !seen.done
    requires h in m.requests && m.requests[h] == Moving(Change(k, seen, L.Completed, None))
    ensures Exec(s, steps + [Commit(h, now)], Free) == Some(t) && Open(t)
    ensures |t.rollouts| == |m.rollouts| && t.rollouts[k].stage.Completed? && t.rollouts[k].done && t.rollouts[k].bundle == seen.bundle
    ensures t.bundles == m.bundles && t.requests == m.requests - {h}
  {
    t := Apply(m, Commit(h, now));
    CommitKeepsOpen(m, h, now);
    CommitWrites(m, h, now);
    WrittenIs(seen, Change(k, seen, L.Completed, None), now);
    OneMore(s, steps, m, Commit(h, now));
  }

  /** Two advances load the same active canary. */
  lemma BothFetch(s: State, steps: seq<Step>, m: State, k: nat, stage: L.Stage, g: nat, h: nat) returns (steps': seq<Step>, t: State)
    requires Exec(s, steps, Free) == Some(m) && k < |m.rollouts| && m.rollouts[k].stage.Canary? && !m.rollouts[k].done
    requires g != h && g !in m.requests && h !in m.requests && (stage.Paused? || stage.Enforce?)
    ensures Exec(s, steps', Free) == Some(t)
    ensures t == m.(requests := m.requests[g := Moving(Change(k, m.rollouts[k], stage, None))][h := Moving(Change(k, m.rollouts[k], L.Completed, None))])
  {
    OneMore(s, steps, m, Fetch(g, k, stage, None));
    var n := Apply(m, Fetch(g, k, stage, None));
    OneMore(s, steps + [Fetch(g, k, stage, None)], n, Fetch(h, k, L.Completed, None));
    steps' := steps + [Fetch(g, k, stage, None)] + [Fetch(h, k, L.Completed, None)];
    t := Apply(n, Fetch(h, k, L.Completed, None));
  }

  /** Wherever a canary is active, pausing and completing it side by side leaves a rollout that is paused and completed. */
  lemma PausedAndCompleted(s: State, k: nat, now: int, g: nat, h: nat) returns (steps: seq<Step>, m: State, t: State)
    requires Open(s) && k < |s.rollouts| && s.rollouts[k].stage.Canary? && !s.rollouts[k].done
    requires g != h && g !in s.requests && h !in s.requests
    ensures Exec(s, steps, Free) == Some(m) && Exec(s, steps + [Commit(g, now)], Free) == Some(t)
    ensures k < |m.rollouts| && m.rollouts[k].stage.Completed? && m.rollouts[k].done
    ensures k < |t.rollouts| && t.rollouts[k].stage.Paused? && t.rollouts[k].done && !L.StageOk(t.rollouts[k])
  {
    var seen := s.rollouts[k];
    steps, m := BothFetch(s, [], s, k, L.Paused, g, h);
    m := CompletesIt(s, steps, m, k, seen, h, now);
    steps := steps + [Commit(h, now)];
    CommitWrites(m, g, now);
    WrittenIs(m.rollouts[k], Change(k, seen, L.Paused, None), now);
    OneMore(s, steps, m, Commit(g, now));
    t := Apply(m, Commit(g, now));
  }

  /** An advance to enforce finds its candidate approved and looks up the active bundle. */
  lemma ChecksAndLooks(s: State, steps: seq<Step>, m: State, g: nat) returns (steps': seq<Step>, t: State)
    requires Exec(s, steps, Free) == Some(m) && Enabled(m, Check(g))
    ensures var c := m.requests[g].change; var own := Found(c.seen.bundle, m.bundles[c.seen.bundle]);
      t == m.(requests := m.requests[g := Looked(own, FoundActive(m.bundles), Some(c))])
    ensures Exec(s, steps', Free) == Some(t)
  {
    OneMore(s, steps, m, Check(g));
    var n := Apply(m, Check(g));
    OneMore(s, steps + [Check(g)], n, Look(g));
    steps' := steps + [Check(g)] + [Look(g)];
    t := Apply(n, Look(g));
  }

  /** With its bundle approved, enforcing and completing it side by side enforces a completed rollout and activates its bundle. */
  lemma CompletedThenEnforced(s: State, k: nat, now: int, g: nat, h: nat) returns (steps: seq<Step>, m: State, t: State)
    requires Open(s) && k < |s.rollouts| && s.rollouts[k].stage.Canary? && !s.rollouts[k].done
    requires s.rollouts[k].bundle < |s.bundles| && s.bundles[s.rollouts[k].bundle].status.Approved?
    requires g != h && g !in s.requests && h !in s.requests
    ensures Exec(s, steps, Free) == Some(m) && Exec(s, steps + [Commit(g, now)], Free) == Some(t)
    ensures k < |m.rollouts| && m.rollouts[k].stage.Completed? && m.rollouts[k].done && m.bundles == s.bundles
    ensures k < |t.rollouts| && t.rollouts[k].stage.Enforce? && |t.bundles| == |s.bundles| && t.bundles[s.rollouts[k].bundle].status.Active?
  {
    var seen := s.rollouts[k];
    steps, m := BothFetch(s, [], s, k, L.Enforce, g, h);
    steps, m := ChecksAndLooks(s, steps, m, g);
    m := CompletesIt(s, steps, m, k, seen, h, now);
    steps := steps + [Commit(h, now)];
    t := Apply(m, Commit(g, now));
    EnforceCommits(m, g, Change(k, seen, L.Enforce, None), now);
    OneMore(s, steps, m, Commit(g, now));
  }

  lemma EnforceCommits(m: State, g: nat, c: Change, now: int)
    requires Open(m) && g in m.requests && m.requests[g].Looked? && m.requests[g].moving == Some(c) && c.stage.Enforce?
    requires m.requests[g].own.k == c.seen.bundle < |m.bundles| && m.requests[g].own.seen.status.Approved?
    ensures var t := Apply(m, Commit(g, now));
      && c.rollout < |t.rollouts| && t.rollouts[c.rollout].stage.Enforce?
      && |t.bundles| == |m.bundles| && t.bundles[c.seen.bundle].status.Active?
  {
    CommitWrites(m, g, now);
    NeverConflicts(m.rollouts, m.outbox, c, now);
    WrittenIs(m.rollouts[c.rollout], c, now);
  }
}
