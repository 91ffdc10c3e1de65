/**
 Requests on the policy bundles and rollouts of one tenant side by side. A request loads its row and checks it; one that
 activates a bundle then looks up the active one; its writes are committed later, and only to the columns whose loaded
 values they change. Nothing locks the rows in between, except that rollouts are created one at a time.
 */
module PolicyRequests {
  import opened Options
  import L = PolicyLifecycle

  datatype Operation =
    | Submit(k: nat)
    | Approve(k: nat, subject: string, delegated: bool)
    | Activate(k: nat)
    | Rollback(k: nat)

  /** An advance of a rollout: the row as it was loaded, and what is asked for. */
  datatype Change = Change(rollout: nat, seen: L.Rollout, stage: L.Stage, traffic: Option<int>)

  /** A bundle as it was loaded. */
  datatype Found = Found(k: nat, seen: L.Bundle)

  /**
   A request whose bundle passed its checks; an advance whose rollout did, and one to enforce whose candidate did too; and
   an activating request that has looked up the active bundle.
   */
  datatype Phase =
    | Loaded(op: Operation, seen: L.Bundle)
    | Moving(change: Change)
    | Enforcing(change: Change, seen: L.Bundle)
    | Looked(own: Found, active: Option<Found>, moving: Option<Change>)

  datatype State = State(bundles: seq<L.Bundle>, rollouts: seq<L.Rollout>, outbox: map<L.Key, L.Event>, requests: map<nat, Phase>)

  datatype Step =
    | Propose(author: string)
    | Create(bundle: nat, stage: L.Stage, share: int)
    | Load(h: nat, op: Operation)
    | Fetch(h: nat, rollout: nat, stage: L.Stage, traffic: Option<int>)
    | Check(h: nat)
    | Look(h: nat)
    | Commit(h: nat, now: int)
    | Crash(h: nat)

  predicate Activates(op: Operation) { op.Activate? || op.Rollback? }

  /** The checks on the bundle as it was loaded. */
  predicate Accepts(b: L.Bundle, op: Operation) {
    match op
    case Submit(_) => b.status.Draft?
    case Approve(_, subject, delegated) => b.status.Pending? && delegated && (b.createdBy != subject || subject == "development")
    case Activate(_) => b.status.Approved?
    case Rollback(_) => b.status.Approved? || b.status.Retired?
  }

  /** The checks on the rollout as it was loaded. */
  predicate Advances(r: L.Rollout, stage: L.Stage, traffic: Option<int>) {
    !r.done && L.Follows(r.stage, stage) && (stage.Canary? ==> L.Canaries(traffic))
  }

  function Tables(s: State): L.State { L.State(s.bundles, s.rollouts, s.outbox) }

  predicate Enabled(s: State, step: Step) {
    match step
    case Propose(_) => true
    case Create(bundle, stage, share) => (stage.Shadow? || stage.Canary?) && L.Begin(Tables(s), bundle, stage, share).Done?
    case Load(h, op) => h !in s.requests && op.k < |s.bundles| && Accepts(s.bundles[op.k], op)
    case Fetch(h, k, stage, traffic) => h !in s.requests && k < |s.rollouts| && Advances(s.rollouts[k], stage, traffic)
    case Check(h) =>
      && h in s.requests && s.requests[h].Moving? && s.requests[h].change.stage.Enforce?
      && s.requests[h].change.seen.bundle < |s.bundles| && s.bundles[s.requests[h].change.seen.bundle].status.Approved?
    case Look(h) => h in s.requests && ((s.requests[h].Loaded? && Activates(s.requests[h].op)) || s.requests[h].Enforcing?)
    case Commit(h, _) =>
      && h in s.requests && !s.requests[h].Enforcing?
      && (s.requests[h].Loaded? ==> !Activates(s.requests[h].op))
      && (s.requests[h].Moving? ==> !s.requests[h].change.stage.Enforce?)
    case Crash(h) => h in s.requests
  }

  // ---------------------------------------------------------------- what a commit writes

  /** A column is written when its new value differs from the loaded one. */
  function Put<T(==)>(row: T, seen: T, new': T): T { if new' == seen then row else new' }

  function PutBundle(row: L.Bundle, seen: L.Bundle, new': L.Bundle): L.Bundle {
    L.Bundle(row.createdBy, Put(row.status, seen.status, new'.status), Put(row.approvedBy, seen.approvedBy, new'.approvedBy),
             Put(row.activatedAt, seen.activatedAt, new'.activatedAt), Put(row.retiredAt, seen.retiredAt, new'.retiredAt))
  }

  function PutRollout(row: L.Rollout, seen: L.Rollout, new': L.Rollout): L.Rollout {
    L.Rollout(row.bundle, row.baseline, Put(row.stage, seen.stage, new'.stage), Put(row.traffic, seen.traffic, new'.traffic),
              Put(row.done, seen.done, new'.done), Put(row.completedAt, seen.completedAt, new'.completedAt))
  }

  function WriteBundle(bundles: seq<L.Bundle>, k: nat, seen: L.Bundle, new': L.Bundle): (r: seq<L.Bundle>)
    ensures |r| == |bundles|
  {
    if k < |bundles| then bundles[k := PutBundle(bundles[k], seen, new')] else bundles
  }

  /** The bundle that was active when it was looked up retires, whatever it is by now; the request's own becomes active. */
  function Switched(bundles: seq<L.Bundle>, own: Found, active: Option<Found>, now: int): (r: seq<L.Bundle>)
    ensures |r| == |bundles|
  {
    var retired :=
      if active.Some? && active.value.k != own.k then WriteBundle(bundles, active.value.k, active.value.seen, L.Retire(active.value.seen, now))
      else bundles;
    WriteBundle(retired, own.k, own.seen, L.MadeActive(own.seen, now))
  }

  function BundlesAfter(bundles: seq<L.Bundle>, p: Phase, now: int): (r: seq<L.Bundle>)
    ensures |r| == |bundles|
  {
    match p
    case Loaded(Submit(k), seen) => WriteBundle(bundles, k, seen, seen.(status := L.Pending))
    case Loaded(Approve(k, subject, _), seen) => WriteBundle(bundles, k, seen, seen.(status := L.Approved, approvedBy := Some(subject)))
    case Looked(own, active, _) => Switched(bundles, own, active, now)
    case _ => bundles
  }

  /** The loaded rollout as the request changes it. */
  function Moved(c: Change, now: int): L.Rollout { if Advances(c.seen, c.stage, c.traffic) then L.Moved(c.seen, c.stage, c.traffic, now) else c.seen }

  function RolloutsAfter(rollouts: seq<L.Rollout>, c: Change, now: int): (r: seq<L.Rollout>)
    ensures |r| == |rollouts|
  {
    if c.rollout < |rollouts| then rollouts[c.rollout := PutRollout(rollouts[c.rollout], c.seen, Moved(c, now))] else rollouts
  }

  /** The event of an advance is made from the loaded row as changed. */
  function Queued(outbox: map<L.Key, L.Event>, c: Change, now: int): Option<map<L.Key, L.Event>> {
    L.Queue(outbox, L.Staged(c.rollout, c.stage, Moved(c, now).traffic), L.StageEvent(c.rollout, Moved(c, now)))
  }

  function ChangeOf(p: Phase): Option<Change> {
    match p
    case Loaded(_, _) => None
    case Moving(c) => Some(c)
    case Enforcing(c, _) => Some(c)
    case Looked(_, _, moving) => moving
  }

  /** Everything a request writes is committed together; a conflicting event refuses it. */
  function Committed(s: State, h: nat, now: int): State
    requires h in s.requests
  {
    var p := s.requests[h];
    var left := s.requests - {h};
    match ChangeOf(p)
    case None => s.(bundles := BundlesAfter(s.bundles, p, now), requests := left)
    case Some(c) =>
      match Queued(s.outbox, c, now)
      case None => s.(requests := left)
      case Some(outbox) => State(BundlesAfter(s.bundles, p, now), RolloutsAfter(s.rollouts, c, now), outbox, left)
  }

  function FoundActive(bundles: seq<L.Bundle>): Option<Found> {
    var a := L.FirstActive(bundles);
    if a.Some? then Some(Found(a.value, bundles[a.value])) else None
  }

  function Apply(s: State, step: Step): State
    requires Enabled(s, step)
  {
    match step
    case Propose(author) => s.(bundles := s.bundles + [L.Bundle(author, L.Draft, None, None, None)])
    case Create(bundle, stage, share) =>
      var made := L.Begin(Tables(s), bundle, stage, share).state;
      s.(rollouts := made.rollouts, outbox := made.outbox)
    case Load(h, op) => s.(requests := s.requests[h := Loaded(op, s.bundles[op.k])])
    case Fetch(h, k, stage, traffic) => s.(requests := s.requests[h := Moving(Change(k, s.rollouts[k], stage, traffic))])
    case Check(h) =>
      var c := s.requests[h].change;
      s.(requests := s.requests[h := Enforcing(c, s.bundles[c.seen.bundle])])
    case Look(h) =>
      var p := s.requests[h];
      var own := if p.Loaded? then Found(p.op.k, p.seen) else Found(p.change.seen.bundle, p.seen);
      s.(requests := s.requests[h := Looked(own, FoundActive(s.bundles), ChangeOf(p))])
    case Commit(h, now) => Committed(s, h, now)
    case Crash(h) => s.(requests := s.requests - {h})
  }

  // ---------------------------------------------------------------- requests that nothing comes between

  /** The request as one operation. */
  function Undivided(op: Operation, now: int): L.Operation {
    match op
    case Submit(k) => L.Submit(k)
    case Approve(k, subject, delegated) => L.Approve(k, subject, delegated)
    case Activate(k) => L.Activate(k, now)
    case Rollback(k) => L.Rollback(k, now)
  }

  /** A request goes on after loading its bundle exactly when the operation is accepted. */
  lemma LoadExactlyWhen(s: State, h: nat, op: Operation, now: int)
    ensures Enabled(s, Load(h, op)) <==> h !in s.requests && L.Do(Tables(s), Undivided(op, now)).Done?
  {}

  /** A bundle is proposed in one step. */
  lemma ProposeIsAtomic(s: State, author: string)
    ensures Enabled(s, Propose(author)) && Tables(Apply(s, Propose(author))) == L.After(Tables(s), L.Propose(author)) && Apply(s, Propose(author)).requests == s.requests
  {}

  /** A rollout is created in one step, exactly when the operation is accepted. */
  lemma CreateExactlyWhen(s: State, bundle: nat, stage: L.Stage, share: int)
    ensures Enabled(s, Create(bundle, stage, share)) <==> L.Do(Tables(s), L.Create(bundle, stage, share)).Done?
    ensures Enabled(s, Create(bundle, stage, share)) ==>
      var t := Apply(s, Create(bundle, stage, share)); Tables(t) == L.After(Tables(s), L.Create(bundle, stage, share)) && t.requests == s.requests
  {}

  /** An approval or submission that nothing comes between does what the operation does. */
  lemma WriteAlone(s: State, h: nat, op: Operation, now: int)
    requires Enabled(s, Load(h, op)) && !Activates(op)
    ensures Enabled(Apply(s, Load(h, op)), Commit(h, now))
    ensures Tables(Apply(Apply(s, Load(h, op)), Commit(h, now))) == L.After(Tables(s), Undivided(op, now))
  {}

  lemma SwitchAlone(bundles: seq<L.Bundle>, k: nat, now: int)
    requires k < |bundles|
    ensures Switched(bundles, Found(k, bundles[k]), FoundActive(bundles), now) == L.Activated(bundles, k, now)
  {}

  /** An activation or rollback that nothing comes between does what the operation does. */
  lemma ActivationAlone(s: State, h: nat, op: Operation, now: int)
    requires Enabled(s, Load(h, op)) && Activates(op)
    ensures var t := Apply(s, Load(h, op));
      && Enabled(t, Look(h)) && Enabled(Apply(t, Look(h)), Commit(h, now))
      && Tables(Apply(Apply(t, Look(h)), Commit(h, now))) == L.After(Tables(s), Undivided(op, now))
  {
    SwitchAlone(s.bundles, op.k, now);
  }

  /** So does an advance to any stage but enforcement. */
  lemma AdvanceAlone(s: State, h: nat, k: nat, stage: L.Stage, traffic: Option<int>, now: int)
    requires Enabled(s, Fetch(h, k, stage, traffic)) && !stage.Enforce?
    ensures var t := Apply(s, Fetch(h, k, stage, traffic));
      && Enabled(t, Commit(h, now))
      && Tables(Apply(t, Commit(h, now))) == L.After(Tables(s), L.Advance(k, stage, traffic, now))
  {}

  /** The commit of an advance to enforcement that found its bundle approved. */
  lemma EnforcementCommits(s: State, h: nat, k: nat, traffic: Option<int>, now: int)
    requires Enabled(s, Fetch(h, k, L.Enforce, traffic))
    requires s.rollouts[k].bundle < |s.bundles| && s.bundles[s.rollouts[k].bundle].status.Approved?
    ensures var c, own := Change(k, s.rollouts[k], L.Enforce, traffic), Found(s.rollouts[k].bundle, s.bundles[s.rollouts[k].bundle]);
      Tables(Committed(s.(requests := s.requests[h := Looked(own, FoundActive(s.bundles), Some(c))]), h, now))
      == L.After(Tables(s), L.Advance(k, L.Enforce, traffic, now))
  {
    SwitchAlone(s.bundles, s.rollouts[k].bundle, now);
  }

  /** And an advance to enforcement, which goes on after its check exactly when the bundle is approved. */
  lemma EnforcementAlone(s: State, h: nat, k: nat, traffic: Option<int>, now: int)
    requires Enabled(s, Fetch(h, k, L.Enforce, traffic))
    ensures var t := Apply(s, Fetch(h, k, L.Enforce, traffic)); var bundle := s.rollouts[k].bundle;
      && (Enabled(t, Check(h)) <==> bundle < |s.bundles| && s.bundles[bundle].status == L.Approved)
      && (Enabled(t, Check(h)) ==>
            && Enabled(Apply(t, Check(h)), Look(h)) && Enabled(Apply(Apply(t, Check(h)), Look(h)), Commit(h, now))
            && Tables(Apply(Apply(Apply(t, Check(h)), Look(h)), Commit(h, now))) == L.After(Tables(s), L.Advance(k, L.Enforce, traffic, now)))
  {
    var t := Apply(s, Fetch(h, k, L.Enforce, traffic));
    if Enabled(t, Check(h)) {
      EnforcementCommits(s, h, k, traffic, now);
      var c, own := Change(k, s.rollouts[k], L.Enforce, traffic), Found(s.rollouts[k].bundle, s.bundles[s.rollouts[k].bundle]);
      var u := Apply(Apply(t, Check(h)), Look(h));
      assert u == s.(requests := s.requests[h := Looked(own, FoundActive(s.bundles), Some(c))]);
    }
  }

  // ---------------------------------------------------------------- requests side by side

  /** The step looks up the active bundle while another request has done so and not committed yet. */
  ghost predicate ActivationsOverlap(s: State, step: Step) { step.Look? && exists h :: h in s.requests && s.requests[h].Looked? }

  ghost predicate ChangeUnderWay(s: State, k: nat) {
    exists h :: h in s.requests && ChangeOf(s.requests[h]).Some? && ChangeOf(s.requests[h]).value.rollout == k
  }

  /** The step loads a rollout to advance it while another advance of it is under way. */
  ghost predicate AdvancesOverlap(s: State, step: Step) { step.Fetch? && ChangeUnderWay(s, step.rollout) }

  /** Which overlaps a run does without. */
  datatype Rule = Free | ActivationsApart | AdvancesApart

  ghost predicate Allowed(s: State, step: Step, rule: Rule) {
    match rule
    case Free => true
    case ActivationsApart => !ActivationsOverlap(s, step)
    case AdvancesApart => !AdvancesOverlap(s, step)
  }

  ghost function Exec(s: State, steps: seq<Step>, rule: Rule): Option<State>
    decreases |steps|
  {
    if steps == [] then Some(s)
    else if Enabled(s, steps[0]) && Allowed(s, steps[0], rule) then Exec(Apply(s, steps[0]), steps[1..], rule)
    else None
  }

  function Empty(): State { State([], [], map[], map[]) }

  // ---------------------------------------------------------------- approvals, however requests overlap

  /** Whoever approved was another identity, or it was in development; and nothing got further without an approval. */
  predicate ApprovalOk(b: L.Bundle) {
    && (b.approvedBy.Some? ==> L.Separated(b))
    && (b.status.Approved? || b.status.Active? || b.status.Retired? || b.activatedAt.Some? ==> b.approvedBy.Some?)
    && (b.status.Active? || b.status.Retired? ==> b.activatedAt.Some?)
  }

  /** The row keeps its creator, and approvals and activations it had when it was loaded. */
  ghost predicate Since(bundles: seq<L.Bundle>, f: Found) {
    && f.k < |bundles| && bundles[f.k].createdBy == f.seen.createdBy && ApprovalOk(f.seen)
    && (f.seen.approvedBy.Some? ==> bundles[f.k].approvedBy.Some?)
    && (f.seen.activatedAt.Some? ==> bundles[f.k].activatedAt.Some?)
  }

  ghost predicate PhaseOk(bundles: seq<L.Bundle>, p: Phase) {
    match p
    case Loaded(op, seen) => Since(bundles, Found(op.k, seen)) && Accepts(seen, op)
    case Moving(_) => true
    case Enforcing(c, seen) => Since(bundles, Found(c.seen.bundle, seen)) && seen.status.Approved?
    case Looked(own, active, _) =>
      && Since(bundles, own) && own.seen.approvedBy.Some? && !own.seen.status.Active?
      && (active.Some? ==> Since(bundles, active.value) && active.value.seen.status.Active?)
  }

  ghost predicate Approvals(s: State) {
    && (forall i :: 0 <= i < |s.bundles| ==> ApprovalOk(s.bundles[i]))
    && (forall h :: h in s.requests ==> PhaseOk(s.bundles, s.requests[h]))
  }

  /** No write changes a creator, or takes an approval or an activation back. */
  ghost predicate Grows(before: seq<L.Bundle>, after: seq<L.Bundle>) {
    && |before| <= |after|
    && forall i :: 0 <= i < |before| ==>
         && after[i].createdBy == before[i].createdBy
         && (before[i].approvedBy.Some? ==> after[i].approvedBy.Some?)
         && (before[i].activatedAt.Some? ==> after[i].activatedAt.Some?)
  }

  /** What may be written over a row loaded as f. */
  lemma WriteKeepsApproval(bundles: seq<L.Bundle>, f: Found, new': L.Bundle)
    requires (forall i :: 0 <= i < |bundles| ==> ApprovalOk(bundles[i])) && Since(bundles, f)
    requires new'.createdBy == f.seen.createdBy && ApprovalOk(new')
    requires (f.seen.approvedBy.Some? ==> new'.approvedBy.Some?) && (f.seen.activatedAt.Some? ==> new'.activatedAt.Some?)
    requires new'.status != f.seen.status
    ensures Grows(bundles, WriteBundle(bundles, f.k, f.seen, new'))
    ensures forall i :: 0 <= i < |bundles| ==> ApprovalOk(WriteBundle(bundles, f.k, f.seen, new')[i])
  {
    var row := PutBundle(bundles[f.k], f.seen, new');
    assert ApprovalOk(bundles[f.k]);
    assert ApprovalOk(row);
  }

  lemma GrowthKeepsPhase(before: seq<L.Bundle>, after: seq<L.Bundle>, p: Phase)
    requires PhaseOk(before, p) && Grows(before, after)
    ensures PhaseOk(after, p)
  {}

  lemma SwitchKeepsApprovals(bundles: seq<L.Bundle>, own: Found, active: Option<Found>, now: int)
    requires (forall i :: 0 <= i < |bundles| ==> ApprovalOk(bundles[i])) && Since(bundles, own) && own.seen.approvedBy.Some? && !own.seen.status.Active?
    requires active.Some? ==> Since(bundles, active.value) && active.value.seen.status.Active?
    ensures Grows(bundles, Switched(bundles, own, active, now))
    ensures forall i :: 0 <= i < |bundles| ==> ApprovalOk(Switched(bundles, own, active, now)[i])
  {
    if active.Some? && active.value.k != own.k {
      var f := active.value;
      WriteKeepsApproval(bundles, f, L.Retire(f.seen, now));
      var retired := WriteBundle(bundles, f.k, f.seen, L.Retire(f.seen, now));
      WriteKeepsApproval(retired, own, L.MadeActive(own.seen, now));
    } else {
      WriteKeepsApproval(bundles, own, L.MadeActive(own.seen, now));
    }
  }

  lemma CommitKeepsApprovals(bundles: seq<L.Bundle>, p: Phase, now: int)
    requires (forall i :: 0 <= i < |bundles| ==> ApprovalOk(bundles[i])) && PhaseOk(bundles, p)
    ensures Grows(bundles, BundlesAfter(bundles, p, now))
    ensures forall i :: 0 <= i < |bundles| ==> ApprovalOk(BundlesAfter(bundles, p, now)[i])
  {
    match p
    case Loaded(Submit(k), seen) => WriteKeepsApproval(bundles, Found(k, seen), seen.(status := L.Pending));
    case Loaded(Approve(k, subject, _), seen) =>
      WriteKeepsApproval(bundles, Found(k, seen), seen.(status := L.Approved, approvedBy := Some(subject)));
    case Looked(own, active, _) => SwitchKeepsApprovals(bundles, own, active, now);
    case _ =>
  }

  lemma FoundIsActive(bundles: seq<L.Bundle>)
    requires forall i :: 0 <= i < |bundles| ==> ApprovalOk(bundles[i])
    ensures FoundActive(bundles).Some? ==> Since(bundles, FoundActive(bundles).value) && FoundActive(bundles).value.seen.status.Active?
  {}

  lemma StepKeepsApprovals(s: State, step: Step)
    requires Approvals(s) && Enabled(s, step)
    ensures Approvals(Apply(s, step))
  {
    var t := Apply(s, step);
    if step.Commit? { CommitKeepsApprovals(s.bundles, s.requests[step.h], step.now); }
    assert Grows(s.bundles, t.bundles);
    forall h | h in t.requests ensures PhaseOk(t.bundles, t.requests[h]) {
      if h in s.requests && t.requests[h] == s.requests[h] {
        GrowthKeepsPhase(s.bundles, t.bundles, s.requests[h]);
      } else {
        NewPhaseOk(s, step);
      }
    }
  }

  /** The phase a request enters. */
  lemma NewPhaseOk(s: State, step: Step)
    requires Approvals(s) && Enabled(s, step) && (step.Load? || step.Fetch? || step.Check? || step.Look?)
    ensures PhaseOk(s.bundles, Apply(s, step).requests[step.h])
  {
    if step.Look? {
      FoundIsActive(s.bundles);
      assert PhaseOk(s.bundles, s.requests[step.h]);
    }
  }

  lemma {:induction false} RunKeepsApprovals(s: State, steps: seq<Step>, t: State, rule: Rule)
    requires Approvals(s) && Exec(s, steps, rule) == Some(t)
    ensures Approvals(t)
    decreases |steps|
  {
    if steps != [] {
      StepKeepsApprovals(s, steps[0]);
      RunKeepsApprovals(Apply(s, steps[0]), steps[1..], t, rule);
    }
  }

  /** Over every run, however requests overlap: a bundle that was ever active has been approved by another identity, or in development. */
  lemma ActiveMeansApproved(steps: seq<Step>, t: State, i: nat)
    requires Exec(Empty(), steps, Free) == Some(t) && i < |t.bundles| && t.bundles[i].activatedAt.Some?
    ensures t.bundles[i].approvedBy.Some?
    ensures t.bundles[i].approvedBy.value != t.bundles[i].createdBy || t.bundles[i].approvedBy.value == "development"
  {
    RunKeepsApprovals(Empty(), steps, t, Free);
    assert ApprovalOk(t.bundles[i]);
  }

  // ---------------------------------------------------------------- one active bundle

  ghost predicate OneActive(bundles: seq<L.Bundle>) {
    forall i, j :: 0 <= i < |bundles| && 0 <= j < |bundles| && bundles[i].status.Active? && bundles[j].status.Active? ==> i == j
  }

  /** Requests write over rows that were not active; only the bundle a request looked up can be active. */
  ghost predicate LookedOk(bundles: seq<L.Bundle>, p: Phase) {
    match p
    case Loaded(op, seen) => op.k < |bundles| && Accepts(seen, op)
    case Moving(_) => true
    case Enforcing(c, seen) => c.seen.bundle < |bundles| && seen.status.Approved?
    case Looked(own, active, _) =>
      && own.k < |bundles| && !own.seen.status.Active?
      && (active.Some? ==> active.value.k < |bundles| && active.value.seen.status.Active?)
      && forall i :: 0 <= i < |bundles| && bundles[i].status.Active? ==> active.Some? && active.value.k == i
  }

  ghost predicate Inv(s: State) {
    && OneActive(s.bundles)
    && (forall h :: h in s.requests ==> LookedOk(s.bundles, s.requests[h]))
    && (forall g, h :: g in s.requests && h in s.requests && s.requests[g].Looked? && s.requests[h].Looked? ==> g == h)
  }

  /** After the switch only the request's own bundle is active. */
  lemma SwitchLeavesOne(bundles: seq<L.Bundle>, own: Found, active: Option<Found>, moving: Option<Change>, now: int, i: nat)
    requires LookedOk(bundles, Looked(own, active, moving)) && i < |bundles| && Switched(bundles, own, active, now)[i].status.Active?
    ensures i == own.k
  {}

  /** Submitting and approving make no bundle active. */
  lemma OthersActivateNone(bundles: seq<L.Bundle>, p: Phase, now: int, i: nat)
    requires LookedOk(bundles, p) && !p.Looked? && (p.Loaded? ==> !Activates(p.op))
    requires i < |bundles| && BundlesAfter(bundles, p, now)[i].status.Active?
    ensures bundles[i].status.Active?
  {}

  /** What a request looked up stays right while no bundle becomes active. */
  lemma LookedStays(before: seq<L.Bundle>, after: seq<L.Bundle>, q: Phase)
    requires LookedOk(before, q) && |after| == |before|
    requires q.Looked? ==> forall i :: 0 <= i < |after| && after[i].status.Active? ==> before[i].status.Active?
    ensures LookedOk(after, q)
  {}

  lemma CommitKeepsInv(s: State, h: nat, now: int)
    requires Inv(s) && Enabled(s, Commit(h, now))
    ensures Inv(Apply(s, Commit(h, now)))
  {
    var t := Apply(s, Commit(h, now));
    var p := s.requests[h];
    assert LookedOk(s.bundles, p);
    if t.bundles == s.bundles {
    } else if p.Looked? {
      forall i | 0 <= i < |t.bundles| && t.bundles[i].status.Active? ensures i == p.own.k {
        SwitchLeavesOne(s.bundles, p.own, p.active, p.moving, now, i);
      }
    } else {
      forall i | 0 <= i < |t.bundles| && t.bundles[i].status.Active? ensures s.bundles[i].status.Active? {
        OthersActivateNone(s.bundles, p, now, i);
      }
    }
    forall g | g in t.requests ensures LookedOk(t.bundles, t.requests[g]) {
      LookedStays(s.bundles, t.bundles, s.requests[g]);
    }
  }

  lemma StepKeepsInv(s: State, step: Step)
    requires Inv(s) && Enabled(s, step) && !ActivationsOverlap(s, step)
    ensures Inv(Apply(s, step))
  {
    match step
    case Commit(h, now) => CommitKeepsInv(s, h, now);
    case Look(h) => assert LookedOk(s.bundles, s.requests[h]);
    case _ =>
  }

  lemma {:induction false} RunKeepsInv(s: State, steps: seq<Step>, t: State)
    requires Inv(s) && Exec(s, steps, ActivationsApart) == Some(t)
    ensures Inv(t)
    decreases |steps|
  {
    if steps != [] {
      StepKeepsInv(s, steps[0]);
      RunKeepsInv(Apply(s, steps[0]), steps[1..], t);
    }
  }

  /** In every run in which no two activations overlap, at most one bundle is active; all else may overlap at will. */
  lemma OneActiveApart(steps: seq<Step>, t: State, i: nat, j: nat)
    requires Exec(Empty(), steps, ActivationsApart) == Some(t)
    requires i < j < |t.bundles|
    ensures !(t.bundles[i].status.Active? && t.bundles[j].status.Active?)
  {
    RunKeepsInv(Empty(), steps, t);
  }

  // ---------------------------------------------------------------- two activations together

  /** Two activations that both looked before either commits: exactly their own bundles are active afterwards. */
  lemma ActiveAfterBoth(bundles: seq<L.Bundle>, j: nat, k: nat, now1: int, now2: int, i: nat)
    requires OneActive(bundles) && j < |bundles| && k < |bundles| && !bundles[j].status.Active? && !bundles[k].status.Active?
    requires i < |bundles|
    ensures var a := FoundActive(bundles);
      Switched(Switched(bundles, Found(j, bundles[j]), a, now1), Found(k, bundles[k]), a, now2)[i].status.Active? <==> i == j || i == k
  {
    assert L.FirstActive(bundles).Some? ==> bundles[L.FirstActive(bundles).value].status.Active?;
  }

  lemma {:induction false} OneMore(s: State, steps: seq<Step>, t: State, step: Step)
    requires Exec(s, steps, Free) == Some(t) && Enabled(t, step)
    ensures Exec(s, steps + [step], Free) == Some(Apply(t, step))
    decreases |steps|
  {
    if steps == [] {
      assert [step][1..] == [];
    } else {
      OneMore(Apply(s, steps[0]), steps[1..], t, step);
      assert (steps + [step])[1..] == steps[1..] + [step];
    }
  }

  /** The condition cannot be dropped: wherever two bundles are approved, activating both side by side leaves both active. */
  lemma TwoWhenOverlapping(s: State, j: nat, k: nat, now: int, g: nat, h: nat) returns (steps: seq<Step>, t: State)
    requires OneActive(s.bundles) && j != k && j < |s.bundles| && k < |s.bundles|
    requires s.bundles[j].status.Approved? && s.bundles[k].status.Approved?
    requires g != h && g !in s.requests && h !in s.requests
    ensures Exec(s, steps, Free) == Some(t)
    ensures |t.bundles| == |s.bundles| && t.bundles[j].status.Active? && t.bundles[k].status.Active?
  {
    steps, t := [], s;
    OneMore(s, steps, t, Load(g, Activate(j)));  steps, t := steps + [Load(g, Activate(j))], Apply(t, Load(g, Activate(j)));
    OneMore(s, steps, t, Load(h, Activate(k)));  steps, t := steps + [Load(h, Activate(k))], Apply(t, Load(h, Activate(k)));
    OneMore(s, steps, t, Look(g));               steps, t := steps + [Look(g)], Apply(t, Look(g));
    OneMore(s, steps, t, Look(h));               steps, t := steps + [Look(h)], Apply(t, Look(h));
    OneMore(s, steps, t, Commit(g, now));        steps, t := steps + [Commit(g, now)], Apply(t, Commit(g, now));
    OneMore(s, steps, t, Commit(h, now));        steps, t := steps + [Commit(h, now)], Apply(t, Commit(h, now));
    ActiveAfterBoth(s.bundles, j, k, now, now, j);
    ActiveAfterBoth(s.bundles, j, k, now, now, k);
  }
}
