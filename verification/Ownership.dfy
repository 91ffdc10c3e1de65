/**
 An ownership campaign: launched with one assignment per asset, attested and remediated by requests that load an
 assignment, commit it, and then look whether the campaign is done.
 */
module Ownership {
  import opened Options

  datatype Status = Pending | RemediationRequired | Attested | Resolved

  datatype Campaign = Draft | Active | Completed

  predicate Open(s: Status) { s.Pending? || s.RemediationRequired? }

  predicate AnyOpen(assignments: seq<Status>) {
    assignments != [] && (Open(assignments[|assignments| - 1]) || AnyOpen(assignments[..|assignments| - 1]))
  }

  lemma {:induction false} AnyOpenIs(assignments: seq<Status>)
    ensures AnyOpen(assignments) <==> exists i :: 0 <= i < |assignments| && Open(assignments[i])
  {
    if assignments != [] {
      var front := assignments[..|assignments| - 1];
      AnyOpenIs(front);
      assert forall i :: 0 <= i < |front| ==> front[i] == assignments[i];
    }
  }

  /** What a request asks of an assignment. */
  datatype Request = Confirm | Reject | Resolve

  /** The status the request needs to see, and the one it writes. */
  predicate Accepts(r: Request, seen: Status) {
    match r
    case Confirm => Open(seen)
    case Reject => Open(seen)
    case Resolve => seen.RemediationRequired?
  }

  function Written(r: Request): Status {
    match r
    case Confirm => Attested
    case Reject => RemediationRequired
    case Resolve => Resolved
  }

  /** The status column after the commit: it is written only when the request changes the status it loaded. */
  function Stored(r: Request, seen: Status, current: Status): Status { if Written(r) == seen then current else Written(r) }

  // ---------------------------------------------------------------- the rows as an object

  class CampaignRows {
    var campaign: Campaign
    var assignments: seq<Status>

    constructor ()
      ensures campaign == Draft && assignments == []
    {
      campaign, assignments := Draft, [];
    }

    /** launch_campaign: one pending assignment for each asset the scope matches, up to a limit. */
    method Launch(assets: nat, maxAssets: nat, expired: bool) returns (launched: bool)
      modifies this
      ensures launched == (old(campaign).Draft? && !expired && 1 <= maxAssets <= 100_000 && assets > 0)
      ensures campaign == (if launched then Active else old(campaign))
      ensures launched ==> |assignments| == |old(assignments)| + (if assets < maxAssets then assets else maxAssets)
      ensures launched ==> old(assignments) <= assignments && forall i :: |old(assignments)| <= i < |assignments| ==> assignments[i].Pending?
      ensures !launched ==> assignments == old(assignments)
    {
      launched := campaign.Draft? && !expired && 1 <= maxAssets <= 100_000 && assets > 0;
      if !launched { return; }
      var n := if assets < maxAssets then assets else maxAssets;
      for k := 0 to n
        invariant |assignments| == |old(assignments)| + k && campaign == old(campaign)
        invariant old(assignments) <= assignments
        invariant forall i :: |old(assignments)| <= i < |assignments| ==> assignments[i].Pending?
      {
        assignments := assignments + [Pending];
      }
      campaign := Active;
    }

    /** attest_assignment and resolve_remediation, with the status as it was loaded. */
    method Change(i: nat, r: Request, seen: Status) returns (accepted: bool)
      requires i < |assignments|
      modifies this`assignments
      ensures accepted == Accepts(r, seen)
      ensures accepted <==> if r == Resolve then seen == RemediationRequired else seen in {Pending, RemediationRequired}
      ensures |assignments| == |old(assignments)|
      ensures accepted ==>
        var status := if r == Confirm then Attested else if r == Reject then RemediationRequired else Resolved;
        assignments[i] == if status == seen then old(assignments)[i] else status
      ensures assignments == if accepted then old(assignments)[i := Stored(r, seen, old(assignments)[i])] else old(assignments)
    {
      accepted := match r { case Resolve => seen.RemediationRequired? case _ => seen.Pending? || seen.RemediationRequired? };
      if !accepted { return; }
      var status := match r { case Confirm => Attested case Reject => RemediationRequired case Resolve => Resolved };
      if status != seen { assignments := assignments[i := status]; }
    }

    method CompleteIfReady()
      modifies this`campaign
      ensures campaign == if !AnyOpen(assignments) && old(campaign).Active? then Completed else old(campaign)
    {
      if AnyOpen(assignments) { return; }
      if campaign.Active? { campaign := Completed; }
    }
  }

  // ---------------------------------------------------------------- requests side by side

  /** A request that loaded the draft, one after loading its assignment, after committing it, and after finding nothing open. */
  datatype Phase = Launching | Loaded(i: nat, seen: Status) | Committed | Clear

  /** The assignment is committed and the campaign still to be looked at. */
  predicate Finishing(p: Phase) { p.Committed? || p.Clear? }

  /** `lost` says that a request died between committing its assignment and completing the campaign. */
  datatype State = State(campaign: Campaign, assignments: seq<Status>, requests: map<nat, Phase>, lost: bool)

  datatype Step =
    | LoadDraft(h: nat)
    | Launch(h: nat, count: nat)
    | Load(h: nat, i: nat)
    | Write(h: nat, request: Request)
    | Refuse(h: nat)
    | Check(h: nat)
    | Complete(h: nat)
    | Crash(h: nat)

  predicate Enabled(s: State, step: Step) {
    match step
    case LoadDraft(h) => h !in s.requests && s.campaign.Draft?
    case Launch(h, count) => h in s.requests && s.requests[h].Launching? && count >= 1
    case Load(h, i) => h !in s.requests && i < |s.assignments|
    case Write(h, r) => h in s.requests && s.requests[h].Loaded? && s.requests[h].i < |s.assignments| && Accepts(r, s.requests[h].seen)
    case Refuse(h) => h in s.requests && (s.requests[h].Loaded? || s.requests[h].Launching?)
    case Check(h) => h in s.requests && s.requests[h].Committed?
    case Complete(h) => h in s.requests && s.requests[h].Clear?
    case Crash(h) => h in s.requests
  }

  function AllPending(count: nat): (r: seq<Status>)
    ensures |r| == count && forall i :: 0 <= i < count ==> r[i].Pending?
  {
    if count == 0 then [] else AllPending(count - 1) + [Pending]
  }

  function Leave(s: State, h: nat): State { s.(requests := s.requests - {h}) }

  function Apply(s: State, step: Step): State
    requires Enabled(s, step)
  {
    match step
    case LoadDraft(h) => s.(requests := s.requests[h := Launching])
    case Launch(h, count) => Leave(s, h).(campaign := Active, assignments := s.assignments + AllPending(count))
    case Load(h, i) => s.(requests := s.requests[h := Loaded(i, s.assignments[i])])
    case Write(h, r) =>
      var i := s.requests[h].i;
      s.(assignments := s.assignments[i := Stored(r, s.requests[h].seen, s.assignments[i])], requests := s.requests[h := Committed])
    case Refuse(h) => Leave(s, h)
    case Check(h) => if AnyOpen(s.assignments) then Leave(s, h) else s.(requests := s.requests[h := Clear])
    case Complete(h) => Leave(s, h).(campaign := if s.campaign.Active? then Completed else s.campaign)
    case Crash(h) => Leave(s, h).(lost := s.lost || Finishing(s.requests[h]))
  }

  /** A rejection of an assignment that was pending when loaded and has been closed since. */
  predicate Reopens(s: State, step: Step)
    requires Enabled(s, step)
  {
    step.Write? && step.request.Reject? && s.requests[step.h].seen.Pending? && !Open(s.assignments[s.requests[step.h].i])
  }

  /** Some request has found nothing open and is about to complete the campaign. */
  ghost predicate SomeClear(requests: map<nat, Phase>) { exists h :: h in requests && requests[h].Clear? }

  /** It comes too late: the campaign is completed, or a request is about to complete it; so does a launch in the latter case. */
  ghost predicate TooLate(s: State, step: Step)
    requires Enabled(s, step)
  {
    (Reopens(s, step) && (s.campaign.Completed? || SomeClear(s.requests))) || (step.Launch? && SomeClear(s.requests))
  }

  /** The state after a run; with `timely`, no rejection or launch comes too late. */
  ghost function Exec(s: State, steps: seq<Step>, timely: bool): Option<State>
    decreases |steps|
  {
    if steps == [] then Some(s)
    else if Enabled(s, steps[0]) && (timely ==> !TooLate(s, steps[0])) then Exec(Apply(s, steps[0]), steps[1..], timely)
    else None
  }

  ghost predicate Inv(s: State) {
    && (s.campaign.Draft? <==> s.assignments == [])
    && (s.campaign.Draft? ==> forall h :: h in s.requests ==> s.requests[h].Launching?)
    && (s.campaign.Completed? ==> !AnyOpen(s.assignments))
    && (forall h :: h in s.requests && s.requests[h].Clear? ==> !AnyOpen(s.assignments))
    && (s.campaign.Active? && !AnyOpen(s.assignments) && !s.lost ==> exists h :: h in s.requests && Finishing(s.requests[h]))
  }

  /** A write opens an assignment of a campaign with nothing open exactly when it is such a rejection. */
  lemma OpensIffReopens(s: State, step: Step)
    requires Enabled(s, step) && !AnyOpen(s.assignments) && !step.Launch?
    ensures AnyOpen(Apply(s, step).assignments) <==> Reopens(s, step)
  {
    var t := Apply(s, step);
    AnyOpenIs(s.assignments);
    AnyOpenIs(t.assignments);
    if step.Write? {
      var i := s.requests[step.h].i;
      assert !Open(s.assignments[i]);
      assert t.assignments[i] == Stored(step.request, s.requests[step.h].seen, s.assignments[i]);
      assert forall k :: 0 <= k < |t.assignments| && k != i ==> t.assignments[k] == s.assignments[k];
    }
  }

  lemma TimelyWriteKeepsInv(s: State, step: Step)
    requires Inv(s) && Enabled(s, step) && step.Write? && !TooLate(s, step)
    ensures Inv(Apply(s, step))
  {
    var t := Apply(s, step);
    AnyOpenIs(s.assignments);
    AnyOpenIs(t.assignments);
    assert step.h in t.requests && Finishing(t.requests[step.h]);
    assert forall g :: g in t.requests && t.requests[g].Clear? ==> g in s.requests && s.requests[g].Clear?;
    if !AnyOpen(s.assignments) { OpensIffReopens(s, step); }
  }

  lemma OtherStepKeepsInv(s: State, step: Step)
    requires Inv(s) && Enabled(s, step) && !step.Write? && !TooLate(s, step)
    ensures Inv(Apply(s, step))
  {
    var t := Apply(s, step);
    AnyOpenIs(s.assignments);
    AnyOpenIs(t.assignments);
    match step
    case Launch(h, count) =>
      assert Open(t.assignments[|s.assignments|]);
      assert forall g :: g in t.requests && t.requests[g].Clear? ==> g in s.requests && s.requests[g].Clear?;
    case LoadDraft(h) => assert forall g :: g in s.requests ==> g in t.requests && t.requests[g] == s.requests[g];
    case Check(h) => assert AnyOpen(s.assignments) || (h in t.requests && Finishing(t.requests[h]));
    case Load(h, i) => assert forall g :: g in s.requests ==> g in t.requests && t.requests[g] == s.requests[g];
    case Refuse(h) => assert forall g :: g in s.requests && g != h ==> g in t.requests && t.requests[g] == s.requests[g];
    case Crash(h) => assert forall g :: g in s.requests && g != h ==> g in t.requests && t.requests[g] == s.requests[g];
    case Complete(_) =>
  }

  /** A launch leaves something open. */
  lemma LaunchOpens(s: State, step: Step)
    requires Enabled(s, step) && step.Launch?
    ensures Apply(s, step).campaign.Active? && AnyOpen(Apply(s, step).assignments)
  {
    AnyOpenIs(Apply(s, step).assignments);
    assert Open(Apply(s, step).assignments[|s.assignments|]);
  }

  /** A step keeps the invariant exactly when it is not a rejection or a launch that comes too late. */
  lemma KeptIffTimely(s: State, step: Step)
    requires Inv(s) && Enabled(s, step)
    ensures Inv(Apply(s, step)) <==> !TooLate(s, step)
  {
    if TooLate(s, step) {
      var t := Apply(s, step);
      if step.Launch? { LaunchOpens(s, step); } else { OpensIffReopens(s, step); }
      if g :| g in s.requests && s.requests[g].Clear? { assert g != step.h && t.requests[g].Clear?; }
    } else if step.Write? {
      TimelyWriteKeepsInv(s, step);
    } else {
      OtherStepKeepsInv(s, step);
    }
  }

  /** Such a step leaves a completed campaign with an open assignment, at once or when the request under way completes it. */
  lemma TooLateReopens(s: State, step: Step)
    requires Inv(s) && Enabled(s, step) && TooLate(s, step)
    ensures var t := Apply(s, step);
      || (t.campaign.Completed? && AnyOpen(t.assignments))
      || exists g :: Enabled(t, Complete(g)) && Apply(t, Complete(g)).campaign.Completed? && AnyOpen(Apply(t, Complete(g)).assignments)
  {
    var t := Apply(s, step);
    if step.Launch? { LaunchOpens(s, step); } else { OpensIffReopens(s, step); }
    if step.Launch? || !s.campaign.Completed? {
      var g :| g in s.requests && s.requests[g].Clear?;
      assert g != step.h && Enabled(t, Complete(g));
      assert Apply(t, Complete(g)).campaign.Completed?;
    }
  }

  /**
   While no rejection or launch comes too late: a completed campaign has nothing open, and an active one with nothing open is about
   to be completed by a request under way, unless one died before it could.
   */
  lemma {:induction false} RunKeepsInv(s: State, steps: seq<Step>, t: State)
    requires Inv(s) && Exec(s, steps, true) == Some(t)
    ensures Inv(t)
    decreases |steps|
  {
    if steps != [] {
      KeptIffTimely(s, steps[0]);
      RunKeepsInv(Apply(s, steps[0]), steps[1..], t);
    }
  }

  /** A campaign not launched yet. */
  function Drafted(): State { State(Draft, [], map[], false) }

  /** From a draft, over every run in which no rejection or launch comes too late. */
  lemma EveryTimelyRun(steps: seq<Step>, t: State)
    requires Exec(Drafted(), steps, true) == Some(t)
    ensures t.campaign.Completed? ==> !AnyOpen(t.assignments)
    ensures t.campaign.Active? && t.requests == map[] && !t.lost ==> AnyOpen(t.assignments)
  {
    RunKeepsInv(Drafted(), steps, t);
  }

  /** When no request is under way and none died, the campaign is completed exactly when nothing is open. */
  lemma QuietMeansSettled(s: State)
    requires Inv(s) && s.requests == map[] && !s.lost && !s.campaign.Draft?
    ensures s.campaign.Completed? <==> !AnyOpen(s.assignments)
  {}

  /** A launch leaves exactly its own assignments exactly when no other launch was committed since it loaded the draft. */
  lemma LaunchesOnce(s: State, h: nat, count: nat)
    requires Inv(s) && Enabled(s, Launch(h, count))
    ensures Apply(s, Launch(h, count)).assignments == AllPending(count) <==> s.campaign.Draft?
  {
    if s.campaign.Draft? { assert s.assignments + AllPending(count) == AllPending(count); }
    if !s.campaign.Draft? { assert |s.assignments + AllPending(count)| > count; }
  }

  // ---------------------------------------------------------------- a write that comes too late

  lemma {:induction false} OneMore(s: State, steps: seq<Step>, t: State, step: Step)
    requires Exec(s, steps, false) == Some(t) && Enabled(t, step)
    ensures Exec(s, steps + [step], false) == Some(Apply(t, step))
    decreases |steps|
  {
    if steps == [] {
      assert [step][1..] == [];
    } else {
      OneMore(Apply(s, steps[0]), steps[1..], t, step);
      assert (steps + [step])[1..] == steps[1..] + [step];
    }
  }

  /** A set of states that no step leaves. */
  ghost predicate Closed(p: State -> bool) {
    forall t, step :: p(t) && Enabled(t, step) ==> p(Apply(t, step))
  }

  lemma BothLoaded(p: State -> bool) returns (t: State)
    requires Closed(p) && p(Drafted())
    ensures p(t) && t.campaign.Active? && t.assignments == [Pending] && t.requests.Keys == {1, 2}
    ensures t.requests[1] == Loaded(0, Pending) && t.requests[2] == Loaded(0, Pending)
  {
    t := Drafted();
    assert AllPending(1) == [Pending];
    assert Enabled(t, LoadDraft(1));          t := Apply(t, LoadDraft(1));
    assert Enabled(t, Launch(1, 1));          t := Apply(t, Launch(1, 1));
    assert t.requests == map[] && t.assignments == [Pending];
    assert Enabled(t, Load(1, 0));            t := Apply(t, Load(1, 0));
    assert Enabled(t, Load(2, 0));            t := Apply(t, Load(2, 0));
  }

  lemma FirstCompletes(p: State -> bool, s: State) returns (t: State)
    requires Closed(p) && p(s) && s.campaign.Active? && s.assignments == [Pending] && s.requests.Keys == {1, 2}
    requires s.requests[1] == Loaded(0, Pending) && s.requests[2] == Loaded(0, Pending)
    ensures p(t) && t.campaign.Completed? && t.assignments == [Attested]
    ensures 2 in t.requests && t.requests[2] == Loaded(0, Pending)
  {
    t := s;
    assert Enabled(t, Write(1, Confirm));     t := Apply(t, Write(1, Confirm));
    assert t.assignments == [Attested] && t.requests[1] == Committed;
    AnyOpenIs(t.assignments);
    assert Enabled(t, Check(1));              t := Apply(t, Check(1));
    assert t.requests[1] == Clear;
    assert Enabled(t, Complete(1));           t := Apply(t, Complete(1));
  }

  lemma LateRun(p: State -> bool) returns (t: State)
    requires Closed(p) && p(Drafted())
    ensures p(t) && t.campaign.Completed? && t.assignments == [RemediationRequired]
  {
    t := BothLoaded(p);
    t := FirstCompletes(p, t);
    assert Enabled(t, Write(2, Reject));      t := Apply(t, Write(2, Reject));
  }

  /**
   Such a rejection can happen: two requests load the same last assignment, the first confirms it and completes the
   campaign, the second rejects it, and the completed campaign has an open assignment.
   */
  lemma LateWriteReopens() returns (steps: seq<Step>, t: State)
    ensures Inv(Drafted()) && Exec(Drafted(), steps, false) == Some(t)
    ensures t.campaign.Completed? && AnyOpen(t.assignments)
  {
    var s := Drafted();
    var reached := (u: State) => exists xs :: Exec(s, xs, false) == Some(u);
    assert Exec(s, [], false) == Some(s);
    forall u, step | reached(u) && Enabled(u, step) ensures reached(Apply(u, step)) {
      var xs :| Exec(s, xs, false) == Some(u);
      OneMore(s, xs, u, step);
    }
    t := LateRun(reached);
    AnyOpenIs(t.assignments);
    assert Open(t.assignments[0]);
    steps :| Exec(s, steps, false) == Some(t);
  }

  lemma TwoLaunches(p: State -> bool, count: nat) returns (t: State)
    requires count >= 1 && Closed(p) && p(Drafted())
    ensures p(t) && t.campaign.Active? && t.assignments == AllPending(count) + AllPending(count)
  {
    t := Drafted();
    assert Enabled(t, LoadDraft(1));          t := Apply(t, LoadDraft(1));
    assert Enabled(t, LoadDraft(2));          t := Apply(t, LoadDraft(2));
    assert Enabled(t, Launch(1, count));      t := Apply(t, Launch(1, count));
    assert t.assignments == AllPending(count);
    assert Enabled(t, Launch(2, count));      t := Apply(t, Launch(2, count));
  }

  /** Two launches that loaded the same draft leave two assignments for each asset. */
  lemma OverlappingLaunchesDuplicate(count: nat) returns (steps: seq<Step>, t: State)
    requires count >= 1
    ensures Exec(Drafted(), steps, false) == Some(t) && t.assignments == AllPending(count) + AllPending(count)
  {
    var s := Drafted();
    var reached := (u: State) => exists xs :: Exec(s, xs, false) == Some(u);
    assert Exec(s, [], false) == Some(s);
    forall u, step | reached(u) && Enabled(u, step) ensures reached(Apply(u, step)) {
      var xs :| Exec(s, xs, false) == Some(u);
      OneMore(s, xs, u, step);
    }
    t := TwoLaunches(reached, count);
    steps :| Exec(s, steps, false) == Some(t);
  }
}
